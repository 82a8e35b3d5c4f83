/** The wire format of libcrocofix/message.cpp: a restartable decoder of tag=value fields
    with length-prefixed data fields, and an encoder that rewrites BodyLength and CheckSum. */
module Codec {
  import opened Optional
  import opened Bytes
  import opened Fields

  /** What decode asks of the dictionary: looking up a tag that is not `known` throws; the
      tags in `data` are those whose value may contain separators. */
  datatype Dictionary = Dictionary(known: set<int>, data: set<int>)

  predicate Usable(dict: Dictionary) {
    CHECK_SUM in dict.known && CHECK_SUM !in dict.data && BODY_LENGTH !in dict.data
  }

  // --------------------------------------------------------------- decoding

  datatype FieldResult = NeedMore | Bad | Parsed(field: Field, size: nat)

  /** One field from the start of buf; prev are the fields already decoded. Bad is an
      exception in the source. */
  function ParseField(dict: Dictionary, prev: seq<Field>, buf: seq<byte>): (r: FieldResult)
    ensures r.Parsed? ==> 2 <= r.size <= |buf|
  {
    var e := Find(buf, EQUALS);
    if e == |buf| then NeedMore
    else
      var tag := FromChars(buf[..e]);
      if tag.None? || tag.value < 0 || tag.value !in dict.known || tag.value >= INT_LIMIT then Bad
      else if tag.value in dict.data then ParseData(prev, tag.value, buf, e)
      else
        var n := Find(buf[e + 1..], SOH);
        if n == |buf[e + 1..]| then NeedMore
        else Parsed(Field(tag.value, buf[e + 1..e + 1 + n]), e + n + 2)
  }

  /** A data field: its length is the number in the preceding field's value. */
  function ParseData(prev: seq<Field>, tag: Tag, buf: seq<byte>, e: nat): (r: FieldResult)
    requires e < |buf|
    ensures r.Parsed? ==> 2 <= r.size <= |buf|
  {
    if prev == [] then Bad
    else
      var length := Stoi(prev[|prev| - 1].value);
      if length.None? || length.value < 0 then Bad
      else
        var last := e + length.value + 1;
        if last >= |buf| then NeedMore
        else if buf[last] != SOH then Bad
        else Parsed(Field(tag, buf[e + 1..last]), last + 1)
  }

  /** The fields in buf after prev, up to and including the first CheckSum. `summed` is how
      many of the consumed bytes belong to the checksum. */
  datatype Scan = Scan(fields: seq<Field>, consumed: nat, summed: nat, complete: bool, bad: bool)

  function ScanFields(dict: Dictionary, prev: seq<Field>, buf: seq<byte>): (r: Scan)
    ensures r.summed <= r.consumed <= |buf|
    ensures r.complete ==> r.consumed > 0 && !r.bad
    ensures !r.complete ==> r.summed == r.consumed
    decreases |buf|
  {
    match ParseField(dict, prev, buf)
    case NeedMore => Scan(prev, 0, 0, false, false)
    case Bad => Scan(prev, 0, 0, false, true)
    case Parsed(f, n) =>
      if f.tag == CHECK_SUM then Scan(prev + [f], n, 0, true, false)
      else
        var r := ScanFields(dict, prev + [f], buf[n..]);
        Scan(r.fields, n + r.consumed, n + r.summed, r.complete, r.bad)
  }

  /** The decoding state of a message: its fields so far, and the checksum modulo 256 of the
      bytes that make them up, final once `valid`. */
  datatype Decoder = Decoder(fields: seq<Field>, checksum: nat, valid: bool)

  const FRESH := Decoder([], 0, false)

  datatype DecodeResult = Threw | Decoded(state: Decoder, consumed: nat, complete: bool)

  function Decode(dict: Dictionary, d: Decoder, buf: seq<byte>): (r: DecodeResult)
    ensures r.Decoded? ==> r.consumed <= |buf| && (r.complete ==> r.consumed > 0)
  {
    var r := ScanFields(dict, d.fields, buf);
    if r.bad then Threw
    else
      var sum := (d.checksum + Sum(buf[..r.summed])) % 256;
      Decoded(Decoder(r.fields, sum, d.valid || r.complete), r.consumed, r.complete)
  }

  // --------------------------------------------------------------- encoding

  function FieldBytes(f: Field): (r: seq<byte>)
    ensures |r| >= 3
  {
    Decimal(f.tag) + [EQUALS] + f.value + [SOH]
  }

  function Wire(fs: seq<Field>): seq<byte> {
    if fs == [] then [] else FieldBytes(fs[0]) + Wire(fs[1..])
  }

  /** The fields between the first BodyLength and the first CheckSum. */
  function Body(fs: seq<Field>): seq<Field> {
    var c := IndexOf(fs, CHECK_SUM);
    var b := IndexOf(fs, BODY_LENGTH);
    if b < c then fs[b + 1..c] else []
  }

  /** What calculate_body_length is to compute: the bytes the body takes on the wire. */
  function BodyLength(fs: seq<Field>): nat { |Wire(Body(fs))| }

  datatype Options = Options(setCheckSum: bool, setBodyLength: bool)

  const STANDARD := Options(true, true)

  /** The int sum of chars modulo 256 with the sign of the dividend; a negative remainder
      makes format_checksum throw. */
  predicate CheckSumFails(bytes: seq<byte>) { SignedSum(bytes) < 0 && SignedSum(bytes) % 256 != 0 }

  function CheckSumText(sum: nat): (r: seq<byte>)
    requires sum < 1000
    ensures |r| == 3 && AllDigits(r)
  {
    [48 + sum / 100, 48 + sum / 10 % 10, 48 + sum % 10]
  }

  function WithBodyLength(fs: seq<Field>, options: Options): seq<Field> {
    if options.setBodyLength then SetField(fs, Field(BODY_LENGTH, Decimal(BodyLength(fs))), ReplaceFirst) else fs
  }

  /** The fields ahead of the CheckSum that encode rewrites (all of them if it rewrites none). */
  function Head(fs: seq<Field>, options: Options): seq<Field> {
    var gs := WithBodyLength(fs, options);
    if options.setCheckSum then gs[..IndexOf(gs, CHECK_SUM)] else gs
  }

  predicate Rewrites(fs: seq<Field>, options: Options) {
    options.setCheckSum && Has(WithBodyLength(fs, options), CHECK_SUM)
  }

  predicate EncodeThrows(fs: seq<Field>, options: Options) {
    Rewrites(fs, options) && CheckSumFails(Wire(Head(fs, options)))
  }

  /** The fields a message goes out with: everything up to the rewritten CheckSum. */
  function Stamped(fs: seq<Field>, options: Options): seq<Field> {
    var head := Head(fs, options);
    if Rewrites(fs, options) then head + [Field(CHECK_SUM, CheckSumText(Sum(Wire(head)) % 256))] else head
  }

  function Encoding(fs: seq<Field>, options: Options): seq<byte> { Wire(Stamped(fs, options)) }
}
