/** What the codec guarantees on every input: decoding can be cut anywhere and restarted,
    decoding undoes encoding, encoding undoes decoding of canonical bytes, and everything
    encoded with the standard options passes the receiver's validation. */
module CodecTheorems {
  import opened Optional
  import opened Bytes
  import opened Fields
  import opened Codec

  // ---------------------------------------------------------- restartability

  lemma FindPrefix(a: seq<byte>, b: seq<byte>, x: byte)
    requires Find(a, x) < |a|
    ensures Find(a + b, x) == Find(a, x)
  {
    FindIs(a + b, x, Find(a, x));
  }

  /** A field that is there, or is malformed, stays so when more bytes arrive. */
  lemma ParseIsStable(dict: Dictionary, prev: seq<Field>, a: seq<byte>, b: seq<byte>)
    requires !ParseField(dict, prev, a).NeedMore?
    ensures ParseField(dict, prev, a + b) == ParseField(dict, prev, a)
  {
    hide Find, FromChars, Stoi;
    var e := Find(a, EQUALS);
    FindPrefix(a, b, EQUALS);
    assert (a + b)[..e] == a[..e];
    var tag := FromChars(a[..e]);
    if tag.Some? && 0 <= tag.value < INT_LIMIT && tag.value in dict.known {
      if tag.value in dict.data {
        if ParseData(prev, tag.value, a, e).Parsed? {
          var last := ParseData(prev, tag.value, a, e).size - 1;
          assert (a + b)[e + 1..last] == a[e + 1..last];
        }
      } else {
        var n := Find(a[e + 1..], SOH);
        assert (a + b)[e + 1..] == a[e + 1..] + b;
        FindPrefix(a[e + 1..], b, SOH);
        assert (a + b)[e + 1..e + 1 + n] == a[e + 1..e + 1 + n];
      }
    }
  }

  /** One step of a scan. */
  lemma ScanStep(dict: Dictionary, prev: seq<Field>, buf: seq<byte>)
    ensures var p := ParseField(dict, prev, buf);
            ScanFields(dict, prev, buf) ==
              if !p.Parsed? then Scan(prev, 0, 0, false, p.Bad?)
              else if p.field.tag == CHECK_SUM then Scan(prev + [p.field], p.size, 0, true, false)
              else
                var r := ScanFields(dict, prev + [p.field], buf[p.size..]);
                Scan(r.fields, p.size + r.consumed, p.size + r.summed, r.complete, r.bad)
  {
    hide ParseField;
  }

  /** Scanning a and then what was left of it followed by b scans a + b. */
  lemma {:induction false} ScanRestarts(dict: Dictionary, prev: seq<Field>, a: seq<byte>, b: seq<byte>)
    requires var r := ScanFields(dict, prev, a); !r.bad && !r.complete
    ensures var r := ScanFields(dict, prev, a);
            var s := ScanFields(dict, r.fields, a[r.consumed..] + b);
            ScanFields(dict, prev, a + b) ==
              Scan(s.fields, r.consumed + s.consumed, r.consumed + s.summed, s.complete, s.bad)
    decreases |a|
  {
    hide ParseField, ScanFields;
    var p := ParseField(dict, prev, a);
    ScanStep(dict, prev, a);
    if p.NeedMore? {
      assert a[0..] == a;
    } else {
      ParseIsStable(dict, prev, a, b);
      ScanStep(dict, prev, a + b);
      var n := p.size;
      ScanRestarts(dict, prev + [p.field], a[n..], b);
      var c := ScanFields(dict, prev + [p.field], a[n..]).consumed;
      assert (a + b)[n..] == a[n..] + b;
      assert a[n..][c..] == a[n + c..];
    }
  }

  function Shift(r: DecodeResult, c: nat): DecodeResult {
    if r.Threw? then Threw else r.(consumed := r.consumed + c)
  }

  /** Decoding is restartable: if decoding a stops short after c bytes, decoding the rest of
      a followed by b gives exactly what decoding a + b at once gives, wherever the cut is. */
  lemma DecodeRestarts(dict: Dictionary, d: Decoder, a: seq<byte>, b: seq<byte>)
    requires Decode(dict, d, a).Decoded? && !Decode(dict, d, a).complete
    ensures var r := Decode(dict, d, a);
            Decode(dict, d, a + b) == Shift(Decode(dict, r.state, a[r.consumed..] + b), r.consumed)
  {
    hide ScanFields, Sum;
    var r := ScanFields(dict, d.fields, a);
    ScanRestarts(dict, d.fields, a, b);
    var rest := a[r.consumed..] + b;
    var s := ScanFields(dict, r.fields, rest);
    if !s.bad {
      assert (a + b)[..r.consumed + s.summed] == a[..r.consumed] + rest[..s.summed];
      SumConcat(a[..r.consumed], rest[..s.summed]);
      var sum, more := d.checksum + Sum(a[..r.consumed]), Sum(rest[..s.summed]);
      CongruentSum(sum % 256, sum, more, more);
    }
  }

  /** Once complete, more bytes change nothing. */
  lemma {:induction false} ScanIsComplete(dict: Dictionary, prev: seq<Field>, a: seq<byte>, b: seq<byte>)
    requires ScanFields(dict, prev, a).complete || ScanFields(dict, prev, a).bad
    ensures ScanFields(dict, prev, a + b) == ScanFields(dict, prev, a)
    decreases |a|
  {
    hide ParseField;
    var p := ParseField(dict, prev, a);
    ParseIsStable(dict, prev, a, b);
    if p.Parsed? && p.field.tag != CHECK_SUM {
      assert (a + b)[p.size..] == a[p.size..] + b;
      ScanIsComplete(dict, prev + [p.field], a[p.size..], b);
    }
  }

  lemma DecodeIsComplete(dict: Dictionary, d: Decoder, a: seq<byte>, b: seq<byte>)
    requires Decode(dict, d, a).Threw? || Decode(dict, d, a).complete
    ensures Decode(dict, d, a + b) == Decode(dict, d, a)
  {
    hide ScanFields;
    var r := ScanFields(dict, d.fields, a);
    ScanIsComplete(dict, d.fields, a, b);
    assert (a + b)[..r.summed] == a[..r.summed];
  }

  // ----------------------------------------------------------------- streams

  /** The messages of a byte stream: decode, dispatch when complete, start afresh. */
  datatype Parse = Parse(messages: seq<Decoder>, partial: Decoder, consumed: nat, failed: bool)

  function ParseStream(dict: Dictionary, d: Decoder, buf: seq<byte>): (r: Parse)
    ensures r.consumed <= |buf|
    decreases |buf|
  {
    match Decode(dict, d, buf)
    case Threw => Parse([], FRESH, 0, true)
    case Decoded(d1, n, complete) =>
      if !complete then Parse([], d1, n, false)
      else
        var r := ParseStream(dict, FRESH, buf[n..]);
        Parse([d1] + r.messages, r.partial, n + r.consumed, r.failed)
  }

  /** Equal, except that nothing is said about what is left of a stream that failed. */
  predicate SameParse(r: Parse, s: Parse) {
    r.messages == s.messages && r.failed == s.failed && (!r.failed ==> r == s)
  }

  function Prepend(messages: seq<Decoder>, c: nat, r: Parse): Parse {
    Parse(messages + r.messages, r.partial, c + r.consumed, r.failed)
  }

  /** One message of a stream. */
  lemma ParseStep(dict: Dictionary, d: Decoder, buf: seq<byte>)
    ensures var r := Decode(dict, d, buf);
            ParseStream(dict, d, buf) ==
              if r.Threw? then Parse([], FRESH, 0, true)
              else if !r.complete then Parse([], r.state, r.consumed, false)
              else Prepend([r.state], r.consumed, ParseStream(dict, FRESH, buf[r.consumed..]))
  {
    hide Decode;
  }

  /** A stream can be cut anywhere: parsing what was left over, followed by what arrives
      later, continues the parse of the whole. */
  lemma {:induction false} StreamRestarts(dict: Dictionary, d: Decoder, a: seq<byte>, b: seq<byte>)
    requires !ParseStream(dict, d, a).failed
    ensures var r := ParseStream(dict, d, a);
            var s := ParseStream(dict, r.partial, a[r.consumed..] + b);
            SameParse(ParseStream(dict, d, a + b), Prepend(r.messages, r.consumed, s))
    decreases |a|
  {
    hide Decode, ParseStream;
    var p := Decode(dict, d, a);
    ParseStep(dict, d, a);
    if p.complete {
      DecodeIsComplete(dict, d, a, b);
      ParseStep(dict, d, a + b);
      assert (a + b)[p.consumed..] == a[p.consumed..] + b;
      StreamRestarts(dict, FRESH, a[p.consumed..], b);
      var r := ParseStream(dict, FRESH, a[p.consumed..]);
      assert a[p.consumed..][r.consumed..] == a[p.consumed + r.consumed..];
      var s := ParseStream(dict, r.partial, a[p.consumed + r.consumed..] + b);
      assert [p.state] + (r.messages + s.messages) == ([p.state] + r.messages) + s.messages;
    } else {
      PartialRestarts(dict, d, a, b);
    }
  }

  lemma PartialRestarts(dict: Dictionary, d: Decoder, a: seq<byte>, b: seq<byte>)
    requires Decode(dict, d, a).Decoded? && !Decode(dict, d, a).complete
    ensures var p := Decode(dict, d, a);
            var r := ParseStream(dict, p.state, a[p.consumed..] + b);
            SameParse(ParseStream(dict, d, a + b), Prepend([], p.consumed, r))
  {
    hide Decode, ParseStream;
    var p := Decode(dict, d, a);
    DecodeRestarts(dict, d, a, b);
    var rest := a[p.consumed..] + b;
    ParseStep(dict, d, a + b);
    ParseStep(dict, p.state, rest);
    var q := Decode(dict, p.state, rest);
    if q.Decoded? && q.complete {
      assert (a + b)[p.consumed + q.consumed..] == rest[q.consumed..];
    }
  }

  // -------------------------------------------------------------- round trip

  /** f can be told apart on the wire after prev. */
  predicate Readable(dict: Dictionary, prev: seq<Field>, f: Field) {
    && f.tag in dict.known
    && if f.tag in dict.data then prev != [] && Stoi(prev[|prev| - 1].value) == Some(|f.value|) else SOH !in f.value
  }

  predicate AllReadable(dict: Dictionary, prev: seq<Field>, fs: seq<Field>)
    decreases |fs|
  {
    fs == [] || (Readable(dict, prev, fs[0]) && AllReadable(dict, prev + [fs[0]], fs[1..]))
  }

  /** The tag's text ends at the first equals sign. */
  lemma FindTagEnd(f: Field, rest: seq<byte>)
    ensures var buf, e := FieldBytes(f) + rest, |Decimal(f.tag)|;
            Find(buf, EQUALS) == e && buf[..e] == Decimal(f.tag) && buf[e + 1..] == f.value + ([SOH] + rest)
  {
    var buf, e := FieldBytes(f) + rest, |Decimal(f.tag)|;
    assert buf == Decimal(f.tag) + ([EQUALS] + (f.value + ([SOH] + rest)));
    FindIs(buf, EQUALS, e);
  }

  /** Decoding one encoded field gives it back. */
  lemma ParseEncoded(dict: Dictionary, prev: seq<Field>, f: Field, rest: seq<byte>)
    requires Readable(dict, prev, f)
    ensures ParseField(dict, prev, FieldBytes(f) + rest) == Parsed(f, |FieldBytes(f)|)
  {
    hide Find, FromChars, Stoi, Decimal;
    var buf, e := FieldBytes(f) + rest, |Decimal(f.tag)|;
    FindTagEnd(f, rest);
    ReadDecimal(f.tag);
    var tail := f.value + ([SOH] + rest);
    assert tail[|f.value|] == SOH && tail[..|f.value|] == f.value;
    assert buf[e + 1..e + 1 + |f.value|] == tail[..|f.value|];
    assert buf[e + 1 + |f.value|] == tail[|f.value|];
    if f.tag !in dict.data {
      FindIs(tail, SOH, |f.value|);
    }
  }

  lemma {:induction false} WireConcat(fs: seq<Field>, gs: seq<Field>)
    ensures Wire(fs + gs) == Wire(fs) + Wire(gs)
  {
    if fs == [] {
      assert fs + gs == gs;
    } else {
      assert (fs + gs)[1..] == fs[1..] + gs;
      WireConcat(fs[1..], gs);
    }
  }

  lemma WireOfOne(f: Field)
    ensures Wire([f]) == FieldBytes(f)
  {
    assert [f][1..] == [];
  }

  /** Scanning encoded fields other than CheckSum reads them all and goes on behind them. */
  lemma {:induction false} ScanEncoded(dict: Dictionary, prev: seq<Field>, fs: seq<Field>, rest: seq<byte>)
    requires AllReadable(dict, prev, fs) && forall k :: 0 <= k < |fs| ==> fs[k].tag != CHECK_SUM
    ensures var s, n := ScanFields(dict, prev + fs, rest), |Wire(fs)|;
            ScanFields(dict, prev, Wire(fs) + rest) == Scan(s.fields, n + s.consumed, n + s.summed, s.complete, s.bad)
    decreases |fs|
  {
    hide ParseField, ScanFields, FieldBytes;
    if fs == [] {
      assert prev + fs == prev && Wire(fs) + rest == rest;
    } else {
      ScanStep(dict, prev, Wire(fs) + rest);
      var f, n := fs[0], |FieldBytes(fs[0])|;
      assert Wire(fs) + rest == FieldBytes(f) + (Wire(fs[1..]) + rest);
      ParseEncoded(dict, prev, f, Wire(fs[1..]) + rest);
      assert (Wire(fs) + rest)[n..] == Wire(fs[1..]) + rest;
      ScanEncoded(dict, prev + [f], fs[1..], rest);
      assert (prev + [f]) + fs[1..] == prev + fs;
    }
  }

  /** A whole message: readable fields, the last and only the last of them CheckSum. */
  predicate IsMessage(dict: Dictionary, fs: seq<Field>) {
    fs != [] && AllReadable(dict, [], fs) && IndexOf(fs, CHECK_SUM) == |fs| - 1
  }

  /** A message as it is dispatched, with the checksum of the bytes ahead of CheckSum. */
  function DecodedMessage(fs: seq<Field>): Decoder {
    Decoder(fs, Sum(Wire(fs[..IndexOf(fs, CHECK_SUM)])) % 256, true)
  }

  lemma {:induction false} AllReadableSplit(dict: Dictionary, prev: seq<Field>, fs: seq<Field>, gs: seq<Field>)
    ensures AllReadable(dict, prev, fs + gs) <==> AllReadable(dict, prev, fs) && AllReadable(dict, prev + fs, gs)
    decreases |fs|
  {
    if fs == [] {
      assert fs + gs == gs && prev + fs == prev;
    } else {
      assert (fs + gs)[1..] == fs[1..] + gs && (prev + [fs[0]]) + fs[1..] == prev + fs;
      AllReadableSplit(dict, prev + [fs[0]], fs[1..], gs);
    }
  }

  lemma ScanCheckSum(dict: Dictionary, prev: seq<Field>, f: Field, rest: seq<byte>)
    requires Readable(dict, prev, f) && f.tag == CHECK_SUM
    ensures ScanFields(dict, prev, FieldBytes(f) + rest) == Scan(prev + [f], |FieldBytes(f)|, 0, true, false)
  {
    hide ParseField, FieldBytes;
    ParseEncoded(dict, prev, f, rest);
  }

  lemma ScanMessage(dict: Dictionary, fs: seq<Field>, rest: seq<byte>)
    requires IsMessage(dict, fs)
    ensures ScanFields(dict, [], Wire(fs) + rest) == Scan(fs, |Wire(fs)|, |Wire(fs[..|fs| - 1])|, true, false)
    ensures Wire(fs[..|fs| - 1]) <= Wire(fs)
  {
    hide ScanFields, FieldBytes, Wire, Readable;
    var head, last := fs[..|fs| - 1], fs[|fs| - 1];
    assert fs == head + [last] && [] + head == head;
    AllReadableSplit(dict, [], head, [last]);
    WireConcat(head, [last]);
    WireOfOne(last);
    assert Wire(fs) + rest == Wire(head) + (FieldBytes(last) + rest);
    ScanEncoded(dict, [], head, FieldBytes(last) + rest);
    ScanCheckSum(dict, head, last, rest);
  }

  /** Decoding a whole encoded message gives back its fields and consumes all its bytes. */
  lemma DecodeMessage(dict: Dictionary, fs: seq<Field>, rest: seq<byte>)
    requires IsMessage(dict, fs)
    ensures Decode(dict, FRESH, Wire(fs) + rest) == Decoded(DecodedMessage(fs), |Wire(fs)|, true)
  {
    hide ScanFields, Wire;
    ScanMessage(dict, fs, rest);
    var head := fs[..|fs| - 1];
    assert (Wire(fs) + rest)[..|Wire(head)|] == Wire(head);
  }

  lemma NothingToScan(dict: Dictionary, prev: seq<Field>)
    ensures ScanFields(dict, prev, []) == Scan(prev, 0, 0, false, false)
  {
  }

  /** Readable fields without any CheckSum are all read, and decoding waits for more. */
  lemma DecodeUnfinished(dict: Dictionary, fs: seq<Field>)
    requires AllReadable(dict, [], fs) && !Has(fs, CHECK_SUM)
    ensures Decode(dict, FRESH, Wire(fs)) == Decoded(Decoder(fs, Sum(Wire(fs)) % 256, false), |Wire(fs)|, false)
  {
    hide ScanFields, Wire;
    ScanEncoded(dict, [], fs, []);
    assert Wire(fs) + [] == Wire(fs) && [] + fs == fs && Wire(fs)[..|Wire(fs)|] == Wire(fs);
    NothingToScan(dict, fs);
  }

  // ------------------------------------------- what goes out with the standard options

  /** Fields that encode can write so that decode can read them. Encode replaces the value
      of BodyLength, so a data field must not take its length from there. */
  predicate Encodable(dict: Dictionary, fs: seq<Field>) {
    AllReadable(dict, [], fs) && !DataAfterBodyLength(dict, fs)
  }

  predicate DataAfterBodyLength(dict: Dictionary, fs: seq<Field>) {
    var b := IndexOf(fs, BODY_LENGTH);
    b + 1 < IndexOf(fs, CHECK_SUM) && fs[b + 1].tag in dict.data
  }

  /** Readability, field by field. */
  lemma {:induction false} ReadableAt(dict: Dictionary, prev: seq<Field>, fs: seq<Field>)
    ensures AllReadable(dict, prev, fs) <==> forall k :: 0 <= k < |fs| ==> Readable(dict, prev + fs[..k], fs[k])
    decreases |fs|
  {
    hide Readable;
    if fs != [] {
      ReadableAt(dict, prev + [fs[0]], fs[1..]);
      assert prev + fs[..0] == prev;
      assert forall k :: 1 <= k < |fs| ==> (prev + [fs[0]]) + fs[1..][..k - 1] == prev + fs[..k];
      if AllReadable(dict, prev, fs) {
        forall k | 0 <= k < |fs|
          ensures Readable(dict, prev + fs[..k], fs[k])
        {
          if k > 0 {
            assert fs[1..][k - 1] == fs[k];
          }
        }
      }
      if forall k :: 0 <= k < |fs| ==> Readable(dict, prev + fs[..k], fs[k]) {
        forall k | 0 <= k < |fs[1..]|
          ensures Readable(dict, (prev + [fs[0]]) + fs[1..][..k], fs[1..][k])
        {
          assert fs[1..][k] == fs[k + 1];
        }
      }
    }
  }

  /** Rewriting BodyLength keeps every position, tag and value but its own. */
  lemma BodyLengthRewritten(fs: seq<Field>, options: Options)
    ensures var gs := WithBodyLength(fs, options);
            && |gs| == |fs| && IndexOf(gs, CHECK_SUM) == IndexOf(fs, CHECK_SUM)
            && IndexOf(gs, BODY_LENGTH) == IndexOf(fs, BODY_LENGTH)
            && (forall k :: 0 <= k < |fs| ==>
                  && gs[k].tag == fs[k].tag
                  && (k != IndexOf(fs, BODY_LENGTH) || !options.setBodyLength ==> gs[k] == fs[k]))
            && (options.setBodyLength && Has(fs, BODY_LENGTH) ==>
                  gs[IndexOf(fs, BODY_LENGTH)] == Field(BODY_LENGTH, Decimal(BodyLength(fs))))
  {
    var gs := WithBodyLength(fs, options);
    IndexIs(gs, CHECK_SUM, IndexOf(fs, CHECK_SUM));
    IndexIs(gs, BODY_LENGTH, IndexOf(fs, BODY_LENGTH));
  }

  lemma DigitsAreReadable(dict: Dictionary, prev: seq<Field>, f: Field)
    requires AllDigits(f.value) && f.tag in dict.known && f.tag !in dict.data
    ensures Readable(dict, prev, f)
  {
  }

  lemma ReadableFromStart(dict: Dictionary, fs: seq<Field>)
    ensures AllReadable(dict, [], fs) <==> forall k :: 0 <= k < |fs| ==> Readable(dict, fs[..k], fs[k])
  {
    hide AllReadable, Readable;
    ReadableAt(dict, [], fs);
    assert forall k :: 0 <= k <= |fs| ==> [] + fs[..k] == fs[..k];
  }

  /** Readability of one field looks no further back than the field before it. */
  lemma ReadableLooksBackOne(dict: Dictionary, prev: seq<Field>, prev': seq<Field>, f: Field)
    requires Readable(dict, prev, f) && |prev| == |prev'|
    requires f.tag in dict.data && prev != [] ==> prev[|prev| - 1] == prev'[|prev| - 1]
    ensures Readable(dict, prev', f)
  {
    hide Stoi;
  }

  /** The rewritten fields ahead of the CheckSum stay readable, up to a data field that
      takes its length from BodyLength. */
  lemma HeadIsReadable(dict: Dictionary, fs: seq<Field>, n: nat)
    requires Usable(dict) && AllReadable(dict, [], fs) && n <= IndexOf(fs, CHECK_SUM)
    requires !DataAfterBodyLength(dict, fs) || n <= IndexOf(fs, BODY_LENGTH) + 1
    ensures var gs := WithBodyLength(fs, STANDARD); n <= |gs| && AllReadable(dict, [], gs[..n])
  {
    hide AllReadable, WithBodyLength, Readable, IndexOf;
    var gs, b := WithBodyLength(fs, STANDARD), IndexOf(fs, BODY_LENGTH);
    BodyLengthRewritten(fs, STANDARD);
    ReadableFromStart(dict, fs);
    ReadableFromStart(dict, gs[..n]);
    forall k | 0 <= k < n
      ensures Readable(dict, gs[..n][..k], gs[..n][k])
    {
      assert gs[..n][..k] == gs[..k];
      assert Readable(dict, fs[..k], fs[k]);
      if k == b {
        LimitOfReadable(dict, fs[..k], fs[k]);
        DigitsAreReadable(dict, gs[..k], gs[k]);
      } else {
        ReadableLooksBackOne(dict, fs[..k], gs[..k], gs[k]);
      }
    }
  }

  lemma LimitOfReadable(dict: Dictionary, prev: seq<Field>, f: Field)
    requires Readable(dict, prev, f)
    ensures f.tag in dict.known
  {
  }

  lemma CheckSumFieldIsReadable(dict: Dictionary, prev: seq<Field>, sum: nat)
    requires Usable(dict) && sum < 1000
    ensures AllReadable(dict, prev, [Field(CHECK_SUM, CheckSumText(sum))])
  {
    DigitsAreReadable(dict, prev, Field(CHECK_SUM, CheckSumText(sum)));
  }

  /** What goes out is readable, and is a whole message if it has a CheckSum. */
  lemma StampedIsReadable(dict: Dictionary, fs: seq<Field>)
    requires Usable(dict) && Encodable(dict, fs)
    ensures var out := Stamped(fs, STANDARD);
            if Has(fs, CHECK_SUM) then IsMessage(dict, out) && out[..|out| - 1] == Head(fs, STANDARD)
            else AllReadable(dict, [], out) && !Has(out, CHECK_SUM)
  {
    hide AllReadable, WithBodyLength, CheckSumText;
    var gs, c := WithBodyLength(fs, STANDARD), IndexOf(fs, CHECK_SUM);
    BodyLengthRewritten(fs, STANDARD);
    HeadIsReadable(dict, fs, c);
    var head := gs[..c];
    var out := Stamped(fs, STANDARD);
    if c < |fs| {
      var last := Field(CHECK_SUM, CheckSumText(Sum(Wire(head)) % 256));
      CheckSumFieldIsReadable(dict, [] + head, Sum(Wire(head)) % 256);
      AllReadableSplit(dict, [], head, [last]);
      IndexIs(out, CHECK_SUM, c);
    } else {
      IndexIs(out, CHECK_SUM, |out|);
    }
  }

  /** Round trip: decoding the standard encoding returns the fields up to and including the
      first CheckSum, with BodyLength and CheckSum rewritten, and consumes every byte. */
  lemma RoundTrip(dict: Dictionary, fs: seq<Field>)
    requires Usable(dict) && Encodable(dict, fs)
    ensures var out, bytes := Stamped(fs, STANDARD), Encoding(fs, STANDARD);
            Decode(dict, FRESH, bytes) ==
              if Has(fs, CHECK_SUM) then Decoded(DecodedMessage(out), |bytes|, true)
              else Decoded(Decoder(out, Sum(bytes) % 256, false), |bytes|, false)
  {
    hide Decode, Stamped, Wire;
    StampedIsReadable(dict, fs);
    var out := Stamped(fs, STANDARD);
    if Has(fs, CHECK_SUM) {
      DecodeMessage(dict, out, []);
      assert Wire(out) + [] == Wire(out);
    } else {
      DecodeUnfinished(dict, out);
    }
  }

  // ----------------------------------- the one family of fields that does not round trip

  /** A scan keeps what it was given, and the first field it adds is the one at the front. */
  lemma ScanAddsTheFront(dict: Dictionary, prev: seq<Field>, buf: seq<byte>)
    ensures var r := ScanFields(dict, prev, buf);
            && prev <= r.fields
            && (|r.fields| > |prev| ==>
                  ParseField(dict, prev, buf).Parsed? && r.fields[|prev|] == ParseField(dict, prev, buf).field)
    decreases |buf|
  {
    hide ParseField;
    var p := ParseField(dict, prev, buf);
    if p.Parsed? && p.field.tag != CHECK_SUM {
      ScanAddsTheFront(dict, prev + [p.field], buf[p.size..]);
    }
  }

  /** A data field whose announced length is not its own is not read back. */
  lemma WrongLength(dict: Dictionary, prev: seq<Field>, f: Field, rest: seq<byte>)
    requires f.tag in dict.data && prev != [] && Stoi(prev[|prev| - 1].value) != Some(|f.value|)
    ensures var p := ParseField(dict, prev, FieldBytes(f) + rest); !p.Parsed? || p.field != f
  {
    hide Find, FromChars, Stoi, Decimal;
    FindTagEnd(f, rest);
    ReadDecimal(f.tag);
  }

  lemma ReadAnyDecimal(n: nat)
    ensures Stoi(Decimal(n)) == if n < INT_LIMIT then Some(n) else None
  {
    var s := Decimal(n);
    DigitRunOfDigits(s);
    ValueOfDecimal(n);
    assert IsDigit(s[0]) && s[..|s|] == s;
  }

  /** The body is longer than any value in it. */
  lemma BodyExceedsItsFirstValue(fs: seq<Field>)
    requires var b := IndexOf(fs, BODY_LENGTH); b + 1 < IndexOf(fs, CHECK_SUM)
    ensures BodyLength(fs) > |fs[IndexOf(fs, BODY_LENGTH) + 1].value|
  {
    var b := IndexOf(fs, BODY_LENGTH);
    assert Body(fs)[0] == fs[b + 1];
  }

  /** Behind readable fields, a data field with the wrong length is lost. */
  lemma WrongLengthIsLost(dict: Dictionary, prev: seq<Field>, f: Field, tail: seq<Field>)
    requires AllReadable(dict, [], prev) && !Has(prev, CHECK_SUM)
    requires f.tag in dict.data && prev != [] && Stoi(prev[|prev| - 1].value) != Some(|f.value|)
    ensures var r := ScanFields(dict, [], Wire(prev + ([f] + tail))); |r.fields| <= |prev| || r.fields[|prev|] != f
  {
    hide ScanFields, Wire, AllReadable, FieldBytes, Stoi, IndexOf;
    WireConcat(prev, [f] + tail);
    WireConcat([f], tail);
    WireOfOne(f);
    var rest := FieldBytes(f) + Wire(tail);
    ScanEncoded(dict, [], prev, rest);
    assert [] + prev == prev;
    ScanAddsTheFront(dict, prev, rest);
    WrongLength(dict, prev, f, Wire(tail));
  }

  lemma DataAfterBodyLengthIsLost(dict: Dictionary, fs: seq<Field>)
    requires Usable(dict) && AllReadable(dict, [], fs) && DataAfterBodyLength(dict, fs)
    ensures var r := ScanFields(dict, [], Encoding(fs, STANDARD)); r.fields != Stamped(fs, STANDARD)
  {
    hide ScanFields, Wire, AllReadable, WithBodyLength, BodyLength, CheckSumText, Stoi, IndexOf;
    var gs, b := WithBodyLength(fs, STANDARD), IndexOf(fs, BODY_LENGTH);
    BodyLengthRewritten(fs, STANDARD);
    HeadIsReadable(dict, fs, b + 1);
    BodyExceedsItsFirstValue(fs);
    ReadAnyDecimal(BodyLength(fs));
    var out := Stamped(fs, STANDARD);
    var prev, f := gs[..b + 1], fs[b + 1];
    assert out == prev + ([f] + out[b + 2..]);
    assert !Has(prev, CHECK_SUM);
    WrongLengthIsLost(dict, prev, f, out[b + 2..]);
  }

  /** Readable fields round trip if and only if no data field directly follows BodyLength. */
  lemma RoundTripIff(dict: Dictionary, fs: seq<Field>)
    requires Usable(dict) && AllReadable(dict, [], fs)
    ensures var r := Decode(dict, FRESH, Encoding(fs, STANDARD));
            r.Decoded? && r.state.fields == Stamped(fs, STANDARD) <==> !DataAfterBodyLength(dict, fs)
  {
    hide Stamped, Wire, ScanFields;
    if DataAfterBodyLength(dict, fs) {
      DataAfterBodyLengthIsLost(dict, fs);
    } else {
      RoundTrip(dict, fs);
    }
  }

  // ------------------------------------------------------------- validation

  /** The session's CheckSum and BodyLength checks on a decoded message. */
  predicate PassesValidation(d: Decoder)
    requires d.checksum < 256
  {
    && d.valid
    && var sum, length := TryGet(d.fields, CHECK_SUM), TryGet(d.fields, BODY_LENGTH);
    && sum.Some? && sum.value.value == CheckSumText(d.checksum)
    && length.Some? && length.value.value == Decimal(BodyLength(d.fields))
  }

  /** The CheckSum text is the three-digit decimal form of its number. */
  lemma CheckSumTextReads(sum: nat)
    requires sum < 1000
    ensures Value(CheckSumText(sum)) == sum
  {
    var t := CheckSumText(sum);
    ValueSnoc([], t[0]);
    ValueSnoc([t[0]], t[1]);
    ValueSnoc([t[0], t[1]], t[2]);
    assert [] + [t[0]] == [t[0]] && [t[0]] + [t[1]] == [t[0], t[1]] && [t[0], t[1]] + [t[2]] == t;
    assert sum / 10 == sum / 100 * 10 + sum / 10 % 10;
  }

  /** The body is the same before and after rewriting, and stands on the wire between the
      BodyLength field and the CheckSum field. */
  lemma StampedBody(fs: seq<Field>)
    requires IndexOf(fs, BODY_LENGTH) < IndexOf(fs, CHECK_SUM) < |fs|
    ensures var out, b := Stamped(fs, STANDARD), IndexOf(fs, BODY_LENGTH);
            && |out| == IndexOf(fs, CHECK_SUM) + 1
            && IndexOf(out, CHECK_SUM) == IndexOf(fs, CHECK_SUM) && IndexOf(out, BODY_LENGTH) == b
            && out[b] == Field(BODY_LENGTH, Decimal(BodyLength(fs))) && Body(out) == Body(fs)
  {
    hide WithBodyLength, Wire, CheckSumText, IndexOf;
    var gs, out := WithBodyLength(fs, STANDARD), Stamped(fs, STANDARD);
    var c, b := IndexOf(fs, CHECK_SUM), IndexOf(fs, BODY_LENGTH);
    BodyLengthRewritten(fs, STANDARD);
    IndexIs(out, CHECK_SUM, c);
    IndexIs(out, BODY_LENGTH, b);
    assert out[b + 1..c] == gs[b + 1..c] == fs[b + 1..c];
  }

  lemma StampedLayout(fs: seq<Field>)
    requires IndexOf(fs, BODY_LENGTH) < IndexOf(fs, CHECK_SUM) < |fs|
    ensures var out, b := Stamped(fs, STANDARD), IndexOf(fs, BODY_LENGTH);
            && |out| > b + 1 && out[|out| - 1].tag == CHECK_SUM
            && Encoding(fs, STANDARD) == Wire(out[..b + 1]) + Wire(Body(fs)) + FieldBytes(out[|out| - 1])
  {
    hide Wire, FieldBytes, IndexOf, Stamped, CheckSumText;
    StampedBody(fs);
    var out, b, c := Stamped(fs, STANDARD), IndexOf(fs, BODY_LENGTH), IndexOf(fs, CHECK_SUM);
    assert out == out[..b + 1] + (out[b + 1..c] + [out[c]]);
    WireConcat(out[..b + 1], out[b + 1..c] + [out[c]]);
    WireConcat(out[b + 1..c], [out[c]]);
    WireOfOne(out[c]);
  }

  /** Every message with BodyLength ahead of CheckSum that goes out with the standard options
      passes the receiver's validation; BodyLength counts exactly the bytes between its own
      separator and the CheckSum field. */
  lemma EmittedPassesValidation(dict: Dictionary, fs: seq<Field>)
    requires Usable(dict) && Encodable(dict, fs)
    requires IndexOf(fs, BODY_LENGTH) < IndexOf(fs, CHECK_SUM) < |fs|
    ensures var r := Decode(dict, FRESH, Encoding(fs, STANDARD));
            && r.Decoded? && r.complete && r.consumed == |Encoding(fs, STANDARD)| && r.state.checksum < 256
            && PassesValidation(r.state)
            && BodyLength(r.state.fields) == |Wire(Body(fs))|
  {
    hide Decode, Wire, WithBodyLength, IndexOf, AllReadable;
    RoundTrip(dict, fs);
    StampedIsReadable(dict, fs);
    StampedBody(fs);
    var out, c := Stamped(fs, STANDARD), IndexOf(fs, CHECK_SUM);
    BodyLengthRewritten(fs, STANDARD);
    assert out[c] == Field(CHECK_SUM, CheckSumText(Sum(Wire(Head(fs, STANDARD))) % 256));
    assert TryGet(out, CHECK_SUM) == Some(out[c]);
  }

  /** Without options the fields go out as they are. */
  lemma PlainEncoding(fs: seq<Field>)
    ensures Encoding(fs, Options(false, false)) == Wire(fs)
  {
  }

  /** With BodyLength alone, only that field changes. */
  lemma LengthOnlyEncoding(fs: seq<Field>)
    ensures var b := IndexOf(fs, BODY_LENGTH);
            Encoding(fs, Options(false, true)) ==
            if b < |fs| then Wire(fs[..b]) + FieldBytes(Field(BODY_LENGTH, Decimal(BodyLength(fs)))) + Wire(fs[b + 1..])
            else Wire(fs)
  {
    hide Wire, FieldBytes, IndexOf, BodyLength, Decimal;
    var b := IndexOf(fs, BODY_LENGTH);
    if b < |fs| {
      WireOfReplaced(fs, b, Field(BODY_LENGTH, Decimal(BodyLength(fs))));
    }
  }

  lemma WireOfReplaced(fs: seq<Field>, b: nat, f: Field)
    requires b < |fs|
    ensures Wire(fs[b := f]) == Wire(fs[..b]) + FieldBytes(f) + Wire(fs[b + 1..])
  {
    hide Wire, FieldBytes;
    var head, tail := fs[..b], fs[b + 1..];
    assert fs[b := f] == head + ([f] + tail);
    WireConcat(head, [f] + tail);
    WireConcat([f], tail);
    WireOfOne(f);
    assert Wire(head) + (FieldBytes(f) + Wire(tail)) == Wire(head) + FieldBytes(f) + Wire(tail);
  }

  /** With CheckSum alone, everything ahead of it stays and everything behind it is cut off. */
  lemma SumOnlyEncoding(fs: seq<Field>)
    ensures var c := IndexOf(fs, CHECK_SUM);
            Encoding(fs, Options(true, false)) ==
            if c < |fs| then Wire(fs[..c]) + FieldBytes(Field(CHECK_SUM, CheckSumText(Sum(Wire(fs[..c])) % 256)))
            else Wire(fs)
  {
    hide Wire, FieldBytes, IndexOf, CheckSumText, Sum;
    var c := IndexOf(fs, CHECK_SUM);
    if c < |fs| {
      var f := Field(CHECK_SUM, CheckSumText(Sum(Wire(fs[..c])) % 256));
      WireConcat(fs[..c], [f]);
      WireOfOne(f);
    } else {
      assert fs[..c] == fs;
    }
  }

  /** The encoder's remainder, taken with the sign of the dividend. */
  function TruncatedRemainder(x: int): int { if x >= 0 then x % 256 else -((-x) % 256) }

  lemma TruncationAgreesIff(x: int)
    ensures TruncatedRemainder(x) == x % 256 <==> x >= 0 || x % 256 == 0
  {
    if x < 0 {
      Congruent(-x, 256 - x % 256, -(x / 256) - 1);
    }
  }

  /** The encoder's checksum of the bytes sent equals the decoder's if and only if the signed
      sum is not a negative number with a remainder; in the remaining case encode throws. */
  lemma ChecksumsAgreeIff(bytes: seq<byte>)
    ensures TruncatedRemainder(SignedSum(bytes)) == Sum(bytes) % 256 <==> !CheckSumFails(bytes)
  {
    hide TruncatedRemainder, SignedSum, Sum;
    SumsAgree(bytes);
    TruncationAgreesIff(SignedSum(bytes));
  }

  lemma SevenBitNeverFails(bytes: seq<byte>)
    requires forall k :: 0 <= k < |bytes| ==> bytes[k] < 128
    ensures !CheckSumFails(bytes)
  {
    SignedSumOfSevenBit(bytes);
  }

  predicate SevenBit(fs: seq<Field>) { forall f :: f in fs ==> SevenBitText(f.value) }

  predicate SevenBitText(s: seq<byte>) { forall k :: 0 <= k < |s| ==> s[k] < 128 }

  lemma SevenBitField(f: Field)
    requires SevenBitText(f.value)
    ensures SevenBitText(FieldBytes(f))
  {
    hide Decimal;
  }

  lemma {:induction false} SevenBitWire(fs: seq<Field>)
    requires SevenBit(fs)
    ensures SevenBitText(Wire(fs))
  {
    hide FieldBytes;
    if fs != [] {
      SevenBitField(fs[0]);
      SevenBitWire(fs[1..]);
    }
  }

  /** Encoding a message of 7-bit values never throws. */
  lemma SevenBitEncodes(fs: seq<Field>)
    requires SevenBit(fs)
    ensures !EncodeThrows(fs, STANDARD)
  {
    hide Wire, WithBodyLength, IndexOf, Decimal, SignedSum;
    BodyLengthRewritten(fs, STANDARD);
    var gs := WithBodyLength(fs, STANDARD);
    forall f | f in Head(fs, STANDARD)
      ensures SevenBitText(f.value)
    {
      var k :| 0 <= k < |gs| && gs[k] == f;
      assert gs[k] == fs[k] || gs[k] == Field(BODY_LENGTH, Decimal(BodyLength(fs)));
    }
    SevenBitWire(Head(fs, STANDARD));
    SevenBitNeverFails(Wire(Head(fs, STANDARD)));
  }

  // ------------------------------------------------------------ re-encoding

  /** Every tag read from buf is written in its decimal form. */
  predicate CanonicalTags(dict: Dictionary, prev: seq<Field>, buf: seq<byte>)
    decreases |buf|
  {
    match ParseField(dict, prev, buf)
    case NeedMore => true
    case Bad => true
    case Parsed(f, n) =>
      && buf[..Find(buf, EQUALS)] == Decimal(f.tag)
      && (f.tag == CHECK_SUM || CanonicalTags(dict, prev + [f], buf[n..]))
  }

  /** A parsed field is the tag's text, an equals sign, the value and a separator. */
  lemma ParsedShape(dict: Dictionary, prev: seq<Field>, buf: seq<byte>)
    requires ParseField(dict, prev, buf).Parsed?
    ensures var e, f, n := Find(buf, EQUALS), ParseField(dict, prev, buf).field, ParseField(dict, prev, buf).size;
            && n == e + |f.value| + 2 && buf[e] == EQUALS && buf[e + 1..n - 1] == f.value && buf[n - 1] == SOH
            && FromChars(buf[..e]) == Some(f.tag)
  {
    hide Find, FromChars, Stoi;
  }

  /** A parsed field's own encoding is no longer than the bytes it was read from, and is the
      same bytes exactly when its tag was canonical. */
  lemma ReencodeField(dict: Dictionary, prev: seq<Field>, buf: seq<byte>)
    requires ParseField(dict, prev, buf).Parsed?
    ensures var f, n := ParseField(dict, prev, buf).field, ParseField(dict, prev, buf).size;
            && |FieldBytes(f)| <= n
            && (|FieldBytes(f)| == n <==> buf[..Find(buf, EQUALS)] == Decimal(f.tag))
            && (|FieldBytes(f)| == n ==> FieldBytes(f) == buf[..n])
  {
    hide Find, FromChars, ParseField, Decimal;
    var e := Find(buf, EQUALS);
    var f, n := ParseField(dict, prev, buf).field, ParseField(dict, prev, buf).size;
    ParsedShape(dict, prev, buf);
    TagTextIsShortest(buf[..e]);
    assert buf[..n] == buf[..e] + [EQUALS] + f.value + [SOH];
  }

  lemma WireCons(f: Field, gs: seq<Field>)
    ensures Wire([f] + gs) == FieldBytes(f) + Wire(gs)
  {
    assert ([f] + gs)[1..] == gs;
  }

  lemma {:induction false} ReencodeScan(dict: Dictionary, prev: seq<Field>, buf: seq<byte>)
    requires !ScanFields(dict, prev, buf).bad
    ensures var r := ScanFields(dict, prev, buf);
            && prev <= r.fields
            && |Wire(r.fields[|prev|..])| <= r.consumed
            && (|Wire(r.fields[|prev|..])| == r.consumed <==> CanonicalTags(dict, prev, buf))
            && (CanonicalTags(dict, prev, buf) ==> Wire(r.fields[|prev|..]) == buf[..r.consumed])
    decreases |buf|
  {
    hide ParseField, ScanFields, FieldBytes, Find, Decimal, Wire;
    var p, r := ParseField(dict, prev, buf), ScanFields(dict, prev, buf);
    ScanStep(dict, prev, buf);
    if p.Parsed? {
      var f, n := p.field, p.size;
      ReencodeField(dict, prev, buf);
      if f.tag == CHECK_SUM {
        assert r.fields[|prev|..] == [f];
        WireOfOne(f);
      } else {
        ReencodeScan(dict, prev + [f], buf[n..]);
        var s := ScanFields(dict, prev + [f], buf[n..]);
        var gs := s.fields[|prev| + 1..];
        WireCons(f, gs);
        assert r.fields[|prev|..] == [f] + gs;
        assert buf[..n + s.consumed] == buf[..n] + buf[n..][..s.consumed];
      }
    } else {
      assert r.fields[|prev|..] == [];
      NoWire();
    }
  }

  lemma NoWire()
    ensures Wire([]) == []
  {
  }

  /** Writing back the fields of a message that was decoded from exactly the bytes w gives w
      if and only if w spells every tag in its decimal form. */
  lemma ReencodeIff(dict: Dictionary, w: seq<byte>)
    requires var r := Decode(dict, FRESH, w); r.Decoded? && r.consumed == |w|
    ensures Wire(Decode(dict, FRESH, w).state.fields) == w <==> CanonicalTags(dict, [], w)
  {
    hide ScanFields, Wire, CanonicalTags;
    ReencodeScan(dict, [], w);
    var fs := ScanFields(dict, [], w).fields;
    assert fs[0..] == fs && w[..|w|] == w;
  }

  /** A complete scan ends with the first CheckSum, and what it summed are the bytes ahead of
      that field. */
  lemma {:induction false} ScanSumsTheHead(dict: Dictionary, prev: seq<Field>, buf: seq<byte>)
    requires ScanFields(dict, prev, buf).complete
    ensures var r := ScanFields(dict, prev, buf);
            && |r.fields| > |prev| && prev <= r.fields && r.fields[|r.fields| - 1].tag == CHECK_SUM
            && (forall k :: |prev| <= k < |r.fields| - 1 ==> r.fields[k].tag != CHECK_SUM)
            && (CanonicalTags(dict, prev, buf) ==> r.summed == |Wire(r.fields[|prev|..|r.fields| - 1])|)
    decreases |buf|
  {
    hide ParseField, ScanFields, FieldBytes, Find, Decimal, Wire;
    var p, r := ParseField(dict, prev, buf), ScanFields(dict, prev, buf);
    ScanStep(dict, prev, buf);
    var f, n := p.field, p.size;
    ReencodeField(dict, prev, buf);
    if f.tag == CHECK_SUM {
      assert r.fields[|prev|..|r.fields| - 1] == [];
      NoWire();
    } else {
      ScanSumsTheHead(dict, prev + [f], buf[n..]);
      var gs := r.fields[|prev| + 1..|r.fields| - 1];
      assert r.fields[|prev|..|r.fields| - 1] == [f] + gs;
      WireCons(f, gs);
    }
  }

  /** Fields that already carry the right BodyLength and CheckSum go out unchanged. */
  lemma StampedIsIdentity(fs: seq<Field>)
    requires fs != [] && IndexOf(fs, CHECK_SUM) == |fs| - 1 && Has(fs, BODY_LENGTH)
    requires fs[IndexOf(fs, BODY_LENGTH)].value == Decimal(BodyLength(fs))
    requires fs[|fs| - 1].value == CheckSumText(Sum(Wire(fs[..|fs| - 1])) % 256)
    ensures Stamped(fs, STANDARD) == fs
  {
    hide Wire, CheckSumText, IndexOf, Decimal, BodyLength;
    var b := IndexOf(fs, BODY_LENGTH);
    assert fs[b] == Field(BODY_LENGTH, Decimal(BodyLength(fs)));
    assert WithBodyLength(fs, STANDARD) == fs;
    assert fs == fs[..|fs| - 1] + [fs[|fs| - 1]];
  }

  /** A decoded message that passes validation carries the right BodyLength and CheckSum. */
  lemma ValidatedIsStamped(d: Decoder)
    requires d.checksum < 256 && PassesValidation(d)
    requires d.fields != [] && IndexOf(d.fields, CHECK_SUM) == |d.fields| - 1
    requires d.checksum == Sum(Wire(d.fields[..|d.fields| - 1])) % 256
    ensures Stamped(d.fields, STANDARD) == d.fields
  {
    hide Wire, IndexOf, CheckSumText, Stamped, BodyLength, Sum, Decimal;
    StampedIsIdentity(d.fields);
  }

  lemma DecodedSum(dict: Dictionary, w: seq<byte>)
    requires var r := Decode(dict, FRESH, w); r.Decoded? && r.complete
    ensures var d := Decode(dict, FRESH, w).state;
            d.fields == ScanFields(dict, [], w).fields && d.checksum == Sum(w[..ScanFields(dict, [], w).summed]) % 256
  {
    hide ScanFields, Sum;
  }

  /** A canonical message that passes validation is encoded back to the same bytes. */
  lemma ValidatedReencodes(dict: Dictionary, w: seq<byte>)
    requires CanonicalTags(dict, [], w)
    requires var r := Decode(dict, FRESH, w);
             r.Decoded? && r.complete && r.consumed == |w| && r.state.checksum < 256 && PassesValidation(r.state)
    ensures Encoding(Decode(dict, FRESH, w).state.fields, STANDARD) == w
  {
    hide ScanFields, Wire, CanonicalTags, IndexOf, CheckSumText, Stamped, BodyLength, Sum, Decimal, PassesValidation;
    ReencodeIff(dict, w);
    DecodedSum(dict, w);
    ScanSumsTheHead(dict, [], w);
    var r := ScanFields(dict, [], w);
    var fs := r.fields;
    var head := fs[..|fs| - 1];
    assert fs[0..|fs| - 1] == head && fs == head + [fs[|fs| - 1]];
    WireConcat(head, [fs[|fs| - 1]]);
    assert w[..r.summed] == Wire(head);
    IndexIs(fs, CHECK_SUM, |fs| - 1);
    ValidatedIsStamped(Decode(dict, FRESH, w).state);
  }
}
