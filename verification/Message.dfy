/** The message class: decoding accumulates fields and a 32-bit checksum across calls,
    encoding writes into a caller's buffer in place. */
module Messages {
  import opened Optional
  import opened Bytes
  import opened Fields
  import opened Codec
  import opened CodecTheorems

  const UINT32 := 0x1_0000_0000

  lemma ModuloTower(x: int)
    ensures x % UINT32 % 256 == x % 256
  {
    Congruent(x % UINT32, x, -0x100_0000 * (x / UINT32));
  }

  /** Adding an 8-bit char sum to the 32-bit accumulator adds the byte sum modulo 256. */
  lemma AccumulatorIsExact(acc: nat, bytes: seq<byte>)
    ensures (acc + CharSum(bytes)) % UINT32 % 256 == (acc % 256 + Sum(bytes)) % 256
  {
    hide CharSum, Sum;
    ModuloTower(acc + CharSum(bytes));
    SumsAgree(bytes);
    Congruent(acc, acc % 256, acc / 256);
    CongruentSum(acc, acc % 256, CharSum(bytes), Sum(bytes));
  }

  /** format_checksum: three digits, or an exception above 999. */
  function FormatChecksum(checksum: nat): Option<seq<byte>> {
    if checksum > 999 then None else Some(CheckSumText(checksum))
  }

  /** Whatever it formats reads back as the number. */
  lemma FormattedReads(checksum: nat)
    ensures FormatChecksum(checksum).Some? <==> checksum < 1000
    ensures checksum < 1000 ==>
              AllDigits(FormatChecksum(checksum).value) && |FormatChecksum(checksum).value| == 3 &&
              Value(FormatChecksum(checksum).value) == checksum
  {
    hide Value;
    if checksum < 1000 {
      CheckSumTextReads(checksum);
    }
  }

  /** What encode asks format_checksum for: the truncated remainder as an unsigned 32-bit int. */
  function EncodeChecksum(bytes: seq<byte>): nat { TruncatedRemainder(SignedSum(bytes)) % UINT32 }

  /** The encoder either writes the byte sum modulo 256 or throws, exactly when the signed
      remainder is negative. */
  lemma EncoderChecksum(bytes: seq<byte>)
    ensures FormatChecksum(EncodeChecksum(bytes)) == if CheckSumFails(bytes) then None
                                                     else Some(CheckSumText(Sum(bytes) % 256))
  {
    hide SignedSum, Sum, CheckSumText;
    SumsAgree(bytes);
    var x := SignedSum(bytes);
    TruncationAgreesIff(x);
    if x < 0 && x % 256 != 0 {
      Congruent(-x, 256 - x % 256, -(x / 256) - 1);
    }
  }

  lemma WireSnoc(fs: seq<Field>, i: nat)
    requires i < |fs|
    ensures Wire(fs[..i + 1]) == Wire(fs[..i]) + FieldBytes(fs[i])
  {
    hide Wire, FieldBytes;
    assert fs[..i + 1] == fs[..i] + [fs[i]];
    WireConcat(fs[..i], [fs[i]]);
    WireOfOne(fs[i]);
  }

  lemma WireOfPrefix(fs: seq<Field>, i: nat)
    requires i <= |fs|
    ensures |Wire(fs[..i])| <= |Wire(fs)|
  {
    hide Wire;
    assert fs == fs[..i] + fs[i..];
    WireConcat(fs[..i], fs[i..]);
  }

  /** The fields a message is left with: encode writes BodyLength back, and CheckSum too if
      it got that far. */
  function LeftBy(fs: seq<Field>, options: Options, room: nat): (r: seq<Field>)
    ensures |Encoding(fs, options)| <= room && !EncodeThrows(fs, options) ==> Stamped(fs, options) <= r
  {
    hide Wire, WithBodyLength, CheckSumText, CheckSumFails, Sum, IndexOf;
    var gs, head := WithBodyLength(fs, options), Head(fs, options);
    if Rewrites(fs, options) && |Wire(head)| <= room && !CheckSumFails(Wire(head)) then
      gs[|head| := Field(CHECK_SUM, CheckSumText(Sum(Wire(head)) % 256))]
    else
      assert Rewrites(fs, options) ==> Stamped(fs, options)[..|head|] == head;
      assert |Encoding(fs, options)| <= room ==> |Wire(head)| <= room by {
        if Rewrites(fs, options) {
          WireOfPrefix(Stamped(fs, options), |head|);
        }
      }
      gs
  }

  /** std::memcpy. */
  method CopyInto(buffer: array<byte>, at: nat, bytes: seq<byte>)
    requires at + |bytes| <= buffer.Length
    modifies buffer
    ensures buffer[..at + |bytes|] == old(buffer[..at]) + bytes
    ensures buffer[at + |bytes|..] == old(buffer[at + |bytes|..])
  {
    for i := 0 to |bytes|
      invariant buffer[..at + i] == old(buffer[..at]) + bytes[..i]
      invariant buffer[at + i..] == old(buffer[at + i..])
    {
      buffer[at + i] := bytes[i];
    }
  }

  /** Writes f behind current; None when there is no room for all of it. */
  method EncodeField(buffer: array<byte>, current: nat, f: Field) returns (next: Option<nat>)
    requires current <= buffer.Length
    modifies buffer
    ensures buffer[..current] == old(buffer[..current])
    ensures next == if current + |FieldBytes(f)| <= buffer.Length then Some(current + |FieldBytes(f)|) else None
    ensures next.Some? ==> buffer[..next.value] == old(buffer[..current]) + FieldBytes(f)
  {
    hide Decimal;
    ghost var before := buffer[..current];
    var text := Decimal(f.tag);
    if current + |text| > buffer.Length {
      return None;
    }
    CopyInto(buffer, current, text);
    var at := current + |text|;
    KeptPrefix(buffer[..], at, current, before, text);
    if at >= buffer.Length {
      return None;
    }
    buffer[at] := EQUALS;
    at := at + 1;
    ghost var tagged := text + [EQUALS];
    assert buffer[..at] == before + tagged;
    KeptPrefix(buffer[..], at, current, before, tagged);
    if at >= buffer.Length || at + |f.value| >= buffer.Length {
      return None;
    }
    CopyInto(buffer, at, f.value);
    at := at + |f.value|;
    ghost var all := tagged + f.value;
    assert buffer[..at] == before + all;
    buffer[at] := SOH;
    assert FieldBytes(f) == all + [SOH];
    assert buffer[..at + 1] == before + FieldBytes(f);
    KeptPrefix(buffer[..], at + 1, current, before, FieldBytes(f));
    return Some(at + 1);
  }

  /** What was there stays in front of what is written behind it. */
  lemma KeptPrefix(buffer: seq<byte>, at: nat, current: nat, before: seq<byte>, added: seq<byte>)
    requires current <= at <= |buffer| && |before| == current && buffer[..at] == before + added
    ensures buffer[..current] == before
  {
    assert buffer[..at][..current] == before;
  }

  /** The loop of encode up to the CheckSum it is going to rewrite, or up to the end. */
  method EncodeHead(buffer: array<byte>, offset: nat, gs: seq<Field>, setCheckSum: bool) returns (next: Option<nat>)
    requires offset <= buffer.Length
    modifies buffer
    ensures buffer[..offset] == old(buffer[..offset])
    ensures var head := if setCheckSum then gs[..IndexOf(gs, CHECK_SUM)] else gs;
            && next == (if offset + |Wire(head)| <= buffer.Length then Some(offset + |Wire(head)|) else None)
            && (next.Some? ==> buffer[..next.value] == old(buffer[..offset]) + Wire(head))
  {
    hide IndexOf, FieldBytes, Wire;
    var current, i := offset, 0;
    ghost var before, n := buffer[..offset], if setCheckSum then IndexOf(gs, CHECK_SUM) else |gs|;
    NoWire();
    assert gs[..0] == [] && before + [] == before;
    while i < |gs|
      invariant 0 <= i <= n && current == offset + |Wire(gs[..i])| <= buffer.Length
      invariant buffer[..current] == before + Wire(gs[..i])
    {
      if gs[i].tag == CHECK_SUM && setCheckSum {
        break;
      }
      KeptPrefix(buffer[..], current, offset, before, Wire(gs[..i]));
      WireSnoc(gs, i);
      var written := EncodeField(buffer, current, gs[i]);
      if written.None? {
        assert buffer[..offset] == buffer[..current][..offset];
        assert gs[..n][..i + 1] == gs[..i + 1];
        WireOfPrefix(gs[..n], i + 1);
        assert !setCheckSum ==> gs[..n] == gs;
        return None;
      }
      assert before + (Wire(gs[..i]) + FieldBytes(gs[i])) == before + Wire(gs[..i]) + FieldBytes(gs[i]);
      current := written.value;
      i := i + 1;
    }
    assert i == n && (!setCheckSum ==> gs[..n] == gs);
    KeptPrefix(buffer[..], current, offset, before, Wire(gs[..n]));
    next := Some(current);
  }

  class Message {
    var fields: seq<Field>
    var checksum: nat
    var valid: bool

    constructor (fs: seq<Field>)
      ensures fields == fs && View() == Decoder(fs, 0, false) && Valid()
    {
      fields, checksum, valid := fs, 0, false;
    }

    /** The accumulator is an unsigned 32-bit int. */
    predicate Valid()
      reads this
    {
      checksum < UINT32
    }

    function View(): Decoder
      reads this
    {
      Decoder(fields, checksum % 256, valid)
    }

    method Reset()
      modifies this
      ensures View() == FRESH && Valid()
    {
      fields, checksum, valid := [], 0, false;
    }

    /** Adds the bytes of the whole fields to the accumulator. */
    method Accumulate(bytes: seq<byte>, complete: bool)
      requires Valid()
      modifies this`checksum, this`valid
      ensures Valid() && checksum % 256 == (old(checksum) % 256 + Sum(bytes)) % 256
      ensures valid == (old(valid) || complete) && (complete ==> checksum < 256)
    {
      hide Sum, CharSum;
      AccumulatorIsExact(checksum, bytes);
      checksum := (checksum + CharSum(bytes)) % UINT32;
      if complete {
        checksum := checksum % 256;
        valid := true;
      }
    }

    /** Decodes as much of buf as makes whole fields. An exception leaves the fields decoded
        before it in place and the checksum as it was. */
    method Decode(dict: Dictionary, buf: seq<byte>) returns (consumed: nat, complete: bool, threw: bool)
      requires Valid()
      modifies this
      ensures Valid()
      ensures var r := Codec.Decode(dict, old(View()), buf);
              if threw then r == Threw else r == Decoded(View(), consumed, complete)
      ensures threw ==>
                fields == ScanFields(dict, old(fields), buf).fields && checksum == old(checksum) && valid == old(valid)
      ensures !threw && complete ==> checksum < 256
    {
      hide ParseField, ScanFields, Sum, CharSum;
      var current, checksumCurrent := 0, 0;
      complete, threw := false, false;
      ghost var whole := ScanFields(dict, fields, buf);
      assert buf[0..] == buf;
      while current != |buf|
        invariant current <= |buf| && checksumCurrent == current && !complete
        invariant checksum == old(checksum) && valid == old(valid)
        invariant whole == Behind(current, ScanFields(dict, fields, buf[current..]))
        decreases |buf| - current
      {
        ScanStep(dict, fields, buf[current..]);
        var p := ParseField(dict, fields, buf[current..]);
        if p.NeedMore? {
          break;
        }
        if p.Bad? {
          return 0, false, true;
        }
        assert buf[current..][p.size..] == buf[current + p.size..];
        fields := fields + [p.field];
        current := current + p.size;
        if p.field.tag == CHECK_SUM {
          complete := true;
          break;
        }
        checksumCurrent := current;
      }
      if current == |buf| && !complete {
        NothingToScan(dict, fields);
        assert buf[current..] == [];
      }
      assert whole == Scan(fields, current, checksumCurrent, complete, false);
      Accumulate(buf[..checksumCurrent], complete);
      consumed := current;
    }

    /** The accumulating loop counts the bytes the body takes on the wire. */
    method CalculateBodyLength() returns (length: nat)
      ensures length == BodyLength(fields)
    {
      hide IndexOf, FieldBytes, Wire;
      var passed := false;
      length := 0;
      var c, b := IndexOf(fields, CHECK_SUM), IndexOf(fields, BODY_LENGTH);
      NoWire();
      var i := 0;
      while i < |fields|
        invariant 0 <= i <= c
        invariant passed <==> b < i
        invariant !passed ==> length == 0
        invariant passed ==> length == |Wire(fields[b + 1..i])|
      {
        var f := fields[i];
        if f.tag == CHECK_SUM {
          break;
        }
        if !passed {
          if f.tag == BODY_LENGTH {
            passed := true;
            assert fields[b + 1..i + 1] == [];
          }
        } else {
          BodyStep(fields[b + 1..], i - b - 1);
          assert fields[b + 1..][..i - b - 1] == fields[b + 1..i] && fields[b + 1..][..i - b] == fields[b + 1..i + 1];
          length := length + NumberOfDigits(f.tag);
          length := length + |f.value|;
          length := length + 2;
        }
        i := i + 1;
      }
    }

    /** Encodes into the buffer from offset on: the size of the whole encoding if it fits the
        room there, 0 if not. The call throws if and only if everything ahead of CheckSum fits
        and its checksum cannot be formatted. */
    method Encode(buffer: array<byte>, offset: nat, options: Options) returns (size: nat, threw: bool)
      requires offset <= buffer.Length
      modifies this, buffer
      ensures buffer[..offset] == old(buffer[..offset])
      ensures threw
              <==> EncodeThrows(old(fields), options) && |Wire(Head(old(fields), options))| <= buffer.Length - offset
      ensures !threw ==> var out := Encoding(old(fields), options);
              if |out| <= buffer.Length - offset then size == |out| && buffer[offset..offset + size] == out
              else size == 0
      ensures fields == LeftBy(old(fields), options, buffer.Length - offset)
      ensures checksum == old(checksum) && valid == old(valid)
    {
      hide IndexOf, FieldBytes, Wire, CheckSumText, CheckSumFails;
      hide Sum, EncodeChecksum, FormatChecksum, Decimal, BodyLength;
      if options.setBodyLength {
        var length := CalculateBodyLength();
        fields := SetField(fields, Field(BODY_LENGTH, Decimal(length)), ReplaceFirst);
      }
      var gs := fields;
      assert gs == WithBodyLength(old(fields), options);
      hide WithBodyLength, SignedSum;
      ghost var head, out, before := Head(old(fields), options), Stamped(old(fields), options), buffer[..offset];
      HeadFitsFirst(old(fields), options);
      threw := false;
      var next := EncodeHead(buffer, offset, gs, options.setCheckSum);
      if next.None? {
        return 0, false;
      }
      var current, k := next.value, IndexOf(gs, CHECK_SUM);
      var bytes := buffer[offset..current];
      assert bytes == buffer[..current][offset..] == Wire(head);
      if k == |gs| || !options.setCheckSum {
        return current - offset, false;
      }
      var text := FormatChecksum(EncodeChecksum(bytes));
      EncoderChecksum(bytes);
      if text.None? {
        return 0, true;
      }
      var f := Field(CHECK_SUM, text.value);
      fields := SetField(fields, f, ReplaceFirst);
      next := EncodeField(buffer, current, f);
      WireOfStamped(old(fields), options, f);
      assert buffer[..offset] == buffer[..current][..offset] == before;
      if next.None? {
        return 0, false;
      }
      assert buffer[offset..next.value] == buffer[..next.value][offset..] == Wire(out);
      return next.value - offset, false;
    }
  }

  /** One round of the body length loop. */
  lemma BodyStep(fs: seq<Field>, i: nat)
    requires i < |fs|
    ensures |Wire(fs[..i + 1])| == |Wire(fs[..i])| + NumberOfDigits(fs[i].tag) + |fs[i].value| + 2
  {
    hide Wire, Decimal, NumberOfDigits;
    WireSnoc(fs, i);
    NumberOfDigitsIsLength(fs[i].tag);
  }

  lemma WireOfStamped(fs: seq<Field>, options: Options, f: Field)
    requires Rewrites(fs, options) && f == Field(CHECK_SUM, CheckSumText(Sum(Wire(Head(fs, options))) % 256))
    ensures Encoding(fs, options) == Wire(Head(fs, options)) + FieldBytes(f)
  {
    hide Wire, FieldBytes, Head, CheckSumText, Sum;
    WireConcat(Head(fs, options), [f]);
    WireOfOne(f);
  }

  lemma HeadFitsFirst(fs: seq<Field>, options: Options)
    ensures |Wire(Head(fs, options))| <= |Encoding(fs, options)|
  {
    hide Wire, WithBodyLength, CheckSumText, Sum, IndexOf;
    var head, out := Head(fs, options), Stamped(fs, options);
    assert out[..|head|] == head;
    WireOfPrefix(out, |head|);
  }

  /** What a scan of the bytes behind the first n adds to them. */
  function Behind(n: nat, r: Scan): Scan { Scan(r.fields, n + r.consumed, n + r.summed, r.complete, r.bad) }
}
