/** When decoding throws, and when it goes on: the exact shape of the bytes in each case. */
module CodecErrors {
  import opened Optional
  import opened Bytes
  import opened Fields
  import opened Codec
  import opened CodecTheorems

  /** The bytes and tags the wire format is made of. */
  lemma WireConstants()
    ensures SOH == 1 && EQUALS == 61 && MINUS == 45 && PLUS == 43 && INT_LIMIT == 2147483648
    ensures BODY_LENGTH == 9 && CHECK_SUM == 10
  {
  }

  // ------------------------------------------------------------------ reading numbers

  /** Digits, and behind them anything that does not go on with a digit. */
  predicate IsRun(digits: seq<byte>, rest: seq<byte>) {
    digits != [] && AllDigits(digits) && (rest != [] ==> !IsDigit(rest[0]))
  }

  lemma {:induction false} RunIs(digits: seq<byte>, rest: seq<byte>)
    requires AllDigits(digits) && (rest != [] ==> !IsDigit(rest[0]))
    ensures DigitRun(digits + rest) == |digits| && (digits + rest)[..|digits|] == digits
  {
    if digits == [] {
      assert digits + rest == rest;
    } else {
      assert (digits + rest)[1..] == digits[1..] + rest;
      RunIs(digits[1..], rest);
    }
  }

  /** What an int can hold. */
  function AsInt(v: int): Option<int> { if -INT_LIMIT <= v < INT_LIMIT then Some(v) else None }

  lemma SignedRunIs(digits: seq<byte>, rest: seq<byte>)
    requires IsRun(digits, rest)
    ensures SignedRun(digits + rest, false) == AsInt(Value(digits))
    ensures SignedRun(digits + rest, true) == AsInt(0 - Value(digits))
  {
    hide Value, DigitRun;
    RunIs(digits, rest);
  }

  /** std::from_chars reads the digits a text starts with, behind an optional minus sign, if an
      int can hold them; what follows does not matter. */
  lemma FromCharsReads(digits: seq<byte>, rest: seq<byte>)
    requires IsRun(digits, rest)
    ensures FromChars(digits + rest) == AsInt(Value(digits))
    ensures FromChars([MINUS] + (digits + rest)) == AsInt(0 - Value(digits))
  {
    hide Value, SignedRun;
    SignedRunIs(digits, rest);
    assert (digits + rest)[0] == digits[0];
    assert ([MINUS] + (digits + rest))[1..] == digits + rest;
  }

  /** Anything else it does not read. */
  lemma FromCharsFails(s: seq<byte>)
    requires (s == [] || !IsDigit(s[0])) && (s != [] && s[0] == MINUS ==> |s| == 1 || !IsDigit(s[1]))
    ensures FromChars(s) == None
  {
  }

  /** White space is space, tab, line feed, vertical tab, form feed and carriage return. */
  lemma SpaceIs(b: byte)
    ensures IsSpace(b) <==> b in {32, 9, 10, 11, 12, 13}
  {
  }

  lemma {:induction false} StoiSkips(space: seq<byte>, s: seq<byte>)
    requires forall k :: 0 <= k < |space| ==> IsSpace(space[k])
    ensures Stoi(space + s) == Stoi(s)
  {
    hide SignedRun;
    if space == [] {
      assert space + s == s;
    } else {
      assert (space + s)[1..] == space[1..] + s;
      StoiSkips(space[1..], s);
    }
  }

  /** std::stoi does the same behind white space, and takes a plus sign too. */
  lemma StoiReads(space: seq<byte>, digits: seq<byte>, rest: seq<byte>)
    requires IsRun(digits, rest) && forall k :: 0 <= k < |space| ==> IsSpace(space[k])
    ensures Stoi(space + (digits + rest)) == AsInt(Value(digits))
    ensures Stoi(space + ([PLUS] + (digits + rest))) == AsInt(Value(digits))
    ensures Stoi(space + ([MINUS] + (digits + rest))) == AsInt(0 - Value(digits))
  {
    hide Value, SignedRun;
    var s := digits + rest;
    SignedRunIs(digits, rest);
    StoiSkips(space, s);
    StoiSkips(space, [PLUS] + s);
    StoiSkips(space, [MINUS] + s);
    assert s[0] == digits[0];
    assert ([MINUS] + s)[1..] == s && ([PLUS] + s)[1..] == s;
  }

  lemma StoiFails(space: seq<byte>, s: seq<byte>)
    requires forall k :: 0 <= k < |space| ==> IsSpace(space[k])
    requires s == [] || (!IsDigit(s[0]) && !IsSpace(s[0]))
    requires s != [] && (s[0] == MINUS || s[0] == PLUS) ==> |s| == 1 || !IsDigit(s[1])
    ensures Stoi(space + s) == None
  {
    StoiSkips(space, s);
  }

  // --------------------------------------------------------------------- one field

  /** t is read as a tag that the dictionary knows. */
  predicate IsKnownTag(dict: Dictionary, t: seq<byte>) {
    var tag := FromChars(t);
    tag.Some? && tag.value >= 0 && tag.value in dict.known
  }

  predicate IsDataTag(dict: Dictionary, t: seq<byte>) { IsKnownTag(dict, t) && FromChars(t).value in dict.data }

  /** The length that the field before a data field announces. */
  function Announced(prev: seq<Field>): Option<nat> {
    if prev == [] then None
    else
      var length := Stoi(prev[|prev| - 1].value);
      if length.Some? && length.value >= 0 then Some(length.value) else None
  }

  /** The text t of a tag, an equals sign and what follows it cannot start a field: the tag
      cannot be read or is not known, or it is a data field without a length before it, or
      without a separator where that length ends. */
  predicate Malformed(dict: Dictionary, prev: seq<Field>, t: seq<byte>, rest: seq<byte>) {
    || !IsKnownTag(dict, t)
    || (IsDataTag(dict, t) && Announced(prev).None?)
    || (IsDataTag(dict, t) && Announced(prev).value < |rest| && rest[Announced(prev).value] != SOH)
  }

  lemma TagEnds(t: seq<byte>, rest: seq<byte>)
    requires EQUALS !in t
    ensures var buf := t + [EQUALS] + rest;
            Find(buf, EQUALS) == |t| && buf[..|t|] == t && buf[|t| + 1..] == rest
  {
    FindIs(t + [EQUALS] + rest, EQUALS, |t|);
  }

  lemma IntsAreSmall(t: seq<byte>)
    ensures FromChars(t).Some? ==> FromChars(t).value < INT_LIMIT
  {
  }

  /** Reading such a field is an exception. */
  lemma MalformedIsBad(dict: Dictionary, prev: seq<Field>, t: seq<byte>, rest: seq<byte>)
    requires EQUALS !in t
    ensures ParseField(dict, prev, t + [EQUALS] + rest).Bad? <==> Malformed(dict, prev, t, rest)
  {
    hide Find, FromChars, Stoi;
    TagEnds(t, rest);
    IntsAreSmall(t);
    var buf := t + [EQUALS] + rest;
    assert forall n :: 0 <= n < |rest| ==> buf[|t| + 1 + n] == rest[n];
  }

  lemma WithoutEquals(dict: Dictionary, prev: seq<Field>, buf: seq<byte>)
    requires EQUALS !in buf
    ensures ParseField(dict, prev, buf).NeedMore?
  {
    hide FromChars;
  }

  /** A field is read, whatever follows it, exactly from a known tag and a value that ends at its
      separator: the first one, or for a data field the one behind the announced length. */
  lemma WholeFieldIsRead(dict: Dictionary, prev: seq<Field>, t: seq<byte>, value: seq<byte>, rest: seq<byte>)
    requires EQUALS !in t && IsKnownTag(dict, t)
    requires if IsDataTag(dict, t) then Announced(prev) == Some(|value|) else SOH !in value
    ensures FromChars(t).value < INT_LIMIT
    ensures ParseField(dict, prev, t + [EQUALS] + (value + [SOH] + rest)) ==
            Parsed(Field(FromChars(t).value, value), |t| + |value| + 2)
  {
    hide Find, FromChars, Stoi;
    IntsAreSmall(t);
    var tail := value + [SOH] + rest;
    TagEnds(t, tail);
    var buf := t + [EQUALS] + tail;
    assert tail[|value|] == SOH && tail[..|value|] == value;
    assert buf[|t| + 1..|t| + 1 + |value|] == tail[..|value|] && buf[|t| + 1 + |value|] == tail[|value|];
    if !IsDataTag(dict, t) {
      FindIs(tail, SOH, |value|);
    }
  }

  /** Otherwise decoding waits for more bytes. */
  lemma UnfinishedFieldWaits(dict: Dictionary, prev: seq<Field>, t: seq<byte>, rest: seq<byte>)
    requires EQUALS !in t && !Malformed(dict, prev, t, rest)
    requires if IsDataTag(dict, t) then |rest| <= Announced(prev).value else SOH !in rest
    ensures ParseField(dict, prev, t + [EQUALS] + rest).NeedMore?
  {
    hide Find, FromChars, Stoi;
    TagEnds(t, rest);
    IntsAreSmall(t);
  }

  // ----------------------------------------------------------------- whole buffers

  /** What is left of buf behind its whole fields cannot start a field. */
  predicate BreaksOff(dict: Dictionary, fields: seq<Field>, left: seq<byte>) {
    var e := Find(left, EQUALS);
    e < |left| && Malformed(dict, fields, left[..e], left[e + 1..])
  }

  lemma BadMeansBreaksOff(dict: Dictionary, prev: seq<Field>, buf: seq<byte>)
    ensures ParseField(dict, prev, buf).Bad? <==> BreaksOff(dict, prev, buf)
  {
    hide ParseField, Malformed, Find;
    var e := Find(buf, EQUALS);
    if e < |buf| {
      assert buf == buf[..e] + [EQUALS] + buf[e + 1..];
      MalformedIsBad(dict, prev, buf[..e], buf[e + 1..]);
    } else {
      WithoutEquals(dict, prev, buf);
    }
  }

  /** The bytes of buf ahead of n are whole fields, and none of them is CheckSum. */
  predicate WholeUpTo(dict: Dictionary, d: Decoder, buf: seq<byte>, n: nat)
    requires n <= |buf|
  {
    var r := Decode(dict, d, buf[..n]);
    r.Decoded? && !r.complete && r.consumed == n
  }

  lemma {:induction false} ScanStopsAt(dict: Dictionary, prev: seq<Field>, buf: seq<byte>)
    requires ScanFields(dict, prev, buf).bad
    ensures var r := ScanFields(dict, prev, buf);
            && ScanFields(dict, prev, buf[..r.consumed]) == Scan(r.fields, r.consumed, r.consumed, false, false)
            && BreaksOff(dict, r.fields, buf[r.consumed..])
    decreases |buf|
  {
    hide ParseField, ScanFields, BreaksOff;
    var p, r := ParseField(dict, prev, buf), ScanFields(dict, prev, buf);
    ScanStep(dict, prev, buf);
    if p.Parsed? {
      var n := p.size;
      ScanStopsAt(dict, prev + [p.field], buf[n..]);
      var s := ScanFields(dict, prev + [p.field], buf[n..]);
      assert buf[..r.consumed][n..] == buf[n..][..s.consumed];
      assert buf[n..][s.consumed..] == buf[r.consumed..];
      PrefixParses(dict, prev, buf, r.consumed);
      ScanStep(dict, prev, buf[..r.consumed]);
    } else {
      NothingToScan(dict, prev);
      assert buf[..0] == [] && buf[0..] == buf;
      BadMeansBreaksOff(dict, prev, buf);
    }
  }

  /** A field is read from any part of the buffer that holds all of it. */
  lemma PrefixParses(dict: Dictionary, prev: seq<Field>, buf: seq<byte>, n: nat)
    requires ParseField(dict, prev, buf).Parsed? && ParseField(dict, prev, buf).size <= n <= |buf|
    ensures ParseField(dict, prev, buf[..n]) == ParseField(dict, prev, buf)
  {
    hide Find, FromChars, Stoi;
    ParsedShape(dict, prev, buf);
    var e, p, part := Find(buf, EQUALS), ParseField(dict, prev, buf), buf[..n];
    FindIs(part, EQUALS, e);
    assert part[..e] == buf[..e] && part[e + 1..p.size - 1] == buf[e + 1..p.size - 1];
    if FromChars(buf[..e]).value !in dict.data {
      FindIs(part[e + 1..], SOH, |p.field.value|);
    }
  }

  /** Decoding throws if and only if the buffer starts with whole fields, of which none is
      CheckSum, and what follows them cannot start a field. */
  lemma DecodeThrowsIff(dict: Dictionary, d: Decoder, buf: seq<byte>)
    ensures Decode(dict, d, buf).Threw? <==>
            exists n: nat :: && n <= |buf| && WholeUpTo(dict, d, buf, n)
                             && BreaksOff(dict, Decode(dict, d, buf[..n]).state.fields, buf[n..])
  {
    hide ScanFields, BreaksOff, Sum;
    if Decode(dict, d, buf).Threw? {
      ScanStopsAt(dict, d.fields, buf);
      var n := ScanFields(dict, d.fields, buf).consumed;
      assert WholeUpTo(dict, d, buf, n);
    } else if exists n: nat :: && n <= |buf| && WholeUpTo(dict, d, buf, n)
                               && BreaksOff(dict, Decode(dict, d, buf[..n]).state.fields, buf[n..]) {
      var n: nat :| && n <= |buf| && WholeUpTo(dict, d, buf, n)
                    && BreaksOff(dict, Decode(dict, d, buf[..n]).state.fields, buf[n..]);
      BreakingThrows(dict, d, buf, n);
      assert false;
    }
  }

  lemma BreakingThrows(dict: Dictionary, d: Decoder, buf: seq<byte>, n: nat)
    requires n <= |buf| && WholeUpTo(dict, d, buf, n)
    requires BreaksOff(dict, Decode(dict, d, buf[..n]).state.fields, buf[n..])
    ensures Decode(dict, d, buf).Threw?
  {
    hide ParseField, ScanFields, BreaksOff, Sum;
    var a, b := buf[..n], buf[n..];
    assert buf == a + b && a[n..] + b == b;
    ScanRestarts(dict, d.fields, a, b);
    var fields := ScanFields(dict, d.fields, a).fields;
    BadMeansBreaksOff(dict, fields, b);
    ScanStep(dict, fields, b);
  }

  /** In particular behind any readable fields without CheckSum. */
  lemma MalformedThrows(dict: Dictionary, fs: seq<Field>, t: seq<byte>, rest: seq<byte>)
    requires AllReadable(dict, [], fs) && !Has(fs, CHECK_SUM) && EQUALS !in t && Malformed(dict, fs, t, rest)
    ensures Decode(dict, FRESH, Wire(fs) + (t + [EQUALS] + rest)).Threw?
  {
    hide Wire, AllReadable, ScanFields, ParseField, IndexOf, Malformed;
    var bad := t + [EQUALS] + rest;
    ScanEncoded(dict, [], fs, bad);
    assert [] + fs == fs;
    MalformedIsBad(dict, fs, t, rest);
    ScanStep(dict, fs, bad);
  }
}
