/** Bytes and the decimal texts the codec reads and writes. */
module Bytes {
  import opened Optional

  type byte = x: int | 0 <= x < 256

  const SOH: byte := 1
  const EQUALS: byte := 61
  const MINUS: byte := 45
  const PLUS: byte := 43
  const INT_LIMIT: int := 0x8000_0000

  predicate IsDigit(b: byte) { 48 <= b <= 57 }

  predicate AllDigits(s: seq<byte>) { forall k :: 0 <= k < |s| ==> IsDigit(s[k]) }

  /** The decimal text of n, as std::to_string and std::to_chars write it. */
  function Decimal(n: nat): (r: seq<byte>)
    ensures |r| >= 1 && AllDigits(r)
  {
    if n < 10 then [48 + n] else Decimal(n / 10) + [48 + n % 10]
  }

  /** The number a run of digits denotes. */
  function Value(s: seq<byte>): nat
    requires AllDigits(s)
  {
    if s == [] then 0 else 10 * Value(s[..|s| - 1]) + (s[|s| - 1] - 48)
  }

  lemma {:induction false} ValueOfDecimal(n: nat)
    ensures Value(Decimal(n)) == n
  {
    if n >= 10 {
      ValueOfDecimal(n / 10);
      assert Decimal(n)[..|Decimal(n)| - 1] == Decimal(n / 10);
    }
  }

  lemma DecimalSnoc(q: nat, r: nat)
    requires r < 10
    ensures Decimal(10 * q + r) == if q == 0 then [48 + r] else Decimal(q) + [48 + r]
  {
    assert (10 * q + r) / 10 == q && (10 * q + r) % 10 == r;
  }

  lemma ValueSnoc(t: seq<byte>, d: byte)
    requires AllDigits(t) && IsDigit(d)
    ensures AllDigits(t + [d]) && Value(t + [d]) == 10 * Value(t) + (d - 48)
  {
    assert (t + [d])[..|t|] == t;
  }

  /** The decimal text is the only shortest text of its value. */
  lemma {:induction false} DecimalIsShortest(s: seq<byte>)
    requires AllDigits(s) && s != []
    ensures |Decimal(Value(s))| <= |s|
    ensures |Decimal(Value(s))| == |s| ==> Decimal(Value(s)) == s
    decreases |s|
  {
    hide Decimal;
    var t, d := s[..|s| - 1], s[|s| - 1];
    assert s == t + [d];
    ValueSnoc(t, d);
    DecimalSnoc(Value(t), d - 48);
    if t != [] {
      DecimalIsShortest(t);
    }
  }

  /** number_of_digits: one plus a comparison with each power of ten up to 10^19. */
  function NumberOfDigits(n: nat): nat {
    1
    + (if n >= 10 then 1 else 0)
    + (if n >= 100 then 1 else 0)
    + (if n >= 1000 then 1 else 0)
    + (if n >= 10000 then 1 else 0)
    + (if n >= 100000 then 1 else 0)
    + (if n >= 1000000 then 1 else 0)
    + (if n >= 10000000 then 1 else 0)
    + (if n >= 100000000 then 1 else 0)
    + (if n >= 1000000000 then 1 else 0)
    + (if n >= 10000000000 then 1 else 0)
    + (if n >= 100000000000 then 1 else 0)
    + (if n >= 1000000000000 then 1 else 0)
    + (if n >= 10000000000000 then 1 else 0)
    + (if n >= 100000000000000 then 1 else 0)
    + (if n >= 1000000000000000 then 1 else 0)
    + (if n >= 10000000000000000 then 1 else 0)
    + (if n >= 100000000000000000 then 1 else 0)
    + (if n >= 1000000000000000000 then 1 else 0)
    + (if n >= 10000000000000000000 then 1 else 0)
  }

  /** For every 64-bit value the comparisons count exactly the digits of its decimal text. */
  lemma {:induction false} NumberOfDigitsIsLength(n: nat)
    requires n < 100000000000000000000
    ensures NumberOfDigits(n) == |Decimal(n)|
  {
    if n >= 10 {
      NumberOfDigitsIsLength(n / 10);
    }
  }

  // ---------------------------------------------------------------- reading

  /** How many digits s starts with. */
  function DigitRun(s: seq<byte>): (k: nat)
    ensures k <= |s| && AllDigits(s[..k]) && (k < |s| ==> !IsDigit(s[k]))
  {
    if s == [] || !IsDigit(s[0]) then 0
    else
      var k := DigitRun(s[1..]);
      assert s[..k + 1] == [s[0]] + s[1..][..k];
      k + 1
  }

  /** Digits after an optional sign, read as a 32-bit int; what follows them is ignored. */
  function SignedRun(s: seq<byte>, negative: bool): Option<int> {
    var k := DigitRun(s);
    if k == 0 then None
    else
      var v: int := Value(s[..k]);
      if negative then (if v <= INT_LIMIT then Some(-v) else None)
      else if v < INT_LIMIT then Some(v) else None
  }

  /** std::from_chars for int: an optional minus sign and at least one digit. */
  function FromChars(s: seq<byte>): Option<int> {
    if s != [] && s[0] == MINUS then SignedRun(s[1..], true) else SignedRun(s, false)
  }

  predicate IsSpace(b: byte) { b == 32 || 9 <= b <= 13 }

  /** std::stoi: leading white space, an optional sign and at least one digit. */
  function Stoi(s: seq<byte>): Option<int> {
    if s != [] && IsSpace(s[0]) then Stoi(s[1..])
    else if s != [] && s[0] == MINUS then SignedRun(s[1..], true)
    else if s != [] && s[0] == PLUS then SignedRun(s[1..], false)
    else SignedRun(s, false)
  }

  lemma {:induction false} DigitRunOfDigits(s: seq<byte>)
    requires AllDigits(s)
    ensures DigitRun(s) == |s|
  {
    if s != [] {
      DigitRunOfDigits(s[1..]);
    }
  }

  /** Decimal texts of ints read back. */
  lemma ReadDecimal(n: nat)
    requires n < INT_LIMIT
    ensures FromChars(Decimal(n)) == Some(n) && Stoi(Decimal(n)) == Some(n)
  {
    var s := Decimal(n);
    DigitRunOfDigits(s);
    ValueOfDecimal(n);
    assert IsDigit(s[0]) && s[..|s|] == s;
  }

  /** Any other text read as the tag n is longer than its decimal text. */
  lemma TagTextIsShortest(s: seq<byte>)
    requires FromChars(s).Some? && FromChars(s).value >= 0
    ensures var t := Decimal(FromChars(s).value); |t| <= |s| && (|t| == |s| ==> t == s)
  {
    var t := if s[0] == MINUS then s[1..] else s;
    var k := DigitRun(t);
    DecimalIsShortest(t[..k]);
    assert k == |t| ==> t[..k] == t;
  }

  /** The index of the first b in s, or |s|, as std::find returns it. */
  function Find(s: seq<byte>, b: byte): (k: nat)
    ensures k <= |s| && (k < |s| ==> s[k] == b) && forall j :: 0 <= j < k ==> s[j] != b
  {
    if s == [] || s[0] == b then 0
    else
      var k := Find(s[1..], b);
      assert forall j :: 0 < j < k + 1 ==> s[j] == s[1..][j - 1];
      k + 1
  }

  /** Find depends only on the bytes up to the first b. */
  lemma FindIs(s: seq<byte>, b: byte, k: nat)
    requires k < |s| && s[k] == b && forall j :: 0 <= j < k ==> s[j] != b
    ensures Find(s, b) == k
  {
  }

  // ------------------------------------------------------------------ pieces

  /** All the pieces one after the other. */
  function Flatten(pieces: seq<seq<byte>>): seq<byte> {
    if pieces == [] then [] else pieces[0] + Flatten(pieces[1..])
  }

  lemma {:induction false} FlattenConcat(a: seq<seq<byte>>, b: seq<seq<byte>>)
    ensures Flatten(a + b) == Flatten(a) + Flatten(b)
  {
    if a == [] {
      assert a + b == b;
    } else {
      assert (a + b)[1..] == a[1..] + b;
      FlattenConcat(a[1..], b);
    }
  }

  lemma FlattenSnoc(pieces: seq<seq<byte>>, i: nat)
    requires i < |pieces|
    ensures Flatten(pieces[..i + 1]) == Flatten(pieces[..i]) + pieces[i]
  {
    assert pieces[..i + 1] == pieces[..i] + [pieces[i]];
    FlattenConcat(pieces[..i], [pieces[i]]);
    var one := [pieces[i]];
    assert |one[1..]| == 0 && Flatten(one) == one[0] + Flatten(one[1..]);
  }

  lemma FlattenPrefix(pieces: seq<seq<byte>>, i: nat)
    requires i <= |pieces|
    ensures Flatten(pieces[..i]) <= Flatten(pieces)
  {
    assert pieces == pieces[..i] + pieces[i..];
    FlattenConcat(pieces[..i], pieces[i..]);
  }

  // ---------------------------------------------------------------- checksums

  function Sum(s: seq<byte>): nat {
    if s == [] then 0 else Sum(s[..|s| - 1]) + s[|s| - 1]
  }

  lemma {:induction false} SumConcat(s: seq<byte>, t: seq<byte>)
    ensures Sum(s + t) == Sum(s) + Sum(t)
    decreases |t|
  {
    if t == [] {
      assert s + t == s;
    } else {
      assert (s + t)[..|s + t| - 1] == s + t[..|t| - 1];
      SumConcat(s, t[..|t| - 1]);
    }
  }

  /** A byte as a signed 8-bit char. */
  function Signed(b: byte): int { if b < 128 then b else b - 256 }

  /** The int sum of the chars: what std::reduce with an int start adds up. */
  function SignedSum(s: seq<byte>): int {
    if s == [] then 0 else SignedSum(s[..|s| - 1]) + Signed(s[|s| - 1])
  }

  /** An int converted to a signed 8-bit char. */
  function WrapChar(x: int): int { (x + 128) % 256 - 128 }

  /** The char sum of the chars: what std::reduce without a start adds up. */
  function CharSum(s: seq<byte>): int {
    if s == [] then 0 else WrapChar(CharSum(s[..|s| - 1]) + Signed(s[|s| - 1]))
  }

  lemma Congruent(a: int, b: int, q: int)
    requires a == b + 256 * q
    ensures a % 256 == b % 256
  {
  }

  lemma CongruentSum(a: int, b: int, x: int, y: int)
    requires a % 256 == b % 256 && x % 256 == y % 256
    ensures (a + x) % 256 == (b + y) % 256
  {
    Congruent(a + x, b + y, a / 256 - b / 256 + x / 256 - y / 256);
  }

  /** Converting to char, or reading a byte as a char, changes it by a multiple of 256 and gives
      what a signed 8-bit number can hold. */
  lemma WrapIsCongruent(x: int, b: byte)
    ensures WrapChar(x) % 256 == x % 256 && Signed(b) % 256 == b % 256
    ensures -128 <= WrapChar(x) < 128 && -128 <= Signed(b) < 128
  {
    Congruent(WrapChar(x), x, -((x + 128) / 256));
  }

  /** All three sums agree modulo 256. */
  lemma {:induction false} SumsAgree(s: seq<byte>)
    ensures CharSum(s) % 256 == Sum(s) % 256 && SignedSum(s) % 256 == Sum(s) % 256
  {
    if s != [] {
      var t, b := s[..|s| - 1], s[|s| - 1];
      SumsAgree(t);
      WrapIsCongruent(CharSum(t) + Signed(b), b);
      CongruentSum(CharSum(t), Sum(t), Signed(b), b);
      CongruentSum(SignedSum(t), Sum(t), Signed(b), b);
    }
  }

  lemma {:induction false} SignedSumOfSevenBit(s: seq<byte>)
    requires forall k :: 0 <= k < |s| ==> s[k] < 128
    ensures SignedSum(s) == Sum(s)
  {
    if s != [] {
      SignedSumOfSevenBit(s[..|s| - 1]);
    }
  }
}
