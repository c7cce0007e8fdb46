/** Decimal strings to the minimal big-endian bytes an RLP integer needs. */
module EvmInteger {
  import opened Wrappers
  import opened Bytes

  const U16_LIMIT := 0x1_0000

  /** White space as `trim` sees it: the Unicode White_Space property. */
  predicate IsSpace(c: char) {
    || '\t' <= c <= '\r' || c == ' ' || c == '\U{85}' || c == '\U{A0}' || c == '\U{1680}'
    || '\U{2000}' <= c <= '\U{200A}' || c == '\U{2028}' || c == '\U{2029}' || c == '\U{202F}'
    || c == '\U{205F}' || c == '\U{3000}'
  }

  function TrimStart(s: string): string {
    if s != [] && IsSpace(s[0]) then TrimStart(s[1..]) else s
  }

  function TrimEnd(s: string): string {
    if s != [] && IsSpace(s[|s| - 1]) then TrimEnd(s[..|s| - 1]) else s
  }

  function Trim(s: string): string {
    TrimEnd(TrimStart(s))
  }

  predicate IsDecimal(s: string) {
    s != [] && forall i :: 0 <= i < |s| ==> '0' <= s[i] <= '9'
  }

  function Digit(c: char): (d: nat)
    requires '0' <= c <= '9'
    ensures d <= 9
  {
    (c as int) - ('0' as int)
  }

  /** The number a string of digits stands for. */
  function Decimal(s: string): nat
    requires forall i :: 0 <= i < |s| ==> '0' <= s[i] <= '9'
  {
    if s == [] then 0 else 10 * Decimal(s[..|s| - 1]) + Digit(s[|s| - 1])
  }

  /** The number a big-endian byte string stands for. */
  function FromBe(b: bytes): nat {
    if b == [] then 0 else b[0] * Pow256(|b| - 1) + FromBe(b[1..])
  }

  predicate Minimal(b: bytes) {
    b == [] || b[0] != 0
  }

  // ----- one digit --------------------------------------------------------------------------------------

  lemma CarryStep(here: byte, carry: nat, p: nat, tail: nat, value: nat, digit: nat)
    requires tail + carry * p == 10 * value + digit
    ensures var next := here * 10 + carry;
            ((next % 256) * p + tail) + (next / 256) * (256 * p) == 10 * (here * p + value) + digit
  {
    var next := here * 10 + carry;
    var high, low := next / 256, next % 256;
    assert next == 256 * high + low;
    calc {
      (low * p + tail) + high * (256 * p);
      { assert high * (256 * p) == (256 * high) * p; }
      (low * p + (256 * high) * p) + tail;
      { assert (low + 256 * high) * p == low * p + (256 * high) * p; }
      next * p + tail;
      { assert (here * 10 + carry) * p == (here * 10) * p + carry * p; }
      (here * 10) * p + carry * p + tail;
      { assert (here * 10) * p == 10 * (here * p); }
      10 * (here * p + value) + digit;
    }
  }

  /** Multiplies by ten and adds a digit, byte by byte from the right; a carry out of the front adds a byte. */
  method AppendDigit(number: bytes, digit: nat) returns (result: bytes)
    requires digit <= 9
    ensures FromBe(result) == 10 * FromBe(number) + digit
    ensures result != [] || number == []
  {
    result := number;
    var carry: nat := digit;
    var i := |result|;
    assert number[i..] == [] && result[i..] == [];
    while i > 0
      invariant 0 <= i <= |result| == |number|
      invariant result[..i] == number[..i]
      invariant carry <= 10
      invariant FromBe(result[i..]) + carry * Pow256(|number| - i) == 10 * FromBe(number[i..]) + digit
    {
      i := i - 1;
      var next := result[i] * 10 + carry;
      assert next < U16_LIMIT;
      CarryStep(number[i], carry, Pow256(|number| - i - 1), FromBe(result[i + 1..]), FromBe(number[i + 1..]), digit);
      assert result[..i + 1][i] == number[..i + 1][i];
      ghost var before := result;
      result := result[i := next % 256];
      carry := next / 256;
      assert result[i..][1..] == before[i + 1..] && number[i..][1..] == number[i + 1..];
      assert result[..i] == before[..i + 1][..i] && number[..i] == number[..i + 1][..i];
    }
    assert result[0..] == result && number[0..] == number;
    if carry != 0 {
      assert ([carry] + result)[1..] == result;
      result := [carry] + result;
    }
  }

  // ----- the whole string -----------------------------------------------------------------------------------

  /** Every decimal string, white space around it aside, becomes the minimal bytes of its value; all else is refused. */
  method ParseUint(text: string) returns (r: Result<bytes, string>)
    ensures r.Success? <==> IsDecimal(Trim(text))
    ensures r.Success? ==> FromBe(r.value) == Decimal(Trim(text)) && Minimal(r.value)
  {
    var value := Trim(text);
    if value == [] || exists i :: 0 <= i < |value| && !('0' <= value[i] <= '9') {
      return Failure("invalid EVM integer");
    }
    var result: bytes := [0];
    assert Pow256(0) == 1 && result[1..] == [];
    var i := 0;
    while i < |value|
      invariant 0 <= i <= |value|
      invariant result != []
      invariant FromBe(result) == Decimal(value[..i])
    {
      result := AppendDigit(result, Digit(value[i]));
      assert value[..i + 1][..i] == value[..i];
      i := i + 1;
    }
    assert value[..i] == value;
    while |result| > 1 && result[0] == 0
      invariant result != []
      invariant FromBe(result) == Decimal(value)
    {
      result := result[1..];
    }
    return Success(if result == [0] then [] else result);
  }

  // ----- the minimal form is the only one ---------------------------------------------------------------------

  lemma MulOrder(x: nat, y: nat, p: nat)
    ensures x <= y ==> x * p <= y * p
  {
  }

  lemma {:induction false} BeBounds(b: bytes)
    ensures FromBe(b) < Pow256(|b|)
    ensures b != [] ==> var x: nat := b[0]; x * Pow256(|b| - 1) <= FromBe(b) < (x + 1) * Pow256(|b| - 1)
  {
    if b != [] {
      BeBounds(b[1..]);
      var x: nat, p := b[0], Pow256(|b| - 1);
      assert (x + 1) * p == x * p + p;
      MulOrder(x + 1, 256, p);
      assert Pow256(|b|) == 256 * p;
    }
  }

  lemma {:induction false} PowGrows(m: nat, n: nat)
    requires m <= n
    ensures Pow256(m) <= Pow256(n)
  {
    if m < n {
      PowGrows(m, n - 1);
    }
  }

  lemma ShorterIsSmaller(a: bytes, b: bytes)
    requires Minimal(b) && |a| < |b|
    ensures FromBe(a) < FromBe(b)
  {
    hide FromBe, Pow256;
    BeBounds(a);
    BeBounds(b);
    PowGrows(|a|, |b| - 1);
    MulOrder(1, b[0], Pow256(|b| - 1));
  }

  lemma LeadingByte(x: nat, y: nat, p: nat, v: nat)
    requires x * p <= v < (x + 1) * p && y * p <= v < (y + 1) * p
    ensures x == y
  {
    MulOrder(x + 1, y, p);
    MulOrder(y + 1, x, p);
  }

  lemma {:induction false} SameLengthUnique(a: bytes, b: bytes)
    requires |a| == |b| && FromBe(a) == FromBe(b)
    ensures a == b
  {
    if a != [] {
      BeBounds(a);
      BeBounds(b);
      LeadingByte(a[0], b[0], Pow256(|a| - 1), FromBe(a));
      SameLengthUnique(a[1..], b[1..]);
      assert a == [a[0]] + a[1..] && b == [b[0]] + b[1..];
    }
  }

  /** Two minimal byte strings of the same value are the same: the parser's answer is the only RLP form. */
  lemma MinimalIsUnique(a: bytes, b: bytes)
    requires Minimal(a) && Minimal(b) && FromBe(a) == FromBe(b)
    ensures a == b
  {
    if |a| == |b| {
      SameLengthUnique(a, b);
    } else if |a| < |b| {
      ShorterIsSmaller(a, b);
    } else {
      ShorterIsSmaller(b, a);
    }
  }

  /** Zero, and only zero, is the empty string. */
  lemma ZeroIsEmpty(b: bytes)
    requires Minimal(b)
    ensures FromBe(b) == 0 <==> b == []
  {
    if b != [] {
      ShorterIsSmaller([], b);
    }
  }

  // ----- white space and digits -----------------------------------------------------------------------------

  predicate Blank(s: string) {
    forall i :: 0 <= i < |s| ==> IsSpace(s[i])
  }

  /** Neither begins nor ends with white space. */
  predicate Bare(s: string) {
    s != [] ==> !IsSpace(s[0]) && !IsSpace(s[|s| - 1])
  }

  lemma {:induction false} StartTrimmed(a: string, s: string)
    requires Blank(a) && (s != [] ==> !IsSpace(s[0]))
    ensures TrimStart(a + s) == s
  {
    if a == [] {
      assert a + s == s;
    } else {
      assert (a + s)[1..] == a[1..] + s;
      StartTrimmed(a[1..], s);
    }
  }

  lemma {:induction false} EndTrimmed(s: string, b: string)
    requires Blank(b) && (s != [] ==> !IsSpace(s[|s| - 1]))
    ensures TrimEnd(s + b) == s
  {
    if b == [] {
      assert s + b == s;
    } else {
      var n := |b| - 1;
      assert (s + b)[..|s| + n] == s + b[..n] && (s + b)[|s| + n] == b[n];
      EndTrimmed(s, b[..n]);
    }
  }

  lemma {:induction false} StartCut(s: string) returns (a: string)
    ensures Blank(a) && s == a + TrimStart(s)
    ensures TrimStart(s) != [] ==> !IsSpace(TrimStart(s)[0])
  {
    if s != [] && IsSpace(s[0]) {
      var rest := StartCut(s[1..]);
      a := [s[0]] + rest;
    } else {
      a := [];
    }
  }

  lemma {:induction false} EndCut(s: string) returns (b: string)
    ensures Blank(b) && s == TrimEnd(s) + b
    ensures TrimEnd(s) != [] ==> !IsSpace(TrimEnd(s)[|TrimEnd(s)| - 1])
  {
    if s != [] && IsSpace(s[|s| - 1]) {
      var rest := EndCut(s[..|s| - 1]);
      b := rest + [s[|s| - 1]];
    } else {
      b := [];
    }
  }

  /** Trimming takes exactly the white space around a text that has none at its own ends. */
  lemma TrimExactly(s: string, t: string)
    ensures Trim(s) == t <==> Bare(t) && exists a, b :: Blank(a) && Blank(b) && s == a + t + b
  {
    var a := StartCut(s);
    var b := EndCut(TrimStart(s));
    assert s == a + Trim(s) + b && Bare(Trim(s)) by {
      assert TrimStart(s) == Trim(s) + b;
      assert Trim(s) != [] ==> Trim(s)[0] == TrimStart(s)[0];
    }
    forall a, b | Bare(t) && Blank(a) && Blank(b) && s == a + t + b ensures Trim(s) == t {
      if t == [] {
        StartTrimmed(a + b, []);
        assert a + b + [] == s;
      } else {
        StartTrimmed(a, t + b);
        assert a + (t + b) == s;
        EndTrimmed(t, b);
      }
    }
  }

  predicate AllDigits(s: string) {
    forall i :: 0 <= i < |s| ==> '0' <= s[i] <= '9'
  }

  function DigitOf(d: nat): (c: char)
    requires d < 10
    ensures '0' <= c <= '9' && Digit(c) == d
  {
    (d + '0' as int) as char
  }

  /** The decimal digits of a number. */
  function Digits(n: nat): string {
    (if n < 10 then [] else Digits(n / 10)) + [DigitOf(n % 10)]
  }

  lemma OneMoreDigit(s: string, d: nat)
    requires AllDigits(s) && d < 10
    ensures AllDigits(s + [DigitOf(d)]) && Decimal(s + [DigitOf(d)]) == 10 * Decimal(s) + d
  {
    var longer := s + [DigitOf(d)];
    assert longer[..|longer| - 1] == s;
  }

  /** Every number is read back from its digits, with any zeros before them. */
  lemma {:induction false} DecimalOfDigits(n: nat, zeros: string)
    requires forall i :: 0 <= i < |zeros| ==> zeros[i] == '0'
    ensures IsDecimal(zeros + Digits(n)) && Decimal(zeros + Digits(n)) == n
  {
    hide Decimal, DigitOf;
    if n < 10 {
      ZerosAreNothing(zeros);
      OneMoreDigit(zeros, n);
      assert [] + [DigitOf(n)] == [DigitOf(n)];
    } else {
      DecimalOfDigits(n / 10, zeros);
      OneMoreDigit(zeros + Digits(n / 10), n % 10);
      assert zeros + Digits(n / 10) + [DigitOf(n % 10)] == zeros + Digits(n);
    }
  }

  lemma {:induction false} ZerosAreNothing(zeros: string)
    requires forall i :: 0 <= i < |zeros| ==> zeros[i] == '0'
    ensures Decimal(zeros) == 0
  {
    if zeros != [] {
      ZerosAreNothing(zeros[..|zeros| - 1]);
    }
  }

  /** Only decimal digits make a number: each is one of the ten, and a number has at least one. */
  lemma DecimalExactly(s: string)
    ensures IsDecimal(s) <==> |s| > 0 && forall i :: 0 <= i < |s| ==> s[i] in "0123456789"
  {
    if |s| > 0 {
      forall i | 0 <= i < |s| ensures '0' <= s[i] <= '9' <==> s[i] in "0123456789" {
        IsOneOfTen(s[i]);
      }
    }
  }

  lemma IsOneOfTen(c: char)
    ensures '0' <= c <= '9' <==> c in "0123456789"
  {
    var ten := "0123456789";
    assert forall i :: 0 <= i < |ten| ==> ten[i] == ('0' as int + i) as char;
    if '0' <= c <= '9' {
      assert c == ten[c as int - '0' as int];
    }
  }
}
