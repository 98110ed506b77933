/** Characters, decimal numerals and the C++ number parsers the sensor relies on. */
module Text {

  datatype Option<+T> = None | Some(value: T)

  /** The result of code that may throw a C++ exception. */
  datatype Outcome<+T> = Ok(value: T) | Throws

  const INT_MIN := -0x8000_0000
  const INT_MAX := 0x7FFF_FFFF
  const TWO_TO_64 := 0x1_0000_0000_0000_0000

  predicate IsDigit(c: char) {
    '0' <= c <= '9'
  }

  /** isspace in the C locale. */
  predicate IsSpace(c: char) {
    c == ' ' || '\t' <= c <= '\r'
  }

  /** iscntrl in the C locale. */
  predicate IsControl(c: char) {
    c < ' ' || c == '\U{7F}'
  }

  predicate AllDigits(s: string) {
    forall i :: 0 <= i < |s| ==> IsDigit(s[i])
  }

  function DigitChar(d: nat): (c: char)
    requires d < 10
    ensures IsDigit(c) && c as int == '0' as int + d
  {
    '0' + d as char
  }

  function DigitValue(c: char): nat
    requires IsDigit(c)
  {
    c as int - '0' as int
  }

  /** The decimal numeral of n: std::to_string on a non-negative number. */
  function Digits(n: nat): (s: string)
    ensures s != "" && AllDigits(s)
  {
    if n < 10 then [DigitChar(n)] else Digits(n / 10) + [DigitChar(n % 10)]
  }

  /** The number a string of digits denotes. */
  function Value(s: string): nat
    requires AllDigits(s)
  {
    if s == "" then 0 else Value(s[..|s| - 1]) * 10 + DigitValue(s[|s| - 1])
  }

  /** A numeral that to_string can print: no superfluous leading zero. */
  predicate Canonical(s: string) {
    s != "" && AllDigits(s) && (s[0] == '0' ==> |s| == 1)
  }

  lemma {:induction false} ValueOfDigits(n: nat)
    ensures Value(Digits(n)) == n
    ensures Canonical(Digits(n))
    ensures n > 0 ==> Digits(n)[0] != '0'
  {
    if n < 10 {
    } else {
      var s := Digits(n);
      assert s[..|s| - 1] == Digits(n / 10);
      ValueOfDigits(n / 10);
    }
  }

  lemma {:induction false} PositiveValue(s: string)
    requires AllDigits(s) && s != "" && s[0] != '0'
    ensures Value(s) > 0
  {
    if |s| == 1 {
    } else {
      PositiveValue(s[..|s| - 1]);
    }
  }

  lemma OneMoreDigit(m: nat, d: nat)
    requires m > 0 && d < 10
    ensures Digits(m * 10 + d) == Digits(m) + [DigitChar(d)]
  {
    var n := m * 10 + d;
    assert n / 10 == m && n % 10 == d;
  }

  lemma {:induction false} DigitsOfValue(s: string)
    requires Canonical(s)
    ensures Digits(Value(s)) == s
  {
    hide Digits;
    var n := |s| - 1;
    if n == 0 {
      SingleDigit(s[0]);
      assert s[..0] == "" && s == [s[0]];
    } else {
      DigitsOfValue(s[..n]);
      PositiveValue(s[..n]);
      OneMoreDigit(Value(s[..n]), DigitValue(s[n]));
      assert s == s[..n] + [s[n]];
    }
  }

  lemma SingleDigit(c: char)
    requires IsDigit(c)
    ensures Digits(DigitValue(c)) == [c]
  {
  }

  /** Printing the number a digit string denotes gives the string back exactly when it is canonical. */
  lemma NumeralRoundTrip(s: string)
    requires AllDigits(s)
    ensures Digits(Value(s)) == s <==> Canonical(s)
  {
    ValueOfDigits(Value(s));
    if Canonical(s) {
      DigitsOfValue(s);
    }
  }

  /** The longest prefix of s whose characters satisfy p has this length. */
  function Span(s: string, p: char -> bool): (n: nat)
    ensures n <= |s|
    ensures forall i :: 0 <= i < n ==> p(s[i])
    ensures n < |s| ==> !p(s[n])
  {
    if s == "" || !p(s[0]) then 0 else 1 + Span(s[1..], p)
  }

  lemma {:induction false} SpanUnique(s: string, p: char -> bool, n: nat)
    requires n <= |s|
    requires forall i :: 0 <= i < n ==> p(s[i])
    requires n < |s| ==> !p(s[n])
    ensures Span(s, p) == n
  {
    if n == 0 {
    } else {
      assert p(s[0]);
      assert forall i :: 0 <= i < n - 1 ==> s[1..][i] == s[i + 1];
      SpanUnique(s[1..], p, n - 1);
    }
  }

  /** The integer strtol finds at the front of s: white space, one sign, then digits; trailing text is ignored. */
  function LeadingInteger(s: string): Option<int> {
    SignedInteger(s[Span(s, IsSpace)..])
  }

  function SignedInteger(t: string): Option<int> {
    if t != "" && t[0] == '-' then
      var m := Magnitude(t[1..]);
      if m.Some? then Some(-m.value) else None
    else if t != "" && t[0] == '+' then Magnitude(t[1..])
    else Magnitude(t)
  }

  function Magnitude(body: string): Option<int> {
    var digits := body[..Span(body, IsDigit)];
    if digits == "" then None else Some(Value(digits))
  }

  /** std::stoi: throws invalid_argument without digits and out_of_range outside a 32-bit int. */
  function StoI(s: string): (r: Outcome<int>)
    ensures r.Ok? ==> INT_MIN <= r.value <= INT_MAX
  {
    match LeadingInteger(s)
    case None => Throws
    case Some(v) => if INT_MIN <= v <= INT_MAX then Ok(v) else Throws
  }

  /** std::stoul on a 64-bit long: a minus sign negates modulo 2^64. */
  function StoUL(s: string): (r: Outcome<nat>)
    ensures r.Ok? ==> r.value < TWO_TO_64
  {
    match LeadingInteger(s)
    case None => Throws
    case Some(v) =>
      if -TWO_TO_64 < v < TWO_TO_64 then Ok(v % TWO_TO_64) else Throws
  }

  lemma {:induction false} SkipsSpace(gap: string, s: string)
    requires forall i :: 0 <= i < |gap| ==> IsSpace(gap[i])
    requires s == "" || !IsSpace(s[0])
    ensures (gap + s)[Span(gap + s, IsSpace)..] == s
  {
    var t := gap + s;
    assert forall i :: 0 <= i < |gap| ==> t[i] == gap[i];
    assert |gap| < |t| ==> t[|gap|] == s[0];
    SpanUnique(t, IsSpace, |gap|);
    assert t[|gap|..] == s;
  }

  /** A number in a text, and what must not follow or replace its digits. */
  predicate NumberInText(gap: string, sign: string, digits: string, junk: string) {
    && (forall i :: 0 <= i < |gap| ==> IsSpace(gap[i]))
    && sign in {"", "-", "+"} && AllDigits(digits)
    && (junk == "" || !IsDigit(junk[0]))
    && (digits == "" && sign == "" ==> junk == "" || (!IsSpace(junk[0]) && junk[0] != '-' && junk[0] != '+'))
  }

  function Signed(sign: string, n: int): int {
    if sign == "-" then -n else n
  }

  lemma MagnitudeOfText(digits: string, junk: string)
    requires AllDigits(digits) && (junk == "" || !IsDigit(junk[0]))
    ensures Magnitude(digits + junk) == if digits == "" then None else Some(Value(digits))
  {
    var body := digits + junk;
    assert forall i :: 0 <= i < |digits| ==> body[i] == digits[i];
    assert |digits| < |body| ==> body[|digits|] == junk[0];
    SpanUnique(body, IsDigit, |digits|);
    assert body[..|digits|] == digits;
  }

  lemma SignOfText(sign: string, body: string)
    requires sign in {"", "-", "+"} && (sign == "" ==> body == "" || (body[0] != '-' && body[0] != '+'))
    ensures SignedInteger(sign + body) ==
            if Magnitude(body).None? then None else Some(Signed(sign, Magnitude(body).value))
  {
    hide Magnitude;
    var t := sign + body;
    if sign == "" {
      assert t == body;
    } else {
      assert t[0] == sign[0] && t[1..] == body;
    }
  }

  /** White space, an optional sign, digits and whatever follows them. */
  lemma LeadingOfText(gap: string, sign: string, digits: string, junk: string)
    requires NumberInText(gap, sign, digits, junk)
    ensures LeadingInteger(gap + (sign + (digits + junk)))
         == if digits == "" then None else Some(Signed(sign, Value(digits)))
  {
    hide Magnitude, Value, SignedInteger;
    var body := digits + junk;
    if digits == "" {
      assert body == junk;
    } else {
      assert body[0] == digits[0] && IsDigit(body[0]);
    }
    MagnitudeOfText(digits, junk);
    SignOfText(sign, body);
    if sign == "" {
      assert sign + body == body;
    } else {
      assert (sign + body)[0] == sign[0];
    }
    SkipsSpace(gap, sign + body);
  }

  /** stoi takes the number at the front of a text and throws without one or when it leaves the 32-bit range. */
  lemma StoIOfText(gap: string, sign: string, digits: string, junk: string)
    requires NumberInText(gap, sign, digits, junk)
    ensures StoI(gap + (sign + (digits + junk)))
         == if digits != "" && -2147483648 <= Signed(sign, Value(digits)) <= 2147483647
            then Ok(Signed(sign, Value(digits))) else Throws
  {
    hide LeadingInteger, Value;
    LeadingOfText(gap, sign, digits, junk);
  }

  /** stoul likewise; a negative number comes out modulo 2^64. */
  lemma StoULOfText(gap: string, sign: string, digits: string, junk: string)
    requires NumberInText(gap, sign, digits, junk)
    ensures StoUL(gap + (sign + (digits + junk)))
         == if digits == "" || Value(digits) >= 18446744073709551616 then Throws
            else if sign == "-" && Value(digits) > 0 then Ok(18446744073709551616 - Value(digits))
            else Ok(Value(digits))
  {
    hide LeadingInteger, Value;
    LeadingOfText(gap, sign, digits, junk);
  }

  /** Reading back a printed number succeeds with that number exactly when it fits an int. */
  lemma StoIOfDigits(n: nat)
    ensures StoI(Digits(n)) == if n <= INT_MAX then Ok(n) else Throws
  {
    var s := Digits(n);
    ValueOfDigits(n);
    assert IsDigit(s[0]);
    SpanUnique(s, IsSpace, 0);
    assert s[0..] == s;
    SpanUnique(s, IsDigit, |s|);
    assert s[..|s|] == s;
  }

  /** Each control character becomes a space (the std::transform at the end of iterateProc). */
  function Blank(s: string): (r: string)
    ensures |r| == |s|
    ensures forall i :: 0 <= i < |s| ==> r[i] == if IsControl(s[i]) then ' ' else s[i]
  {
    seq(|s|, i requires 0 <= i < |s| => if IsControl(s[i]) then ' ' else s[i])
  }

  lemma BlankConcat(a: string, b: string)
    ensures Blank(a + b) == Blank(a) + Blank(b)
  {
  }

  /** The code units of a text. */
  function Codes(s: string): (r: seq<int>)
    ensures |r| == |s|
    ensures forall i :: 0 <= i < |s| ==> r[i] == s[i] as int
  {
    seq(|s|, i requires 0 <= i < |s| => s[i] as int)
  }
}
