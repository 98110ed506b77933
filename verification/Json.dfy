/**
 * A reference reader for the JSON objects the sensor sends: RFC 8259
 * sections 2 (white space), 3 (literal names), 4 (objects), 6 (numbers) and
 * 7 (strings), for objects whose values are not themselves objects or arrays.
 */
module Json {
  import opened Text

  /** Strings are sequences of code units; numbers keep their text. */
  datatype Value = Str(codes: seq<int>) | Num(text: string) | Null | True | False

  datatype Member = Member(name: seq<int>, value: Value)

  datatype Read<+T> = Got(value: T, rest: string) | Malformed

  predicate IsWs(c: char) {
    c == ' ' || c == '\t' || c == '\n' || c == '\r'
  }

  function SkipWs(s: string): (r: string)
    ensures |r| <= |s|
  {
    s[Span(s, IsWs)..]
  }

  function HexValue(c: char): Option<nat> {
    if IsDigit(c) then Some(DigitValue(c))
    else if 'a' <= c <= 'f' then Some(c as int - 'a' as int + 10)
    else if 'A' <= c <= 'F' then Some(c as int - 'A' as int + 10)
    else None
  }

  function Hex4(s: string): Option<nat>
    requires |s| == 4
  {
    var a, b, c, d := HexValue(s[0]), HexValue(s[1]), HexValue(s[2]), HexValue(s[3]);
    if a.None? || b.None? || c.None? || d.None? then None
    else Some(((a.value * 16 + b.value) * 16 + c.value) * 16 + d.value)
  }

  function SimpleEscape(c: char): Option<int> {
    match c
    case '"' => Some(0x22)
    case '\\' => Some(0x5C)
    case '/' => Some(0x2F)
    case 'b' => Some(0x08)
    case 'f' => Some(0x0C)
    case 'n' => Some(0x0A)
    case 'r' => Some(0x0D)
    case 't' => Some(0x09)
    case _ => None
  }

  /** One character or escape of a string body. */
  function ReadChar(s: string): (r: Read<int>)
    ensures r.Got? ==> |r.rest| < |s|
  {
    if s == "" || s[0] < ' ' || s[0] == '"' then Malformed
    else if s[0] != '\\' then Got(s[0] as int, s[1..])
    else if |s| >= 6 && s[1] == 'u' then
      var code := Hex4(s[2..6]);
      if code.Some? then Got(code.value, s[6..]) else Malformed
    else if |s| >= 2 && SimpleEscape(s[1]).Some? then Got(SimpleEscape(s[1]).value, s[2..])
    else Malformed
  }

  /** A string after its opening quote, up to and including the closing one. */
  function ReadString(s: string): (r: Read<seq<int>>)
    ensures r.Got? ==> |r.rest| < |s|
    decreases |s|
  {
    if s != "" && s[0] == '"' then Got([], s[1..])
    else
      match ReadChar(s)
      case Malformed => Malformed
      case Got(c, rest) =>
        match ReadString(rest)
        case Malformed => Malformed
        case Got(cs, after) => Got([c] + cs, after)
  }

  predicate IsNumberChar(c: char) {
    IsDigit(c) || c in {'-', '+', '.', 'e', 'E'}
  }

  predicate IsExponent(s: string) {
    s == "" ||
    (s[0] in {'e', 'E'} &&
     var t := if |s| > 1 && s[1] in {'-', '+'} then s[2..] else s[1..];
     t != "" && AllDigits(t))
  }

  predicate IsFraction(s: string) {
    if s != "" && s[0] == '.' then
      var n := Span(s[1..], IsDigit);
      n > 0 && IsExponent(s[1 + n..])
    else IsExponent(s)
  }

  /** number = [ minus ] int [ frac ] [ exp ] */
  predicate IsNumber(s: string) {
    var t := if s != "" && s[0] == '-' then s[1..] else s;
    var n := Span(t, IsDigit);
    n > 0 && (t[0] == '0' ==> n == 1) && IsFraction(t[n..])
  }

  function ReadValue(s: string): (r: Read<Value>)
    ensures r.Got? ==> |r.rest| < |s|
  {
    if s == "" then Malformed
    else if s[0] == '"' then
      match ReadString(s[1..])
      case Malformed => Malformed
      case Got(cs, rest) => Got(Str(cs), rest)
    else if "null" <= s then Got(Null, s[4..])
    else if "true" <= s then Got(True, s[4..])
    else if "false" <= s then Got(False, s[5..])
    else ReadNumber(s)
  }

  function ReadNumber(s: string): (r: Read<Value>)
    ensures r.Got? ==> |r.rest| < |s| && (s[0] == '-' || IsDigit(s[0]))
  {
    var n := Span(s, IsNumberChar);
    if IsNumber(s[..n]) then Got(Num(s[..n]), s[n..]) else Malformed
  }

  /** string name-separator value */
  function ReadMember(s: string): (r: Read<Member>)
    ensures r.Got? ==> |r.rest| < |s|
  {
    if s == "" || s[0] != '"' then Malformed
    else
      match ReadString(s[1..])
      case Malformed => Malformed
      case Got(name, afterName) =>
        var t := SkipWs(afterName);
        if t == "" || t[0] != ':' then Malformed
        else
          match ReadValue(SkipWs(t[1..]))
          case Malformed => Malformed
          case Got(v, rest) => Got(Member(name, v), rest)
  }

  /** One or more members and the closing brace. */
  function ReadMembers(s: string): (r: Read<seq<Member>>)
    decreases |s|
  {
    match ReadMember(s)
    case Malformed => Malformed
    case Got(m, afterMember) =>
      var t := SkipWs(afterMember);
      if t == "" then Malformed
      else if t[0] == '}' then Got([m], t[1..])
      else if t[0] == ',' then
        match ReadMembers(SkipWs(t[1..]))
        case Malformed => Malformed
        case Got(ms, rest) => Got([m] + ms, rest)
      else Malformed
  }

  /** A whole text that is one object. */
  function ReadObject(text: string): Option<seq<Member>> {
    var s := SkipWs(text);
    if s == "" || s[0] != '{' then None
    else
      var t := SkipWs(s[1..]);
      if t != "" && t[0] == '}' then
        if SkipWs(t[1..]) == "" then Some([]) else None
      else
        match ReadMembers(t)
        case Malformed => None
        case Got(ms, rest) => if SkipWs(rest) == "" then Some(ms) else None
  }

  // ----- reading is compositional -----

  lemma ReadCharExtends(s: string, more: string)
    requires ReadChar(s).Got?
    ensures ReadChar(s + more) == Got(ReadChar(s).value, ReadChar(s).rest + more)
  {
    if s[0] == '\\' && |s| >= 6 && s[1] == 'u' {
      assert (s + more)[2..6] == s[2..6] && (s + more)[6..] == s[6..] + more;
    } else if s[0] == '\\' {
      assert s[1] != 'u' && (s + more)[2..] == s[2..] + more;
    } else {
      assert (s + more)[1..] == s[1..] + more;
    }
  }

  lemma {:induction false} ReadStringExtends(s: string, more: string)
    requires ReadString(s).Got?
    ensures ReadString(s + more) == Got(ReadString(s).value, ReadString(s).rest + more)
    decreases |s|
  {
    if s[0] == '"' {
      assert (s + more)[1..] == s[1..] + more;
    } else {
      ReadCharExtends(s, more);
      ReadStringExtends(ReadChar(s).rest, more);
    }
  }

  /** A value reads as itself in front of more text that cannot belong to it. */
  lemma ReadValueExtends(s: string, more: string)
    requires ReadValue(s).Got? && (more == "" || !IsNumberChar(more[0]))
    ensures ReadValue(s + more) == Got(ReadValue(s).value, ReadValue(s).rest + more)
  {
    hide ReadNumber, ReadString;
    var t := s + more;
    if s[0] == '"' {
      ReadStringExtends(s[1..], more);
      assert t[1..] == s[1..] + more;
    } else if "null" <= s || "true" <= s || "false" <= s {
      LiteralExtends(s, more);
    } else {
      assert t[0] == s[0];
      NumberExtends(s, more);
    }
  }

  lemma LiteralExtends(s: string, more: string)
    requires "null" <= s || "true" <= s || "false" <= s
    ensures ReadValue(s).Got? && ReadValue(s + more) == Got(ReadValue(s).value, ReadValue(s).rest + more)
  {
    hide ReadNumber, ReadString;
    var t := s + more;
    var k := if "false" <= s then 5 else 4;
    assert s <= t && t[0] == s[0];
    assert t[k..] == s[k..] + more;
  }

  lemma NumberExtends(s: string, more: string)
    requires ReadNumber(s).Got? && (more == "" || !IsNumberChar(more[0]))
    ensures ReadNumber(s + more) == Got(ReadNumber(s).value, ReadNumber(s).rest + more)
  {
    hide IsNumber;
    var t := s + more;
    var n := Span(s, IsNumberChar);
    assert forall i :: 0 <= i < |s| ==> t[i] == s[i];
    assert n == |s| && more != "" ==> t[n] == more[0];
    SpanUnique(t, IsNumberChar, n);
    assert t[..n] == s[..n] && t[n..] == s[n..] + more;
  }

  /** White space in front of a value or behind it does not matter to the reader. */
  lemma {:induction false} SkipWsExtends(s: string, more: string)
    requires more != "" && !IsWs(more[0])
    ensures SkipWs(s + more) == SkipWs(s) + more
  {
    if s == "" {
      assert s + more == more;
      NothingToSkip();
      NoWs(more);
    } else if IsWs(s[0]) {
      assert (s + more)[1..] == s[1..] + more;
      SkipWsExtends(s[1..], more);
      SkipFirst(s);
      SkipFirst(s + more);
    } else {
      NoWs(s);
      NoWs(s + more);
    }
  }

  lemma SkipFirst(s: string)
    requires s != "" && IsWs(s[0])
    ensures SkipWs(s) == SkipWs(s[1..])
  {
  }

  /** The value that a text holds, alone between white space. */
  function Whole(s: string): Option<Value> {
    match ReadValue(SkipWs(s))
    case Malformed => None
    case Got(v, rest) => if SkipWs(rest) == "" then Some(v) else None
  }

  // ----- numbers read as themselves -----

  predicate NumberChars(s: string) {
    forall i :: 0 <= i < |s| ==> IsNumberChar(s[i])
  }

  lemma ExponentChars(s: string)
    requires IsExponent(s)
    ensures NumberChars(s)
  {
    if s == "" {
    } else {
      var k := if |s| > 1 && s[1] in {'-', '+'} then 2 else 1;
      assert AllDigits(s[k..]);
      assert forall i :: k <= i < |s| ==> s[i] == s[k..][i - k];
    }
  }

  lemma FractionChars(s: string)
    requires IsFraction(s)
    ensures NumberChars(s)
  {
    hide IsExponent;
    if s != "" && s[0] == '.' {
      var n := Span(s[1..], IsDigit);
      ExponentChars(s[1 + n..]);
      assert forall i :: 1 <= i < 1 + n ==> s[i] == s[1..][i - 1];
      assert forall i :: 1 + n <= i < |s| ==> s[i] == s[1 + n..][i - 1 - n];
    } else {
      ExponentChars(s);
    }
  }

  lemma NumberHasNumberChars(s: string)
    requires IsNumber(s)
    ensures NumberChars(s) && s != "" && (s[0] == '-' || IsDigit(s[0]))
  {
    hide IsFraction;
    var k := if s[0] == '-' then 1 else 0;
    var t := s[k..];
    var n := Span(t, IsDigit);
    FractionChars(t[n..]);
    forall i | 0 <= i < |s|
      ensures IsNumberChar(s[i])
    {
      if i < k {
      } else if i < k + n {
        assert s[i] == t[i - k] && IsDigit(t[i - k]);
      } else {
        assert s[i] == t[n..][i - k - n];
      }
    }
    assert s[0] == '-' || (s[0] == t[0] && IsDigit(t[0]));
  }

  lemma NumberIsRead(s: string)
    requires IsNumber(s)
    ensures NumberChars(s) && s != "" && ReadValue(s) == Got(Num(s), "")
  {
    hide IsNumber;
    NumberHasNumberChars(s);
    assert forall i :: 0 <= i < |s| ==> IsNumberChar(s[i]);
    SpanUnique(s, IsNumberChar, |s|);
    assert s[..|s|] == s && s[|s|..] == "";
  }

  /** Without sign, fraction and exponent, the numbers are the digit strings without superfluous zeros. */
  lemma IntegersAreCanonical(s: string)
    requires AllDigits(s)
    ensures IsNumber(s) <==> Canonical(s)
  {
    SpanUnique(s, IsDigit, |s|);
    assert s[|s|..] == "";
    assert s != "" ==> IsDigit(s[0]);
  }

  lemma DigitsAreANumber(n: nat)
    ensures IsNumber(Digits(n))
  {
    ValueOfDigits(n);
    IntegersAreCanonical(Digits(n));
  }

  /** Digits, a point and digits are a number exactly when the first ones are canonical and the last ones are there. */
  lemma DecimalsAreANumber(whole: string, decimals: string)
    requires AllDigits(whole) && AllDigits(decimals)
    ensures IsNumber(whole + "." + decimals) <==> Canonical(whole) && decimals != ""
  {
    var s := whole + "." + decimals;
    var n := |whole|;
    assert forall i :: 0 <= i < n ==> s[i] == whole[i];
    assert s[n] == '.' && s[0] != '-';
    SpanUnique(s, IsDigit, n);
    assert s[n..] == "." + decimals && s[n..][1..] == decimals;
    SpanUnique(decimals, IsDigit, |decimals|);
    assert s[n..][1 + |decimals|..] == "";
  }

  /** A minus sign does not matter, and there is no plus sign. */
  lemma SignsOfNumbers(s: string)
    requires s == "" || s[0] != '-'
    ensures IsNumber("-" + s) <==> IsNumber(s)
    ensures !IsNumber("+" + s)
  {
    assert ("-" + s)[1..] == s;
    assert ("+" + s)[0] == '+';
  }

  // ----- how much text a value takes -----

  /** The characters of a text that are no blanks. */
  function Ink(s: string): (n: nat)
    ensures n <= |s|
  {
    if s == "" then 0 else (if s[0] == ' ' then 0 else 1) + Ink(s[1..])
  }

  lemma {:induction false} InkConcat(a: string, b: string)
    ensures Ink(a + b) == Ink(a) + Ink(b)
  {
    if a == "" {
      assert a + b == b;
    } else {
      assert (a + b)[1..] == a[1..] + b;
      InkConcat(a[1..], b);
    }
  }

  lemma InkSplit(s: string, k: nat)
    requires k <= |s|
    ensures Ink(s) == Ink(s[..k]) + Ink(s[k..])
  {
    hide Ink;
    assert s[..k] + s[k..] == s;
    InkConcat(s[..k], s[k..]);
  }

  lemma {:induction false} InkOfNoBlanks(s: string)
    requires forall i :: 0 <= i < |s| ==> s[i] != ' '
    ensures Ink(s) == |s|
  {
    if s == "" {
    } else {
      assert forall i :: 0 <= i < |s| - 1 ==> s[1..][i] == s[i + 1];
      InkOfNoBlanks(s[1..]);
    }
  }

  /** Blanks are free; quotes, backslashes and control characters have to be escaped. */
  function CodeCost(c: int): nat {
    if c == 0x20 then 0 else if c == 0x22 || c == 0x5C || c < 0x20 then 2 else 1
  }

  function StringCost(codes: seq<int>): nat {
    if codes == [] then 0 else CodeCost(codes[0]) + StringCost(codes[1..])
  }

  function ValueCost(v: Value): nat {
    match v
    case Str(codes) => StringCost(codes) + 2
    case Num(text) => |text|
    case Null => 4
    case True => 4
    case False => 5
  }

  function MemberCost(m: Member): nat {
    StringCost(m.name) + 3 + ValueCost(m.value)
  }

  /** Each member comes with the comma or the brace behind it. */
  function MembersCost(ms: seq<Member>): nat {
    if ms == [] then 0 else MemberCost(ms[0]) + 1 + MembersCost(ms[1..])
  }

  predicate IsWellFormed(v: Value) {
    v.Num? ==> IsNumber(v.text)
  }

  predicate AllWellFormed(ms: seq<Member>) {
    forall i :: 0 <= i < |ms| ==> IsWellFormed(ms[i].value)
  }

  lemma {:induction false} StringTakes(s: string)
    requires ReadString(s).Got?
    ensures Ink(s) >= Ink(ReadString(s).rest) + StringCost(ReadString(s).value) + 1
    decreases |s|
  {
    hide ReadChar;
    if s[0] == '"' {
    } else {
      StringTakes(ReadChar(s).rest);
      var c, cs := ReadChar(s).value, ReadString(ReadChar(s).rest).value;
      assert ([c] + cs)[1..] == cs;
      CharTakes(s);
    }
  }

  lemma CharTakes(s: string)
    requires ReadChar(s).Got?
    ensures Ink(s) >= Ink(ReadChar(s).rest) + CodeCost(ReadChar(s).value)
  {
    if s[0] != '\\' {
    } else {
      EscapeInk(s);
      var k := if |s| >= 6 && s[1] == 'u' then 6 else 2;
      InkSplit(s, k);
      assert s[..k][..2] == s[..2];
      InkSplit(s[..k], 2);
    }
  }

  lemma EscapeInk(s: string)
    requires |s| >= 2 && s[0] == '\\' && s[1] != ' '
    ensures Ink(s[..2]) == 2
  {
    assert s[..2] == [s[0], s[1]];
    InkOfNoBlanks(s[..2]);
  }

  lemma ValueTakes(s: string)
    requires ReadValue(s).Got?
    ensures Ink(s) >= Ink(ReadValue(s).rest) + ValueCost(ReadValue(s).value)
    ensures IsWellFormed(ReadValue(s).value)
  {
    hide ReadString, IsNumber, StringCost;
    if s[0] == '"' {
      StringTakes(s[1..]);
    } else {
      var k := |s| - |ReadValue(s).rest|;
      TakenIsPlain(s);
      InkSplit(s, k);
      InkOfNoBlanks(s[..k]);
    }
  }

  /** Literal names and numbers have no blanks in them. */
  lemma TakenIsPlain(s: string)
    requires ReadValue(s).Got? && s[0] != '"'
    ensures var k := |s| - |ReadValue(s).rest|;
            && s[k..] == ReadValue(s).rest && k == ValueCost(ReadValue(s).value)
            && forall i :: 0 <= i < k ==> s[..k][i] != ' '
  {
    hide ReadString, IsNumber, StringCost;
  }

  lemma SkipTakes(s: string)
    ensures Ink(s) >= Ink(SkipWs(s))
  {
    InkSplit(s, Span(s, IsWs));
  }

  lemma WholeTakes(s: string)
    requires Whole(s).Some?
    ensures Ink(s) >= ValueCost(Whole(s).value) && IsWellFormed(Whole(s).value)
  {
    hide ReadValue, ValueCost, IsNumber, SkipWs;
    SkipTakes(s);
    ValueTakes(SkipWs(s));
  }

  lemma MemberTakes(s: string)
    requires ReadMember(s).Got?
    ensures Ink(s) >= Ink(ReadMember(s).rest) + MemberCost(ReadMember(s).value)
    ensures IsWellFormed(ReadMember(s).value.value)
  {
    hide ReadString, ReadValue, IsNumber, StringCost, ValueCost, SkipWs;
    StringTakes(s[1..]);
    var afterName := ReadString(s[1..]).rest;
    var t := SkipWs(afterName);
    SkipTakes(afterName);
    SkipTakes(t[1..]);
    ValueTakes(SkipWs(t[1..]));
  }

  lemma {:induction false} MembersTake(s: string)
    requires ReadMembers(s).Got?
    ensures Ink(s) >= Ink(ReadMembers(s).rest) + MembersCost(ReadMembers(s).value)
    ensures AllWellFormed(ReadMembers(s).value)
    decreases |s|
  {
    hide ReadMember, IsWellFormed, MemberCost, SkipWs;
    MemberTakes(s);
    var m, t := ReadMember(s).value, SkipWs(ReadMember(s).rest);
    SkipTakes(ReadMember(s).rest);
    if t[0] == '}' {
      assert [m][1..] == [];
    } else {
      var next := SkipWs(t[1..]);
      SkipTakes(t[1..]);
      MembersTake(next);
      assert ([m] + ReadMembers(next).value)[1..] == ReadMembers(next).value;
    }
  }

  /** No text has less ink than the members it is read as. */
  lemma ObjectTakes(text: string)
    requires ReadObject(text).Some?
    ensures Ink(text) >= 1 + MembersCost(ReadObject(text).value)
    ensures AllWellFormed(ReadObject(text).value)
  {
    hide ReadMembers, IsWellFormed, SkipWs;
    var s := SkipWs(text);
    SkipTakes(text);
    var t := SkipWs(s[1..]);
    SkipTakes(s[1..]);
    if t != "" && t[0] == '}' {
    } else {
      MembersTake(t);
    }
  }

  lemma NothingToSkip()
    ensures SkipWs("") == ""
  {
  }

  lemma NoWs(s: string)
    requires s != "" && !IsWs(s[0])
    ensures SkipWs(s) == s
  {
    SpanUnique(s, IsWs, 0);
  }
}
