/**
 * Splitting a selection text into lexicals with `stream >> std::quoted(temp)`,
 * following [quoted.manip] of ISO C++17.
 */
module Tokenizer {
  import opened Text

  /** One extraction: the token and the unread text, or a failed stream. */
  datatype Extraction = Extracted(token: string, rest: string) | Failed

  predicate NotSpace(c: char) {
    !IsSpace(c)
  }

  function Extract(s: string): (r: Extraction)
    ensures r.Extracted? ==> |r.rest| < |s|
  {
    var t := s[Span(s, IsSpace)..];
    if t == "" then Failed
    else if t[0] == '"' then ReadQuoted(t[1..], "")
    else
      var n := Span(t, NotSpace);
      Extracted(t[..n], t[n..])
  }

  /** Reads up to the closing quote; a backslash makes the next character ordinary. */
  function ReadQuoted(s: string, acc: string): (r: Extraction)
    ensures r.Extracted? ==> |r.rest| < |s|
    decreases |s|
  {
    if s == "" then Failed
    else if s[0] == '\\' then
      if |s| == 1 then Failed else ReadQuoted(s[2..], acc + [s[1]])
    else if s[0] == '"' then Extracted(acc, s[1..])
    else ReadQuoted(s[1..], acc + [s[0]])
  }

  /** All tokens until the stream fails; an unterminated last token is lost. */
  function Tokens(s: string): seq<string>
    decreases |s|
  {
    match Extract(s)
    case Failed => []
    case Extracted(token, rest) => [token] + Tokens(rest)
  }

  /** The extraction loop of the Filter constructor; the last token ends up on top of the stack. */
  method Tokenize(selection: string) returns (lexicalStack: seq<string>)
    ensures lexicalStack == Tokens(selection)
  {
    lexicalStack := [];
    var rest := selection;
    var extraction := Extract(rest);
    while extraction.Extracted?
      invariant extraction == Extract(rest)
      invariant lexicalStack + Tokens(rest) == Tokens(selection)
      decreases |rest|
    {
      lexicalStack := lexicalStack + [extraction.token];
      rest := extraction.rest;
      extraction := Extract(rest);
    }
  }

  // ----- the inverse: spelling a token list as text -----

  function Escaped(t: string): string {
    if t == "" then ""
    else if t[0] == '"' || t[0] == '\\' then ['\\', t[0]] + Escaped(t[1..])
    else [t[0]] + Escaped(t[1..])
  }

  /** `stream << std::quoted(t)`. */
  function Quoted(t: string): string {
    "\"" + Escaped(t) + "\""
  }

  /** A token that may be written without quotes. */
  predicate Plain(t: string) {
    t != "" && t[0] != '"' && forall i :: 0 <= i < |t| ==> !IsSpace(t[i])
  }

  /** A token, the choice to quote it, and the white space written behind it. */
  datatype Spelling = Spelling(token: string, quote: bool, gap: string) {
    predicate Readable() {
      (quote || Plain(token)) && Blanks(gap)
    }

    function Text(): string {
      if quote then Quoted(token) else token
    }
  }

  predicate Blanks(s: string) {
    forall i :: 0 <= i < |s| ==> IsSpace(s[i])
  }

  /** Quotes where they are needed, and white space at least between a token without quotes and the next one. */
  predicate Separated(ss: seq<Spelling>) {
    && (forall i :: 0 <= i < |ss| ==> ss[i].Readable())
    && (forall i :: 0 <= i < |ss| - 1 ==> ss[i].quote || ss[i].gap != "")
  }

  function SpellAll(ss: seq<Spelling>): string {
    if ss == [] then "" else ss[0].Text() + (ss[0].gap + SpellAll(ss[1..]))
  }

  function TokensOf(ss: seq<Spelling>): (ts: seq<string>)
    ensures |ts| == |ss|
    ensures forall i :: 0 <= i < |ss| ==> ts[i] == ss[i].token
  {
    seq(|ss|, i requires 0 <= i < |ss| => ss[i].token)
  }

  lemma {:induction false} ReadQuotedEscaped(t: string, acc: string, rest: string)
    ensures ReadQuoted(Escaped(t) + "\"" + rest, acc) == Extracted(acc + t, rest)
  {
    hide ReadQuoted;
    if t == "" {
      assert Escaped(t) + "\"" + rest == "\"" + rest && acc + t == acc;
      ReadQuote(acc, rest);
    } else {
      var tail := Escaped(t[1..]) + "\"" + rest;
      ReadQuotedEscaped(t[1..], acc + [t[0]], rest);
      assert acc + [t[0]] + t[1..] == acc + t;
      if t[0] == '"' || t[0] == '\\' {
        assert Escaped(t) + "\"" + rest == ['\\', t[0]] + tail;
        ReadEscape(t[0], acc, tail);
      } else {
        assert Escaped(t) + "\"" + rest == [t[0]] + tail;
        ReadOrdinary(t[0], acc, tail);
      }
    }
  }

  lemma ReadQuote(acc: string, rest: string)
    ensures ReadQuoted("\"" + rest, acc) == Extracted(acc, rest)
  {
    assert ("\"" + rest)[1..] == rest;
  }

  lemma ReadEscape(c: char, acc: string, tail: string)
    ensures ReadQuoted(['\\', c] + tail, acc) == ReadQuoted(tail, acc + [c])
  {
    assert (['\\', c] + tail)[2..] == tail;
  }

  lemma ReadOrdinary(c: char, acc: string, tail: string)
    requires c != '"' && c != '\\'
    ensures ReadQuoted([c] + tail, acc) == ReadQuoted(tail, acc + [c])
  {
    assert ([c] + tail)[1..] == tail;
  }

  lemma ExtractQuoted(token: string, rest: string)
    ensures Extract(Quoted(token) + rest) == Extracted(token, rest)
  {
    var s := Quoted(token) + rest;
    SpanUnique(s, IsSpace, 0);
    assert s[0..] == s;
    assert s[1..] == Escaped(token) + "\"" + rest;
    ReadQuotedEscaped(token, "", rest);
    assert "" + token == token;
  }

  lemma ExtractPlain(token: string, rest: string)
    requires Plain(token)
    requires rest == "" || IsSpace(rest[0])
    ensures Extract(token + rest) == Extracted(token, rest)
  {
    var s := token + rest;
    var n := |token|;
    assert forall i :: 0 <= i < n ==> s[i] == token[i];
    SpanUnique(s, IsSpace, 0);
    assert s[0..] == s;
    assert n < |s| ==> s[n] == rest[0];
    SpanUnique(s, NotSpace, n);
    assert s[..n] == token && s[n..] == rest;
  }

  lemma {:induction false} SkipGap(gap: string, s: string)
    requires Blanks(gap)
    ensures Extract(gap + s) == Extract(s)
  {
    hide ReadQuoted;
    if gap == "" {
      assert gap + s == s;
    } else {
      var t := gap + s;
      assert t[1..] == gap[1..] + s;
      assert IsSpace(gap[0]);
      assert t[Span(t, IsSpace)..] == t[1..][Span(t[1..], IsSpace)..];
      SkipGap(gap[1..], s);
    }
  }

  /**
   * Any list of tokens is read back unchanged from its text, whatever white
   * space stands around them: quotes are needed around some tokens, and a gap
   * only behind a token without quotes that is not the last.
   */
  lemma {:induction false} TokensOfSpelledText(lead: string, ss: seq<Spelling>)
    requires Blanks(lead) && Separated(ss)
    ensures Tokens(lead + SpellAll(ss)) == TokensOf(ss)
    decreases |ss|
  {
    hide Extract, Blanks;
    SkipGap(lead, SpellAll(ss));
    if ss == [] {
      ExtractNothing();
    } else {
      ExtractFirst(ss);
      assert forall i :: 0 <= i < |ss| - 1 ==> ss[1..][i] == ss[i + 1];
      assert ss[0].Readable();
      TokensOfSpelledText(ss[0].gap, ss[1..]);
      assert TokensOf(ss) == [ss[0].token] + TokensOf(ss[1..]);
    }
  }

  lemma ExtractNothing()
    ensures Extract("") == Failed
  {
  }

  lemma ExtractFirst(ss: seq<Spelling>)
    requires ss != [] && Separated(ss)
    ensures Extract(SpellAll(ss)) == Extracted(ss[0].token, ss[0].gap + SpellAll(ss[1..]))
  {
    hide Extract;
    var rest := ss[0].gap + SpellAll(ss[1..]);
    assert ss[0].Readable();
    if ss[0].quote {
      ExtractQuoted(ss[0].token, rest);
    } else {
      assert ss[0].gap != "" ==> IsSpace(ss[0].gap[0]);
      assert ss[0].gap == "" ==> |ss| == 1 && ss[1..] == [];
      ExtractPlain(ss[0].token, rest);
    }
  }

  /** Tokens that can do without quotes, separated by single blanks. */
  function Joined(ts: seq<string>): string {
    if |ts| == 0 then "" else if |ts| == 1 then ts[0] else ts[0] + (" " + Joined(ts[1..]))
  }

  /** The spelling of a joined text. */
  function Unquoted(ts: seq<string>): (ss: seq<Spelling>)
    ensures |ss| == |ts|
    ensures forall i :: 0 <= i < |ts| ==> ss[i] == Spelling(ts[i], false, if i < |ts| - 1 then " " else "")
  {
    seq(|ts|, i requires 0 <= i < |ts| => Spelling(ts[i], false, if i < |ts| - 1 then " " else ""))
  }

  lemma {:induction false} JoinedIsSpelled(ts: seq<string>)
    ensures Joined(ts) == SpellAll(Unquoted(ts))
  {
    var ss := Unquoted(ts);
    if |ts| == 0 {
    } else if |ts| == 1 {
      assert ss[1..] == [];
      assert SpellAll(ss) == ts[0] + ("" + "");
    } else {
      JoinedIsSpelled(ts[1..]);
      assert ss[1..] == Unquoted(ts[1..]);
    }
  }

  lemma UnquotedIsSeparated(ts: seq<string>)
    requires forall i :: 0 <= i < |ts| ==> Plain(ts[i])
    ensures Blanks("") && Separated(Unquoted(ts))
  {
    hide Plain;
  }

  /** The ordinary form of a selection: plain tokens with one blank between them. */
  lemma TokensOfJoinedText(ts: seq<string>)
    requires forall i :: 0 <= i < |ts| ==> Plain(ts[i])
    ensures Tokens(Joined(ts)) == ts
  {
    hide Tokens, SpellAll, Joined, Separated, Plain;
    var ss := Unquoted(ts);
    JoinedIsSpelled(ts);
    UnquotedIsSeparated(ts);
    TokensOfSpelledText("", ss);
    assert "" + SpellAll(ss) == SpellAll(ss);
    assert TokensOf(ss) == ts;
  }

  lemma {:induction false} ReadQuotedShrinks(s: string, acc: string)
    ensures var r := ReadQuoted(s, acc);
            r.Extracted? ==> |r.token| + |r.rest| < |acc| + |s|
    decreases |s|
  {
    if s == "" || s[0] == '"' || s == "\\" {
    } else if s[0] == '\\' {
      ReadQuotedShrinks(s[2..], acc + [s[1]]);
    } else {
      ReadQuotedShrinks(s[1..], acc + [s[0]]);
    }
  }

  lemma {:induction false} QuoteNeverEnds(body: string, acc: string)
    requires forall i :: 0 <= i < |body| ==> body[i] != '"' && body[i] != '\\'
    ensures ReadQuoted(body, acc) == Failed
    decreases |body|
  {
    if body == "" {
    } else {
      assert forall i :: 0 <= i < |body| - 1 ==> body[1..][i] == body[i + 1];
      QuoteNeverEnds(body[1..], acc + [body[0]]);
    }
  }

  lemma SpellFirst(ss: seq<Spelling>, tail: string)
    requires ss != []
    ensures SpellAll(ss) + tail == ss[0].Text() + (ss[0].gap + (SpellAll(ss[1..]) + tail))
  {
  }

  /** Every token is followed by white space or quoted, so that more text can follow. */
  predicate Closed(ss: seq<Spelling>) {
    forall i :: 0 <= i < |ss| ==> ss[i].Readable() && (ss[i].quote || ss[i].gap != "")
  }

  /** A token whose closing quote is missing is lost, and so is everything behind its opening quote. */
  lemma {:induction false} UnterminatedIsLost(lead: string, ss: seq<Spelling>, body: string)
    requires Blanks(lead) && Closed(ss)
    requires forall i :: 0 <= i < |body| ==> body[i] != '"' && body[i] != '\\'
    ensures Tokens(lead + (SpellAll(ss) + ("\"" + body))) == TokensOf(ss)
    decreases |ss|
  {
    hide Extract, SpellAll, Spelling.Text, Plain;
    var tail := "\"" + body;
    SkipGap(lead, SpellAll(ss) + tail);
    if ss == [] {
      NothingSpelled(tail);
      OpenQuoteFails(body);
    } else {
      SpellFirst(ss, tail);
      assert ss[0].Readable();
      FirstOfMany(ss[0], ss[0].gap + (SpellAll(ss[1..]) + tail));
      UnterminatedIsLost(ss[0].gap, ss[1..], body);
      assert TokensOf(ss) == [ss[0].token] + TokensOf(ss[1..]);
    }
  }

  lemma NothingSpelled(tail: string)
    ensures SpellAll([]) + tail == tail
  {
  }

  lemma FirstOfMany(s: Spelling, rest: string)
    requires s.Readable() && (s.quote || (rest != "" && IsSpace(rest[0])))
    ensures Extract(s.Text() + rest) == Extracted(s.token, rest)
  {
    hide Extract;
    if s.quote {
      ExtractQuoted(s.token, rest);
    } else {
      ExtractPlain(s.token, rest);
    }
  }

  lemma OpenQuoteFails(body: string)
    requires forall i :: 0 <= i < |body| ==> body[i] != '"' && body[i] != '\\'
    ensures Extract("\"" + body) == Failed
  {
    hide ReadQuoted;
    var t := "\"" + body;
    SpanUnique(t, IsSpace, 0);
    assert t[0..] == t && t[1..] == body;
    QuoteNeverEnds(body, "");
  }

  /** The white space of the C locale: blank, tab, line feed, vertical tab, form feed and carriage return. */
  const SPACES := {' ', '\t', '\n', '\U{0B}', '\U{0C}', '\r'}

  /** Quotes are needed exactly for the tokens that are empty, start with a quote or contain white space. */
  lemma PlainIsExact(t: string)
    ensures Tokens(t) == [t] <==> Plain(t)
    ensures Plain(t) <==> t != "" && t[0] != '"' && forall i :: 0 <= i < |t| ==> t[i] !in SPACES
  {
    assert forall c: char :: IsSpace(c) <==> c in SPACES;
    if Plain(t) {
      ExtractPlain(t, "");
      assert t + "" == t;
    } else if t != "" {
      FirstTokenOfUnplain(t);
      assert Extract(t).Extracted? ==> Tokens(t)[0] == Extract(t).token;
    }
  }

  lemma FirstTokenOfUnplain(t: string)
    requires t != "" && !Plain(t)
    ensures Extract(t).Extracted? ==> Extract(t).token != t
  {
    var k := Span(t, IsSpace);
    var u := t[k..];
    if u != "" {
      if u[0] == '"' {
        ReadQuotedShrinks(u[1..], "");
      } else {
        var n := Span(u, NotSpace);
        assert |u[..n]| == |t| ==> k == 0 && u == t && n == |t|;
      }
    }
  }
}
