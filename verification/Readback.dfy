/** What a reader finds in a message: the members that the printed attributes and headers stand for. */
module Readback {
  import opened Text
  import opened Snapshots
  import opened Filters
  import opened Rendering
  import Json

  /** Neither quote nor backslash. */
  predicate Clean(s: string) {
    !Has(s, '"') && !Has(s, '\\')
  }

  // ----- one attribute -----

  /** The JSON value that an attribute stands for. */
  function Meaning(a: Attr, pid: nat, files: Snapshot): Json.Value
    requires files.Defined() && files.Value(pid, a).Ok?
  {
    match a
    case Name => Json.Str(Codes(Blank(OrNull(files.comm))))
    case ExecutePath => Json.Str(Codes(Blank(files.Value(pid, a).value)))
    case Command => Json.Str(Codes(Blank(if files.cmdline.Some? then OrNull(files.cmdline.value) else "")))
    case Pid => Json.Num(Digits(pid))
    case CpuTime => Json.Num(Thousandths(files.CpuTicks()))
    case NetworkIn => Json.Num(Digits(RoundedKB(Total(files.net, "RX") % TWO_TO_64)))
    case NetworkOut => Json.Num(Digits(RoundedKB(Total(files.net, "TX") % TWO_TO_64)))
    case ReadKBs => Json.Num(Digits(RoundedKB(LastBytes(UpToWrite(files.io), "read_bytes:"))))
    case WriteKBs => Json.Num(Digits(RoundedKB(LastBytes(UpToWrite(files.io), "write_bytes:"))))
    case CpuUsage => Usage(UsageLine(files))
    case _ => Bare(Stripped(Blank(files.Value(pid, a).value)))
  }

  /** A word of a file that is printed as it is. */
  function Bare(word: string): Json.Value {
    if word == "null" then Json.Null else Json.Num(word)
  }

  /** Without the blanks at both ends. */
  function Stripped(s: string): (r: string)
    ensures |r| <= |s|
  {
    if s != "" && s[0] == ' ' then Stripped(s[1..])
    else if s != "" && s[|s| - 1] == ' ' then Stripped(s[..|s| - 1])
    else s
  }

  /** The line of ps below its heading, with its newline. */
  function UsageLine(files: Snapshot): string {
    if |files.ps| > 1 then files.ps[1] else ""
  }

  /** The figure in that line; a line of a single character is only a newline. */
  function Usage(line: string): Json.Value {
    if |line| <= 1 then Json.Null else Bare(Stripped(Blank(line)))
  }

  predicate IsBlank(c: char) {
    c == ' ' || IsControl(c)
  }

  predicate IsFigure(word: string) {
    word == "null" || Json.IsNumber(word)
  }

  /**
   * Names and paths are not escaped, command lines only in part. Of the line of
   * ps the first character is dropped and, if it has more than two, the last
   * one. Words of files are copied, and the rest are numbers.
   */
  predicate Readable(a: Attr, pid: nat, files: Snapshot)
    requires files.Defined() && files.Value(pid, a).Ok?
  {
    match a
    case Name => Clean(files.comm)
    case ExecutePath => Clean(files.Value(pid, a).value)
    case Command => files.cmdline.Some? ==> !Has(files.cmdline.value, '\\')
    case Pid | CpuTime | NetworkIn | NetworkOut | ReadKBs | WriteKBs => true
    case CpuUsage => UsageSurvives(UsageLine(files))
    case _ => IsFigure(Stripped(Blank(files.Value(pid, a).value)))
  }

  predicate UsageSurvives(line: string) {
    |line| > 1 ==>
      && IsBlank(line[0])
      && (|line| > 2 ==> IsBlank(line[|line| - 1]))
      && IsFigure(Stripped(Blank(line)))
  }

  lemma StripStep(s: string)
    ensures s != "" && s[0] == ' ' ==> Stripped(s) == Stripped(s[1..])
    ensures s != "" && s[0] != ' ' && s[|s| - 1] == ' ' ==> Stripped(s) == Stripped(s[..|s| - 1])
    ensures s == "" || (s[0] != ' ' && s[|s| - 1] != ' ') ==> Stripped(s) == s
  {
  }

  lemma {:induction false} StripsBlanks(s: string) returns (before: string, after: string)
    ensures s == before + Stripped(s) + after
    ensures forall i :: 0 <= i < |before| ==> before[i] == ' '
    ensures forall i :: 0 <= i < |after| ==> after[i] == ' '
    ensures Stripped(s) != "" ==> Stripped(s)[0] != ' ' && Stripped(s)[|Stripped(s)| - 1] != ' '
    decreases |s|
  {
    hide Stripped;
    StripStep(s);
    if s != "" && s[0] == ' ' {
      before, after := StripsBlanks(s[1..]);
      assert s == " " + s[1..];
      BlankInFront(before, Stripped(s), after);
      before := " " + before;
    } else if s != "" && s[|s| - 1] == ' ' {
      before, after := StripsBlanks(s[..|s| - 1]);
      assert s == s[..|s| - 1] + " ";
      Associate(before + Stripped(s), after, " ");
      after := after + " ";
    } else {
      before, after := "", "";
      assert s == "" + s + "";
    }
  }

  lemma BlankInFront(before: string, middle: string, after: string)
    ensures " " + (before + middle + after) == " " + before + middle + after
  {
  }

  lemma {:induction false} StripLast(s: string)
    ensures Stripped(s + " ") == Stripped(s)
    decreases |s|
  {
    if s == "" {
      assert s + " " == " " && " "[1..] == "";
    } else if s[0] == ' ' {
      assert (s + " ")[1..] == s[1..] + " ";
      StripLast(s[1..]);
    } else {
      assert (s + " ")[..|s|] == s;
    }
  }

  lemma InkOfStripped(s: string)
    ensures Json.Ink(Stripped(s)) == Json.Ink(s)
  {
    var before, after := StripsBlanks(s);
    InkOfBlanks(before);
    InkOfBlanks(after);
    Json.InkConcat(before + Stripped(s), after);
    Json.InkConcat(before, Stripped(s));
  }

  lemma {:induction false} InkOfBlanks(s: string)
    requires forall i :: 0 <= i < |s| ==> s[i] == ' '
    ensures Json.Ink(s) == 0
  {
    if s == "" {
    } else {
      assert forall i :: 0 <= i < |s| - 1 ==> s[1..][i] == s[i + 1];
      InkOfBlanks(s[1..]);
    }
  }

  lemma BlanksAreSkipped(s: string)
    requires forall i :: 0 <= i < |s| ==> s[i] == ' '
    ensures Json.SkipWs(s) == ""
  {
    SpanUnique(s, Json.IsWs, |s|);
  }

  /** A figure between blanks is read as that figure. */
  lemma FigureReads(word: string, before: string, after: string)
    requires IsFigure(word)
    requires forall i :: 0 <= i < |before| ==> before[i] == ' '
    requires forall i :: 0 <= i < |after| ==> after[i] == ' '
    ensures Json.Whole(before + word + after) == Some(Bare(word))
  {
    hide Json.IsNumber, Json.ReadValue, Json.SkipWs;
    var rest := word + after;
    assert before + word + after == before + rest;
    FigureStarts(word);
    BlanksAreSkipped(before);
    BlanksAreSkipped(after);
    Json.SkipWsExtends(before, rest);
    assert "" + rest == rest;
    assert after != "" ==> after[0] == ' ';
    Json.ReadValueExtends(word, after);
    assert "" + after == after;
  }

  lemma FigureStarts(word: string)
    requires IsFigure(word)
    ensures word != "" && !Json.IsWs(word[0]) && Json.ReadValue(word) == Json.Got(Bare(word), "")
  {
    hide Json.IsNumber;
    if word == "null" {
      assert "null"[4..] == "";
    } else {
      Json.NumberIsRead(word);
      assert Json.IsNumberChar(word[0]);
    }
  }

  /** A printed word, control characters blanked, reads as the figure in it exactly when there is one. */
  lemma BareReads(text: string)
    ensures Json.Whole(text) == Some(Bare(Stripped(text))) <==> IsFigure(Stripped(text))
  {
    hide Json.IsNumber, Json.Whole, Stripped;
    if IsFigure(Stripped(text)) {
      var before, after := StripsBlanks(text);
      FigureReads(Stripped(text), before, after);
    } else if Json.Whole(text) == Some(Bare(Stripped(text))) {
      Json.WholeTakes(text);
    }
  }

  lemma NumberReads(word: string)
    requires Json.IsNumber(word)
    ensures Json.Whole(Blank(word)) == Some(Json.Num(word))
  {
    hide Json.IsNumber, Json.Whole;
    Json.NumberIsRead(word);
    assert forall i :: 0 <= i < |word| ==> Json.IsNumberChar(word[i]);
    assert Blank(word) == word && word[0] != 'n';
    FigureReads(word, "", "");
    assert "" + word + "" == word;
  }

  // ----- the usage that ps prints -----

  lemma TrimmedInk(line: string)
    requires |line| >= 2
    ensures var printed, first, last := Json.Ink(Blank(TrimUsage(line))),
                                        if IsBlank(line[0]) then 0 else 1,
                                        if |line| > 2 && !IsBlank(line[|line| - 1]) then 1 else 0;
            Json.Ink(Blank(line)) >= printed + first + last
  {
    var s := if |line| > 2 then line[..|line| - 1] else line;
    var b := Blank(line);
    Json.InkSplit(b, 1);
    assert b[..1] == [b[0]];
    assert Blank(s) == b[..|s|];
    assert Blank(TrimUsage(line)) == b[1..][..|s| - 1];
    Json.InkSplit(b[1..], |s| - 1);
    if |line| > 2 {
      assert b[1..][|s| - 1..] == [b[|line| - 1]];
    }
  }

  lemma TrimmedStrips(line: string)
    requires |line| >= 2 && IsBlank(line[0]) && (|line| > 2 ==> IsBlank(line[|line| - 1]))
    ensures Stripped(Blank(TrimUsage(line))) == Stripped(Blank(line))
  {
    hide Stripped;
    var s := if |line| > 2 then line[..|line| - 1] else line;
    var b := Blank(line);
    assert b[0] == ' ' && Blank(TrimUsage(line)) == Blank(s)[1..];
    StripStep(Blank(s));
    if |line| > 2 {
      assert b == Blank(s) + " ";
      StripLast(Blank(s));
    }
  }

  /** The usage reads back exactly when the characters that are dropped are blanks and the rest is a figure. */
  lemma UsageReads(line: string)
    ensures Json.Whole(Blank(OrNull(TrimUsage(line)))) == Some(Usage(line)) <==> UsageSurvives(line)
  {
    hide Json.IsNumber, Json.Whole, Stripped, Json.Ink;
    var printed := Blank(OrNull(TrimUsage(line)));
    if |line| <= 1 {
      assert TrimUsage(line) == "" && printed == "null";
      FigureReads("null", "", "");
      assert "" + "null" + "" == "null";
    } else if UsageSurvives(line) {
      TrimmedStrips(line);
      BareReads(printed);
    } else if Json.Whole(printed) == Some(Usage(line)) {
      Json.WholeTakes(printed);
      UsageCost(line);
    }
  }

  /** What is printed for the usage has at most the ink of the figure, and less when no blank is dropped. */
  lemma UsageCost(line: string)
    ensures var v := Usage(line);
            && Json.ValueCost(v) >= Json.Ink(Blank(OrNull(TrimUsage(line))))
            && (Json.ValueCost(v) == Json.Ink(Blank(OrNull(TrimUsage(line)))) && Json.IsWellFormed(v) ==>
                  UsageSurvives(line))
  {
    hide Json.IsNumber, Stripped, Json.Ink;
    if |line| <= 1 {
      assert TrimUsage(line) == "" && Blank("null") == "null";
      Json.InkOfNoBlanks("null");
    } else {
      assert TrimUsage(line) != "";
      TrimmedInk(line);
      InkOfStripped(Blank(line));
    }
  }

  /** A figure that fills the line from its first character on loses its first digit. */
  lemma UsageLosesDigit(name: string, pid: nat, files: Snapshot)
    requires files.Defined() && AttrNamed(name) == Some(CpuUsage)
    requires UsageLine(files) == "12.5\n"
    ensures ValueText(name, pid, files) == Ok("2.5") && !Readable(CpuUsage, pid, files)
  {
    hide AttrNamed, Stripped;
    var line := "12.5\n";
    assert line[..4] == "12.5" && "12.5"[1..] == "2.5";
  }

  lemma {:induction false} StringEndsText(s: string)
    requires s != "" && s[|s| - 1] == '"' && Json.ReadString(s).Got?
    ensures var rest := Json.ReadString(s).rest;
            rest == "" || rest[|rest| - 1] == '"'
    decreases |s|
  {
    if s[0] == '"' {
    } else {
      StringEndsText(Json.ReadChar(s).rest);
    }
  }

  /** A quoted text reads as a string exactly when its body does. */
  lemma QuotedText(body: string, codes: seq<int>)
    ensures Json.Whole("\"" + body + "\"") == Some(Json.Str(codes)) <==> ReadsAs(body, codes)
  {
    hide Json.ReadString, Json.SkipWs;
    var s := "\"" + body + "\"";
    assert s[1..] == body + "\"";
    Json.NoWs(s);
    Json.NothingToSkip();
    if Json.ReadString(body + "\"").Got? && Json.ReadString(body + "\"").rest != "" {
      StringEndsText(body + "\"");
      NotOnlyWs(Json.ReadString(body + "\"").rest);
    }
  }

  lemma NotOnlyWs(s: string)
    requires s != "" && s[|s| - 1] == '"'
    ensures Json.SkipWs(s) != ""
  {
  }

  lemma QuotedReads(text: string, codes: seq<int>)
    ensures Json.Whole(Blank("\"" + text + "\"")) == Some(Json.Str(codes)) <==> ReadsAs(Blank(text), codes)
  {
    hide Json.ReadString, Json.Whole;
    BlankConcat("\"" + text, "\"");
    BlankConcat("\"", text);
    assert Blank("\"") == "\"";
    QuotedText(Blank(text), codes);
  }

  /** The printed value reads as the attribute's meaning exactly when the attribute is readable. */
  lemma ValueReadsBack(name: string, a: Attr, pid: nat, files: Snapshot)
    requires files.Defined() && AttrNamed(name) == Some(a) && files.Value(pid, a).Ok?
    ensures ValueText(name, pid, files).Ok?
    ensures Json.Whole(Blank(ValueText(name, pid, files).value)) == Some(Meaning(a, pid, files)) <==>
            Readable(a, pid, files)
  {
    hide AttrNamed, Json.Whole, Json.IsNumber, Stripped, Usage, UsageSurvives, EscapeQuotes, StoUL, Thousandths;
    hide Snapshot.CpuTicks;
    hide Snapshot.TimesReadable, StatusWord, LastBytes, Total, TrimUsage, RoundedKB, UpToWrite, Bare, SecondWord;
    var text := files.Value(pid, a).value;
    match a {
      case Name =>
        QuotedReads(text, Codes(Blank(text)));
        UnescapedSurvives(text);
        NullIsClean(files.comm);
      case ExecutePath =>
        QuotedReads(text, Codes(Blank(text)));
        UnescapedSurvives(text);
      case Command =>
        CommandReads(pid, files);
      case Pid =>
        DigitsRead(pid);
      case CpuTime =>
        ThousandthsRead(files.CpuTicks());
      case NetworkIn =>
        DigitsRead(RoundedKB(Total(files.net, "RX") % TWO_TO_64));
      case NetworkOut =>
        DigitsRead(RoundedKB(Total(files.net, "TX") % TWO_TO_64));
      case ReadKBs =>
        DigitsRead(RoundedKB(LastBytes(UpToWrite(files.io), "read_bytes:")));
      case WriteKBs =>
        DigitsRead(RoundedKB(LastBytes(UpToWrite(files.io), "write_bytes:")));
      case CpuUsage =>
        UsageIsTrimmed(pid, files);
        UsageReads(UsageLine(files));
      case _ =>
        BareReads(Blank(text));
    }
  }

  lemma UsageIsTrimmed(pid: nat, files: Snapshot)
    requires files.Defined()
    ensures files.Value(pid, CpuUsage) == Ok(OrNull(TrimUsage(UsageLine(files))))
  {
  }

  lemma NullIsClean(s: string)
    ensures Clean(OrNull(s)) <==> Clean(s)
  {
  }

  lemma DigitsRead(n: nat)
    ensures Json.Whole(Blank(Digits(n))) == Some(Json.Num(Digits(n)))
  {
    Json.DigitsAreANumber(n);
    NumberReads(Digits(n));
  }

  lemma ThousandthsRead(n: nat)
    ensures Json.Whole(Blank(Thousandths(n))) == Some(Json.Num(Thousandths(n)))
  {
    hide Json.IsNumber, Json.Whole, Digits;
    ValueOfDigits(n / 1000);
    Json.DecimalsAreANumber(Digits(n / 1000),
                            [DigitChar(n / 100 % 10), DigitChar(n / 10 % 10), DigitChar(n % 10)]);
    NumberReads(Thousandths(n));
  }

  lemma CommandReads(pid: nat, files: Snapshot)
    requires files.Defined()
    ensures var read := Json.Whole(Blank("\"" + files.Value(pid, Command).value + "\""));
            read == Some(Meaning(Command, pid, files)) <==> Readable(Command, pid, files)
  {
    hide Json.Whole, EscapeQuotes;
    var text := files.Value(pid, Command).value;
    var line := if files.cmdline.Some? then OrNull(files.cmdline.value) else "";
    QuotedReads(text, Codes(Blank(line)));
    if files.cmdline.Some? {
      CommandAttributeSurvives(files, pid);
    } else {
      UnescapedSurvives("");
    }
  }

  /** The member that an attribute of the projection stands for. */
  function MemberFor(a: Attribute, pid: nat, files: Snapshot): Json.Member
    requires files.Defined() && AttrNamed(a.name).Some? && files.Value(pid, AttrNamed(a.name).value).Ok?
  {
    Json.Member(Codes(Blank(KeyText(a))), Meaning(AttrNamed(a.name).value, pid, files))
  }

  /** A printed attribute reads back as its member exactly when its key is clean and its value readable. */
  lemma AttributeReadsBack(a: Attribute, pid: nat, files: Snapshot)
    requires files.Defined() && AttrNamed(a.name).Some? && files.Value(pid, AttrNamed(a.name).value).Ok?
    ensures ValueText(a.name, pid, files).Ok?
    ensures var printed := Field(KeyText(a), ValueText(a.name, pid, files).value);
            MemberOf(printed.Blanked()) == Some(MemberFor(a, pid, files)) <==>
            Clean(KeyText(a)) && Readable(AttrNamed(a.name).value, pid, files)
  {
    hide AttrNamed, ValueText, Json.Whole, Json.ReadString, Readable, Meaning;
    ValueReadsBack(a.name, AttrNamed(a.name).value, pid, files);
    UnescapedSurvives(KeyText(a));
  }

  /** An unknown attribute, or a user or group whose line is missing from the status file. */
  predicate HasNoValue(name: string, files: Snapshot) {
    var a := AttrNamed(name);
    a.None? || (a.value == Uid && |files.status| <= 8) || (a.value == Gid && |files.status| <= 9)
  }

  /** Such an attribute is printed without any value. */
  lemma MissingValues(name: string, pid: nat, files: Snapshot)
    requires files.Defined() && HasNoValue(name, files)
    ensures ValueText(name, pid, files) == Ok("")
  {
    hide AttrNamed;
  }

  // ----- one header -----

  /** Headers are copied into the message without any change. */
  predicate Printable(s: string) {
    Clean(s) && forall i :: 0 <= i < |s| ==> s[i] >= ' '
  }

  lemma {:induction false} ControlsAreRefused(s: string)
    requires Clean(s) && exists i :: 0 <= i < |s| && s[i] < ' '
    ensures Json.ReadString(s + "\"").Malformed?
  {
    var t := s + "\"";
    assert t[0] == s[0] && t[1..] == s[1..] + "\"";
    if s[0] < ' ' {
    } else {
      var i :| 0 <= i < |s| && s[i] < ' ';
      assert s[1..][i - 1] == s[i];
      assert s[0] != '"' && s[0] != '\\';
      assert forall j :: 0 <= j < |s| - 1 ==> s[1..][j] == s[j + 1];
      ControlsAreRefused(s[1..]);
    }
  }

  lemma PrintableReads(s: string)
    ensures ReadsAs(s, Codes(s)) <==> Printable(s)
  {
    if !Clean(s) {
      SpecialsAreLost(s);
    } else if i :| 0 <= i < |s| && s[i] < ' ' {
      ControlsAreRefused(s);
    } else {
      PlainReadsBack(s);
    }
  }

  function HeaderMember(h: Header): Json.Member {
    Json.Member(Codes(h.name), Json.Str(Codes(h.value)))
  }

  /** A header reads back exactly when name and value have no control character, quote or backslash. */
  lemma HeaderReadsBack(h: Header)
    ensures MemberOf(h.AsField()) == Some(HeaderMember(h)) <==> Printable(h.name) && Printable(h.value)
  {
    hide Json.ReadString, Json.Whole;
    PrintableReads(h.name);
    PrintableReads(h.value);
    QuotedText(h.value, Codes(h.value));
  }

  // ----- a whole message -----

  /** The attribute is known and its value can be read. */
  predicate Present(a: Attribute, pid: nat, files: Snapshot)
    requires files.Defined()
  {
    AttrNamed(a.name).Some? && files.Value(pid, AttrNamed(a.name).value).Ok?
  }

  predicate AllPresent(projection: seq<Attribute>, pid: nat, files: Snapshot)
    requires files.Defined()
  {
    forall i :: 0 <= i < |projection| ==> Present(projection[i], pid, files)
  }

  /** What is printed of it can be read back as it was meant. */
  predicate ReadsBack(a: Attribute, pid: nat, files: Snapshot)
    requires files.Defined()
  {
    Present(a, pid, files) && Clean(KeyText(a)) && Readable(AttrNamed(a.name).value, pid, files)
  }

  predicate AllReadBack(projection: seq<Attribute>, pid: nat, files: Snapshot)
    requires files.Defined()
  {
    forall i :: 0 <= i < |projection| ==> ReadsBack(projection[i], pid, files)
  }

  predicate AllPrintable(headers: seq<Header>) {
    forall i :: 0 <= i < |headers| ==> Printable(headers[i].name) && Printable(headers[i].value)
  }

  function RecordMembers(projection: seq<Attribute>, pid: nat, files: Snapshot): (ms: seq<Json.Member>)
    requires files.Defined() && AllPresent(projection, pid, files)
    ensures |ms| == |projection|
    ensures forall i :: 0 <= i < |projection| ==> ms[i] == MemberFor(projection[i], pid, files)
  {
    seq(|projection|, i requires 0 <= i < |projection| => MemberFor(projection[i], pid, files))
  }

  function HeaderMembers(headers: seq<Header>): (ms: seq<Json.Member>)
    ensures |ms| == |headers|
    ensures forall i :: 0 <= i < |headers| ==> ms[i] == HeaderMember(headers[i])
  {
    seq(|headers|, i requires 0 <= i < |headers| => HeaderMember(headers[i]))
  }

  lemma {:induction false} FieldsArePrinted(projection: seq<Attribute>, pid: nat, files: Snapshot)
    requires files.Defined() && forall i :: 0 <= i < |projection| ==> AttrNamed(projection[i].name).Some?
    ensures FieldsOf(projection, pid, files).Ok? <==> AllPresent(projection, pid, files)
  {
    hide AttrNamed, KeyText, Snapshot.Value;
    if projection == [] {
    } else {
      assert forall i :: 0 <= i < |projection| - 1 ==> projection[1..][i] == projection[i + 1];
      FieldsArePrinted(projection[1..], pid, files);
      assert AllPresent(projection, pid, files) <==>
             Present(projection[0], pid, files) && AllPresent(projection[1..], pid, files) by {
        assert forall i :: 0 < i < |projection| ==> projection[i] == projection[1..][i - 1];
      }
    }
  }

  lemma {:induction false} FieldAt(projection: seq<Attribute>, pid: nat, files: Snapshot, i: nat)
    requires files.Defined() && FieldsOf(projection, pid, files).Ok? && i < |projection|
    ensures ValueText(projection[i].name, pid, files).Ok?
    ensures FieldsOf(projection, pid, files).value[i]
         == Field(KeyText(projection[i]), ValueText(projection[i].name, pid, files).value)
  {
    hide ValueText, KeyText;
    if i == 0 {
    } else {
      FieldAt(projection[1..], pid, files, i - 1);
    }
  }

  lemma FieldsReadBack(projection: seq<Attribute>, pid: nat, files: Snapshot)
    requires files.Defined() && AllReadBack(projection, pid, files)
    requires FieldsOf(projection, pid, files).Ok? && AllPresent(projection, pid, files)
    ensures var bs := BlankedAll(FieldsOf(projection, pid, files).value);
            AllReadable(bs) && MembersOf(bs) == RecordMembers(projection, pid, files)
  {
    hide FieldsOf, ValueText, Readable, Meaning, MemberOf, AttrNamed, KeyText;
    var bs := BlankedAll(FieldsOf(projection, pid, files).value);
    forall i | 0 <= i < |projection|
      ensures MemberOf(bs[i]) == Some(MemberFor(projection[i], pid, files))
    {
      assert ReadsBack(projection[i], pid, files);
      FieldAt(projection, pid, files, i);
      AttributeReadsBack(projection[i], pid, files);
    }
    assert forall i :: 0 <= i < |bs| ==> MemberOf(bs[i]).Some?;
  }

  lemma HeadersReadBack(headers: seq<Header>)
    requires AllPrintable(headers)
    ensures var hs := HeaderFields(headers);
            AllReadable(hs) && MembersOf(hs) == HeaderMembers(headers)
  {
    hide MemberOf, Printable;
    var hs := HeaderFields(headers);
    forall i | 0 <= i < |headers|
      ensures MemberOf(hs[i]) == Some(HeaderMember(headers[i]))
    {
      HeaderReadsBack(headers[i]);
    }
  }

  // What a reader gets takes ink, so what is printed with too little of it is not read back.

  lemma {:induction false} TextCost(s: string)
    ensures Json.StringCost(Codes(s)) >= Json.Ink(s)
    ensures Json.StringCost(Codes(s)) == Json.Ink(s) <==> Printable(s)
  {
    if s == "" {
    } else {
      assert Codes(s)[1..] == Codes(s[1..]);
      TextCost(s[1..]);
      PrintableSplit(s);
    }
  }

  lemma PrintableSplit(s: string)
    requires s != ""
    ensures Printable(s) <==> s[0] != '"' && s[0] != '\\' && s[0] >= ' ' && Printable(s[1..])
  {
    assert forall i :: 0 <= i < |s| - 1 ==> s[1..][i] == s[i + 1];
    assert forall i :: 0 < i < |s| ==> s[i] == s[1..][i - 1];
  }

  lemma BlankedCost(s: string)
    ensures Json.StringCost(Codes(Blank(s))) >= Json.Ink(Blank(s))
    ensures Json.StringCost(Codes(Blank(s))) == Json.Ink(Blank(s)) <==> Clean(s)
  {
    hide Json.StringCost, Json.Ink;
    TextCost(Blank(s));
    BlankKeeps(s, '"');
    BlankKeeps(s, '\\');
  }

  /** Quotes are printed as the reader wants them, backslashes are not. */
  lemma {:induction false} EscapedCost(s: string)
    requires NoControls(s)
    ensures Json.StringCost(Codes(s)) >= Json.Ink(EscapeQuotes(s))
    ensures Json.StringCost(Codes(s)) == Json.Ink(EscapeQuotes(s)) <==> !Has(s, '\\')
  {
    if s == "" {
    } else {
      assert forall i :: 0 <= i < |s| - 1 ==> s[1..][i] == s[i + 1];
      assert Codes(s)[1..] == Codes(s[1..]);
      EscapedCost(s[1..]);
      EscapedInk(s);
      assert !IsControl(s[0]);
      if s[0] != '\\' {
        HasTail(s);
      }
    }
  }

  lemma EscapedInk(s: string)
    requires s != ""
    ensures Json.Ink(EscapeQuotes(s))
         == (if s[0] == '"' then 2 else if s[0] == ' ' then 0 else 1) + Json.Ink(EscapeQuotes(s[1..]))
  {
    if s[0] == '"' {
      Json.InkOfNoBlanks("\\\"");
      Json.InkConcat("\\\"", EscapeQuotes(s[1..]));
    } else {
      assert EscapeQuotes(s)[1..] == EscapeQuotes(s[1..]);
    }
  }

  /** The same for a whole command line and what is printed of it. */
  lemma CommandCost(line: string)
    ensures Json.StringCost(Codes(Blank(OrNull(line)))) >= Json.Ink(Blank(OrNull(EscapeQuotes(line))))
    ensures Json.StringCost(Codes(Blank(OrNull(line)))) == Json.Ink(Blank(OrNull(EscapeQuotes(line)))) <==>
            !Has(line, '\\')
  {
    hide Json.StringCost, EscapeQuotes, Json.Ink;
    if line == "" {
      NothingToEscape();
      BlankedCost("null");
    } else {
      EscapedIsNotEmpty(line);
      BlankEscape(line);
      BlankKeeps(line, '\\');
      EscapedCost(Blank(line));
    }
  }

  lemma QuotedInk(text: string)
    ensures Json.Ink(Blank("\"" + text + "\"")) == Json.Ink(Blank(text)) + 2
  {
    BlankConcat("\"" + text, "\"");
    BlankConcat("\"", text);
    assert Blank("\"") == "\"";
    Json.InkConcat("\"" + Blank(text), "\"");
    Json.InkConcat("\"", Blank(text));
    Json.InkOfNoBlanks("\"");
  }

  lemma BareCost(text: string)
    ensures var v := Bare(Stripped(text));
            && Json.ValueCost(v) >= Json.Ink(text)
            && (Json.IsWellFormed(v) ==> IsFigure(Stripped(text)))
  {
    hide Json.IsNumber, Stripped;
    InkOfStripped(text);
  }

  lemma ValueFits(name: string, a: Attr, pid: nat, files: Snapshot)
    requires files.Defined() && AttrNamed(name) == Some(a) && files.Value(pid, a).Ok?
    ensures ValueText(name, pid, files).Ok?
    ensures var v, m := Blank(ValueText(name, pid, files).value), Meaning(a, pid, files);
            && Json.ValueCost(m) >= Json.Ink(v)
            && (Json.ValueCost(m) == Json.Ink(v) && Json.IsWellFormed(m) ==> Readable(a, pid, files))
  {
    hide AttrNamed, Json.IsNumber, EscapeQuotes, StoUL, Thousandths, Snapshot.CpuTicks, Json.StringCost, Json.Ink;
    hide Snapshot.TimesReadable, StatusWord, LastBytes, Total, TrimUsage, RoundedKB, UpToWrite, SecondWord;
    hide Stripped, Usage, UsageSurvives, Bare, Json.IsWellFormed;
    match a {
      case Name =>
        QuotedInk(OrNull(files.comm));
        BlankedCost(OrNull(files.comm));
        NullIsClean(files.comm);
      case ExecutePath =>
        QuotedInk(files.Value(pid, a).value);
        BlankedCost(files.Value(pid, a).value);
      case Command =>
        QuotedInk(files.Value(pid, a).value);
        if files.cmdline.Some? {
          CommandCost(files.cmdline.value);
        } else {
          BlankedCost("");
        }
      case CpuUsage =>
        UsageIsTrimmed(pid, files);
        UsageCost(UsageLine(files));
      case ParentPid | Uid | Gid | VirtualMemory | PhysicalMemory =>
        BareCost(Blank(files.Value(pid, a).value));
      case _ =>
    }
  }

  lemma FieldInk(f: Field)
    ensures Json.Ink(f.Text()) == 3 + Json.Ink(f.key) + Json.Ink(f.value)
  {
    Json.InkConcat("\"" + f.key + "\":", f.value);
    Json.InkConcat("\"" + f.key, "\":");
    Json.InkConcat("\"", f.key);
    Json.InkOfNoBlanks("\":");
    Json.InkOfNoBlanks("\"");
  }

  lemma AttributeFits(a: Attribute, pid: nat, files: Snapshot)
    requires files.Defined() && Present(a, pid, files)
    ensures ValueText(a.name, pid, files).Ok?
    ensures var b := Field(KeyText(a), ValueText(a.name, pid, files).value).Blanked();
            var m := MemberFor(a, pid, files);
            && Json.MemberCost(m) >= Json.Ink(b.Text())
            && (Json.MemberCost(m) == Json.Ink(b.Text()) && Json.IsWellFormed(m.value) ==> ReadsBack(a, pid, files))
  {
    hide AttrNamed, ValueText, KeyText, Json.ValueCost, Json.StringCost, Readable, Meaning, Json.IsWellFormed;
    hide Json.Ink, Field.Text;
    BlankedCost(KeyText(a));
    ValueFits(a.name, AttrNamed(a.name).value, pid, files);
    FieldInk(Field(KeyText(a), ValueText(a.name, pid, files).value).Blanked());
  }

  lemma HeaderFits(h: Header)
    ensures Json.MemberCost(HeaderMember(h)) >= Json.Ink(h.AsField().Text())
    ensures Json.MemberCost(HeaderMember(h)) == Json.Ink(h.AsField().Text()) ==>
              Printable(h.name) && Printable(h.value)
  {
    hide Json.StringCost, Printable, Json.Ink, Field.Text;
    TextCost(h.name);
    TextCost(h.value);
    FieldInk(h.AsField());
    Json.InkConcat("\"" + h.value, "\"");
    Json.InkConcat("\"", h.value);
    Json.InkOfNoBlanks("\"");
  }

  /** The members ms take at least the ink of the fields fs one by one. */
  predicate Fit(ms: seq<Json.Member>, fs: seq<Field>) {
    |ms| == |fs| && forall i :: 0 <= i < |ms| ==> Json.MemberCost(ms[i]) >= Json.Ink(fs[i].Text())
  }

  lemma TailInk(fs: seq<Field>)
    requires fs != []
    ensures Json.Ink(Tail(fs)) == 1 + Json.Ink(fs[0].Text()) + Json.Ink(Tail(fs[1..]))
  {
    hide Field.Text;
    Json.InkConcat("," + fs[0].Text(), Tail(fs[1..]));
    Json.InkConcat(",", fs[0].Text());
    Json.InkOfNoBlanks(",");
  }

  lemma {:induction false} TightEverywhere(ms: seq<Json.Member>, fs: seq<Field>)
    requires Fit(ms, fs)
    ensures Json.MembersCost(ms) >= Json.Ink(Tail(fs))
    ensures Json.MembersCost(ms) == Json.Ink(Tail(fs)) ==>
              forall i :: 0 <= i < |ms| ==> Json.MemberCost(ms[i]) == Json.Ink(fs[i].Text())
  {
    hide Json.MemberCost, Field.Text, Json.Ink;
    if ms == [] {
      NoInk();
    } else {
      assert forall i :: 0 <= i < |ms| - 1 ==> ms[1..][i] == ms[i + 1] && fs[1..][i] == fs[i + 1];
      TightEverywhere(ms[1..], fs[1..]);
      TailInk(fs);
      assert Json.MemberCost(ms[0]) >= Json.Ink(fs[0].Text());
      if Json.MembersCost(ms) == Json.Ink(Tail(fs)) {
        forall i | 0 <= i < |ms|
          ensures Json.MemberCost(ms[i]) == Json.Ink(fs[i].Text())
        {
          assert i > 0 ==> ms[i] == ms[1..][i - 1] && fs[i] == fs[1..][i - 1];
        }
      }
    }
  }

  lemma NoInk()
    ensures Json.Ink("") == 0
  {
  }

  lemma PayloadInk(fs: seq<Field>, headers: seq<Header>)
    requires fs != []
    ensures Json.Ink(Payload(Record(fs), headers)) == 1 + Json.Ink(Tail(BlankedAll(fs) + HeaderFields(headers)))
  {
    hide Payload, Record, Blank, Json.Ink;
    var bs, hs := BlankedAll(fs), HeaderFields(headers);
    PayloadText(fs, headers);
    TailConcat(bs, hs);
    assert Tail(bs) == "," + Join(bs);
    Json.InkConcat("{", Join(bs) + Tail(hs) + "}");
    Json.InkConcat(Join(bs) + Tail(hs), "}");
    Json.InkConcat(Join(bs), Tail(hs));
    Json.InkConcat(Tail(bs), Tail(hs));
    Json.InkConcat(",", Join(bs));
    Json.InkOfNoBlanks("{");
    Json.InkOfNoBlanks("}");
    Json.InkOfNoBlanks(",");
  }

  lemma FieldsFit(projection: seq<Attribute>, pid: nat, files: Snapshot, headers: seq<Header>)
    requires files.Defined() && FieldsOf(projection, pid, files).Ok? && AllPresent(projection, pid, files)
    ensures Fit(RecordMembers(projection, pid, files) + HeaderMembers(headers),
                BlankedAll(FieldsOf(projection, pid, files).value) + HeaderFields(headers))
  {
    hide FieldsOf, ValueText, KeyText, MemberFor, HeaderMember, Json.MemberCost, ReadsBack, Field.Text, Present;
    hide Json.Ink;
    var bs := BlankedAll(FieldsOf(projection, pid, files).value);
    var ms := RecordMembers(projection, pid, files);
    forall i | 0 <= i < |projection|
      ensures Json.MemberCost(ms[i]) >= Json.Ink(bs[i].Text())
    {
      BlankedField(projection, pid, files, i);
    }
    forall i | 0 <= i < |headers|
      ensures Json.MemberCost(HeaderMembers(headers)[i]) >= Json.Ink(HeaderFields(headers)[i].Text())
    {
      HeaderFits(headers[i]);
    }
  }

  lemma BlankedField(projection: seq<Attribute>, pid: nat, files: Snapshot, i: nat)
    requires files.Defined() && FieldsOf(projection, pid, files).Ok? && AllPresent(projection, pid, files)
    requires i < |projection|
    ensures var m, b := MemberFor(projection[i], pid, files), BlankedAll(FieldsOf(projection, pid, files).value)[i];
            && Json.MemberCost(m) >= Json.Ink(b.Text())
            && (Json.MemberCost(m) == Json.Ink(b.Text()) && Json.IsWellFormed(m.value) ==>
                  ReadsBack(projection[i], pid, files))
  {
    hide FieldsOf, ValueText, KeyText, MemberFor, Json.MemberCost, ReadsBack, Json.IsWellFormed, Json.Ink;
    assert Present(projection[i], pid, files);
    FieldAt(projection, pid, files, i);
    AttributeFits(projection[i], pid, files);
  }

  lemma OnlyReadable(projection: seq<Attribute>, pid: nat, files: Snapshot, headers: seq<Header>)
    requires files.Defined() && projection != []
    requires FieldsOf(projection, pid, files).Ok? && AllPresent(projection, pid, files)
    requires Json.ReadObject(Payload(Render(projection, pid, files).value, headers))
          == Some(RecordMembers(projection, pid, files) + HeaderMembers(headers))
    ensures AllReadBack(projection, pid, files) && AllPrintable(headers)
  {
    hide FieldsOf, Json.ReadObject, Payload, Record, ReadsBack, MemberFor, HeaderMember, Json.MemberCost, Field.Text;
    hide Fit, Json.MembersCost, Tail, Printable, Json.IsWellFormed, Json.Ink;
    var fs := FieldsOf(projection, pid, files).value;
    var bs, hs := BlankedAll(fs), HeaderFields(headers);
    var ms := RecordMembers(projection, pid, files) + HeaderMembers(headers);
    Json.ObjectTakes(Payload(Record(fs), headers));
    PayloadInk(fs, headers);
    FieldsFit(projection, pid, files, headers);
    TightEverywhere(ms, bs + hs);
    forall i | 0 <= i < |projection|
      ensures ReadsBack(projection[i], pid, files)
    {
      assert ms[i] == MemberFor(projection[i], pid, files) && (bs + hs)[i] == bs[i];
      BlankedField(projection, pid, files, i);
    }
    forall i | 0 <= i < |headers|
      ensures Printable(headers[i].name) && Printable(headers[i].value)
    {
      var k := |bs| + i;
      assert ms[k] == HeaderMember(headers[i]) && (bs + hs)[k] == hs[i];
      HeaderFits(headers[i]);
    }
  }

  lemma NoFields(projection: seq<Attribute>, pid: nat, files: Snapshot)
    requires files.Defined() && projection == []
    ensures FieldsOf(projection, pid, files) == Ok([]) && AllReadBack(projection, pid, files) && AllPrintable([])
  {
  }

  lemma HeadersWithoutRecord(headers: seq<Header>)
    requires headers != []
    ensures Json.ReadObject(Payload(Record([]), headers)) == None
  {
    hide Json.ReadMembers, Json.ReadObject, Payload, Record, Blank;
    var inner := Join(BlankedAll([])) + Tail(HeaderFields(headers)) + "}";
    PayloadText([], headers);
    NoMemberAtComma(inner);
    ReadBraces(inner);
  }

  /**
   * A message is a JSON object with the members of the attributes and then
   * those of the headers exactly when it has an attribute or no header, every
   * key and value of the record reads back and every header is printable.
   */
  lemma MessageReadsBack(projection: seq<Attribute>, pid: nat, files: Snapshot, headers: seq<Header>)
    requires files.Defined() && Render(projection, pid, files).Ok? && AllPresent(projection, pid, files)
    ensures Json.ReadObject(Payload(Render(projection, pid, files).value, headers))
         == Some(RecordMembers(projection, pid, files) + HeaderMembers(headers))
       <==> (projection != [] || headers == []) && AllReadBack(projection, pid, files) && AllPrintable(headers)
  {
    hide FieldsOf, Json.ReadObject, Payload, Record, MembersOf, BlankedAll, AllReadable, AllReadBack, AllPrintable;
    hide AllPresent;
    if AllReadBack(projection, pid, files) && AllPrintable(headers) {
      FieldsReadBack(projection, pid, files);
      HeadersReadBack(headers);
      PayloadReads(FieldsOf(projection, pid, files).value, headers);
    } else if projection != [] {
      if Json.ReadObject(Payload(Render(projection, pid, files).value, headers))
         == Some(RecordMembers(projection, pid, files) + HeaderMembers(headers)) {
        OnlyReadable(projection, pid, files, headers);
      }
    } else {
      NoFields(projection, pid, files);
      HeadersWithoutRecord(headers);
    }
  }

  /**
   * What the reader finds in such a message: a member for each attribute, named
   * by its alias or, without one, by its name, and holding what is printed for
   * it, and then each header as it was given.
   */
  lemma MembersAreNamed(projection: seq<Attribute>, pid: nat, files: Snapshot, headers: seq<Header>)
    requires files.Defined() && Render(projection, pid, files).Ok? && AllPresent(projection, pid, files)
    requires (projection != [] || headers == []) && AllReadBack(projection, pid, files) && AllPrintable(headers)
    ensures var read := Json.ReadObject(Payload(Render(projection, pid, files).value, headers));
            && read.Some? && |read.value| == |projection| + |headers|
            && (forall i :: 0 <= i < |projection| ==>
                  var key := if projection[i].alias != "" then projection[i].alias else projection[i].name;
                  && read.value[i].name == Codes(Blank(key))
                  && ValueText(projection[i].name, pid, files).Ok?
                  && Json.Whole(Blank(ValueText(projection[i].name, pid, files).value)) == Some(read.value[i].value))
            && (forall j :: 0 <= j < |headers| ==>
                  read.value[|projection| + j]
                  == Json.Member(Codes(headers[j].name), Json.Str(Codes(headers[j].value))))
  {
    hide Render, Json.ReadObject, Payload, Json.Whole, ValueText, MemberFor, ReadsBack, Present, Blank, AllPrintable;
    MessageReadsBack(projection, pid, files, headers);
    forall i | 0 <= i < |projection|
      ensures Present(projection[i], pid, files) && MemberOfAttribute(projection[i], pid, files)
    {
      MemberIsNamed(projection[i], pid, files);
    }
  }

  /** The member of an attribute has its alias or name and holds what is printed for it. */
  predicate MemberOfAttribute(a: Attribute, pid: nat, files: Snapshot)
    requires files.Defined() && Present(a, pid, files)
  {
    var m := MemberFor(a, pid, files);
    && m.name == Codes(Blank(if a.alias != "" then a.alias else a.name))
    && ValueText(a.name, pid, files).Ok?
    && Json.Whole(Blank(ValueText(a.name, pid, files).value)) == Some(m.value)
  }

  lemma MemberIsNamed(a: Attribute, pid: nat, files: Snapshot)
    requires files.Defined() && ReadsBack(a, pid, files)
    ensures Present(a, pid, files) && MemberOfAttribute(a, pid, files)
  {
    hide Json.Whole, ValueText, Readable, Meaning, AttrNamed;
    ValueReadsBack(a.name, AttrNamed(a.name).value, pid, files);
  }

  // ----- a missing value -----

  lemma NoMemberWithoutValue(f: Field, more: string)
    requires f.value == "" && more != "" && more[0] in {',', '}'}
    requires Json.ReadString(f.key + "\"").Got? && Json.ReadString(f.key + "\"").rest == ""
    ensures Json.ReadMember(f.Text() + more).Malformed?
  {
    hide Json.ReadString, Json.ReadNumber, Json.SkipWs;
    var afterName := ":" + more;
    assert f.Text() + more == "\"" + (f.key + "\"" + afterName);
    Json.ReadStringExtends(f.key + "\"", afterName);
    assert "" + afterName == afterName;
    Json.NoWs(afterName);
    assert afterName[1..] == more;
    Json.NoWs(more);
  }

  lemma {:induction false} StopsAtMissing(good: seq<Field>, f: Field, rest: seq<Field>)
    requires AllReadable(good) && f.value == ""
    requires Json.ReadString(f.key + "\"").Got? && Json.ReadString(f.key + "\"").rest == ""
    ensures Json.ReadMembers(Join(good + [f] + rest) + "}").Malformed?
    decreases |good|
  {
    hide Json.ReadMember, Json.ReadString, MemberOf, Field.Text;
    var fs := good + [f] + rest;
    var more := Tail(fs[1..]) + "}";
    assert Join(fs) + "}" == fs[0].Text() + more;
    if good == [] {
      NoMemberWithoutValue(f, more);
    } else {
      ReadField(good[0], more);
      assert fs[1..] == good[1..] + [f] + rest;
      var next := Join(fs[1..]) + "}";
      assert more == "," + next;
      assert more[1..] == next;
      QuoteFirst(fs[1], Tail(fs[1..][1..]) + "}");
      Json.NoWs(next);
      StopsAtMissing(good[1..], f, rest);
    }
  }

  lemma QuoteFirst(f: Field, more: string)
    ensures f.Text() + more != "" && (f.Text() + more)[0] == '"'
  {
  }

  /** One attribute without a value spoils the message: behind readable fields, its comma or brace is no JSON. */
  lemma MissingValueSpoils(fs: seq<Field>, k: nat, headers: seq<Header>)
    requires k < |fs| && fs[k].value == "" && Clean(fs[k].key)
    requires forall i :: 0 <= i < k ==> MemberOf(fs[i].Blanked()).Some?
    ensures Json.ReadObject(Payload(Record(fs), headers)) == None
  {
    hide Json.ReadMembers, Json.ReadObject, Json.ReadString, MemberOf, Payload, Record, Blank;
    var bs, hs := BlankedAll(fs), HeaderFields(headers);
    UnescapedSurvives(fs[k].key);
    NothingIsBlank();
    StopsAtMissing(bs[..k], bs[k], bs[k + 1..] + hs);
    PayloadText(fs, headers);
    JoinConcat(bs, hs);
    assert bs[..k] + [bs[k]] + (bs[k + 1..] + hs) == bs + hs;
    QuoteFirst(bs[0], Tail(bs[1..]) + Tail(hs) + "}");
    Associate(bs[0].Text() + Tail(bs[1..]), Tail(hs), "}");
    ReadBraces(Join(bs) + Tail(hs) + "}");
  }

  /** An unknown attribute, or a user or group without its status line, behind attributes that read back. */
  lemma MissingAttributeSpoils(projection: seq<Attribute>, k: nat, pid: nat, files: Snapshot, headers: seq<Header>)
    requires files.Defined() && FieldsOf(projection, pid, files).Ok? && k < |projection|
    requires forall i :: 0 <= i < k ==> ReadsBack(projection[i], pid, files)
    requires Clean(KeyText(projection[k])) && HasNoValue(projection[k].name, files)
    ensures Json.ReadObject(Payload(Render(projection, pid, files).value, headers)) == None
  {
    hide FieldsOf, Json.ReadObject, Payload, Record, ReadsBack, MemberOf, ValueText, KeyText, HasNoValue, Clean;
    var fs := FieldsOf(projection, pid, files).value;
    forall i | 0 <= i < k
      ensures MemberOf(fs[i].Blanked()).Some?
    {
      FieldAt(projection, pid, files, i);
      AttributeIsRead(projection[i], pid, files);
    }
    FieldAt(projection, pid, files, k);
    MissingValues(projection[k].name, pid, files);
    MissingValueSpoils(fs, k, headers);
  }

  lemma AttributeIsRead(a: Attribute, pid: nat, files: Snapshot)
    requires files.Defined() && ReadsBack(a, pid, files)
    ensures ValueText(a.name, pid, files).Ok?
    ensures MemberOf(Field(KeyText(a), ValueText(a.name, pid, files).value).Blanked()).Some?
  {
    hide AttrNamed, ValueText, KeyText, Readable, Clean, MemberOf;
    AttributeReadsBack(a, pid, files);
  }
}
