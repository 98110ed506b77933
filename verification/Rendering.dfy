/** From a process to the message that is produced: projection, splicing of the headers, and reading it back. */
module Rendering {
  import opened Text
  import opened Snapshots
  import opened Processes
  import opened Filters
  import Json

  /** A printed name and a printed value. */
  datatype Field = Field(key: string, value: string) {
    function Text(): string {
      "\"" + key + "\":" + value
    }

    function Blanked(): Field {
      Field(Blank(key), Blank(value))
    }
  }

  predicate IsQuoted(a: Attr) {
    a == Name || a == ExecutePath || a == Command
  }

  /** A known attribute prints its value, quoted or bare; an unknown name prints nothing. */
  function ValueText(name: string, pid: nat, files: Snapshot): Outcome<string>
    requires files.Defined()
  {
    match AttrNamed(name)
    case None => Ok("")
    case Some(a) =>
      match files.Value(pid, a)
      case Throws => Throws
      case Ok(v) => Ok(if IsQuoted(a) then "\"" + v + "\"" else v)
  }

  function KeyText(a: Attribute): string {
    if a.alias != "" then a.alias else a.name
  }

  /** The fields of a record in the order of the projection. */
  function FieldsOf(projection: seq<Attribute>, pid: nat, files: Snapshot): (r: Outcome<seq<Field>>)
    requires files.Defined()
    ensures r.Ok? ==> |r.value| == |projection|
  {
    if projection == [] then Ok([])
    else
      match ValueText(projection[0].name, pid, files)
      case Throws => Throws
      case Ok(v) => After([Field(KeyText(projection[0]), v)], FieldsOf(projection[1..], pid, files))
  }

  function After(done: seq<Field>, rest: Outcome<seq<Field>>): Outcome<seq<Field>> {
    if rest.Ok? then Ok(done + rest.value) else Throws
  }

  /** Each field preceded by a comma. */
  function Tail(fs: seq<Field>): string {
    if fs == [] then "" else "," + fs[0].Text() + Tail(fs[1..])
  }

  function Join(fs: seq<Field>): string {
    if fs == [] then "" else fs[0].Text() + Tail(fs[1..])
  }

  /** The whole record has its control characters blanked. */
  function Record(fs: seq<Field>): string {
    Blank("{" + Join(fs) + "}")
  }

  function Render(projection: seq<Attribute>, pid: nat, files: Snapshot): Outcome<string>
    requires files.Defined()
  {
    match FieldsOf(projection, pid, files)
    case Throws => Throws
    case Ok(fs) => Ok(Record(fs))
  }

  lemma {:induction false} TailConcat(a: seq<Field>, b: seq<Field>)
    ensures Tail(a + b) == Tail(a) + Tail(b)
  {
    if a == [] {
      assert a + b == b;
    } else {
      assert (a + b)[1..] == a[1..] + b;
      TailConcat(a[1..], b);
    }
  }

  lemma JoinConcat(a: seq<Field>, b: seq<Field>)
    requires a != []
    ensures Join(a + b) == Join(a) + Tail(b)
  {
    assert (a + b)[1..] == a[1..] + b;
    TailConcat(a[1..], b);
  }

  /** The value part of one attribute. */
  method PrintValue(name: string, proc: Process) returns (r: Outcome<string>)
    requires proc.Valid()
    modifies proc
    ensures r == ValueText(name, proc.number, proc.files.value)
    ensures r.Ok? ==> proc.Valid()
  {
    hide Process.Cached;
    var a := AttrNamed(name);
    if a.None? {
      return Ok("");
    }
    r := proc.Get(a.value);
    if r.Ok? && IsQuoted(a.value) {
      r := Ok("\"" + r.value + "\"");
    }
  }

  /** iterateProc prints the snapshot's attributes, whatever the process has cached. */
  method IterateProc(projection: seq<Attribute>, proc: Process) returns (r: Outcome<string>)
    requires proc.Valid()
    modifies proc
    ensures r == Render(projection, proc.number, proc.files.value)
    ensures r.Ok? ==> proc.Valid()
  {
    hide Process.Cached, FieldsOf, ValueText, After, Join, Blank;
    ghost var pid, files := proc.number, proc.files.value;
    ghost var done: seq<Field> := [];
    var numOfAttrs := |projection|;
    var result := "{";
    assert projection[0..] == projection;
    AfterNothing(FieldsOf(projection, pid, files));
    NothingJoined();
    for i := 0 to numOfAttrs
      invariant proc.Valid() && |done| == i
      invariant FieldsOf(projection, pid, files) == After(done, FieldsOf(projection[i..], pid, files))
      invariant result == Opened(done, i < numOfAttrs)
    {
      NextField(projection, i, pid, files);
      var value := PrintValue(projection[i].name, proc);
      if value.Throws? {
        NoneAfter(done);
        return Throws;
      }
      var jsonAttrStr := "\"" + KeyText(projection[i]) + "\":" + value.value;
      if i != numOfAttrs - 1 {
        jsonAttrStr := jsonAttrStr + ",";
      }
      result := result + jsonAttrStr;
      ghost var field := Field(KeyText(projection[i]), value.value);
      JoinNext(done, field);
      AfterNext(done, field, FieldsOf(projection[i + 1..], pid, files));
      done := done + [field];
    }
    AllDone(done, projection, pid, files);
    r := Ok(Blank(result + "}"));
  }

  /** What is printed after these fields, when more fields follow or not. */
  function Opened(done: seq<Field>, more: bool): string {
    if more && done != [] then "{" + Join(done) + "," else "{" + Join(done)
  }

  lemma NothingJoined()
    ensures Opened([], true) == Opened([], false) == "{"
  {
  }

  lemma JoinNext(done: seq<Field>, field: Field)
    ensures Opened(done, true) + field.Text() == Opened(done + [field], false)
    ensures Opened(done, true) + (field.Text() + ",") == Opened(done + [field], true)
  {
    if done == [] {
      assert [] + [field] == [field];
      assert field.Text() + Tail([]) == field.Text();
    } else {
      JoinConcat(done, [field]);
      assert Tail([field]) == "," + field.Text();
    }
  }

  lemma NextField(projection: seq<Attribute>, i: nat, pid: nat, files: Snapshot)
    requires i < |projection| && files.Defined()
    ensures FieldsOf(projection[i..], pid, files) ==
            var v := ValueText(projection[i].name, pid, files);
            if v.Throws? then Throws
            else After([Field(KeyText(projection[i]), v.value)], FieldsOf(projection[i + 1..], pid, files))
  {
    assert projection[i..][1..] == projection[i + 1..];
  }

  lemma AfterNothing(rest: Outcome<seq<Field>>)
    ensures After([], rest) == rest
  {
    if rest.Ok? {
      assert [] + rest.value == rest.value;
    }
  }

  lemma NoneAfter(done: seq<Field>)
    ensures After(done, Throws) == Throws
  {
  }

  lemma AllDone(done: seq<Field>, projection: seq<Attribute>, pid: nat, files: Snapshot)
    requires files.Defined()
    ensures After(done, FieldsOf(projection[|projection|..], pid, files)) == Ok(done)
  {
    assert done + [] == done;
  }

  lemma AfterNext(done: seq<Field>, field: Field, rest: Outcome<seq<Field>>)
    ensures After(done, After([field], rest)) == After(done + [field], rest)
  {
    if rest.Ok? {
      assert done + ([field] + rest.value) == done + [field] + rest.value;
    }
  }

  /** Of the record only the control characters, below 32 and 127, are changed, each into one blank. */
  lemma OnlyControlsAreBlanked(fs: seq<Field>, i: nat)
    requires i < |Record(fs)|
    ensures |Record(fs)| == |"{" + Join(fs) + "}"|
    ensures var c := ("{" + Join(fs) + "}")[i];
            Record(fs)[i] == if (c as int) < 32 || c as int == 127 then ' ' else c
  {
    hide Join;
  }

  // ----- splicing the headers into a record -----

  datatype Header = Header(name: string, value: string) {
    function AsField(): Field {
      Field(name, "\"" + value + "\"")
    }
  }

  function HeaderFields(headers: seq<Header>): (fs: seq<Field>)
    ensures |fs| == |headers|
    ensures forall i :: 0 <= i < |headers| ==> fs[i] == headers[i].AsField()
  {
    seq(|headers|, i requires 0 <= i < |headers| => headers[i].AsField())
  }

  /** The closing brace gives way to the headers and comes back behind them. */
  function Payload(record: string, headers: seq<Header>): string {
    if record == "" then "" else record[..|record| - 1] + Tail(HeaderFields(headers)) + "}"
  }

  /** Writing into a string stream at a put position overwrites what is there. */
  function WriteAt(buffer: string, position: nat, text: string): string
    requires position <= |buffer|
  {
    buffer[..position] + text +
    (if position + |text| < |buffer| then buffer[position + |text|..] else "")
  }

  /** The worker seeks one back from the end of its stream and writes; on an empty record seek and writes fail. */
  method Splice(record: string, headers: seq<Header>) returns (payload: string)
    ensures payload == Payload(record, headers)
  {
    if |record| == 0 {
      return "";
    }
    var stream := record;
    var position := |record| - 1;
    ghost var fields := HeaderFields(headers);
    for i := 0 to |headers|
      invariant 0 <= position <= |stream| <= position + 1
      invariant stream[..position] == record[..|record| - 1] + Tail(fields[..i])
    {
      var text := ",\"" + headers[i].name + "\":\"" + headers[i].value + "\"";
      HeaderText(headers[i]);
      TailNext(fields, i);
      Overwrite(stream, position, text);
      stream, position := WriteAt(stream, position, text), position + |text|;
    }
    assert fields[..|headers|] == fields;
    Overwrite(stream, position, "}");
    payload := WriteAt(stream, position, "}");
  }

  lemma HeaderText(h: Header)
    ensures ",\"" + h.name + "\":\"" + h.value + "\"" == "," + h.AsField().Text()
  {
  }

  lemma Overwrite(buffer: string, position: nat, text: string)
    requires position <= |buffer| <= position + |text|
    ensures WriteAt(buffer, position, text) == buffer[..position] + text
  {
  }

  lemma TailNext(fs: seq<Field>, i: nat)
    requires i < |fs|
    ensures Tail(fs[..i + 1]) == Tail(fs[..i]) + ("," + fs[i].Text())
  {
    assert fs[..i + 1] == fs[..i] + [fs[i]];
    TailConcat(fs[..i], [fs[i]]);
    assert Tail([fs[i]]) == "," + fs[i].Text() + Tail([]);
  }

  // ----- reading the payload back -----

  /** What a reader makes of one field on its own; None when the name or the value is not JSON. */
  function MemberOf(f: Field): Option<Json.Member> {
    var name, value := Json.ReadString(f.key + "\""), Json.Whole(f.value);
    if name.Got? && name.rest == "" && value.Some? then Some(Json.Member(name.value, value.value)) else None
  }

  predicate AllReadable(fs: seq<Field>) {
    forall i :: 0 <= i < |fs| ==> MemberOf(fs[i]).Some?
  }

  function MembersOf(fs: seq<Field>): seq<Json.Member>
    requires AllReadable(fs)
  {
    seq(|fs|, i requires 0 <= i < |fs| => MemberOf(fs[i]).value)
  }

  function BlankedAll(fs: seq<Field>): (r: seq<Field>)
    ensures |r| == |fs|
    ensures forall i :: 0 <= i < |fs| ==> r[i] == fs[i].Blanked()
  {
    seq(|fs|, i requires 0 <= i < |fs| => fs[i].Blanked())
  }

  lemma BlankText(f: Field)
    ensures Blank(f.Text()) == f.Blanked().Text()
  {
    BlankConcat("\"" + f.key + "\":", f.value);
    BlankConcat("\"" + f.key, "\":");
    BlankConcat("\"", f.key);
  }

  lemma {:induction false} BlankTail(fs: seq<Field>)
    ensures Blank(Tail(fs)) == Tail(BlankedAll(fs))
  {
    hide Blank, Field.Text, Field.Blanked;
    if fs == [] {
      NothingIsBlank();
    } else {
      BlankTail(fs[1..]);
      BlankText(fs[0]);
      BlankConcat("," + fs[0].Text(), Tail(fs[1..]));
      BlankConcat(",", fs[0].Text());
      CommaIsKept();
      assert BlankedAll(fs)[1..] == BlankedAll(fs[1..]);
    }
  }

  lemma NothingIsBlank()
    ensures Blank("") == ""
  {
  }

  lemma CommaIsKept()
    ensures Blank(",") == ","
  {
  }

  lemma BlankRecord(fs: seq<Field>)
    ensures Record(fs) == "{" + Join(BlankedAll(fs)) + "}"
  {
    if fs != [] {
      BlankTail(fs[1..]);
      BlankText(fs[0]);
      BlankConcat(fs[0].Text(), Tail(fs[1..]));
      assert BlankedAll(fs)[1..] == BlankedAll(fs[1..]);
    }
    BlankConcat("{" + Join(fs), "}");
    BlankConcat("{", Join(fs));
  }

  lemma ReadField(f: Field, more: string)
    requires MemberOf(f).Some?
    requires more != "" && more[0] in {',', '}'}
    ensures var r := Json.ReadMember(f.Text() + more);
            r.Got? && r.value == MemberOf(f).value && Json.SkipWs(r.rest) == more
  {
    hide Json.ReadString, Json.ReadValue, Json.SkipWs;
    var afterName := ":" + (f.value + more);
    assert !Json.IsNumberChar(more[0]) && !Json.IsWs(more[0]);
    FieldSplit(f, more);
    Json.ReadStringExtends(f.key + "\"", afterName);
    assert "" + afterName == afterName;
    Json.NoWs(afterName);
    assert afterName[1..] == f.value + more;
    Json.SkipWsExtends(f.value, more);
    Json.ReadValueExtends(Json.SkipWs(f.value), more);
    var rest := Json.ReadValue(Json.SkipWs(f.value)).rest;
    Json.SkipWsExtends(rest, more);
    assert "" + more == more;
  }

  lemma FieldSplit(f: Field, more: string)
    ensures f.Text() + more == "\"" + (f.key + "\"" + (":" + (f.value + more)))
  {
  }

  lemma {:induction false} ReadFields(f: Field, rest: seq<Field>)
    requires MemberOf(f).Some? && AllReadable(rest)
    ensures Json.ReadMembers(f.Text() + Tail(rest) + "}")
         == Json.Got([MemberOf(f).value] + MembersOf(rest), "")
    decreases |rest|
  {
    hide Json.ReadMember, MemberOf;
    var more := Tail(rest) + "}";
    assert f.Text() + Tail(rest) + "}" == f.Text() + more;
    ReadField(f, more);
    if rest == [] {
      assert more == "}" && more[1..] == "";
      assert [MemberOf(f).value] + MembersOf(rest) == [MemberOf(f).value];
    } else {
      var next := rest[0].Text() + Tail(rest[1..]) + "}";
      assert more[1..] == next;
      Json.NoWs(next);
      ReadFields(rest[0], rest[1..]);
      assert MembersOf(rest) == [MemberOf(rest[0]).value] + MembersOf(rest[1..]);
    }
  }

  /**
   * The payload of a record is a JSON object whose members are the record's
   * fields followed by the headers, in order; the one exception is a record
   * without fields that gets headers, which starts with a comma.
   */
  lemma PayloadReads(fs: seq<Field>, headers: seq<Header>)
    requires AllReadable(BlankedAll(fs)) && AllReadable(HeaderFields(headers))
    ensures Json.ReadObject(Payload(Record(fs), headers))
         == if fs == [] && headers != [] then None
            else Some(MembersOf(BlankedAll(fs)) + MembersOf(HeaderFields(headers)))
  {
    hide Json.ReadMembers, Json.ReadObject, MemberOf, Blank, Payload, Record;
    var bs, hs := BlankedAll(fs), HeaderFields(headers);
    var inner := Join(bs) + Tail(hs) + "}";
    PayloadText(fs, headers);
    if fs != [] {
      ReadNonEmpty(bs, hs);
      ReadBraces(inner);
    } else if headers != [] {
      NoMemberAtComma(inner);
      ReadBraces(inner);
    } else {
      assert MembersOf(bs) + MembersOf(hs) == [];
      assert inner == "}" && "{" + inner == "{}";
      EmptyObject();
    }
  }

  lemma PayloadText(fs: seq<Field>, headers: seq<Header>)
    ensures Payload(Record(fs), headers) == "{" + (Join(BlankedAll(fs)) + Tail(HeaderFields(headers)) + "}")
  {
    hide Join, Tail, Blank;
    BlankRecord(fs);
    var r := Record(fs);
    assert r[..|r| - 1] == "{" + Join(BlankedAll(fs));
  }

  lemma EmptyObject()
    ensures Json.ReadObject("{}") == Some([])
  {
    hide Json.ReadMembers, Json.SkipWs;
    Json.NoWs("{}");
    assert "{}"[1..] == "}" && "}"[1..] == "";
    Json.NoWs("}");
    Json.NothingToSkip();
  }

  lemma ReadBraces(inner: string)
    requires inner != "" && inner[0] != '}' && !Json.IsWs(inner[0])
    ensures Json.ReadObject("{" + inner) ==
            match Json.ReadMembers(inner)
            case Malformed => None
            case Got(ms, rest) => if Json.SkipWs(rest) == "" then Some(ms) else None
  {
    hide Json.ReadMembers;
    Json.NoWs("{" + inner);
    assert ("{" + inner)[1..] == inner;
    Json.NoWs(inner);
  }

  lemma Associate(a: string, b: string, c: string)
    ensures a + b + c == a + (b + c)
  {
  }

  lemma ReadNonEmpty(bs: seq<Field>, hs: seq<Field>)
    requires bs != [] && AllReadable(bs) && AllReadable(hs)
    ensures Json.ReadMembers(Join(bs) + Tail(hs) + "}") == Json.Got(MembersOf(bs) + MembersOf(hs), "")
  {
    hide Json.ReadMembers, MemberOf, Tail;
    var rest := bs[1..] + hs;
    TailConcat(bs[1..], hs);
    Associate(bs[0].Text(), Tail(bs[1..]), Tail(hs));
    assert AllReadable(rest);
    ReadFields(bs[0], rest);
    assert MembersOf(bs) + MembersOf(hs) == [MemberOf(bs[0]).value] + MembersOf(rest);
  }

  lemma NoMemberAtComma(s: string)
    requires s != "" && s[0] == ','
    ensures Json.ReadMembers(s).Malformed?
  {
  }

  // ----- what survives printing -----

  predicate Has(s: string, c: char) {
    exists i :: 0 <= i < |s| && s[i] == c
  }

  /** A string body reads as itself. */
  predicate ReadsAs(body: string, codes: seq<int>) {
    Json.ReadString(body + "\"") == Json.Got(codes, "")
  }

  lemma EscapeFirst(c: char, s: string)
    ensures EscapeQuotes([c] + s) == (if c == '"' then "\\\"" else [c]) + EscapeQuotes(s)
  {
    assert ([c] + s)[1..] == s;
  }

  lemma {:induction false} BlankEscape(s: string)
    ensures Blank(EscapeQuotes(s)) == EscapeQuotes(Blank(s))
  {
    hide EscapeQuotes;
    if s == "" {
      NothingToEscape();
      assert Blank(s) == s;
    } else {
      var first := if s[0] == '"' then "\\\"" else [s[0]];
      assert s == [s[0]] + s[1..] && Blank(s) == [Blank(s)[0]] + Blank(s[1..]);
      EscapeFirst(s[0], s[1..]);
      EscapeFirst(Blank(s)[0], Blank(s[1..]));
      BlankConcat(first, EscapeQuotes(s[1..]));
      BlankEscape(s[1..]);
      assert Blank("\\\"") == "\\\"";
    }
  }

  lemma NothingToEscape()
    ensures EscapeQuotes("") == ""
  {
  }

  predicate NoControls(s: string) {
    forall i :: 0 <= i < |s| ==> !IsControl(s[i])
  }

  lemma {:induction false} EscapedReadsBack(s: string)
    requires NoControls(s) && !Has(s, '\\')
    ensures ReadsAs(EscapeQuotes(s), Codes(s))
  {
    var t := EscapeQuotes(s) + "\"";
    if s == "" {
    } else {
      var u := EscapeQuotes(s[1..]) + "\"";
      assert forall i :: 0 <= i < |s| - 1 ==> s[1..][i] == s[i + 1];
      EscapedReadsBack(s[1..]);
      assert s[0] != '\\' && !IsControl(s[0]);
      if s[0] == '"' {
        assert t[..2] == "\\\"" && t[2..] == u;
      } else {
        assert t[0] == s[0] && t[1..] == u;
      }
      assert Codes(s) == [s[0] as int] + Codes(s[1..]);
    }
  }

  /** Four hexadecimal digits in an escaped text are four characters of the original. */
  lemma HexIsVerbatim(s: string, k: nat)
    requires k <= |EscapeQuotes(s) + "\""|
    requires forall i :: 0 <= i < k ==> Json.HexValue((EscapeQuotes(s) + "\"")[i]).Some?
    ensures k <= |s| && (EscapeQuotes(s) + "\"")[k..] == EscapeQuotes(s[k..]) + "\""
  {
    var t := EscapeQuotes(s) + "\"";
    if k == 0 {
      assert s[0..] == s && t[0..] == t;
    } else {
      assert Json.HexValue(t[0]).Some?;
      assert s != "" && t == [s[0]] + (EscapeQuotes(s[1..]) + "\"");
      assert t[1..] == EscapeQuotes(s[1..]) + "\"";
      HexIsVerbatim(s[1..], k - 1);
      assert s[1..][k - 1..] == s[k..] && t[1..][k - 1..] == t[k..];
    }
  }

  /** A backslash always swallows something: the text that is read back is shorter. */
  lemma {:induction false} BackslashShrinks(s: string)
    ensures var r := Json.ReadString(EscapeQuotes(s) + "\"");
            r.Got? && r.rest == "" ==> |r.value| <= |s| && (Has(s, '\\') ==> |r.value| < |s|)
    decreases |s|
  {
    var t := EscapeQuotes(s) + "\"";
    var r := Json.ReadString(t);
    if s == "" || r.Malformed? || r.rest != "" {
    } else {
      var u := EscapeQuotes(s[1..]) + "\"";
      if s[0] == '"' {
        assert t[..2] == "\\\"" && t[2..] == u;
        BackslashShrinks(s[1..]);
        HasTail(s);
      } else if s[0] != '\\' {
        assert t[0] == s[0] && t[1..] == u;
        BackslashShrinks(s[1..]);
        HasTail(s);
      } else {
        assert t[0] == '\\' && t[1..] == u;
        ShrinksAtBackslash(s);
      }
    }
  }

  lemma HasTail(s: string)
    requires s != "" && s[0] != '\\'
    ensures Has(s, '\\') <==> Has(s[1..], '\\')
  {
    if Has(s, '\\') {
      var i :| 0 <= i < |s| && s[i] == '\\';
      assert s[1..][i - 1] == '\\';
    }
  }

  lemma ShrinksAtBackslash(s: string)
    requires s != "" && s[0] == '\\'
    ensures var r := Json.ReadString(EscapeQuotes(s) + "\"");
            r.Got? && r.rest == "" ==> |r.value| < |s|
    decreases |s|, 0
  {
    hide EscapeQuotes, Json.ReadChar;
    var t := EscapeQuotes(s) + "\"";
    if Json.ReadString(t).Got? && Json.ReadString(t).rest == "" {
      BackslashStarts(s);
      var k := BackslashSwallows(s);
      BackslashShrinks(s[k..]);
    }
  }

  lemma BackslashStarts(s: string)
    requires s != "" && s[0] == '\\'
    ensures (EscapeQuotes(s) + "\"")[0] == '\\'
  {
  }

  /** The escape that a backslash starts covers k >= 2 characters of the original. */
  lemma BackslashSwallows(s: string) returns (k: nat)
    requires s != "" && s[0] == '\\'
    requires var t := EscapeQuotes(s) + "\"";
             && Json.ReadChar(t).Got?
             && Json.ReadString(Json.ReadChar(t).rest).Got?
             && Json.ReadString(Json.ReadChar(t).rest).rest == ""
    ensures 2 <= k <= |s|
    ensures Json.ReadChar(EscapeQuotes(s) + "\"").rest == EscapeQuotes(s[k..]) + "\""
  {
    var t := EscapeQuotes(s) + "\"";
    assert t[1..] == EscapeQuotes(s[1..]) + "\"";
    if |t| >= 6 && t[1] == 'u' {
      UnicodeSwallows(s);
      k := 6;
    } else {
      k := 2;
      BackslashBeforeQuote(s);
      assert t[1] == s[1] && t[2..] == EscapeQuotes(s[2..]) + "\"";
    }
  }

  /** A backslash at the end or before a quote ends the string too early. */
  lemma BackslashBeforeQuote(s: string)
    requires s != "" && s[0] == '\\'
    ensures |s| == 1 || s[1] == '"' ==>
              var c := Json.ReadChar(EscapeQuotes(s) + "\"");
              c.Got? ==> Json.ReadString(c.rest).Malformed? || Json.ReadString(c.rest).rest != ""
  {
    hide Json.ReadChar, EscapeQuotes;
    EscapeFirst('\\', s[1..]);
    assert s == ['\\'] + s[1..];
    if |s| == 1 {
      NothingToEscape();
      assert ['\\'] + "" + "\"" == "\\\"" + "";
      ReadPair('"', "");
    } else if s[1] == '"' {
      var tail := EscapeQuotes(s[2..]) + "\"";
      EscapeFirst('"', s[2..]);
      assert s[1..] == ['"'] + s[2..];
      assert ['\\'] + ("\\\"" + EscapeQuotes(s[2..])) + "\"" == "\\\\" + ("\"" + tail);
      ReadPair('\\', "\"" + tail);
      assert ("\"" + tail)[1..] == tail;
    }
  }

  lemma ReadPair(c: char, rest: string)
    requires c == '"' || c == '\\'
    ensures Json.ReadChar(['\\', c] + rest) == Json.Got(c as int, rest)
  {
    assert (['\\', c] + rest)[2..] == rest;
  }

  lemma UnicodeSwallows(s: string)
    requires s != "" && s[0] == '\\'
    requires var t := EscapeQuotes(s) + "\"";
             |t| >= 6 && t[1] == 'u' && Json.Hex4(t[2..6]).Some?
    ensures |s| >= 6 && (EscapeQuotes(s) + "\"")[6..] == EscapeQuotes(s[6..]) + "\""
  {
    var t := EscapeQuotes(s) + "\"";
    assert t[1..] == EscapeQuotes(s[1..]) + "\"";
    assert s[1..] != "" && s[1] == 'u';
    var v := EscapeQuotes(s[2..]) + "\"";
    assert t[1..] == ['u'] + v;
    assert t[2..] == v && t[2..6] == v[..4];
    assert forall i :: 0 <= i < 4 ==> v[i] == t[2..6][i];
    HexIsVerbatim(s[2..], 4);
    assert t[6..] == v[4..] && s[2..][4..] == s[6..];
  }

  /** The printed command line decodes to the original, control characters blanked, exactly when it has no backslash. */
  lemma CommandSurvives(line: string)
    ensures ReadsAs(Blank(EscapeQuotes(line)), Codes(Blank(line))) <==> !Has(line, '\\')
  {
    var s := Blank(line);
    BlankEscape(line);
    BlankKeeps(line, '\\');
    if Has(s, '\\') {
      BackslashShrinks(s);
    } else {
      EscapedReadsBack(s);
    }
  }

  /** The same for the command attribute itself; an empty command line is printed as null. */
  lemma CommandAttributeSurvives(files: Snapshot, pid: nat)
    requires files.Defined() && files.cmdline.Some?
    ensures var line := if files.cmdline.value == "" then "null" else files.cmdline.value;
            ReadsAs(Blank(files.Value(pid, Command).value), Codes(Blank(line))) <==> !Has(files.cmdline.value, '\\')
  {
    hide EscapeQuotes;
    if files.cmdline.value == "" {
      NothingToEscape();
      assert Blank("null") == "null" && !Has("", '\\');
      PlainReadsBack("null");
    } else {
      EscapedIsNotEmpty(files.cmdline.value);
      CommandSurvives(files.cmdline.value);
    }
  }

  lemma EscapedIsNotEmpty(s: string)
    requires s != ""
    ensures EscapeQuotes(s) != ""
  {
  }

  lemma {:induction false} PlainReadsBack(s: string)
    requires (forall i :: 0 <= i < |s| ==> s[i] >= ' ') && !Has(s, '"') && !Has(s, '\\')
    ensures ReadsAs(s, Codes(s))
  {
    var t := s + "\"";
    if s == "" {
    } else {
      assert forall i :: 0 <= i < |s| - 1 ==> s[1..][i] == s[i + 1];
      PlainReadsBack(s[1..]);
      assert s[0] != '\\' && s[0] != '"' && s[0] >= ' ';
      assert t[0] == s[0] && t[1..] == s[1..] + "\"";
      assert Codes(s) == [s[0] as int] + Codes(s[1..]);
    }
  }

  /** An unescaped quote ends the text early, and a backslash makes it shorter. */
  lemma {:induction false} SpecialsAreLost(s: string)
    ensures var r := Json.ReadString(s + "\"");
            r.Got? && r.rest == "" ==> |r.value| <= |s| && (Has(s, '"') || Has(s, '\\') ==> |r.value| < |s|)
    decreases |s|
  {
    hide Json.ReadChar;
    var t := s + "\"";
    var r := Json.ReadString(t);
    if s == "" || s[0] == '"' || r.Malformed? || r.rest != "" {
    } else {
      var k := CharLength(s);
      SpecialsAreLost(s[k..]);
      if k == 1 {
        assert forall i :: 0 < i < |s| ==> s[i] == s[1..][i - 1];
      }
    }
  }

  /** One character or escape that does not swallow the closing quote; only an ordinary character is one long. */
  lemma CharLength(s: string) returns (k: nat)
    requires s != "" && s[0] != '"'
    requires var c := Json.ReadChar(s + "\"");
             c.Got? && Json.ReadString(c.rest).Got?
    ensures 1 <= k <= |s| && (k == 1 ==> s[0] != '\\')
    ensures Json.ReadChar(s + "\"").rest == s[k..] + "\""
  {
    var t := s + "\"";
    assert t[0] == s[0];
    if s[0] != '\\' {
      k := 1;
      assert t[1..] == s[1..] + "\"";
    } else if |t| >= 6 && t[1] == 'u' {
      k := 6;
      assert |s| >= 6 by {
        assert t[2..6][3] == t[5] && t[|s|] == '"';
        assert Json.HexValue(t[5]).Some?;
      }
      assert t[6..] == s[6..] + "\"";
    } else {
      k := 2;
      assert |s| != 1;
      assert t[2..] == s[2..] + "\"";
    }
  }

  /** Names and paths are printed as they are: they read back exactly when they contain neither quote nor backslash. */
  lemma UnescapedSurvives(text: string)
    ensures ReadsAs(Blank(text), Codes(Blank(text))) <==> !Has(text, '"') && !Has(text, '\\')
  {
    var s := Blank(text);
    BlankKeeps(text, '"');
    BlankKeeps(text, '\\');
    if Has(s, '"') || Has(s, '\\') {
      SpecialsAreLost(s);
    } else {
      PlainReadsBack(s);
    }
  }

  lemma BlankKeeps(s: string, c: char)
    requires !IsControl(c) && c != ' '
    ensures Has(Blank(s), c) <==> Has(s, c)
  {
    if Has(s, c) {
      var i :| 0 <= i < |s| && s[i] == c;
      assert Blank(s)[i] == c;
    }
  }
}
