/**
 * What each name of a configuration stands for: the part of the snapshot that
 * is printed for it, and what a relation says about what is printed.
 */
module Attributes {
  import opened Text
  import opened Selection
  import opened Snapshots
  import opened Evaluation
  import opened Rendering

  lemma TextNames()
    ensures AttrNamed("name") == Some(Name) && AttrNamed("executePath") == Some(ExecutePath)
    ensures AttrNamed("command") == Some(Command)
  {
  }

  lemma WordNames()
    ensures AttrNamed("parentPid") == Some(ParentPid) && AttrNamed("uid") == Some(Uid) && AttrNamed("gid") == Some(Gid)
    ensures AttrNamed("virtualMemory") == Some(VirtualMemory) && AttrNamed("physicalMemory") == Some(PhysicalMemory)
    ensures AttrNamed("cpuUsage") == Some(CpuUsage)
  {
  }

  lemma NumberNames()
    ensures AttrNamed("pid") == Some(Pid) && AttrNamed("cpuTime") == Some(CpuTime)
    ensures AttrNamed("networkIn") == Some(NetworkIn) && AttrNamed("networkOut") == Some(NetworkOut)
    ensures AttrNamed("readKBs") == Some(ReadKBs) && AttrNamed("writeKBs") == Some(WriteKBs)
  {
  }

  // ----- what is printed -----

  function InQuotes(s: string): string {
    "\"" + s + "\""
  }

  /** The name is the first line of comm, or null when that is empty. */
  lemma NameIsPrinted(pid: nat, files: Snapshot)
    requires files.Defined()
    ensures ValueText("name", pid, files) == Ok(InQuotes(if files.comm == "" then "null" else files.comm))
  {
    hide AttrNamed;
    TextNames();
  }

  /** The path is the target of exe, cut at 4999 characters; nothing when the link cannot be read. */
  lemma PathIsPrinted(pid: nat, files: Snapshot)
    requires files.Defined()
    ensures files.exe.None? ==> ValueText("executePath", pid, files) == Ok(InQuotes(""))
    ensures files.exe.Some? && 0 < |files.exe.value| <= 4999 ==>
              ValueText("executePath", pid, files) == Ok(InQuotes(files.exe.value))
    ensures files.exe.Some? && |files.exe.value| > 4999 ==>
              ValueText("executePath", pid, files) == Ok(InQuotes(files.exe.value[..4999]))
    ensures files.exe.Some? && files.exe.value == "" ==> ValueText("executePath", pid, files) == Ok(InQuotes("null"))
  {
    hide AttrNamed;
    TextNames();
    if files.exe.Some? {
      assert files.exe.value[..|files.exe.value|] == files.exe.value;
    }
  }

  lemma {:induction false} NoQuotesNoEscapes(s: string)
    requires forall i :: 0 <= i < |s| ==> s[i] != '"'
    ensures EscapeQuotes(s) == s
  {
    if s == "" {
    } else {
      assert forall i :: 0 <= i < |s| - 1 ==> s[1..][i] == s[i + 1];
      NoQuotesNoEscapes(s[1..]);
    }
  }

  /** The command is the line of cmdline, its quotes escaped; nothing when the file cannot be opened. */
  lemma CommandIsPrinted(pid: nat, files: Snapshot)
    requires files.Defined()
    ensures files.cmdline.None? ==> ValueText("command", pid, files) == Ok(InQuotes(""))
    ensures files.cmdline.Some? && files.cmdline.value == "" ==>
              ValueText("command", pid, files) == Ok(InQuotes("null"))
    ensures files.cmdline.Some? && files.cmdline.value != ""
            && (forall i :: 0 <= i < |files.cmdline.value| ==> files.cmdline.value[i] != '"') ==>
              ValueText("command", pid, files) == Ok(InQuotes(files.cmdline.value))
  {
    hide AttrNamed, EscapeQuotes;
    TextNames();
    if files.cmdline.Some? {
      var line := files.cmdline.value;
      if forall i :: 0 <= i < |line| ==> line[i] != '"' {
        NoQuotesNoEscapes(line);
      }
    }
  }

  /** User and group are the second words of the ninth and the tenth line of status. */
  lemma UserAndGroupArePrinted(pid: nat, files: Snapshot)
    requires files.Defined()
    ensures |files.status| > 8 && |files.status[8]| >= 2 && files.status[8][1] != "" ==>
              ValueText("uid", pid, files) == Ok(files.status[8][1])
    ensures |files.status| > 9 && |files.status[9]| >= 2 && files.status[9][1] != "" ==>
              ValueText("gid", pid, files) == Ok(files.status[9][1])
    ensures |files.status| <= 8 ==> ValueText("uid", pid, files) == Ok("")
    ensures |files.status| <= 9 ==> ValueText("gid", pid, files) == Ok("")
    ensures |files.status| > 8 && |files.status[8]| == 0 ==> ValueText("uid", pid, files) == Ok("null")
    ensures |files.status| > 9 && |files.status[9]| == 0 ==> ValueText("gid", pid, files) == Ok("null")
  {
    hide AttrNamed;
    WordNames();
  }

  /** Virtual memory is the first word of statm, physical memory the second word of smaps_rollup. */
  lemma MemoryIsPrinted(pid: nat, files: Snapshot)
    requires files.Defined()
    ensures files.statm != "" ==> ValueText("virtualMemory", pid, files) == Ok(files.statm)
    ensures files.statm == "" ==> ValueText("virtualMemory", pid, files) == Ok("null")
    ensures |files.smaps| >= 2 && files.smaps[1] != "" ==>
              ValueText("physicalMemory", pid, files) == Ok(files.smaps[1])
    ensures files.smaps == [] ==> ValueText("physicalMemory", pid, files) == Ok("null")
  {
    hide AttrNamed;
    WordNames();
  }

  /** The usage is the second line of ps without the blank in front of it and the newline. */
  lemma UsageIsPrinted(pid: nat, files: Snapshot, figure: string)
    requires files.Defined()
    ensures |files.ps| <= 1 ==> ValueText("cpuUsage", pid, files) == Ok("null")
    ensures |files.ps| > 1 && files.ps[1] == " " + figure + "\n" && figure != "" ==>
              ValueText("cpuUsage", pid, files) == Ok(figure)
  {
    hide AttrNamed;
    WordNames();
    var line := " " + figure + "\n";
    assert line[..|line| - 1] == " " + figure && (" " + figure)[1..] == figure;
  }

  /** The parent is the fourth word of stat; both times must be numbers, because they are read together with it. */
  lemma ParentIsPrinted(pid: nat, files: Snapshot)
    requires files.Defined()
    ensures ValueText("parentPid", pid, files)
         == if StoUL(files.stat[14]).Ok? && StoUL(files.stat[15]).Ok? then Ok(files.stat[3]) else Throws
  {
    hide AttrNamed, StoUL;
    WordNames();
  }

  lemma ThreeMoreDigits(s: string, a: nat, b: nat, c: nat)
    requires AllDigits(s) && a < 10 && b < 10 && c < 10
    ensures var t := s + [DigitChar(a), DigitChar(b), DigitChar(c)];
            AllDigits(t) && Value(t) == Value(s) * 1000 + a * 100 + b * 10 + c
  {
    var t1, t2 := s + [DigitChar(a)], s + [DigitChar(a), DigitChar(b)];
    var t3 := s + [DigitChar(a), DigitChar(b), DigitChar(c)];
    assert t1[..|s|] == s && t2[..|s| + 1] == t1 && t3[..|s| + 2] == t2;
    assert AllDigits(t1) && AllDigits(t2) && AllDigits(t3);
    assert Value(t1) == Value(s) * 10 + a;
    assert Value(t2) == Value(t1) * 10 + b;
    assert Value(t3) == Value(t2) * 10 + c;
  }

  lemma TenthOf(n: nat, k: nat)
    requires k == 10 || k == 100
    ensures n / k / 10 == n / (k * 10)
  {
  }

  lemma DecimalDigits(n: nat)
    ensures n == n / 1000 * 1000 + n / 100 % 10 * 100 + n / 10 % 10 * 10 + n % 10
  {
    TenthOf(n, 10);
    TenthOf(n, 100);
    var a, b := n / 10, n / 100;
    assert n == a * 10 + n % 10;
    assert a == b * 10 + a % 10;
    assert b == n / 1000 * 10 + b % 10;
  }

  /** The processor time is the sum of both times, in thousandths: without the point its digits denote that sum. */
  lemma TimeIsPrinted(pid: nat, files: Snapshot)
    requires files.Defined()
    ensures var user, system, printed :=
              StoUL(files.stat[14]), StoUL(files.stat[15]), ValueText("cpuTime", pid, files);
            if user.Throws? || system.Throws? then printed == Throws
            else
              && printed.Ok? && |printed.value| >= 5
              && var n := |printed.value| - 4;
                 var digits := printed.value[..n] + printed.value[n + 1..];
              && printed.value[n] == '.' && AllDigits(digits)
              && Value(digits) == (user.value + system.value) % 18446744073709551616
  {
    hide AttrNamed, StoUL, Value, Digits;
    NumberNames();
    if files.TimesReadable() {
      ThousandthsDenote(files.CpuTicks());
    }
  }

  lemma ThousandthsDenote(n: nat)
    ensures var s := Thousandths(n);
            && |s| >= 5 && s[|s| - 4] == '.'
            && var digits := s[..|s| - 4] + s[|s| - 4 + 1..];
               AllDigits(digits) && Value(digits) == n
  {
    hide Value, Digits;
    var whole, s := Digits(n / 1000), Thousandths(n);
    var decimals := [DigitChar(n / 100 % 10), DigitChar(n / 10 % 10), DigitChar(n % 10)];
    assert s == whole + "." + decimals;
    assert s[..|s| - 4] == whole && s[|s| - 4 + 1..] == decimals;
    ValueOfDigits(n / 1000);
    ThreeMoreDigits(whole, n / 100 % 10, n / 10 % 10, n % 10);
    DecimalDigits(n);
  }

  /** The traffic of several groups of packets is the sum of that of each, and each direction counts its own. */
  lemma {:induction false} TrafficAdds(a: seq<NetLine>, b: seq<NetLine>, kind: string)
    ensures Total(a + b, kind) == Total(a, kind) + Total(b, kind)
  {
    if b == [] {
      assert a + b == a;
    } else {
      assert (a + b)[..|a + b| - 1] == a + b[..|b| - 1];
      TrafficAdds(a, b[..|b| - 1], kind);
    }
  }

  lemma TrafficOfOne(line: NetLine, kind: string)
    ensures Total([line], kind) == if line.kind == kind then line.bytes else 0
  {
  }

  /** pid, incoming and outgoing traffic; all three are plain numbers. */
  lemma CountersArePrinted(pid: nat, files: Snapshot)
    requires files.Defined()
    ensures ValueText("pid", pid, files) == Ok(Digits(pid))
    ensures ValueText("networkIn", pid, files)
         == Ok(Digits(RoundedKB(Total(files.net, "RX") % 18446744073709551616)))
    ensures ValueText("networkOut", pid, files)
         == Ok(Digits(RoundedKB(Total(files.net, "TX") % 18446744073709551616)))
  {
    hide AttrNamed, Digits, RoundedKB, Total;
    NumberNames();
  }

  lemma {:induction false} WriteEndsIt(before: seq<IoLine>, w: nat, after: seq<IoLine>)
    requires forall i :: 0 <= i < |before| ==> before[i].field != "write_bytes:"
    ensures UpToWrite(before + [IoLine("write_bytes:", w)] + after) == before + [IoLine("write_bytes:", w)]
  {
    var line := IoLine("write_bytes:", w);
    var lines := before + [line] + after;
    if before == [] {
      assert lines[0] == line;
    } else {
      assert lines[1..] == before[1..] + [line] + after;
      assert forall i :: 0 <= i < |before| - 1 ==> before[1..][i] == before[i + 1];
      WriteEndsIt(before[1..], w, after);
    }
  }

  /** In the usual file, where read_bytes is directly followed by write_bytes, they are the two figures. */
  lemma BytesArePrinted(pid: nat, files: Snapshot, before: seq<IoLine>, r: nat, w: nat, after: seq<IoLine>)
    requires files.Defined()
    requires files.io == before + [IoLine("read_bytes:", r)] + [IoLine("write_bytes:", w)] + after
    requires forall i :: 0 <= i < |before| ==> before[i].field != "write_bytes:"
    ensures ValueText("readKBs", pid, files) == Ok(Digits(RoundedKB(r)))
    ensures ValueText("writeKBs", pid, files) == Ok(Digits(RoundedKB(w)))
  {
    hide AttrNamed, Digits, RoundedKB, UpToWrite;
    NumberNames();
    var first := before + [IoLine("read_bytes:", r)];
    WriteEndsIt(first, w, after);
    var seen := first + [IoLine("write_bytes:", w)];
    assert seen[..|seen| - 1] == first;
    assert LastBytes(first, "read_bytes:") == r && LastBytes(seen, "read_bytes:") == r;
  }

  /** Any other name prints nothing. */
  lemma OthersPrintNothing(name: string, pid: nat, files: Snapshot)
    requires files.Defined()
    requires name !in {"name", "pid", "parentPid", "uid", "gid", "executePath", "command", "virtualMemory",
                       "physicalMemory", "cpuTime", "cpuUsage", "networkIn", "networkOut", "readKBs", "writeKBs"}
    ensures ValueText(name, pid, files) == Ok("")
  {
  }

  // ----- what a relation says -----

  /** An equation compares the literal with what is printed for four attributes, and is false for any other. */
  lemma EquationMeans(env: Env, operand: string, literal: string)
    requires env.Defined()
    ensures operand in {"pid", "parentPid", "uid", "gid"} ==>
              var printed := ValueText(operand, env.pid, env.files);
              if printed.Throws? then EvalLeaf(env, "==", operand, literal).Throws?
              else Yields(EvalLeaf(env, "==", operand, literal), literal == printed.value)
    ensures operand !in {"pid", "parentPid", "uid", "gid"} ==> Yields(EvalLeaf(env, "==", operand, literal), false)
  {
    hide Snapshot.Value;
    WordNames();
    NumberNames();
  }

  /** A pattern is searched in the command, the path or, for any other operand, the name; a bad one throws. */
  lemma PatternMeans(env: Env, operand: string, literal: string, text: string)
    requires env.Defined()
    requires var searched := if operand in {"command", "executePath"} then operand else "name";
             ValueText(searched, env.pid, env.files) == Ok(InQuotes(text))
    ensures var r := EvalLeaf(env, "%=", operand, literal);
            if !env.lib.isRegex(literal) then r.Throws? else Yields(r, env.lib.regexSearch(text, literal))
  {
    hide Snapshot.Value;
    TextNames();
    QuotesCancel(env, PatternAttr(operand), text);
  }

  lemma QuotesCancel(env: Env, a: Attr, text: string)
    requires env.Defined()
    ensures var v := env.files.Value(env.pid, a);
            v.Ok? && "\"" + v.value + "\"" == InQuotes(text) ==> v.value == text
  {
    hide Snapshot.Value;
    var v := env.files.Value(env.pid, a);
    if v.Ok? && "\"" + v.value + "\"" == InQuotes(text) {
      var s := InQuotes(text);
      assert s[1..|s| - 1] == text && s[1..|s| - 1] == v.value;
    }
  }

  /** The attributes that can be ordered. */
  const ORDERED := {"virtualMemory", "physicalMemory", "cpuTime", "cpuUsage",
                    "networkIn", "networkOut", "readKBs", "writeKBs"}

  lemma OrderedByName(env: Env, op: string, operand: string, literal: string)
    requires env.Defined() && op in {"<", "<=", ">", ">="}
    ensures operand in ORDERED ==>
              var printed := ValueText(operand, env.pid, env.files);
              EvalLeaf(env, op, operand, literal)
              == if printed.Throws? then Throws else CompareText(env.lib, op, printed.value, literal)
    ensures operand !in ORDERED ==> EvalLeaf(env, op, operand, literal) == CompareText(env.lib, op, "", literal)
  {
    hide Snapshot.Value, CompareText;
    WordNames();
    NumberNames();
  }

  /** The text an order compares: what is printed, or nothing for an operand that has no order. */
  function Compared(env: Env, operand: string): Outcome<string>
    requires env.Defined()
  {
    if operand in ORDERED then ValueText(operand, env.pid, env.files) else Ok("")
  }

  /** What is printed as null is in no order; what cannot be read or is no number throws. */
  lemma OrderFails(env: Env, op: string, operand: string, literal: string)
    requires env.Defined() && op in {"<", "<=", ">", ">="}
    ensures var text, r := Compared(env, operand), EvalLeaf(env, op, operand, literal);
            && (text == Ok("null") ==> Yields(r, false))
            && (text.Throws? ==> r.Throws?)
            && (text.Ok? && text.value != "null" && text.value != "" && env.lib.stod(text.value).Throws? ==> r.Throws?)
            && (text.Ok? && text.value != "null" && env.lib.stod(literal).Throws? ==> r.Throws?)
  {
    hide ValueText;
    OrderedByName(env, op, operand, literal);
  }

  /** The number on the left of an order; a missing text counts as -1. */
  function LeftNumber(env: Env, operand: string): Outcome<Double>
    requires env.Defined()
  {
    var text := Compared(env, operand);
    if text.Throws? then Throws else if text.value == "" then Ok(Finite(-1.0)) else env.lib.stod(text.value)
  }

  lemma OrderCompares(env: Env, op: string, operand: string, literal: string, x: Double, y: Double)
    requires env.Defined() && op in {"<", "<=", ">", ">="} && Compared(env, operand) != Ok("null")
    requires LeftNumber(env, operand) == Ok(x) && env.lib.stod(literal) == Ok(y)
    ensures Yields(EvalLeaf(env, op, operand, literal), Compare(x, y, op))
  {
    hide ValueText, Compare;
    OrderedByName(env, op, operand, literal);
  }

  /**
   * An order compares the number that is printed with the literal: on finite
   * numbers as usual, never with a NaN, and with the infinities at the ends.
   */
  lemma OrderMeans(env: Env, operand: string, literal: string, x: Double, y: Double)
    requires env.Defined() && Compared(env, operand) != Ok("null")
    requires LeftNumber(env, operand) == Ok(x) && env.lib.stod(literal) == Ok(y)
    ensures var lt, le := EvalLeaf(env, "<", operand, literal), EvalLeaf(env, "<=", operand, literal);
            var gt, ge := EvalLeaf(env, ">", operand, literal), EvalLeaf(env, ">=", operand, literal);
            && (x.Finite? && y.Finite? ==>
                  Yields(lt, x.r < y.r) && Yields(le, x.r <= y.r) && Yields(gt, x.r > y.r) && Yields(ge, x.r >= y.r))
            && (x.NaN? || y.NaN? ==> Yields(lt, false) && Yields(le, false) && Yields(gt, false) && Yields(ge, false))
            && (x.NegInfinity? && !y.NaN? ==>
                  && Yields(lt, !y.NegInfinity?) && Yields(le, true) && Yields(gt, false) && Yields(ge, y.NegInfinity?))
            && (x.PosInfinity? && !y.NaN? ==>
                  && Yields(lt, false) && Yields(le, y.PosInfinity?) && Yields(gt, !y.PosInfinity?) && Yields(ge, true))
            && (x.Finite? && y.PosInfinity? ==>
                  Yields(lt, true) && Yields(le, true) && Yields(gt, false) && Yields(ge, false))
            && (x.Finite? && y.NegInfinity? ==>
                  Yields(lt, false) && Yields(le, false) && Yields(gt, true) && Yields(ge, true))
  {
    hide EvalLeaf, Compare, LeftNumber, Compared;
    OrderCompares(env, "<", operand, literal, x, y);
    OrderCompares(env, "<=", operand, literal, x, y);
    OrderCompares(env, ">", operand, literal, x, y);
    OrderCompares(env, ">=", operand, literal, x, y);
    OrdersOnNumbers(x, y);
  }

  /** Any operator but the six is false. */
  lemma OthersAreFalse(env: Env, op: string, operand: string, literal: string)
    requires env.Defined() && op !in {"==", "<", "<=", ">", ">=", "%="}
    ensures Yields(EvalLeaf(env, op, operand, literal), false)
  {
  }
}
