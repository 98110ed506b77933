/** /proc/meminfo: labelled lines are stored until eight labels have been seen. */
module Meminfo {
  import opened Text

  datatype Label = Total | Free | Available | Buffers | Cached | SwapTotal | SwapFree | SwapCached

  function LabelNamed(token: string): Option<Label> {
    match token
    case "MemTotal:" => Some(Total)
    case "MemFree:" => Some(Free)
    case "MemAvailable:" => Some(Available)
    case "Buffers:" => Some(Buffers)
    case "Cached:" => Some(Cached)
    case "SwapTotal:" => Some(SwapTotal)
    case "SwapFree:" => Some(SwapFree)
    case "SwapCached:" => Some(SwapCached)
    case _ => None
  }

  /** The label of a line, given as its words. */
  function LabelOf(line: seq<string>): Option<Label> {
    if line == [] then None else LabelNamed(line[0])
  }

  /** The fields of a Memory object; a label that is absent has its field empty. */
  type Fields = map<Label, string>

  function Store(fields: Fields, line: seq<string>): Fields {
    if LabelOf(line).Some? && |line| > 1 then fields[LabelOf(line).value := line[1]] else fields
  }

  function StoreAll(lines: seq<seq<string>>): Fields {
    if lines == [] then map[] else Store(StoreAll(lines[..|lines| - 1]), lines[|lines| - 1])
  }

  function Labels(lines: seq<seq<string>>): set<Label> {
    set i | 0 <= i < |lines| && LabelOf(lines[i]).Some? :: LabelOf(lines[i]).value
  }

  predicate AtMostOnce(lines: seq<seq<string>>) {
    forall i, j :: 0 <= i < j < |lines| && LabelOf(lines[i]).Some? ==> LabelOf(lines[i]) != LabelOf(lines[j])
  }

  const ALL := {Total, Free, Available, Buffers, Cached, SwapTotal, SwapFree, SwapCached}

  function Held(fields: Fields, l: Label): string {
    if l in fields then fields[l] else ""
  }

  class Memory {
    var total: string
    var free: string
    var available: string
    var buffers: string
    var cached: string
    var swapTotal: string
    var swapFree: string
    var swapCached: string
    ghost const read: nat // lines consumed

    function Field(l: Label): string
      reads this
    {
      match l
      case Total => total
      case Free => free
      case Available => available
      case Buffers => buffers
      case Cached => cached
      case SwapTotal => swapTotal
      case SwapFree => swapFree
      case SwapCached => swapCached
    }

    ghost predicate Holds(stored: Fields)
      reads this
    {
      forall l :: Field(l) == Held(stored, l)
    }

    /** Stops after eight recognised lines or at the end of the file. */
    constructor (lines: seq<seq<string>>)
      ensures read <= |lines|
      ensures Holds(StoreAll(lines[..read]))
      ensures read == |lines| || Recognised(lines[..read]) == 8
    {
      total, free, available, buffers := "", "", "", "";
      cached, swapTotal, swapFree, swapCached := "", "", "", "";
      read := StopsAt(lines, 8);
      new;
      assert Holds(map[]);
      hide Holds, StopsAt, Recognised;
      StopsAtCounts(lines, 8);
      ReadLines(lines);
    }

    /** The loop of the constructor. */
    method ReadLines(lines: seq<seq<string>>)
      requires Holds(map[])
      modifies this
      ensures Holds(StoreAll(lines[..StopsAt(lines, 8)]))
    {
      hide Holds, Store, StoreAll, StopsAt, LabelOf;
      NothingYet(lines);
      var numOfReadAttrs, i := 0, 0;
      while numOfReadAttrs < 8 && i < |lines|
        invariant 0 <= numOfReadAttrs <= 8 && i <= |lines|
        invariant Holds(StoreAll(lines[..i]))
        invariant StopsAt(lines, 8) == i + StopsAt(lines[i..], 8 - numOfReadAttrs)
      {
        StoreNext(lines, i);
        StopsAtNext(lines, i, 8 - numOfReadAttrs);
        var recognised := StoreLine(lines[i], StoreAll(lines[..i]));
        if recognised {
          numOfReadAttrs := numOfReadAttrs + 1;
        }
        i := i + 1;
      }
      StopsAtOnce(lines[i..], 8 - numOfReadAttrs);
    }

    method StoreLine(line: seq<string>, ghost stored: Fields) returns (recognised: bool)
      requires Holds(stored)
      modifies this
      ensures recognised == LabelOf(line).Some?
      ensures Holds(Store(stored, line))
    {
      hide Field, LabelOf;
      recognised := LabelOf(line).Some?;
      if recognised && |line| > 1 {
        Assign(LabelOf(line).value, line[1]);
      }
    }

    method Assign(l: Label, value: string)
      modifies this
      ensures forall k :: Field(k) == if k == l then value else old(Field(k))
    {
      match l {
        case Total => total := value;
        case Free => free := value;
        case Available => available := value;
        case Buffers => buffers := value;
        case Cached => cached := value;
        case SwapTotal => swapTotal := value;
        case SwapFree => swapFree := value;
        case SwapCached => swapCached := value;
      }
    }
  }

  /** How many lines it takes to see so many recognised ones, or to reach the end. */
  function StopsAt(lines: seq<seq<string>>, room: nat): (n: nat)
    ensures n <= |lines|
  {
    if lines == [] || room == 0 then 0
    else 1 + StopsAt(lines[1..], if LabelOf(lines[0]).Some? then room - 1 else room)
  }

  lemma StopsAtOnce(lines: seq<seq<string>>, room: nat)
    requires lines == [] || room == 0
    ensures StopsAt(lines, room) == 0
  {
  }

  lemma StopsAtNext(lines: seq<seq<string>>, i: nat, room: nat)
    requires i < |lines| && room > 0
    ensures StopsAt(lines[i..], room)
         == 1 + StopsAt(lines[i + 1..], if LabelOf(lines[i]).Some? then room - 1 else room)
  {
    hide LabelOf;
    assert lines[i..][1..] == lines[i + 1..] && lines[i..][0] == lines[i];
  }

  lemma NothingYet(lines: seq<seq<string>>)
    ensures StoreAll(lines[..0]) == map[] && lines[0..] == lines
  {
  }

  lemma StoreNext(lines: seq<seq<string>>, i: nat)
    requires i < |lines|
    ensures StoreAll(lines[..i + 1]) == Store(StoreAll(lines[..i]), lines[i])
  {
    hide Store;
    assert lines[..i + 1][..i] == lines[..i] && lines[..i + 1][i] == lines[i];
  }

  lemma {:induction false} RecognisedFirst(lines: seq<seq<string>>)
    requires lines != []
    ensures Recognised(lines) == (if LabelOf(lines[0]).Some? then 1 else 0) + Recognised(lines[1..])
  {
    var n := |lines| - 1;
    if n == 0 {
    } else {
      RecognisedFirst(lines[..n]);
      assert lines[1..][..n - 1] == lines[..n][1..];
    }
  }

  lemma {:induction false} StopsAtCounts(lines: seq<seq<string>>, room: nat)
    ensures var n := StopsAt(lines, room);
            n == |lines| || Recognised(lines[..n]) == room
  {
    if lines == [] || room == 0 {
    } else {
      var left: nat := if LabelOf(lines[0]).Some? then room - 1 else room;
      var n := StopsAt(lines, room);
      StopsAtCounts(lines[1..], left);
      RecognisedFirst(lines[..n]);
      assert lines[..n][1..] == lines[1..][..n - 1];
    }
  }

  function Recognised(lines: seq<seq<string>>): nat {
    if lines == [] then 0
    else Recognised(lines[..|lines| - 1]) + (if LabelOf(lines[|lines| - 1]).Some? then 1 else 0)
  }

  /** The last line adds its label, which is new when no label occurs twice. */
  lemma LabelsNext(lines: seq<seq<string>>)
    requires lines != []
    ensures var n := |lines| - 1;
            Labels(lines) == Labels(lines[..n]) + (if LabelOf(lines[n]).Some? then {LabelOf(lines[n]).value} else {})
    ensures var n := |lines| - 1;
            AtMostOnce(lines) && LabelOf(lines[n]).Some? ==> LabelOf(lines[n]).value !in Labels(lines[..n])
  {
    hide LabelOf;
    var n := |lines| - 1;
    assert forall i :: 0 <= i < n ==> lines[i] == lines[..n][i];
  }

  /** With distinct labels the counter is the number of labels seen. */
  lemma {:induction false} CountIsLabels(lines: seq<seq<string>>)
    requires AtMostOnce(lines)
    ensures Recognised(lines) == |Labels(lines)|
  {
    hide Labels, LabelOf;
    if lines == [] {
      NoLabels();
    } else {
      LabelsNext(lines);
      CountIsLabels(lines[..|lines| - 1]);
    }
  }

  lemma NoLabels()
    ensures Labels([]) == {}
  {
  }

  lemma SubsetOfSameSize(a: set<Label>, b: set<Label>)
    requires a <= b && |a| == |b|
    ensures a == b
  {
    assert |b - a| == |b| - |a|;
  }

  /** Lines that are not recognised store nothing. */
  lemma {:induction false} UnlabelledStoreNothing(lines: seq<seq<string>>, read: nat)
    requires read <= |lines|
    requires forall i :: read <= i < |lines| ==> LabelOf(lines[i]).None?
    ensures StoreAll(lines) == StoreAll(lines[..read])
  {
    if read == |lines| {
      assert lines[..read] == lines;
    } else {
      var init := lines[..|lines| - 1];
      UnlabelledStoreNothing(init, read);
      assert init[..read] == lines[..read];
    }
  }

  /** Stopping at eight recognised lines loses nothing when no label occurs twice. */
  lemma EarlyExitIsHarmless(lines: seq<seq<string>>, read: nat)
    requires AtMostOnce(lines) && read <= |lines| && Recognised(lines[..read]) == 8
    ensures StoreAll(lines[..read]) == StoreAll(lines)
  {
    hide Recognised, LabelOf;
    var seen := lines[..read];
    CountIsLabels(seen);
    AllLabels();
    SubsetOfSameSize(Labels(seen), ALL);
    forall i, l | read <= i < |lines| && l in ALL
      ensures LabelOf(lines[i]) != Some(l)
    {
      LabelIsNotRepeated(lines, read, i, l);
    }
    UnlabelledStoreNothing(lines, read);
  }

  lemma AllLabels()
    ensures |ALL| == 8 && forall l: Label :: l in ALL
  {
    forall l: Label
      ensures l in ALL
    {
      match l {
        case Total =>
        case _ =>
      }
    }
  }

  lemma LabelIsNotRepeated(lines: seq<seq<string>>, read: nat, i: nat, l: Label)
    requires AtMostOnce(lines) && read <= i < |lines| && l in Labels(lines[..read])
    ensures LabelOf(lines[i]) != Some(l)
  {
    hide LabelOf;
    var j :| 0 <= j < read && LabelOf(lines[..read][j]) == Some(l);
    assert lines[..read][j] == lines[j];
  }

  /** With distinct labels each field holds the value of its own line, whatever the order of the lines. */
  lemma {:induction false} FieldIsItsLine(lines: seq<seq<string>>, i: nat)
    requires AtMostOnce(lines) && i < |lines| && LabelOf(lines[i]).Some? && |lines[i]| > 1
    ensures LabelOf(lines[i]).value in StoreAll(lines) && StoreAll(lines)[LabelOf(lines[i]).value] == lines[i][1]
  {
    if i == |lines| - 1 {
    } else {
      FieldIsItsLine(lines[..|lines| - 1], i);
    }
  }

  /** No two lines start with the same word. */
  predicate DistinctWords(lines: seq<seq<string>>) {
    forall i, j :: 0 <= i < j < |lines| && lines[i] != [] && lines[j] != [] ==> lines[i][0] != lines[j][0]
  }

  lemma LabelsDiffer(a: string, b: string)
    requires LabelNamed(a).Some? && LabelNamed(a) == LabelNamed(b)
    ensures a == b
  {
  }

  lemma DistinctWordsAreLabels(lines: seq<seq<string>>)
    requires DistinctWords(lines)
    ensures AtMostOnce(lines)
  {
    hide LabelNamed;
    forall i, j | 0 <= i < j < |lines| && LabelOf(lines[i]).Some?
      ensures LabelOf(lines[i]) != LabelOf(lines[j])
    {
      if LabelOf(lines[i]) == LabelOf(lines[j]) {
        LabelsDiffer(lines[i][0], lines[j][0]);
      }
    }
  }

  lemma WordsOfLabels()
    ensures LabelNamed("MemTotal:") == Some(Total) && LabelNamed("MemFree:") == Some(Free)
    ensures LabelNamed("MemAvailable:") == Some(Available) && LabelNamed("Buffers:") == Some(Buffers)
    ensures LabelNamed("Cached:") == Some(Cached) && LabelNamed("SwapTotal:") == Some(SwapTotal)
    ensures LabelNamed("SwapFree:") == Some(SwapFree) && LabelNamed("SwapCached:") == Some(SwapCached)
  {
  }

  /** An object read from a file without repeated labels has in each field the value of the line with its word. */
  lemma FieldsByWord(m: Memory, lines: seq<seq<string>>, i: nat)
    requires m.read <= |lines| && m.Holds(StoreAll(lines[..m.read]))
    requires m.read == |lines| || Recognised(lines[..m.read]) == 8
    requires DistinctWords(lines) && i < |lines| && |lines[i]| > 1
    ensures lines[i][0] == "MemTotal:" ==> m.total == lines[i][1]
    ensures lines[i][0] == "MemFree:" ==> m.free == lines[i][1]
    ensures lines[i][0] == "MemAvailable:" ==> m.available == lines[i][1]
    ensures lines[i][0] == "Buffers:" ==> m.buffers == lines[i][1]
    ensures lines[i][0] == "Cached:" ==> m.cached == lines[i][1]
    ensures lines[i][0] == "SwapTotal:" ==> m.swapTotal == lines[i][1]
    ensures lines[i][0] == "SwapFree:" ==> m.swapFree == lines[i][1]
    ensures lines[i][0] == "SwapCached:" ==> m.swapCached == lines[i][1]
  {
    hide LabelNamed, StoreAll, Recognised, AtMostOnce;
    DistinctWordsAreLabels(lines);
    WordsOfLabels();
    if m.read == |lines| {
      assert lines[..m.read] == lines;
    } else {
      EarlyExitIsHarmless(lines, m.read);
    }
    if LabelOf(lines[i]).Some? {
      FieldIsItsLine(lines, i);
      assert m.Field(LabelOf(lines[i]).value) == lines[i][1];
    }
  }
}
