/** Repository::getData for processes: the lookup by pid, the scan of /proc, and when they agree. */
module Repository {
  import opened Text
  import opened Selection
  import Parser
  import opened Snapshots
  import opened Processes
  import opened Evaluation
  import opened ExprTrees
  import opened Filters
  import opened Rendering

  const PROCESS := "process"

  datatype DirEntry = DirEntry(name: string, isDirectory: bool)

  /** The entries of /proc, and a snapshot of each process that exists. */
  datatype World = World(entries: seq<DirEntry>, procs: map<nat, Snapshot>) {
    predicate Defined() {
      && (forall p :: p in procs ==> procs[p].Defined())
      && (forall i :: 0 <= i < |entries| ==>
            AllDigits(entries[i].name) ==> Value(entries[i].name) <= INT_MAX)
    }
  }

  method IsProcessDirectory(name: string) returns (r: bool)
    ensures r == AllDigits(name)
  {
    for i := 0 to |name|
      invariant AllDigits(name[..i])
    {
      if name[i] < '0' || name[i] > '9' {
        return false;
      }
    }
    assert name[..|name|] == name;
    return true;
  }

  predicate IsListed(e: DirEntry) {
    e.isDirectory && AllDigits(e.name)
  }

  /** The pids of the directories named by digits, in the order of /proc. */
  function ListedPids(entries: seq<DirEntry>): seq<nat> {
    if entries == [] then []
    else
      var e := entries[|entries| - 1];
      ListedPids(entries[..|entries| - 1]) + (if IsListed(e) then [Value(e.name)] else [])
  }

  /** The readdir loop. */
  method GetAllPids(entries: seq<DirEntry>) returns (pids: seq<nat>)
    ensures pids == ListedPids(entries)
  {
    pids := [];
    for i := 0 to |entries|
      invariant pids == ListedPids(entries[..i])
    {
      assert entries[..i + 1][..i] == entries[..i];
      var accepted := IsProcessDirectory(entries[i].name);
      if entries[i].isDirectory && accepted {
        pids := pids + [Value(entries[i].name)];
      }
    }
    assert entries[..|entries|] == entries;
  }

  predicate Distinct<T(==)>(s: seq<T>) {
    forall i, j :: 0 <= i < j < |s| ==> s[i] != s[j]
  }

  predicate DistinctNames(entries: seq<DirEntry>) {
    forall i, j :: 0 <= i < j < |entries| ==> entries[i].name != entries[j].name
  }

  lemma {:induction false} ListedComesFromEntry(entries: seq<DirEntry>, p: nat)
    ensures p in ListedPids(entries) <==>
            exists i :: 0 <= i < |entries| && IsListed(entries[i]) && Value(entries[i].name) == p
  {
    if entries == [] {
    } else {
      var n := |entries| - 1;
      ListedComesFromEntry(entries[..n], p);
      assert forall i :: 0 <= i < n ==> entries[..n][i] == entries[i];
    }
  }

  /** Different directories have different pids, because canonical numerals do; and a pid names its directory. */
  lemma {:induction false} ListedPidsAreDistinct(entries: seq<DirEntry>)
    requires DistinctNames(entries)
    requires forall i :: 0 <= i < |entries| && IsListed(entries[i]) ==> Canonical(entries[i].name)
    ensures Distinct(ListedPids(entries))
  {
    if entries == [] {
    } else {
      var n := |entries| - 1;
      var e := entries[n];
      ListedPidsAreDistinct(entries[..n]);
      if IsListed(e) {
        ListedComesFromEntry(entries[..n], Value(e.name));
        forall i | 0 <= i < n && IsListed(entries[i])
          ensures Value(entries[i].name) != Value(e.name)
        {
          DigitsOfValue(entries[i].name);
          DigitsOfValue(e.name);
        }
      }
    }
  }

  /** The listing of a longer directory is that of its parts, one after the other. */
  lemma {:induction false} ListingIsInOrder(a: seq<DirEntry>, b: seq<DirEntry>)
    ensures ListedPids(a + b) == ListedPids(a) + ListedPids(b)
  {
    hide IsListed;
    if b == [] {
      assert a + b == a;
    } else {
      var n := |b| - 1;
      assert (a + b)[..|a + b| - 1] == a + b[..n] && (a + b)[|a + b| - 1] == b[n];
      ListingIsInOrder(a, b[..n]);
    }
  }

  /** A directory named by digits stands in the listing behind those in front of it and nothing else does. */
  lemma EntryInListing(before: seq<DirEntry>, e: DirEntry, after: seq<DirEntry>)
    ensures var pids, k := ListedPids(before + [e] + after), |ListedPids(before)|;
            if e.isDirectory && forall i :: 0 <= i < |e.name| ==> '0' <= e.name[i] <= '9'
            then |pids| == k + 1 + |ListedPids(after)| && pids[k] == Value(e.name)
            else |pids| == k + |ListedPids(after)|
  {
    ListingIsInOrder(before + [e], after);
    ListingIsInOrder(before, [e]);
    assert [e][..0] == [] && ListedPids([]) == [];
    assert ListedPids([e]) == if IsListed(e) then [Value(e.name)] else [];
  }

  // ----- the query -----

  datatype Query = Query(lib: Library, projection: seq<Attribute>, selection: Option<Expr>, procs: map<nat, Snapshot>) {
    predicate Defined() {
      forall p :: p in procs ==> procs[p].Defined()
    }

    predicate Selects(pid: nat)
      requires Defined() && pid in procs
    {
      selection.None? || Eval(Env(lib, pid, procs[pid]), selection.value) == Ok(true)
    }

    /** What one pid contributes: nothing, one record, or an exception. */
    function Visit(pid: nat): Outcome<seq<string>>
      requires Defined()
    {
      if pid !in procs then Ok([])
      else if selection.Some? && Eval(Env(lib, pid, procs[pid]), selection.value).Throws? then Throws
      else if !Selects(pid) then Ok([])
      else
        match Render(projection, pid, procs[pid])
        case Throws => Throws
        case Ok(record) => Ok([record])
    }

    /** The records of all listed processes; any exception loses all of them. */
    function Scan(pids: seq<nat>): Outcome<seq<string>>
      requires Defined()
    {
      if pids == [] then Ok([]) else Both(Visit(pids[0]), Scan(pids[1..]))
    }

    /** The record of the one process whose pid the literal denotes. */
    function Lookup(literal: string): Outcome<seq<string>>
      requires Defined()
    {
      match StoI(literal)
      case Throws => Throws
      case Ok(n) => if n < 0 then Throws else Visit(n)
    }

    function Answer(pids: seq<nat>): Outcome<seq<string>>
      requires Defined()
    {
      var literal := if selection.Some? then FindPid(selection.value) else "";
      if literal != "" then Lookup(literal) else Scan(pids)
    }
  }

  function Both(a: Outcome<seq<string>>, b: Outcome<seq<string>>): Outcome<seq<string>> {
    if a.Ok? && b.Ok? then Ok(a.value + b.value) else Throws
  }

  ghost function TreeOf(filter: Filter): Option<Expr>
    reads filter, filter.selection
  {
    if filter.selection == null then None else Some(filter.selection.Tree)
  }

  /** The code's answer is that of the query on the snapshots: the caches of the processes do not show. */
  method GetData(filter: Filter, lib: Library, world: World) returns (r: Outcome<seq<string>>)
    requires filter.Valid() && filter.kind == PROCESS && world.Defined()
    ensures r == Query(lib, filter.projection, TreeOf(filter), world.procs).Answer(ListedPids(world.entries))
  {
    ghost var q := Query(lib, filter.projection, TreeOf(filter), world.procs);
    hide Process.Cached, ExprNode.Valid, StoI;
    var pidLiteral := "";
    if filter.selection != null {
      pidLiteral := filter.selection.FindPid();
    }
    if |pidLiteral| > 0 {
      var pid := StoI(pidLiteral);
      if pid.Throws? || pid.value < 0 {
        return Throws;
      }
      r := VisitProcess(filter, lib, world, pid.value);
    } else {
      var allPids := GetAllPids(world.entries);
      var results: seq<string> := [];
      assert allPids[0..] == allPids;
      NothingYet(q.Scan(allPids));
      for i := 0 to |allPids|
        invariant q.Scan(allPids) == Both(Ok(results), q.Scan(allPids[i..]))
      {
        var records := VisitProcess(filter, lib, world, allPids[i]);
        NextPid(q, allPids, i, results);
        if records.Throws? {
          return Throws;
        }
        results := results + records.value;
      }
      BothWithNothing(Ok(results));
      r := Ok(results);
    }
  }

  /** One process: skipped when gone or not selected, otherwise printed. */
  method VisitProcess(filter: Filter, lib: Library, world: World, pid: nat) returns (r: Outcome<seq<string>>)
    requires filter.Valid() && world.Defined()
    ensures r == Query(lib, filter.projection, TreeOf(filter), world.procs).Visit(pid)
  {
    hide Process.Cached, ExprNode.Valid;
    var proc := new Process(pid, if pid in world.procs then Some(world.procs[pid]) else None);
    if !proc.present {
      return Ok([]);
    }
    if filter.selection != null {
      var selected := filter.selection.Validate(lib, proc);
      if selected.Throws? {
        return Throws;
      }
      if !selected.value {
        return Ok([]);
      }
    }
    var record := IterateProc(filter.projection, proc);
    r := if record.Throws? then Throws else Ok([record.value]);
  }

  lemma NothingYet(a: Outcome<seq<string>>)
    ensures Both(Ok([]), a) == a
  {
    if a.Ok? {
      assert [] + a.value == a.value;
    }
  }

  lemma NextPid(q: Query, pids: seq<nat>, i: nat, results: seq<string>)
    requires q.Defined() && i < |pids|
    ensures Both(Ok(results), q.Scan(pids[i..])) ==
            if q.Visit(pids[i]).Throws? then Throws
            else Both(Ok(results + q.Visit(pids[i]).value), q.Scan(pids[i + 1..]))
  {
    assert pids[i..][1..] == pids[i + 1..];
    var visit, rest := q.Visit(pids[i]), q.Scan(pids[i + 1..]);
    if visit.Ok? && rest.Ok? {
      assert results + (visit.value + rest.value) == results + visit.value + rest.value;
    }
  }

  // ----- filter, then project -----

  /** The listed processes the selection picks, in the order of the listing. */
  function Matching(q: Query, pids: seq<nat>): (r: seq<nat>)
    requires q.Defined()
    ensures forall p :: p in r <==> p in pids && p in q.procs && q.Selects(p)
  {
    if pids == [] then []
    else (if pids[0] in q.procs && q.Selects(pids[0]) then [pids[0]] else []) + Matching(q, pids[1..])
  }

  /** A scan that does not throw returns one record for each matching process and nothing else. */
  lemma {:induction false} ScanIsFilterThenProject(q: Query, pids: seq<nat>)
    requires q.Defined() && q.Scan(pids).Ok?
    ensures |q.Scan(pids).value| == |Matching(q, pids)|
    ensures forall i :: 0 <= i < |Matching(q, pids)| ==>
              var p := Matching(q, pids)[i];
              Ok(q.Scan(pids).value[i]) == Render(q.projection, p, q.procs[p])
  {
    hide Query.Visit, Query.Selects, Render;
    if pids == [] {
    } else {
      VisitMatches(q, pids[0]);
      ScanIsFilterThenProject(q, pids[1..]);
    }
  }

  lemma VisitMatches(q: Query, p: nat)
    requires q.Defined() && q.Visit(p).Ok?
    ensures if p in q.procs && q.Selects(p)
            then |q.Visit(p).value| == 1 && Ok(q.Visit(p).value[0]) == Render(q.projection, p, q.procs[p])
            else q.Visit(p).value == []
  {
    hide Eval, Render;
  }

  /** Matching goes through the listing in order, one process after the other. */
  lemma {:induction false} MatchingIsInOrder(q: Query, a: seq<nat>, b: seq<nat>)
    requires q.Defined()
    ensures Matching(q, a + b) == Matching(q, a) + Matching(q, b)
  {
    hide Query.Selects;
    if a == [] {
      assert a + b == b;
    } else {
      assert (a + b)[1..] == a[1..] + b;
      MatchingIsInOrder(q, a[1..], b);
    }
  }

  /** A process matches if it exists and the selection, if there is one, is true of it. */
  lemma MatchingOne(q: Query, p: nat)
    requires q.Defined()
    ensures Matching(q, [p]) ==
            if p in q.procs && (q.selection.None? || Eval(Env(q.lib, p, q.procs[p]), q.selection.value) == Ok(true))
            then [p] else []
  {
    hide Eval;
    assert [p][1..] == [];
  }

  // ----- the lookup against the scan -----

  lemma {:induction false} ScanSkips(q: Query, pids: seq<nat>)
    requires q.Defined()
    requires forall i :: 0 <= i < |pids| ==> q.Visit(pids[i]) == Ok([])
    ensures q.Scan(pids) == Ok([])
  {
    if pids == [] {
    } else {
      assert forall i :: 0 <= i < |pids| - 1 ==> pids[1..][i] == pids[i + 1];
      assert q.Visit(pids[0]) == Ok([]);
      ScanSkips(q, pids[1..]);
      NothingYet(Ok([]));
    }
  }

  lemma {:induction false} ScanFindsOnly(q: Query, pids: seq<nat>, k: nat)
    requires q.Defined() && k < |pids|
    requires forall i :: 0 <= i < |pids| && i != k ==> q.Visit(pids[i]) == Ok([])
    ensures q.Scan(pids) == q.Visit(pids[k])
  {
    hide Query.Visit;
    var rest := pids[1..];
    assert forall i :: 0 <= i < |rest| ==> rest[i] == pids[i + 1];
    if k == 0 {
      ScanSkips(q, rest);
      BothWithNothing(q.Visit(pids[0]));
    } else {
      ScanFindsOnly(q, rest, k - 1);
      assert q.Visit(pids[0]) == Ok([]);
      NothingYet(q.Scan(rest));
    }
  }

  lemma BothWithNothing(a: Outcome<seq<string>>)
    ensures Both(a, Ok([])) == a
  {
    if a.Ok? {
      assert a.value + [] == a.value;
    }
  }

  /** The listing has each pid once, and knows the pid the literal denotes if that process exists. */
  predicate Lists(q: Query, pids: seq<nat>, literal: string) {
    && Distinct(pids)
    && (forall i :: 0 <= i < |pids| ==> pids[i] <= INT_MAX)
    && (StoI(literal).Ok? && StoI(literal).value in q.procs ==> StoI(literal).value in pids)
  }

  /** The directories of /proc make such a listing when their names are distinct canonical numerals and complete. */
  lemma DirectoriesListPids(q: Query, world: World, literal: string)
    requires world.Defined() && q.procs == world.procs && DistinctNames(world.entries)
    requires forall i :: 0 <= i < |world.entries| && IsListed(world.entries[i]) ==> Canonical(world.entries[i].name)
    requires forall p :: p in world.procs ==>
               exists i :: 0 <= i < |world.entries| && world.entries[i] == DirEntry(Digits(p), true)
    ensures Lists(q, ListedPids(world.entries), literal)
  {
    hide StoI;
    var pids := ListedPids(world.entries);
    ListedPidsAreDistinct(world.entries);
    forall i | 0 <= i < |pids|
      ensures pids[i] <= INT_MAX
    {
      ListedComesFromEntry(world.entries, pids[i]);
    }
    if StoI(literal).Ok? && StoI(literal).value in q.procs {
      var p: nat := StoI(literal).value;
      var i :| 0 <= i < |world.entries| && world.entries[i] == DirEntry(Digits(p), true);
      ValueOfDigits(p);
      ListedComesFromEntry(world.entries, p);
    }
  }

  /** Some listed process other than p makes the selection or the printing throw. */
  predicate OthersThrow(q: Query, pids: seq<nat>, p: int)
    requires q.Defined()
  {
    exists i :: 0 <= i < |pids| && pids[i] != p && q.Visit(pids[i]).Throws?
  }

  /** A scan loses all its records exactly when one of its visits throws. */
  lemma {:induction false} ScanThrowsIff(q: Query, pids: seq<nat>)
    requires q.Defined()
    ensures q.Scan(pids).Throws? <==> exists i :: 0 <= i < |pids| && q.Visit(pids[i]).Throws?
  {
    hide Query.Visit;
    if pids == [] {
    } else {
      ScanThrowsIff(q, pids[1..]);
      assert forall i :: 0 <= i < |pids| - 1 ==> pids[1..][i] == pids[i + 1];
      assert forall i :: 0 < i < |pids| ==> pids[i] == pids[1..][i - 1];
    }
  }

  /** On listed processes other than the one looked up, the leaf that findPid found is not true. */
  predicate LeafExcludesOthers(q: Query, pids: seq<nat>)
    requires q.Defined() && q.selection.Some? && FindLeaf(q.selection.value).Some?
  {
    var leaf := FindLeaf(q.selection.value).value;
    forall i :: 0 <= i < |pids| && pids[i] in q.procs && StoI(leaf.literal) != Ok(pids[i]) ==>
      EvalLeaf(Env(q.lib, pids[i], q.procs[pids[i]]), leaf.op, leaf.operand, leaf.literal) != Ok(true)
  }

  lemma LeafNotTrueIsSkipped(q: Query, p: nat)
    requires q.Defined() && q.selection.Some?
    requires FindLeaf(q.selection.value).Some? && LeafReached(q.selection.value)
    requires var leaf := FindLeaf(q.selection.value).value;
             p in q.procs ==>
               EvalLeaf(Env(q.lib, p, q.procs[p]), leaf.op, leaf.operand, leaf.literal) != Ok(true)
    ensures q.Visit(p) == Ok([]) || q.Visit(p) == Throws
    ensures q.Visit(p).Throws? <==> p in q.procs && Eval(Env(q.lib, p, q.procs[p]), q.selection.value).Throws?
  {
    hide Eval, EvalLeaf, Render;
    if p in q.procs && q.Selects(p) {
      SelectedImpliesLeaf(Env(q.lib, p, q.procs[p]), q.selection.value);
    }
  }

  /** The int that the literal denotes, or -1 when a lookup of it throws. */
  function Denoted(literal: string): int {
    if StoI(literal).Ok? && StoI(literal).value >= 0 then StoI(literal).value else -1
  }

  /**
   * Whatever the operator of the leaf, as long as it excludes all other
   * processes: for a literal that is an int and not negative, lookup and scan
   * agree exactly when the process asked for makes both throw or no other one
   * makes the scan throw. For any other literal the lookup throws, and they
   * agree exactly when the scan does too.
   */
  lemma LookupIsScan(q: Query, pids: seq<nat>)
    requires q.Defined() && q.selection.Some?
    requires FindLeaf(q.selection.value).Some? && LeafReached(q.selection.value)
    requires LeafExcludesOthers(q, pids)
    requires Lists(q, pids, FindPid(q.selection.value))
    ensures var literal := FindPid(q.selection.value);
            var n := Denoted(literal);
            q.Lookup(literal) == q.Scan(pids) <==>
            if n >= 0 then q.Visit(n).Throws? || !OthersThrow(q, pids, n) else OthersThrow(q, pids, n)
  {
    hide Query.Visit, Query.Scan, StoI, Eval, EvalLeaf;
    var n := Denoted(FindPid(q.selection.value));
    forall i | 0 <= i < |pids| && pids[i] != n
      ensures q.Visit(pids[i]) == Ok([]) || q.Visit(pids[i]) == Throws
    {
      LeafNotTrueIsSkipped(q, pids[i]);
    }
    ScanThrowsIff(q, pids);
    if OthersThrow(q, pids, n) {
    } else if k :| 0 <= k < |pids| && pids[k] == n {
      assert forall i :: 0 <= i < |pids| && i != k ==> pids[i] != pids[k];
      ScanFindsOnly(q, pids, k);
    } else {
      ScanSkips(q, pids);
      if n >= 0 {
        UnlistedIsSkipped(q, pids, n);
      }
    }
  }

  /** The process does not make the selection throw. */
  predicate IsFaultless(q: Query, p: nat)
    requires q.Defined() && q.selection.Some?
  {
    p in q.procs ==> Eval(Env(q.lib, p, q.procs[p]), q.selection.value).Ok?
  }

  predicate ScanIsFaultless(q: Query, pids: seq<nat>)
    requires q.Defined() && q.selection.Some?
  {
    forall i :: 0 <= i < |pids| ==> IsFaultless(q, pids[i])
  }

  lemma FaultlessOthers(q: Query, pids: seq<nat>)
    requires q.Defined() && q.selection.Some?
    requires FindLeaf(q.selection.value).Some? && LeafReached(q.selection.value)
    requires LeafExcludesOthers(q, pids) && ScanIsFaultless(q, pids)
    ensures !OthersThrow(q, pids, Denoted(FindPid(q.selection.value)))
  {
    hide Query.Visit, StoI, Eval, EvalLeaf;
    var n := Denoted(FindPid(q.selection.value));
    forall i | 0 <= i < |pids| && pids[i] != n
      ensures q.Visit(pids[i]).Ok?
    {
      LeafNotTrueIsSkipped(q, pids[i]);
    }
  }

  lemma EquationExcludesOthers(q: Query, pids: seq<nat>)
    requires q.Defined() && q.selection.Some? && FindLeaf(q.selection.value).Some?
    requires FindLeaf(q.selection.value).value.op == EQ_OP
    requires forall i :: 0 <= i < |pids| ==> pids[i] <= INT_MAX
    ensures LeafExcludesOthers(q, pids)
  {
    hide StoI;
    forall i | 0 <= i < |pids|
      ensures StoI(Digits(pids[i])) == Ok(pids[i])
    {
      StoIOfDigits(pids[i]);
    }
  }

  /**
   * An equation on the pid always excludes the others. A literal such as "007"
   * is an int as well, and then both answers are empty.
   */
  lemma IndexAgreesWithScan(q: Query, pids: seq<nat>)
    requires q.Defined() && q.selection.Some?
    requires FindLeaf(q.selection.value).Some? && LeafReached(q.selection.value)
    requires FindLeaf(q.selection.value).value.op == EQ_OP
    requires Lists(q, pids, FindPid(q.selection.value))
    ensures var literal := FindPid(q.selection.value);
            var n := Denoted(literal);
            && (q.Lookup(literal) == q.Scan(pids) <==>
                if n >= 0 then q.Visit(n).Throws? || !OthersThrow(q, pids, n) else OthersThrow(q, pids, n))
            && (ScanIsFaultless(q, pids) ==> (q.Lookup(literal) == q.Scan(pids) <==> n >= 0))
  {
    hide StoI, Eval, Query.Lookup, Query.Scan, Query.Visit, EvalLeaf, LeafExcludesOthers;
    EquationExcludesOthers(q, pids);
    LookupIsScan(q, pids);
    if ScanIsFaultless(q, pids) {
      FaultlessOthers(q, pids);
    }
  }

  /**
   * An order on the pid compares -1 with the literal. When that is false, no
   * process is selected, whatever stands around the leaf: the scan finds
   * nothing unless a process makes it throw, and the lookup finds nothing
   * unless the process asked for, or the literal, makes it throw.
   */
  lemma FalseOrderSelectsNothing(q: Query, pids: seq<nat>)
    requires q.Defined() && q.selection.Some?
    requires FindLeaf(q.selection.value).Some? && LeafReached(q.selection.value)
    requires IsOrder(FindLeaf(q.selection.value).value.op)
    requires var c := CompareText(q.lib, FindLeaf(q.selection.value).value.op, "", FindPid(q.selection.value));
             c.Ok? && !c.value
    ensures q.Scan(pids) == if ScanIsFaultless(q, pids) then Ok([]) else Throws
    ensures var literal := FindPid(q.selection.value);
            var n := Denoted(literal);
            q.Lookup(literal) == if n >= 0 && IsFaultless(q, n) then Ok([]) else Throws
  {
    hide StoI, CompareText, Eval, Query.Scan, Query.Visit;
    forall p: nat
      ensures q.Visit(p) == if IsFaultless(q, p) then Ok([]) else Throws
    {
      LeafNotTrueIsSkipped(q, p);
    }
    ScanThrowsIff(q, pids);
    if ScanIsFaultless(q, pids) {
      ScanSkips(q, pids);
    }
  }

  lemma UnlistedIsSkipped(q: Query, pids: seq<nat>, p: nat)
    requires q.Defined()
    requires p in q.procs ==> p in pids
    requires forall i :: 0 <= i < |pids| ==> q.Visit(pids[i]) == Ok([])
    ensures q.Visit(p) == Ok([])
  {
    if p in q.procs {
      var i :| 0 <= i < |pids| && pids[i] == p;
      assert q.Visit(pids[i]) == Ok([]);
    }
  }

  // ----- a pid leaf with another operator -----

  ghost predicate ListsExactly(procs: map<nat, Snapshot>, pids: seq<nat>) {
    && Distinct(pids)
    && (forall p :: p in procs ==> p <= INT_MAX && procs[p].Defined())
    && (forall p: nat :: p in pids <==> p in procs)
  }

  /** Lookup and scan agree on every process table. */
  ghost predicate AlwaysAgree(lib: Library, projection: seq<Attribute>, e: Expr) {
    forall procs: map<nat, Snapshot>, pids: seq<nat> :: ListsExactly(procs, pids) ==>
      Query(lib, projection, Some(e), procs).Lookup(FindPid(e))
      == Query(lib, projection, Some(e), procs).Scan(pids)
  }

  lemma ExactIsListing(q: Query, pids: seq<nat>, literal: string)
    requires ListsExactly(q.procs, pids)
    ensures q.Defined() && Lists(q, pids, literal)
  {
    hide StoI;
    assert forall i :: 0 <= i < |pids| ==> pids[i] in pids;
  }

  /** A process whose attributes can all be read. */
  const PLAIN := Snapshot("", seq(16, i => "0"), [], None, None, "", [], [], [], [])

  lemma PlainRenders(projection: seq<Attribute>, pid: nat, comm: string)
    ensures PLAIN.Defined() && Render(projection, pid, PLAIN.(comm := comm)).Ok?
  {
    StoIOfDigits(0);
    assert "0" == Digits(0);
    assert PLAIN.TimesReadable();
    PlainFields(projection, pid, comm);
  }

  lemma {:induction false} PlainFields(projection: seq<Attribute>, pid: nat, comm: string)
    requires PLAIN.Defined() && PLAIN.TimesReadable()
    ensures FieldsOf(projection, pid, PLAIN.(comm := comm)).Ok?
  {
    hide ValueText, KeyText;
    if projection == [] {
    } else {
      PlainValue(projection[0].name, pid, comm);
      PlainFields(projection[1..], pid, comm);
    }
  }

  lemma PlainValue(name: string, pid: nat, comm: string)
    requires PLAIN.Defined() && PLAIN.TimesReadable()
    ensures ValueText(name, pid, PLAIN.(comm := comm)).Ok?
  {
    hide AttrNamed, StoUL, Thousandths, EscapeQuotes, KBs, Digits, TrimUsage, Total, LastBytes, UpToWrite;
  }

  /** For an equation alone they agree on all tables exactly if the literal is an int that is not negative. */
  lemma EquationOnPid(lib: Library, projection: seq<Attribute>, literal: string)
    requires literal != ""
    ensures AlwaysAgree(lib, projection, Rel(EQ_OP, "pid", literal)) <==>
            StoI(literal).Ok? && StoI(literal).value >= 0
  {
    hide StoI, Query.Lookup, Query.Scan;
    var e := Rel(EQ_OP, "pid", literal);
    if StoI(literal).Throws? || StoI(literal).value < 0 {
      NoPidDiffers(lib, projection, e);
    } else {
      forall procs: map<nat, Snapshot>, pids: seq<nat> | ListsExactly(procs, pids)
        ensures Query(lib, projection, Some(e), procs).Lookup(FindPid(e))
             == Query(lib, projection, Some(e), procs).Scan(pids)
      {
        var q := Query(lib, projection, Some(e), procs);
        ExactIsListing(q, pids, literal);
        IndexAgreesWithScan(q, pids);
      }
    }
  }

  lemma FalseOrderIsFaultless(q: Query)
    requires q.Defined() && q.selection.Some? && q.selection.value.Rel?
    requires q.selection.value.operand == "pid" && IsOrder(q.selection.value.op)
    requires CompareText(q.lib, q.selection.value.op, "", q.selection.value.literal).Ok?
    ensures forall p: nat :: IsFaultless(q, p)
  {
    hide CompareText;
  }

  /**
   * findPid does not look at the operator. For an order on the pid the scan
   * compares -1 with the literal for every process, so lookup and scan agree
   * on all tables exactly if that comparison is false and the literal is an
   * int that is not negative.
   */
  lemma OrderOnPid(lib: Library, projection: seq<Attribute>, op: string, literal: string)
    requires IsOrder(op) && literal != ""
    ensures var c := CompareText(lib, op, "", literal);
            AlwaysAgree(lib, projection, Rel(op, "pid", literal)) <==>
            StoI(literal).Ok? && StoI(literal).value >= 0 && c.Ok? && !c.value
  {
    hide StoI, CompareText, Query.Lookup, Query.Scan;
    var e := Rel(op, "pid", literal);
    var c := CompareText(lib, op, "", literal);
    if c.Ok? && !c.value && StoI(literal).Ok? && StoI(literal).value >= 0 {
      forall procs: map<nat, Snapshot>, pids: seq<nat> | ListsExactly(procs, pids)
        ensures Query(lib, projection, Some(e), procs).Lookup(FindPid(e))
             == Query(lib, projection, Some(e), procs).Scan(pids)
      {
        var q := Query(lib, projection, Some(e), procs);
        FalseOrderSelectsNothing(q, pids);
        FalseOrderIsFaultless(q);
      }
    } else {
      SomeTableDiffers(lib, projection, e, PLAIN);
    }
  }

  /**
   * A pattern on the pid searches the name instead: lookup and scan agree on
   * all tables exactly if the pattern is a regular expression that no name
   * matches and the literal is an int that is not negative.
   */
  lemma PatternOnPid(lib: Library, projection: seq<Attribute>, literal: string)
    requires literal != ""
    ensures AlwaysAgree(lib, projection, Rel(LIKE_OP, "pid", literal)) <==>
            && StoI(literal).Ok? && StoI(literal).value >= 0
            && lib.isRegex(literal) && forall name: string :: name != "" ==> !lib.regexSearch(name, literal)
  {
    hide StoI, Query.Lookup, Query.Scan;
    var e := Rel(LIKE_OP, "pid", literal);
    if !StoI(literal).Ok? || StoI(literal).value < 0 || !lib.isRegex(literal) {
      SomeTableDiffers(lib, projection, e, PLAIN);
    } else if name: string :| name != "" && lib.regexSearch(name, literal) {
      SomeTableDiffers(lib, projection, e, PLAIN.(comm := name));
    } else {
      forall procs: map<nat, Snapshot>, pids: seq<nat> | ListsExactly(procs, pids)
        ensures Query(lib, projection, Some(e), procs).Lookup(FindPid(e))
             == Query(lib, projection, Some(e), procs).Scan(pids)
      {
        LookupIsScan(Query(lib, projection, Some(e), procs), pids);
        FaultlessOthers(Query(lib, projection, Some(e), procs), pids);
      }
    }
  }

  /** Processes that look like this one show the difference if they match or throw, or if the literal is no pid. */
  lemma SomeTableDiffers(lib: Library, projection: seq<Attribute>, e: Expr, files: Snapshot)
    requires e.Rel? && e.operand == "pid" && e.literal != "" && (IsOrder(e.op) || e.op == LIKE_OP)
    requires PLAIN.Defined() && files == PLAIN.(comm := files.comm)
    requires StoI(e.literal).Ok? && StoI(e.literal).value >= 0 ==>
               var r := EvalLeaf(Env(lib, 0, files), e.op, e.operand, e.literal);
               r.Throws? || r.value
    ensures !AlwaysAgree(lib, projection, e)
  {
    hide StoI, CompareText, Render;
    if StoI(e.literal).Throws? || StoI(e.literal).value < 0 {
      NoPidDiffers(lib, projection, e);
    } else {
      var n: nat := StoI(e.literal).value;
      var other: nat := if n == 0 then 1 else n - 1;
      PlainRenders(projection, n, files.comm);
      PlainRenders(projection, other, files.comm);
      if EvalLeaf(Env(lib, 0, files), e.op, e.operand, e.literal).Throws? {
        var procs := map[other := files];
        assert ListsExactly(procs, [other]);
        EveryProcessThrows(Query(lib, projection, Some(e), procs), n, other);
      } else {
        var procs := map[n := files, other := files];
        assert ListsExactly(procs, [n, other]);
        EveryProcessMatches(Query(lib, projection, Some(e), procs), n, other);
      }
    }
  }

  lemma NoPidDiffers(lib: Library, projection: seq<Attribute>, e: Expr)
    requires FindPid(e) != "" && (StoI(FindPid(e)).Throws? || StoI(FindPid(e)).value < 0)
    ensures !AlwaysAgree(lib, projection, e)
  {
    hide StoI;
    var q := Query(lib, projection, Some(e), map[]);
    assert ListsExactly(map[], []);
    assert q.Lookup(FindPid(e)) == Throws && q.Scan([]) == Ok([]);
  }

  lemma EveryProcessThrows(q: Query, n: nat, other: nat)
    requires q.Defined() && n !in q.procs && other in q.procs && q.selection.Some?
    requires StoI(FindPid(q.selection.value)) == Ok(n)
    requires Eval(Env(q.lib, other, q.procs[other]), q.selection.value) == Throws
    ensures q.Lookup(FindPid(q.selection.value)) == Ok([]) && q.Scan([other]) == Throws
  {
    hide StoI, Eval, Render;
    assert q.Visit(other) == Throws;
  }

  lemma EveryProcessMatches(q: Query, n: nat, other: nat)
    requires q.Defined() && n != other && n in q.procs && other in q.procs && q.selection.Some?
    requires StoI(FindPid(q.selection.value)) == Ok(n)
    requires Eval(Env(q.lib, n, q.procs[n]), q.selection.value) == Ok(true)
    requires Eval(Env(q.lib, other, q.procs[other]), q.selection.value) == Ok(true)
    requires Render(q.projection, n, q.procs[n]).Ok? && Render(q.projection, other, q.procs[other]).Ok?
    ensures q.Lookup(FindPid(q.selection.value)).Ok? && |q.Lookup(FindPid(q.selection.value)).value| == 1
    ensures q.Scan([n, other]).Ok? && |q.Scan([n, other]).value| == 2
  {
    hide StoI, Eval, Render;
    assert |q.Visit(n).value| == 1 && |q.Visit(other).value| == 1;
    assert [n, other][1..] == [other] && [other][1..] == [];
    assert q.Scan([other]) == Both(q.Visit(other), Ok([]));
  }

  // ----- a count that does not fit -----

  const CONJUNCTS: nat := 0x1_0000

  /** A conjunction of 65536 equations with pid 5, as the parser gets it. */
  function ManyFives(): seq<Expr> {
    seq(CONJUNCTS, i => Rel(EQ_OP, "pid", "5"))
  }

  /**
   * Its node keeps the count 0, so that no child is evaluated and the leaf is
   * not reached: the scan selects every process, and the lookup only 5.
   */
  lemma TruncatedConjunction(lib: Library, projection: seq<Attribute>)
    ensures var tokens := [AND_OP, Digits(CONJUNCTS)] + FlattenAll(ManyFives());
            var node := Log(AND_OP, 0, ManyFives());
            var q := Query(lib, projection, Some(node), map[5 := PLAIN, 6 := PLAIN]);
            && Parser.Parse(tokens) == Parser.Built(node, [])
            && !LeafReached(node) && FindPid(node) == "5"
            && q.Defined() && ListsExactly(q.procs, [5, 6])
            && q.Lookup("5").Ok? && |q.Lookup("5").value| == 1
            && q.Scan([5, 6]).Ok? && |q.Scan([5, 6]).value| == 2
  {
    hide StoI, Render, Parser.Parse, FlattenAll, Digits, Query.Lookup, Query.Scan, Snapshot.Defined;
    var node := Log(AND_OP, 0, ManyFives());
    var q := Query(lib, projection, Some(node), map[5 := PLAIN, 6 := PLAIN]);
    ManyFivesParse();
    PlainRenders(projection, 5, PLAIN.comm);
    PlainRenders(projection, 6, PLAIN.comm);
    FiveIsAnInt();
    assert FindLeaf(ManyFives()[0]).Some?;
    EveryProcessMatches(q, 5, 6);
  }

  lemma FiveIsAnInt()
    ensures StoI("5") == Ok(5)
  {
    assert Digits(5) == "5";
    StoIOfDigits(5);
  }

  lemma ManyFivesParse()
    ensures Parser.Parse([AND_OP, Digits(CONJUNCTS)] + FlattenAll(ManyFives()))
         == Parser.Built(Log(AND_OP, 0, ManyFives()), [])
  {
    hide StoI, Parser.Scan, Parser.Step;
    var es, count := ManyFives(), Digits(CONJUNCTS);
    Parser.ScanFlattenAll(es, Parser.EMPTY);
    assert es + [] == es;
    Parser.ScanConcat([AND_OP, count], FlattenAll(es), Parser.EMPTY);
    Parser.ScanTwo(AND_OP, count, Parser.Stacks(es, []));
    TruncatedCount(es, count);
  }

  lemma TruncatedCount(es: seq<Expr>, count: string)
    requires |es| == CONJUNCTS && count == Digits(CONJUNCTS)
    ensures var s := Parser.Step(Parser.Stacks(es, []), count);
            && s.Running?
            && Parser.Step(s.stacks, AND_OP) == Parser.Running(Parser.Stacks([Log(AND_OP, 0, es)], []))
  {
    hide StoI;
    Parser.NumeralIsNoOperator(CONJUNCTS);
    StoIOfDigits(CONJUNCTS);
    assert es[..CONJUNCTS] == es && es[CONJUNCTS..] == [];
    assert ([count] + [])[1..] == [];
    assert [Log(AND_OP, 0, es)] + [] == [Log(AND_OP, 0, es)];
  }
}
