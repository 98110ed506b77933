/** What a selection means for one process, and what its pid lookup may conclude. */
module Evaluation {
  import opened Text
  import opened Selection
  import opened Snapshots
  import Parser

  /** A C++ double, as far as comparisons can tell. */
  datatype Double = NaN | NegInfinity | Finite(r: real) | PosInfinity {
    predicate Below(other: Double) {
      !NaN? && !other.NaN? && this != other &&
      (NegInfinity? || other.PosInfinity? || (Finite? && other.Finite? && r < other.r))
    }

    predicate Same(other: Double) {
      !NaN? && this == other
    }
  }

  /** The library calls a leaf makes; regex_search takes the subject and the pattern. */
  datatype Library = Library(
    isRegex: string -> bool,
    regexSearch: (string, string) -> bool,
    stod: string -> Outcome<Double>)

  /** The process a selection is evaluated on. */
  datatype Env = Env(lib: Library, pid: nat, files: Snapshot) {
    predicate Defined() {
      files.Defined()
    }
  }

  predicate Compare(a: Double, b: Double, op: string) {
    if op == LT_OP then a.Below(b)
    else if op == LTE_OP then a.Below(b) || a.Same(b)
    else if op == GT_OP then b.Below(a)
    else if op == GTE_OP then b.Below(a) || a.Same(b)
    else false
  }

  function EqualityAttr(operand: string): Option<Attr> {
    var a := AttrNamed(operand);
    if a.Some? && a.value in {Pid, ParentPid, Gid, Uid} then a else None
  }

  /** Any operand other than the command and the path searches the name. */
  function PatternAttr(operand: string): Attr {
    var a := AttrNamed(operand);
    if a.Some? && a.value in {Command, ExecutePath} then a.value else Name
  }

  function OrderAttr(operand: string): Option<Attr> {
    var a := AttrNamed(operand);
    if a.Some? && a.value in {VirtualMemory, PhysicalMemory, CpuTime, CpuUsage,
                              NetworkIn, NetworkOut, ReadKBs, WriteKBs}
    then a else None
  }

  function EvalEquality(env: Env, operand: string, literal: string): Outcome<bool>
    requires env.Defined()
  {
    match EqualityAttr(operand)
    case None => Ok(false)
    case Some(a) =>
      match env.files.Value(env.pid, a)
      case Throws => Throws
      case Ok(v) => Ok(literal == v)
  }

  function EvalPattern(env: Env, operand: string, literal: string): Outcome<bool>
    requires env.Defined()
  {
    if !env.lib.isRegex(literal) then Throws
    else
      match env.files.Value(env.pid, PatternAttr(operand))
      case Throws => Throws
      case Ok(v) => Ok(env.lib.regexSearch(v, literal))
  }

  /** "null" is never in any order relation, and a missing value counts as -1. */
  function CompareText(lib: Library, op: string, text: string, literal: string): Outcome<bool> {
    if text == "null" then Ok(false)
    else
      match if text == "" then Ok(Finite(-1.0)) else lib.stod(text)
      case Throws => Throws
      case Ok(a) =>
        match lib.stod(literal)
        case Throws => Throws
        case Ok(b) => Ok(Compare(a, b, op))
  }

  function EvalOrder(env: Env, op: string, operand: string, literal: string): Outcome<bool>
    requires env.Defined()
  {
    match OrderAttr(operand)
    case None => CompareText(env.lib, op, "", literal)
    case Some(a) =>
      match env.files.Value(env.pid, a)
      case Throws => Throws
      case Ok(v) => CompareText(env.lib, op, v, literal)
  }

  function EvalLeaf(env: Env, op: string, operand: string, literal: string): Outcome<bool>
    requires env.Defined()
  {
    if op == EQ_OP then EvalEquality(env, operand, literal)
    else if op == LIKE_OP then EvalPattern(env, operand, literal)
    else if IsOrder(op) then EvalOrder(env, op, operand, literal)
    else Ok(false)
  }

  /** The three-valued meaning: true, false, or an exception, from left to right. */
  function Eval(env: Env, e: Expr): Outcome<bool>
    requires env.Defined()
    decreases e, 1
  {
    match e
    case Rel(op, operand, literal) => EvalLeaf(env, op, operand, literal)
    case Log(op, declared, subs) =>
      if op == AND_OP then EvalUntil(env, subs, declared, false)
      else if op == OR_OP then EvalUntil(env, subs, declared, true)
      else Ok(false)
  }

  /**
   * Evaluates the first n children until one yields `stop`;
   * asking for a child that is not there throws.
   */
  function EvalUntil(env: Env, es: seq<Expr>, n: nat, stop: bool): Outcome<bool>
    requires env.Defined()
    decreases es, 0
  {
    if n == 0 then Ok(!stop)
    else if es == [] then Throws
    else
      match Eval(env, es[0])
      case Throws => Throws
      case Ok(b) => if b == stop then Ok(stop) else EvalUntil(env, es[1..], n - 1, stop)
  }

  // ----- the two-valued meaning -----

  predicate NoFault(env: Env, e: Expr)
    requires env.Defined()
  {
    match e
    case Rel(op, operand, literal) => EvalLeaf(env, op, operand, literal).Ok?
    case Log(_, _, subs) => forall i :: 0 <= i < |subs| ==> NoFault(env, subs[i])
  }

  /** Conjunction and disjunction over the children. */
  predicate Holds(env: Env, e: Expr)
    requires env.Defined()
  {
    match e
    case Rel(op, operand, literal) =>
      var r := EvalLeaf(env, op, operand, literal);
      r.Ok? && r.value
    case Log(op, _, subs) =>
      || (op == AND_OP && forall i :: 0 <= i < |subs| ==> Holds(env, subs[i]))
      || (op == OR_OP && exists i :: 0 <= i < |subs| && Holds(env, subs[i]))
  }

  /** Without exceptions, short-circuit evaluation is "for all" for && and "exists" for ||. */
  lemma {:induction false} EvalIsHolds(env: Env, e: Expr)
    requires env.Defined() && CountsAgree(e) && NoFault(env, e)
    ensures Eval(env, e) == Ok(Holds(env, e))
    decreases e, 1
  {
    match e {
      case Rel(op, operand, literal) =>
        assert Eval(env, e) == EvalLeaf(env, op, operand, literal);
      case Log(op, _, subs) =>
        if op == AND_OP {
          EvalUntilIsQuantifier(env, subs, false);
        } else if op == OR_OP {
          EvalUntilIsQuantifier(env, subs, true);
        }
    }
  }

  lemma {:induction false} EvalUntilIsQuantifier(env: Env, es: seq<Expr>, stop: bool)
    requires env.Defined()
    requires forall i :: 0 <= i < |es| ==> CountsAgree(es[i]) && NoFault(env, es[i])
    ensures EvalUntil(env, es, |es|, stop)
         == Ok((exists i :: 0 <= i < |es| && Holds(env, es[i]) == stop) == stop)
    decreases es, 0
  {
    hide EvalLeaf;
    if es == [] {
    } else {
      EvalIsHolds(env, es[0]);
      EvalUntilIsQuantifier(env, es[1..], stop);
      assert forall i :: 0 < i < |es| ==> es[i] == es[1..][i - 1];
    }
  }

  /** The evaluation does not throw and gives b. */
  predicate Yields(r: Outcome<bool>, b: bool) {
    r.Ok? && r.value == b
  }

  lemma {:induction false} AllOrSome(env: Env, es: seq<Expr>, stop: bool)
    requires env.Defined() && forall i :: 0 <= i < |es| ==> Eval(env, es[i]).Ok?
    ensures Yields(EvalUntil(env, es, |es|, stop),
                   if exists i :: 0 <= i < |es| && Yields(Eval(env, es[i]), stop) then stop else !stop)
  {
    hide Eval;
    if es == [] {
    } else {
      assert forall i :: 0 <= i < |es| - 1 ==> es[1..][i] == es[i + 1];
      AllOrSome(env, es[1..], stop);
      assert forall i :: 0 < i < |es| ==> es[i] == es[1..][i - 1];
    }
  }

  /** Over children that do not throw, "&&" is true when all of them are, and "||" when one of them is. */
  lemma ConnectivesMean(env: Env, es: seq<Expr>)
    requires env.Defined() && forall i :: 0 <= i < |es| ==> Eval(env, es[i]).Ok?
    ensures Yields(Eval(env, Log("&&", |es|, es)), forall i :: 0 <= i < |es| ==> Yields(Eval(env, es[i]), true))
    ensures Yields(Eval(env, Log("||", |es|, es)), exists i :: 0 <= i < |es| && Yields(Eval(env, es[i]), true))
  {
    hide EvalLeaf;
    AllOrSome(env, es, true);
    AllOrSome(env, es, false);
    assert forall i :: 0 <= i < |es| ==> (Yields(Eval(env, es[i]), true) <==> !Yields(Eval(env, es[i]), false));
  }

  /** The four orders on numbers: nothing is in any order with a NaN, and the infinities are at the ends. */
  lemma OrdersOnNumbers(x: Double, y: Double)
    ensures x.NaN? || y.NaN? ==>
              !Compare(x, y, "<") && !Compare(x, y, "<=") && !Compare(x, y, ">") && !Compare(x, y, ">=")
    ensures x.Finite? && y.Finite? ==>
              && (Compare(x, y, "<") <==> x.r < y.r) && (Compare(x, y, "<=") <==> x.r <= y.r)
              && (Compare(x, y, ">") <==> x.r > y.r) && (Compare(x, y, ">=") <==> x.r >= y.r)
    ensures (x.NegInfinity? && !y.NegInfinity? && !y.NaN?) || (y.PosInfinity? && !x.PosInfinity? && !x.NaN?) ==>
              Compare(x, y, "<") && Compare(x, y, "<=") && !Compare(x, y, ">") && !Compare(x, y, ">=")
    ensures (x.PosInfinity? && !y.PosInfinity? && !y.NaN?) || (y.NegInfinity? && !x.NegInfinity? && !x.NaN?) ==>
              !Compare(x, y, "<") && !Compare(x, y, "<=") && Compare(x, y, ">") && Compare(x, y, ">=")
    ensures (x.NegInfinity? && y.NegInfinity?) || (x.PosInfinity? && y.PosInfinity?) ==>
              !Compare(x, y, "<") && Compare(x, y, "<=") && !Compare(x, y, ">") && Compare(x, y, ">=")
  {
  }

  /** The child neither throws nor yields the answer that ends the loop. */
  predicate Undecided(env: Env, e: Expr, stop: bool)
    requires env.Defined()
  {
    var r := Eval(env, e);
    r.Ok? && r.value != stop
  }

  /**
   * With exceptions, a connective gives what the first of its declared
   * children gives that throws or decides; if none does, the neutral answer,
   * or an exception when a declared child is missing.
   */
  lemma {:induction false} FirstChildDecides(env: Env, es: seq<Expr>, n: nat, stop: bool, k: nat)
    requires env.Defined() && k <= n && k <= |es|
    requires forall i :: 0 <= i < k ==> Undecided(env, es[i], stop)
    requires k < n && k < |es| ==> !Undecided(env, es[k], stop)
    ensures EvalUntil(env, es, n, stop) ==
            if k == n then Ok(!stop) else if k == |es| then Throws else Eval(env, es[k])
    decreases k
  {
    hide Eval;
    if k == 0 {
      FirstStep(env, es, n, stop);
    } else {
      FirstStep(env, es, n, stop);
      assert forall i :: 0 <= i < k - 1 ==> es[1..][i] == es[i + 1];
      assert Undecided(env, es[0], stop);
      FirstChildDecides(env, es[1..], n - 1, stop, k - 1);
    }
  }

  lemma FirstStep(env: Env, es: seq<Expr>, n: nat, stop: bool)
    requires env.Defined()
    ensures EvalUntil(env, es, n, stop) ==
            if n == 0 then Ok(!stop)
            else if es == [] then Throws
            else if !Undecided(env, es[0], stop) then Eval(env, es[0])
            else EvalUntil(env, es[1..], n - 1, stop)
  {
  }

  /** A node that declares more children than it has throws unless an earlier child decides. */
  lemma {:induction false} MissingChildren(env: Env, es: seq<Expr>, n: nat, stop: bool)
    requires env.Defined() && n > |es|
    ensures EvalUntil(env, es, n, stop) == if EvalUntil(env, es, |es|, stop) == Ok(stop) then Ok(stop) else Throws
  {
    hide EvalLeaf;
    if es == [] {
    } else {
      MissingChildren(env, es[1..], n - 1, stop);
    }
  }

  // ----- the pid lookup -----

  /** The leaf whose literal findPid returns, below && nodes only. */
  function FindLeaf(e: Expr): (r: Option<Expr>)
    ensures r.Some? ==> r.value.Rel? && r.value.operand == "pid" && r.value.literal != ""
    decreases e, 1
  {
    match e
    case Rel(_, operand, literal) => if operand == "pid" && literal != "" then Some(e) else None
    case Log(op, _, subs) => if op == OR_OP then None else FirstLeaf(subs)
  }

  function FirstLeaf(es: seq<Expr>): (r: Option<Expr>)
    ensures r.Some? ==> r.value.Rel? && r.value.operand == "pid" && r.value.literal != ""
    decreases es, 0
  {
    if es == [] then None
    else
      var leaf := FindLeaf(es[0]);
      if leaf.Some? then leaf else FirstLeaf(es[1..])
  }

  /** findPid: empty when there is nothing to look up. */
  function FindPid(e: Expr): string {
    var leaf := FindLeaf(e);
    if leaf.Some? then leaf.value.literal else ""
  }

  /** Every node on the way to the leaf that FindLeaf finds declares enough children to evaluate the next. */
  predicate LeafReached(e: Expr)
    decreases e, 1
  {
    match e
    case Rel(_, _, _) => true
    case Log(_, declared, subs) => FirstReached(subs, declared)
  }

  predicate FirstReached(es: seq<Expr>, n: nat)
    decreases es, 0
  {
    && es != [] && n > 0
    && if FindLeaf(es[0]).Some? then LeafReached(es[0]) else FirstReached(es[1..], n - 1)
  }

  lemma {:induction false} AgreeingCountsReach(e: Expr)
    requires CountsAgree(e) && FindLeaf(e).Some?
    ensures LeafReached(e)
    decreases e, 1
  {
    if e.Rel? {
    } else {
      FirstIsReached(e.subs);
    }
  }

  lemma {:induction false} FirstIsReached(es: seq<Expr>)
    requires (forall i :: 0 <= i < |es| ==> CountsAgree(es[i])) && FirstLeaf(es).Some?
    ensures FirstReached(es, |es|)
    decreases es, 0
  {
    if FindLeaf(es[0]).Some? {
      AgreeingCountsReach(es[0]);
    } else {
      FirstIsReached(es[1..]);
    }
  }

  /** What findPid relies on, whatever the operator: a tree is true only if the leaf it finds is. */
  lemma {:induction false} SelectedImpliesLeaf(env: Env, e: Expr)
    requires env.Defined() && FindLeaf(e).Some? && LeafReached(e)
    requires Eval(env, e) == Ok(true)
    ensures var leaf := FindLeaf(e).value;
            EvalLeaf(env, leaf.op, leaf.operand, leaf.literal) == Ok(true)
    decreases e, 1
  {
    hide EvalLeaf;
    if e.Rel? {
    } else {
      FirstImpliesLeaf(env, e.subs, e.declared);
    }
  }

  lemma {:induction false} FirstImpliesLeaf(env: Env, es: seq<Expr>, n: nat)
    requires env.Defined() && FirstLeaf(es).Some? && FirstReached(es, n)
    requires EvalUntil(env, es, n, false) == Ok(true)
    ensures var leaf := FirstLeaf(es).value;
            EvalLeaf(env, leaf.op, leaf.operand, leaf.literal) == Ok(true)
    decreases es, 0
  {
    hide EvalLeaf;
    if FindLeaf(es[0]).Some? {
      SelectedImpliesLeaf(env, es[0]);
    } else {
      FirstImpliesLeaf(env, es[1..], n - 1);
    }
  }

  /** The lookup is justified: when the leaf it finds is an equation, only that pid can satisfy the tree. */
  lemma SelectedImpliesPid(env: Env, e: Expr)
    requires env.Defined() && FindLeaf(e).Some? && LeafReached(e)
    requires FindLeaf(e).value.op == EQ_OP
    requires Eval(env, e) == Ok(true)
    ensures FindPid(e) == Digits(env.pid)
  {
    hide Eval;
    SelectedImpliesLeaf(env, e);
  }

  // ----- counts that do not fit -----

  /** A count that survives the conversion to 16 bits as the number of children taken. */
  predicate Fits(n: int) {
    0 <= n < 0x1_0000 || (n < 0 && n % 0x1_0000 == 0)
  }

  /** The count that each connective reads fits; all other numerals of the text are free. */
  predicate CountsFit(ts: seq<string>, ops: seq<string>) {
    ts == [] ||
    (CountsFit(ts[1..], ops) &&
     (IsLogical(ts[0]) ==>
        var waiting := Parser.Waiting(ts[1..], ops);
        waiting != [] && StoI(waiting[0]).Ok? && Fits(StoI(waiting[0]).value)))
  }

  predicate AllAgree(es: seq<Expr>) {
    forall i :: 0 <= i < |es| ==> CountsAgree(es[i])
  }

  /** The trees of a text have agreeing counts exactly when the counts that the text's connectives read fit. */
  lemma {:induction false} ScanCountsAgree(ts: seq<string>, s: Parser.Stacks)
    requires Parser.Scan(ts, s).Running? && AllAgree(s.exprs)
    ensures AllAgree(Parser.Scan(ts, s).stacks.exprs) <==> CountsFit(ts, s.operands)
  {
    hide StoI, AllAgree, Parser.Step;
    if ts == [] {
    } else {
      var t := Parser.Scan(ts[1..], s).stacks;
      ScanCountsAgree(ts[1..], s);
      Parser.StackConservation(ts[1..], s);
      StepCountsAgree(t, ts[0]);
    }
  }

  lemma StepCountsAgree(s: Parser.Stacks, token: string)
    requires Parser.Step(s, token).Running?
    ensures AllAgree(Parser.Step(s, token).stacks.exprs) <==>
            && AllAgree(s.exprs)
            && (IsLogical(token) ==>
                  s.operands != [] && StoI(s.operands[0]).Ok? && Fits(StoI(s.operands[0]).value))
  {
    hide StoI;
    if IsLogical(token) {
      hide CountsAgree;
      ParsedCount(s, token, StoI(s.operands[0]).value);
    } else if IsRelational(token) {
      var es := Parser.Step(s, token).stacks.exprs;
      assert es[1..] == s.exprs;
      AgreeSplit(es, 1);
    }
  }

  lemma AgreeSplit(es: seq<Expr>, k: nat)
    requires k <= |es|
    ensures AllAgree(es) <==> AllAgree(es[..k]) && AllAgree(es[k..])
  {
    hide CountsAgree;
    if AllAgree(es[..k]) && AllAgree(es[k..]) {
      forall i | 0 <= i < |es|
        ensures CountsAgree(es[i])
      {
        assert if i < k then es[i] == es[..k][i] else es[i] == es[k..][i - k];
      }
    }
  }

  /** The parser's node agrees with its children unless the 16-bit count differs from the number taken. */
  lemma ParsedCount(s: Parser.Stacks, op: string, n: int)
    requires s.operands != [] && n <= |s.exprs|
    ensures var es := Parser.PushLogical(s, op, Ok(n)).stacks.exprs;
            && (AllAgree(es) <==> AllAgree(s.exprs) && Fits(n))
            && (AllAgree(s.exprs) ==> (CountsAgree(es[0]) <==> Fits(n)))
  {
    var arity := if n > 0 then n else 0;
    var node := Log(op, n % 0x1_0000, s.exprs[..arity]);
    var es := [node] + s.exprs[arity..];
    assert Parser.PushLogical(s, op, Ok(n)).stacks.exprs == es;
    assert es[..1] == [node] && es[1..] == s.exprs[arity..];
    AgreeSplit(es, 1);
    AgreeSplit(s.exprs, arity);
    assert CountsAgree(node) <==> n % 0x1_0000 == arity && AllAgree(node.subs);
    assert AllAgree([node]) <==> CountsAgree([node][0]);
  }

  /** A text made of blocks, such as a printed tree, has counts that fit. */
  lemma {:induction false} BlocksFit(ts: seq<string>)
    requires Parser.Blocks(ts)
    ensures Parser.Waiting(ts, []) == [] && CountsFit(ts, [])
    decreases |ts|
  {
    hide StoI;
    if ts == [] {
    } else if IsRelational(ts[0]) {
      BlocksFit(ts[3..]);
      assert ts[1..][1..] == ts[2..] && ts[2..][1..] == ts[3..];
      assert Parser.Waiting(ts[2..], []) == [ts[2]];
      assert CountsFit(ts[2..], []);
    } else {
      BlocksFit(ts[2..]);
      assert ts[1..][1..] == ts[2..];
      DigitsOfValue(ts[1]);
      StoIOfDigits(Value(ts[1]));
      Parser.CanonicalIsNoOperator(ts[1]);
      assert Parser.Waiting(ts[1..], []) == [ts[1]];
    }
  }

  /** When the counts of a text fit, the leaf that findPid finds in its selection is reached. */
  lemma ParsedLeafIsReached(ts: seq<string>)
    requires Parser.Parse(ts).Built? && CountsFit(ts, [])
    requires FindLeaf(Parser.Parse(ts).selection).Some?
    ensures LeafReached(Parser.Parse(ts).selection)
  {
    hide Parser.Scan, CountsFit;
    ScanCountsAgree(ts, Parser.EMPTY);
    assert CountsAgree(Parser.Scan(ts, Parser.EMPTY).stacks.exprs[0]);
    AgreeingCountsReach(Parser.Parse(ts).selection);
  }
}
