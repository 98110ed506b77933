/**
 * The right-to-left two-stack scan of the Filter constructor as a machine over
 * values, and what it does to the token stream of a tree.
 * Stacks are sequences with the top first.
 */
module Parser {
  import opened Text
  import opened Selection
  import opened Tokenizer

  datatype Stacks = Stacks(exprs: seq<Expr>, operands: seq<string>)

  /**
   * Where a scan stands: still running, left by the exception of a bad count
   * (with the trees built so far on the stack), or reading the top of an
   * empty stack, which is undefined in C++.
   */
  datatype Scanned = Running(stacks: Stacks) | Thrown(abandoned: seq<Expr>) | Underflow

  function Step(s: Stacks, token: string): Scanned {
    if IsLogical(token) then
      if s.operands == [] then Underflow else PushLogical(s, token, StoI(s.operands[0]))
    else if IsRelational(token) then
      PushRelational(s, token)
    else
      Running(PushOperand(s, token))
  }

  /** The children come off the stack in order; the node keeps the count as a 16-bit number. */
  function PushLogical(s: Stacks, op: string, count: Outcome<int>): Scanned
    requires s.operands != []
  {
    match count
    case Throws => Thrown(s.exprs)
    case Ok(n) =>
      var arity := if n > 0 then n else 0;
      if arity > |s.exprs| then Underflow
      else Running(Stacks([Log(op, n % 0x1_0000, s.exprs[..arity])] + s.exprs[arity..], s.operands[1..]))
  }

  function PushRelational(s: Stacks, op: string): Scanned {
    if |s.operands| < 2 then Underflow
    else Running(Stacks([Rel(op, s.operands[0], s.operands[1])] + s.exprs, s.operands[2..]))
  }

  function PushOperand(s: Stacks, token: string): Stacks {
    Stacks(s.exprs, [token] + s.operands)
  }

  /** Scans the tokens from the last to the first. */
  function Scan(tokens: seq<string>, s: Stacks): Scanned {
    if tokens == [] then Running(s)
    else
      match Scan(tokens[1..], s)
      case Running(t) => Step(t, tokens[0])
      case other => other
  }

  const EMPTY := Stacks([], [])

  datatype Parsed = Built(selection: Expr, leftover: seq<Expr>) | Aborted(abandoned: seq<Expr>) | Undefined

  function Finish(s: Scanned): Parsed {
    match s
    case Running(t) => if t.exprs == [] then Undefined else Built(t.exprs[0], t.exprs[1..])
    case Thrown(es) => Aborted(es)
    case Underflow => Undefined
  }

  function Parse(tokens: seq<string>): Parsed {
    Finish(Scan(tokens, EMPTY))
  }

  /** From the selection text of a configuration to its tree. */
  function ParseText(text: string): Parsed {
    Parse(Tokens(text))
  }

  // ----- scanning inverts flattening -----

  /** Scans more tokens from where an earlier scan stands. */
  function Continue(a: seq<string>, s: Scanned): Scanned {
    if s.Running? then Scan(a, s.stacks) else s
  }

  lemma {:induction false} ScanConcat(a: seq<string>, b: seq<string>, s: Stacks)
    ensures Scan(a + b, s) == Continue(a, Scan(b, s))
  {
    if a == [] {
      assert a + b == b;
    } else {
      assert (a + b)[1..] == a[1..] + b;
      ScanConcat(a[1..], b, s);
    }
  }

  lemma NumeralIsNoOperator(n: nat)
    ensures !IsOperator(Digits(n))
  {
    assert IsDigit(Digits(n)[0]);
  }

  /** From any stacks, the lexicals of a tree leave that tree on top and everything else as it was. */
  lemma {:induction false} ScanFlatten(e: Expr, s: Stacks)
    requires Writable(e)
    ensures Scan(Flatten(e), s) == Running(Stacks([e] + s.exprs, s.operands))
    decreases e, 1
  {
    match e {
      case Rel(op, operand, literal) =>
        ScanLeaf(op, operand, literal, s);
      case Log(op, declared, subs) =>
        var count := Digits(declared);
        ScanFlattenAll(subs, s);
        ScanConcat([op, count], FlattenAll(subs), s);
        ScanCount(op, subs, s);
    }
  }

  lemma ScanOne(token: string, s: Stacks)
    requires !IsOperator(token)
    ensures Scan([token], s) == Running(PushOperand(s, token))
  {
    assert [token][1..] == [];
  }

  lemma ScanTwo(a: string, b: string, s: Stacks)
    ensures Scan([a, b], s) == if Step(s, b).Running? then Step(Step(s, b).stacks, a) else Step(s, b)
  {
    assert [a, b][1..] == [b] && [b][1..] == [];
    assert Scan([b], s) == Step(s, b);
  }

  lemma ScanLeaf(op: string, operand: string, literal: string, s: Stacks)
    requires IsRelational(op) && !IsOperator(operand) && !IsOperator(literal)
    ensures Scan([op, operand, literal], s) == Running(Stacks([Rel(op, operand, literal)] + s.exprs, s.operands))
  {
    hide Step;
    assert [op, operand, literal][1..] == [operand, literal];
    StepOperand(literal, s);
    StepOperand(operand, PushOperand(s, literal));
    ScanTwo(operand, literal, s);
    StepRelational(op, operand, literal, s);
  }

  lemma StepOperand(token: string, s: Stacks)
    requires !IsOperator(token)
    ensures Step(s, token) == Running(PushOperand(s, token))
  {
  }

  lemma StepRelational(op: string, operand: string, literal: string, s: Stacks)
    requires IsRelational(op)
    ensures Step(PushOperand(PushOperand(s, literal), operand), op)
         == Running(Stacks([Rel(op, operand, literal)] + s.exprs, s.operands))
  {
    hide StoI;
    assert ([operand] + ([literal] + s.operands))[2..] == s.operands;
  }

  lemma ScanLeafTail(op: string, operand: string, literal: string, es: seq<Expr>)
    requires IsRelational(op) && !IsOperator(operand)
    ensures Scan([op, operand], Stacks(es, [literal])) == Running(Stacks([Rel(op, operand, literal)] + es, []))
  {
    ScanTwo(op, operand, Stacks(es, [literal]));
    assert ([operand] + [literal])[2..] == [];
  }

  lemma ScanCount(op: string, subs: seq<Expr>, s: Stacks)
    requires IsLogical(op) && |subs| < 0x1_0000
    ensures Scan([op, Digits(|subs|)], Stacks(subs + s.exprs, s.operands))
         == Running(Stacks([Log(op, |subs|, subs)] + s.exprs, s.operands))
  {
    hide StoI;
    var count := Digits(|subs|);
    var t := Stacks(subs + s.exprs, s.operands);
    NumeralIsNoOperator(|subs|);
    StoIOfDigits(|subs|);
    ScanTwo(op, count, t);
    PushChildren(op, count, subs, s);
  }

  lemma PushChildren(op: string, count: string, subs: seq<Expr>, s: Stacks)
    requires |subs| < 0x1_0000
    ensures PushLogical(Stacks(subs + s.exprs, [count] + s.operands), op, Ok(|subs|))
         == Running(Stacks([Log(op, |subs|, subs)] + s.exprs, s.operands))
  {
    assert (subs + s.exprs)[..|subs|] == subs && (subs + s.exprs)[|subs|..] == s.exprs;
    assert ([count] + s.operands)[1..] == s.operands;
  }

  lemma {:induction false} ScanFlattenAll(es: seq<Expr>, s: Stacks)
    requires forall i :: 0 <= i < |es| ==> Writable(es[i])
    ensures Scan(FlattenAll(es), s) == Running(Stacks(es + s.exprs, s.operands))
    decreases es, 0
  {
    hide Step, StoI, Writable, Flatten;
    if es == [] {
      assert es + s.exprs == s.exprs;
    } else {
      var t := Stacks(es[1..] + s.exprs, s.operands);
      ScanFlattenAll(es[1..], s);
      ScanFlatten(es[0], t);
      ScanSequence(Flatten(es[0]), FlattenAll(es[1..]), s, t, Stacks([es[0]] + t.exprs, t.operands));
      assert [es[0]] + t.exprs == es + s.exprs;
    }
  }

  lemma ScanSequence(a: seq<string>, b: seq<string>, s: Stacks, t: Stacks, u: Stacks)
    requires Scan(b, s) == Running(t) && Scan(a, t) == Running(u)
    ensures Scan(a + b, s) == Running(u)
  {
    ScanConcat(a, b, s);
  }

  /**
   * A tree is recovered from its lexicals whatever follows them, as long as
   * the rest scans at all; what the rest built stays behind on the stack.
   */
  lemma ParseInvertsFlatten(e: Expr, rest: seq<string>)
    requires Writable(e)
    ensures var s := Scan(rest, EMPTY);
            Parse(Flatten(e) + rest) == if s.Running? then Built(e, s.stacks.exprs) else Finish(s)
    ensures Parse(Flatten(e)) == Built(e, [])
  {
    hide Step, StoI, Writable, Flatten;
    ScanConcat(Flatten(e), rest, EMPTY);
    var s := Scan(rest, EMPTY);
    if s.Running? {
      ScanFlatten(e, s.stacks);
      assert ([e] + s.stacks.exprs)[1..] == s.stacks.exprs;
    }
    ScanFlatten(e, EMPTY);
    assert [e] + [] == [e];
  }

  /** No tree's lexicals are a proper prefix of another's: one pass can tell where a tree ends. */
  lemma FlattenIsPrefixFree(a: Expr, b: Expr)
    requires Writable(a) && Writable(b)
    requires Flatten(a) <= Flatten(b)
    ensures a == b
  {
    hide Scan, Step, StoI, Writable;
    var rest := Flatten(b)[|Flatten(a)|..];
    assert Flatten(b) == Flatten(a) + rest;
    ParseInvertsFlatten(a, rest);
    ParseInvertsFlatten(b, []);
  }

  /** Written as text, with quotes and white space where needed, and read by tokeniser and parser, a tree comes back. */
  lemma ParseTextRecoversTree(e: Expr, lead: string, text: seq<Spelling>)
    requires Writable(e) && Blanks(lead) && Separated(text)
    requires TokensOf(text) == Flatten(e)
    ensures ParseText(lead + SpellAll(text)) == Built(e, [])
  {
    TokensOfSpelledText(lead, text);
    ParseInvertsFlatten(e, []);
  }

  // ----- the language by its words -----

  /** A relation as it is written. */
  datatype Leaf = Leaf(op: string, operand: string, literal: string) {
    predicate Written() {
      && op in {"==", "<", "<=", ">", ">=", "%="}
      && IsWord(operand) && IsWord(literal)
    }
  }

  /** A word without need for quotes that is none of the eight operators. */
  predicate IsWord(t: string) {
    Plain(t) && t !in {"&&", "||", "==", "<", "<=", ">", ">=", "%="}
  }

  function LeafWords(leaves: seq<Leaf>): seq<string> {
    if leaves == [] then []
    else [leaves[0].op, leaves[0].operand, leaves[0].literal] + LeafWords(leaves[1..])
  }

  function LeafTrees(leaves: seq<Leaf>): (es: seq<Expr>)
    ensures |es| == |leaves|
    ensures forall i :: 0 <= i < |leaves| ==> es[i] == Rel(leaves[i].op, leaves[i].operand, leaves[i].literal)
  {
    seq(|leaves|, i requires 0 <= i < |leaves| => Rel(leaves[i].op, leaves[i].operand, leaves[i].literal))
  }

  lemma WrittenIsWritable(leaf: Leaf)
    requires leaf.Written()
    ensures Writable(Rel(leaf.op, leaf.operand, leaf.literal)) && Plain(leaf.op)
  {
  }

  lemma {:induction false} LeafWordsArePlain(leaves: seq<Leaf>)
    requires forall i :: 0 <= i < |leaves| ==> leaves[i].Written()
    ensures forall i :: 0 <= i < |LeafWords(leaves)| ==> Plain(LeafWords(leaves)[i])
    ensures FlattenAll(LeafTrees(leaves)) == LeafWords(leaves)
    ensures forall i :: 0 <= i < |leaves| ==> Writable(LeafTrees(leaves)[i])
  {
    hide Plain, Writable;
    if leaves == [] {
    } else {
      var first := leaves[0];
      assert first.Written();
      WrittenIsWritable(first);
      assert forall i :: 0 <= i < |leaves| - 1 ==> leaves[1..][i] == leaves[i + 1];
      LeafWordsArePlain(leaves[1..]);
      assert LeafTrees(leaves)[1..] == LeafTrees(leaves[1..]);
      assert forall i :: 0 < i < |leaves| ==> LeafTrees(leaves)[i] == LeafTrees(leaves[1..])[i - 1];
    }
  }

  /** Each of the six relations, between two words, is a selection. */
  lemma RelationIsParsed(leaf: Leaf)
    requires leaf.Written()
    ensures ParseText(Joined([leaf.op, leaf.operand, leaf.literal]))
         == Built(Rel(leaf.op, leaf.operand, leaf.literal), [])
  {
    hide Plain, Writable, Parse, Tokens, Joined;
    WrittenIsWritable(leaf);
    TokensOfJoinedText([leaf.op, leaf.operand, leaf.literal]);
    ParseInvertsFlatten(Rel(leaf.op, leaf.operand, leaf.literal), []);
  }

  /** Each of the two connectives over any list of relations, with their number, is one as well. */
  lemma {:induction false} ConnectiveIsParsed(op: string, leaves: seq<Leaf>)
    requires op in {"&&", "||"} && |leaves| < 65536
    requires forall i :: 0 <= i < |leaves| ==> leaves[i].Written()
    ensures ParseText(Joined([op, Digits(|leaves|)] + LeafWords(leaves)))
         == Built(Log(op, |leaves|, LeafTrees(leaves)), [])
  {
    hide Parse, Tokens, Joined, LeafWords, Leaf.Written, Digits, Plain;
    var ts := [op, Digits(|leaves|)] + LeafWords(leaves);
    LeafWordsArePlain(leaves);
    ConnectiveIsPlain(op, |leaves|);
    TokensOfJoinedText(ts);
    ConnectiveIsInverted(op, leaves);
  }

  lemma {:induction false} ConnectiveIsInverted(op: string, leaves: seq<Leaf>)
    requires op in {"&&", "||"} && |leaves| < 65536
    requires forall i :: 0 <= i < |leaves| ==> Writable(LeafTrees(leaves)[i])
    requires FlattenAll(LeafTrees(leaves)) == LeafWords(leaves)
    ensures Parse([op, Digits(|leaves|)] + LeafWords(leaves)) == Built(Log(op, |leaves|, LeafTrees(leaves)), [])
  {
    hide Parse, LeafWords, Digits;
    ParseInvertsFlatten(Log(op, |leaves|, LeafTrees(leaves)), []);
  }

  lemma ConnectiveIsPlain(op: string, n: nat)
    requires op in {"&&", "||"}
    ensures Plain(op) && Plain(Digits(n))
  {
    hide Digits;
    assert forall i :: 0 <= i < |Digits(n)| ==> IsDigit(Digits(n)[i]);
  }

  /** Anything but the eight operators waits on the stack as an operand. */
  lemma OtherWordsAreOperands(t: string, s: Stacks)
    requires t !in {"&&", "||", "==", "<", "<=", ">", ">=", "%="}
    ensures Step(s, t) == Running(Stacks(s.exprs, [t] + s.operands))
  {
  }

  /** A connective whose count is no int aborts; a negative count makes a node without children. */
  lemma CountsAreChecked(op: string, count: string)
    requires op in {"&&", "||"} && IsWord(count)
    ensures StoI(count).Throws? ==> ParseText(Joined([op, count])) == Aborted([])
    ensures StoI(count).Ok? && StoI(count).value <= 0 ==>
              ParseText(Joined([op, count])) == Built(Log(op, StoI(count).value % 65536, []), [])
    ensures StoI(count).Ok? && StoI(count).value > 0 ==> ParseText(Joined([op, count])) == Undefined
  {
    hide StoI, Tokens, Joined, Plain;
    ConnectiveIsPlain(op, 0);
    TokensOfJoinedText([op, count]);
    ScanTwo(op, count, EMPTY);
    assert [count] + [] == [count] && [count][1..] == [];
    assert [Log(op, 0, [])][1..] == [];
  }

  // ----- when an accepted text is the prefix form of what it builds -----

  /** Every operator is followed by operands of its own: two after a relation, a printed count after a connective. */
  predicate Blocks(ts: seq<string>) {
    || ts == []
    || (IsRelational(ts[0]) && |ts| >= 3 && !IsOperator(ts[1]) && !IsOperator(ts[2]) && Blocks(ts[3..]))
    || (IsLogical(ts[0]) && |ts| >= 2 && Canonical(ts[1]) && Value(ts[1]) < 0x1_0000 && Blocks(ts[2..]))
  }

  /** The trees a scan can build; the count of a node need not be the number of its children. */
  predicate Scannable(e: Expr) {
    match e
    case Rel(op, operand, literal) =>
      IsRelational(op) && !IsOperator(operand) && !IsOperator(literal)
    case Log(op, declared, subs) =>
      IsLogical(op) && declared < 0x1_0000 && forall i :: 0 <= i < |subs| ==> Scannable(subs[i])
  }

  predicate ScannableStacks(s: Stacks) {
    && (forall i :: 0 <= i < |s.exprs| ==> Scannable(s.exprs[i]))
    && (forall i :: 0 <= i < |s.operands| ==> !IsOperator(s.operands[i]))
  }

  lemma StepBuildsScannable(s: Stacks, token: string)
    requires ScannableStacks(s) && Step(s, token).Running?
    ensures ScannableStacks(Step(s, token).stacks)
  {
    hide StoI;
  }

  lemma {:induction false} ScanBuildsScannable(ts: seq<string>, s: Stacks)
    requires ScannableStacks(s) && Scan(ts, s).Running?
    ensures ScannableStacks(Scan(ts, s).stacks)
  {
    hide Step, ScannableStacks;
    if ts == [] {
    } else {
      ScanBuildsScannable(ts[1..], s);
      StepBuildsScannable(Scan(ts[1..], s).stacks, ts[0]);
    }
  }

  lemma {:induction false} BlocksConcat(a: seq<string>, b: seq<string>)
    requires Blocks(a) && Blocks(b)
    ensures Blocks(a + b)
  {
    if a == [] {
      assert a + b == b;
    } else {
      var k := if IsRelational(a[0]) then 3 else 2;
      assert (a + b)[k..] == a[k..] + b;
      BlocksConcat(a[k..], b);
    }
  }

  lemma {:induction false} FlattenIsBlocks(e: Expr)
    requires Scannable(e)
    ensures Blocks(Flatten(e))
    decreases e, 1
  {
    match e {
      case Rel(op, operand, literal) =>
        assert [op, operand, literal][3..] == [];
      case Log(op, declared, subs) =>
        var count := Digits(declared);
        ValueOfDigits(declared);
        FlattenAllIsBlocks(subs);
        assert ([op, count] + FlattenAll(subs))[2..] == FlattenAll(subs);
    }
  }

  lemma {:induction false} FlattenAllIsBlocks(es: seq<Expr>)
    requires forall i :: 0 <= i < |es| ==> Scannable(es[i])
    ensures Blocks(FlattenAll(es))
    decreases es, 0
  {
    hide Scannable;
    if es == [] {
    } else {
      FlattenIsBlocks(es[0]);
      FlattenAllIsBlocks(es[1..]);
      BlocksConcat(Flatten(es[0]), FlattenAll(es[1..]));
    }
  }

  lemma WrapScans(op: string, count: string, es: seq<Expr>)
    requires Canonical(count) && Value(count) < 0x1_0000 && !IsOperator(count)
    requires IsLogical(op) && Scan([op, count], Stacks(es, [])).Running?
    ensures Value(count) <= |es|
    ensures Scan([op, count], Stacks(es, [])).stacks
         == Stacks([Log(op, Value(count), es[..Value(count)])] + es[Value(count)..], [])
  {
    hide StoI;
    DigitsOfValue(count);
    StoIOfDigits(Value(count));
    ScanTwo(op, count, Stacks(es, []));
    assert [count] + [] == [count];
  }

  /** A block of a connective wraps trees that are already on the stack; their lexicals stay in place. */
  lemma WrapFlattens(op: string, count: string, es: seq<Expr>)
    requires Canonical(count) && Value(count) < 0x1_0000 && !IsOperator(count)
    requires IsLogical(op) && Scan([op, count], Stacks(es, [])).Running?
    ensures var t := Scan([op, count], Stacks(es, [])).stacks;
            t.operands == [] && FlattenAll(t.exprs) == [op, count] + FlattenAll(es)
  {
    hide Scan, Value, Digits, IsOperator;
    var n := Value(count);
    DigitsOfValue(count);
    WrapScans(op, count, es);
    var node := Log(op, n, es[..n]);
    assert ([node] + es[n..])[1..] == es[n..];
    FlattenConcat(es[..n], es[n..]);
    assert es[..n] + es[n..] == es;
    assert [op, count] + FlattenAll(es[..n]) + FlattenAll(es[n..]) == [op, count] + FlattenAll(es);
  }

  lemma CanonicalIsNoOperator(s: string)
    requires Canonical(s)
    ensures !IsOperator(s)
  {
    assert IsDigit(s[0]);
  }

  lemma {:induction false} BlocksAreFlattened(ts: seq<string>)
    requires Blocks(ts) && Scan(ts, EMPTY).Running?
    ensures Scan(ts, EMPTY).stacks.operands == []
    ensures FlattenAll(Scan(ts, EMPTY).stacks.exprs) == ts
    decreases |ts|
  {
    hide Scan, Step, StoI;
    if ts == [] {
      ScanNothing(EMPTY);
    } else {
      var k := if IsRelational(ts[0]) then 3 else 2;
      var block, rest := ts[..k], ts[k..];
      assert ts == block + rest;
      ScanConcat(block, rest, EMPTY);
      BlocksAreFlattened(rest);
      var s := Scan(rest, EMPTY).stacks;
      if k == 3 {
        assert block == [ts[0], ts[1], ts[2]];
        ScanLeaf(ts[0], ts[1], ts[2], s);
        var e := Rel(ts[0], ts[1], ts[2]);
        assert ([e] + s.exprs)[1..] == s.exprs;
      } else {
        assert block == [ts[0], ts[1]];
        CanonicalIsNoOperator(ts[1]);
        WrapFlattens(ts[0], ts[1], s.exprs);
      }
    }
  }

  lemma ScanNothing(s: Stacks)
    ensures Scan([], s) == Running(s)
  {
  }

  /** A text that can be scanned is the prefix form of the trees it leaves exactly when it is made of blocks. */
  lemma ScanInvertsIffBlocks(ts: seq<string>)
    requires Scan(ts, EMPTY).Running?
    ensures FlattenAll(Scan(ts, EMPTY).stacks.exprs) == ts <==> Blocks(ts)
  {
    hide Scan, Blocks;
    if Blocks(ts) {
      BlocksAreFlattened(ts);
    } else {
      ScanBuildsScannable(ts, EMPTY);
      FlattenAllIsBlocks(Scan(ts, EMPTY).stacks.exprs);
    }
  }

  /** The same for the parser: the text can be printed back from the selection and the leftover. */
  lemma ParseInvertsIffBlocks(ts: seq<string>)
    requires Parse(ts).Built?
    ensures FlattenAll([Parse(ts).selection] + Parse(ts).leftover) == ts <==> Blocks(ts)
  {
    hide Scan, Blocks;
    ScanInvertsIffBlocks(ts);
    var es := Scan(ts, EMPTY).stacks.exprs;
    assert [es[0]] + es[1..] == es;
  }

  /** A text that is not made of blocks: two leaves share the operands that the scan hands them. */
  lemma ParserAcceptsMore()
    ensures var tokens := ["&&", "2", "==", "a", "==", "b", "c", "d"];
            var tree := Log("&&", 2, [Rel("==", "a", "d"), Rel("==", "b", "c")]);
            Writable(tree) && Parse(tokens) == Built(tree, []) && Flatten(tree) != tokens
  {
    hide Scan, Step, StoI;
    var bc, ad := Rel("==", "b", "c"), Rel("==", "a", "d");
    var tree := Log("&&", 2, [ad, bc]);
    var s1, s2, s3 := Stacks([bc], ["d"]), Stacks([ad, bc], []), Stacks([tree], []);
    ScanLeaf("==", "b", "c", Stacks([], ["d"]));
    ScanOne("d", EMPTY);
    assert ["d"] + [] == ["d"];
    ScanSequence(["==", "b", "c"], ["d"], EMPTY, Stacks([], ["d"]), s1);
    ScanLeafTail("==", "a", "d", [bc]);
    ScanSequence(["==", "a"], ["==", "b", "c"] + ["d"], EMPTY, s1, s2);
    ScanCount("&&", [ad, bc], EMPTY);
    assert Digits(2) == "2" && [ad, bc] + [] == [ad, bc] && [tree] + [] == [tree];
    ScanSequence(["&&", "2"], ["==", "a"] + (["==", "b", "c"] + ["d"]), EMPTY, s2, s3);
    assert ["&&", "2"] + (["==", "a"] + (["==", "b", "c"] + ["d"])) == ["&&", "2", "==", "a", "==", "b", "c", "d"];
    assert FlattenAll([ad, bc]) == ["==", "a", "d"] + FlattenAll([ad, bc][1..]);
    assert Flatten(tree)[4] == "d";
  }

  // ----- what the stacks hold -----

  function Relationals(ts: seq<string>): nat {
    if ts == [] then 0 else (if IsRelational(ts[0]) then 1 else 0) + Relationals(ts[1..])
  }

  function Logicals(ts: seq<string>): nat {
    if ts == [] then 0 else (if IsLogical(ts[0]) then 1 else 0) + Logicals(ts[1..])
  }

  function Operands(ts: seq<string>): nat {
    if ts == [] then 0 else (if IsOperator(ts[0]) then 0 else 1) + Operands(ts[1..])
  }

  /** How the tokens ts change the stacks s into t. */
  predicate Conserves(s: Stacks, ts: seq<string>, t: Stacks) {
    && |t.operands| == |s.operands| + Operands(ts) - 2 * Relationals(ts) - Logicals(ts)
    && NodesAll(t.exprs) == NodesAll(s.exprs) + Relationals(ts) + Logicals(ts)
  }

  lemma LogicalConserves(s: Stacks, op: string, count: Outcome<int>)
    requires s.operands != [] && PushLogical(s, op, count).Running?
    ensures var t := PushLogical(s, op, count).stacks;
            |t.operands| == |s.operands| - 1 && NodesAll(t.exprs) == NodesAll(s.exprs) + 1
  {
    var arity := if count.value > 0 then count.value else 0;
    var t := PushLogical(s, op, count).stacks;
    NodesConcat(s.exprs[..arity], s.exprs[arity..]);
    assert s.exprs[..arity] + s.exprs[arity..] == s.exprs;
    assert t.exprs[1..] == s.exprs[arity..];
  }

  lemma StepConserves(s: Stacks, token: string)
    requires Step(s, token).Running?
    ensures Conserves(s, [token], Step(s, token).stacks)
  {
    assert [token][1..] == [];
    if IsLogical(token) {
      LogicalConserves(s, token, StoI(s.operands[0]));
    } else if IsRelational(token) {
      assert Step(s, token).stacks.exprs[1..] == s.exprs;
    }
  }

  // The operands that wait on the stack depend on the tokens alone, and so do the counts that are read.

  function Dropped(ops: seq<string>, n: nat): seq<string> {
    if n <= |ops| then ops[n..] else []
  }

  /** The operands on the stack, top first, once the tokens have been scanned. */
  function Waiting(ts: seq<string>, ops: seq<string>): seq<string> {
    if ts == [] then ops
    else if IsLogical(ts[0]) then Dropped(Waiting(ts[1..], ops), 1)
    else if IsRelational(ts[0]) then Dropped(Waiting(ts[1..], ops), 2)
    else [ts[0]] + Waiting(ts[1..], ops)
  }

  /** How many trees the count on top of these operands asks for. */
  function Asked(ops: seq<string>): nat {
    if ops != [] && StoI(ops[0]).Ok? && StoI(ops[0]).value > 0 then StoI(ops[0]).value else 0
  }

  /** How many trees the connectives among the tokens take off the stack. */
  function Taken(ts: seq<string>, ops: seq<string>): nat {
    if ts == [] then 0
    else (if IsLogical(ts[0]) then Asked(Waiting(ts[1..], ops)) else 0) + Taken(ts[1..], ops)
  }

  lemma StepOperands(s: Stacks, token: string)
    requires Step(s, token).Running?
    ensures var t := Step(s, token).stacks;
            && t.operands == (if IsLogical(token) then Dropped(s.operands, 1)
                              else if IsRelational(token) then Dropped(s.operands, 2) else [token] + s.operands)
            && |t.exprs| == |s.exprs| + (if IsOperator(token) then 1 else 0)
                            - (if IsLogical(token) then Asked(s.operands) else 0)
  {
    hide StoI;
  }

  /** The stacks' contents and depths from the tokens alone: no operator is lost and no node is shared or dropped. */
  lemma {:induction false} StackConservation(ts: seq<string>, s: Stacks)
    requires Scan(ts, s).Running?
    ensures var t := Scan(ts, s).stacks;
            && Conserves(s, ts, t)
            && t.operands == Waiting(ts, s.operands)
            && |t.exprs| == |s.exprs| + Relationals(ts) + Logicals(ts) - Taken(ts, s.operands)
  {
    hide StoI, Step, Asked;
    if ts == [] {
    } else {
      var t := Scan(ts[1..], s).stacks;
      StackConservation(ts[1..], s);
      StepConserves(t, ts[0]);
      StepOperands(t, ts[0]);
      CountsSplit(ts);
    }
  }

  lemma CountsSplit(ts: seq<string>)
    requires ts != []
    ensures Operands(ts) == Operands([ts[0]]) + Operands(ts[1..])
    ensures Relationals(ts) == Relationals([ts[0]]) + Relationals(ts[1..])
    ensures Logicals(ts) == Logicals([ts[0]]) + Logicals(ts[1..])
  {
    assert [ts[0]][1..] == [];
  }

  /** When the next token reads an empty stack, in terms of the tokens already scanned. */
  lemma UnderflowCondition(ts: seq<string>, token: string)
    requires Scan(ts, EMPTY).Running?
    ensures var t := Scan(ts, EMPTY).stacks;
            var depth := Operands(ts) - 2 * Relationals(ts) - Logicals(ts);
            var trees := Relationals(ts) + Logicals(ts) - Taken(ts, []);
            Step(t, token) == Underflow <==>
            || (IsRelational(token) && depth < 2)
            || (IsLogical(token) && depth < 1)
            || (IsLogical(token) && Asked(Waiting(ts, [])) > trees)
  {
    hide StoI;
    StackConservation(ts, EMPTY);
  }

  /** Nothing is left behind on the stack exactly when the tree contains every operator of the text. */
  lemma NoLeftoverIffAllOperatorsUsed(tokens: seq<string>)
    requires Parse(tokens).Built?
    ensures Parse(tokens).leftover == [] <==>
            Nodes(Parse(tokens).selection) == Relationals(tokens) + Logicals(tokens)
  {
    StackConservation(tokens, EMPTY);
    var es := Scan(tokens, EMPTY).stacks.exprs;
    RootsAndLinks(es[1..]);
  }
}
