/** The Filter object: building its selection tree from text, and what it owns. */
module Filters {
  import opened Text
  import opened Selection
  import opened Tokenizer
  import opened Parser
  import opened ExprTrees

  datatype Attribute = Attribute(name: string, alias: string)

  class Filter {
    const kind: string
    const projection: seq<Attribute>
    const selection: ExprNode?

    ghost predicate Valid()
      reads this, selection, if selection == null then {} else selection.Repr
    {
      selection != null ==> selection.Valid()
    }

    /** The heap nodes this filter owns. */
    ghost function Owned(): set<ExprNode>
      reads this, selection
    {
      if selection == null then {} else selection.Repr
    }

    constructor (kind: string, projection: seq<Attribute>, selection: ExprNode?)
      ensures this.kind == kind && this.projection == projection && this.selection == selection
    {
      this.kind, this.projection, this.selection := kind, projection, selection;
    }

    /** ~Filter. */
    method Destroy(heap: Heap)
      requires Valid() && Owned() <= heap.live
      modifies heap
      ensures heap.live == old(heap.live) - Owned()
    {
      if selection != null {
        selection.Destroy(heap);
      }
    }
  }

  /**
   * Builds a filter from its text. The tree is the parser's; the nodes it
   * allocates are those of the tree and of whatever stayed on the stack,
   * and the latter are lost: `leaked`. A bad count throws and loses everything.
   */
  method Build(heap: Heap, kind: string, projection: seq<Attribute>, text: string)
    returns (r: Outcome<Filter>, ghost leaked: set<ExprNode>)
    requires ParseText(text) != Undefined
    modifies heap
    ensures r.Ok? == ParseText(text).Built?
    ensures r.Ok? ==>
              && fresh(r.value) && r.value.kind == kind && r.value.projection == projection
              && r.value.selection != null && r.value.Valid()
              && r.value.selection.Tree == ParseText(text).selection
              && fresh(r.value.Owned()) && r.value.Owned() !! leaked
              && heap.live == old(heap.live) + r.value.Owned() + leaked
              && |leaked| == NodesAll(ParseText(text).leftover)
    ensures r.Throws? ==>
              && heap.live == old(heap.live) + leaked
              && |leaked| == NodesAll(ParseText(text).abandoned)
    ensures fresh(leaked)
  {
    hide Tokens, Scan, ExprNode.Valid;
    var ok, exprStack;
    ghost var trees, repr;
    ok, exprStack, trees, repr := ScanText(heap, text);
    if !ok {
      leaked := repr;
      ForestSize(exprStack, trees, repr);
      return Throws, leaked;
    }
    ForestLength(exprStack, trees, repr);
    var selection := exprStack[0];
    leaked := repr - selection.Repr;
    ForestSize(exprStack[1..], trees[1..], leaked);
    var filter := new Filter(kind, projection, selection);
    r := Ok(filter);
  }

  lemma NoNodesNoTrees(es: seq<Expr>)
    ensures NodesAll(es) == 0 <==> es == []
  {
  }

  /**
   * A filter that is built and later destroyed gives back all its memory
   * exactly when the parser left no tree behind.
   */
  method BuildThenDestroy(heap: Heap, kind: string, projection: seq<Attribute>, text: string)
    requires ParseText(text) != Undefined
    modifies heap
    ensures var p := ParseText(text);
            heap.live == old(heap.live) <==> (if p.Built? then p.leftover else p.abandoned) == []
  {
    var r;
    ghost var leaked;
    r, leaked := Build(heap, kind, projection, text);
    if r.Ok? {
      NoNodesNoTrees(ParseText(text).leftover);
      r.value.Destroy(heap);
    } else {
      NoNodesNoTrees(ParseText(text).abandoned);
    }
    assert heap.live == old(heap.live) + leaked;
    assert leaked == {} <==> heap.live == old(heap.live);
  }

  /** The two loops of the constructor: tokenise, then scan from the last lexical to the first. */
  method ScanText(heap: Heap, text: string)
    returns (ok: bool, exprStack: seq<ExprNode>, ghost trees: seq<Expr>, ghost repr: set<ExprNode>)
    requires Scan(Tokens(text), EMPTY) != Underflow
    modifies heap
    ensures var s := Scan(Tokens(text), EMPTY);
            if ok then s.Running? && s.stacks.exprs == trees else s == Thrown(trees)
    ensures Forest(exprStack, trees, repr) && fresh(repr)
    ensures heap.live == old(heap.live) + repr
  {
    hide Step, StoI, ExprNode.Valid;
    var lexicalStack := Tokenize(text);
    var operandStack: seq<string> := [];
    ghost var tokens := Tokens(text);
    ok, exprStack, trees, repr := true, [], [], {};
    while lexicalStack != []
      invariant lexicalStack <= tokens
      invariant Scan(tokens[|lexicalStack|..], EMPTY) == Running(Stacks(trees, operandStack))
      invariant Forest(exprStack, trees, repr) && fresh(repr)
      invariant heap.live == old(heap.live) + repr
      decreases |lexicalStack|
    {
      var k := |lexicalStack| - 1;
      var lexical := lexicalStack[k];
      lexicalStack := lexicalStack[..k];
      ScanSuffix(tokens, k);
      ok, exprStack, operandStack, trees, repr := Consume(heap, lexical, exprStack, operandStack, trees, repr);
      if !ok {
        AbortEnds(tokens, k);
        return;
      }
    }
    assert tokens[0..] == tokens;
  }

  /** What the constructor does with one lexical; not ok is the exception of a bad count. */
  method Consume(heap: Heap, lexical: string, exprs: seq<ExprNode>, operands: seq<string>,
                 ghost trees: seq<Expr>, ghost repr: set<ExprNode>)
    returns (ok: bool, exprStack: seq<ExprNode>, operandStack: seq<string>,
             ghost newTrees: seq<Expr>, ghost newRepr: set<ExprNode>)
    requires Forest(exprs, trees, repr)
    requires repr <= heap.live
    requires Step(Stacks(trees, operands), lexical) != Underflow
    modifies heap
    ensures Step(Stacks(trees, operands), lexical)
         == if ok then Running(Stacks(newTrees, operandStack)) else Thrown(newTrees)
    ensures Forest(exprStack, newTrees, newRepr)
    ensures repr <= newRepr && fresh(newRepr - repr)
    ensures heap.live == old(heap.live) + newRepr
  {
    hide StoI, ExprNode.Valid;
    ForestLength(exprs, trees, repr);
    ok, exprStack, operandStack, newTrees, newRepr := true, exprs, operands, trees, repr;
    if IsLogical(lexical) {
      var numOfSubExprs := StoI(operandStack[0]);
      if numOfSubExprs.Throws? {
        ok := false;
        return;
      }
      operandStack := operandStack[1..];
      exprStack, newTrees, newRepr :=
        ReduceLogical(heap, lexical, numOfSubExprs.value, exprStack, newTrees, newRepr);
    } else if IsRelational(lexical) {
      var operand, literal := operandStack[0], operandStack[1];
      operandStack := operandStack[2..];
      var node := new ExprNode.Relational(lexical, operand, literal);
      heap.Allocate(node);
      ForestPush(node, exprs, trees, repr);
      exprStack, newTrees, newRepr := [node] + exprs, [node.Tree] + trees, node.Repr + repr;
    } else {
      operandStack := [lexical] + operandStack;
    }
  }

  /** Makes a logical node and moves its children to it from the top of the stack. */
  method ReduceLogical(heap: Heap, op: string, count: int, exprs: seq<ExprNode>,
                       ghost trees: seq<Expr>, ghost repr: set<ExprNode>)
    returns (exprStack: seq<ExprNode>, ghost newTrees: seq<Expr>, ghost newRepr: set<ExprNode>)
    requires Forest(exprs, trees, repr) && count <= |exprs| == |trees|
    modifies heap
    ensures exprStack != [] && fresh(exprStack[0])
    ensures Forest(exprStack, newTrees, newRepr) && newRepr == repr + {exprStack[0]}
    ensures heap.live == old(heap.live) + {exprStack[0]}
    ensures var arity := if count > 0 then count else 0;
            newTrees == [Log(op, count % 0x1_0000, trees[..arity])] + trees[arity..]
  {
    hide ExprNode.Valid, Forest;
    var logicalExpr := new ExprNode.Logical(op, count % 0x1_0000);
    heap.Allocate(logicalExpr);
    exprStack := exprs;
    var numOfSubExprs := count;
    ghost var i, rest := 0, repr;
    while numOfSubExprs > 0
      invariant 0 <= i <= |exprs| && exprStack == exprs[i..]
      invariant if count > 0 then numOfSubExprs == count - i >= 0 else numOfSubExprs == count && i == 0
      invariant Forest(exprStack, trees[i..], rest)
      invariant logicalExpr.Valid() && fresh(logicalExpr)
      invariant heap.live == old(heap.live) + {logicalExpr}
      invariant logicalExpr.Tree == Log(op, count % 0x1_0000, trees[..i])
      invariant logicalExpr.Repr !! rest && logicalExpr.Repr + rest == repr + {logicalExpr}
    {
      var child := exprStack[0];
      ForestPop(exprStack, trees[i..], rest);
      logicalExpr.PushBack(child);
      assert trees[i..][1..] == trees[i + 1..] && trees[..i] + [trees[i]] == trees[..i + 1];
      rest := rest - child.Repr;
      exprStack := exprStack[1..];
      numOfSubExprs := numOfSubExprs - 1;
      i := i + 1;
    }
    ForestPush(logicalExpr, exprStack, trees[i..], rest);
    newTrees, newRepr := [logicalExpr.Tree] + trees[i..], logicalExpr.Repr + rest;
    exprStack := [logicalExpr] + exprStack;
  }

  // ----- the scan, one token at a time -----

  lemma ScanSuffix(tokens: seq<string>, k: nat)
    requires k < |tokens| && Scan(tokens, EMPTY) != Underflow
    ensures Scan(tokens[k..], EMPTY) != Underflow
    ensures Scan(tokens[k + 1..], EMPTY).Running? ==>
              Scan(tokens[k..], EMPTY) == Step(Scan(tokens[k + 1..], EMPTY).stacks, tokens[k])
  {
    assert tokens[k..][1..] == tokens[k + 1..];
    assert tokens == tokens[..k] + tokens[k..];
    ScanConcat(tokens[..k], tokens[k..], EMPTY);
  }

  lemma AbortEnds(tokens: seq<string>, k: nat)
    requires k < |tokens| && Scan(tokens[k..], EMPTY).Thrown?
    ensures Scan(tokens, EMPTY) == Scan(tokens[k..], EMPTY)
  {
    assert tokens == tokens[..k] + tokens[k..];
    ScanConcat(tokens[..k], tokens[k..], EMPTY);
  }
}
