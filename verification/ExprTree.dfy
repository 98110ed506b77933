/**
 * The selection tree as the program holds it: heap nodes that own their
 * children through raw pointers, with `delete` made explicit.
 */
module ExprTrees {
  import opened Text
  import opened Selection
  import opened Snapshots
  import opened Processes
  import opened Evaluation

  /** The nodes that `new` has handed out and `delete` has not taken back. */
  class Heap {
    ghost var live: set<ExprNode>

    ghost method Allocate(node: ExprNode)
      requires node !in live
      modifies this
      ensures live == old(live) + {node}
    {
      live := live + {node};
    }

    /** Freeing a node that is not live would be a double delete. */
    method Free(node: ExprNode)
      requires node in live
      modifies this
      ensures live == old(live) - {node}
    {
      live := live - {node};
    }
  }

  class ExprNode {
    const isLogical: bool
    const op: string
    const operand: string
    const literal: string
    const declared: nat
    var subExprs: seq<ExprNode>

    ghost var Tree: Expr
    ghost var Repr: set<ExprNode>

    ghost predicate Valid()
      reads this, Repr
      decreases Repr, 0
    {
      && this in Repr
      && Tree.Log? == isLogical
      && (if isLogical then
            && Tree.op == op && Tree.declared == declared
            && Forest(subExprs, Tree.subs, Repr - {this})
          else
            Tree == Rel(op, operand, literal) && subExprs == [] && Repr == {this})
    }

    constructor Relational(op: string, operand: string, literal: string)
      ensures Valid() && fresh(Repr) && Repr == {this}
      ensures Tree == Rel(op, operand, literal)
    {
      isLogical, this.op, this.operand, this.literal, declared := false, op, operand, literal, 0;
      subExprs, Tree, Repr := [], Rel(op, operand, literal), {this};
    }

    constructor Logical(op: string, declared: nat)
      ensures Valid() && fresh(Repr) && Repr == {this}
      ensures Tree == Log(op, declared, [])
    {
      isLogical, this.op, operand, literal, this.declared := true, op, "", "", declared;
      subExprs, Tree, Repr := [], Log(op, declared, []), {this};
    }

    method PushBack(child: ExprNode)
      requires Valid() && Tree.Log? && child.Valid() && Repr !! child.Repr
      modifies this
      ensures Valid() && Repr == old(Repr) + child.Repr
      ensures Tree == Log(old(Tree.op), old(Tree.declared), old(Tree.subs) + [child.Tree])
    {
      ghost var below := Repr - {this};
      ForestAppend(subExprs, Tree.subs, below, child);
      subExprs := subExprs + [child];
      Tree := Log(Tree.op, Tree.declared, Tree.subs + [child.Tree]);
      Repr := Repr + child.Repr;
      assert Repr - {this} == below + child.Repr;
    }

    /** validate(): stops at the first child that decides, and throws when a declared child is missing. */
    method Validate(lib: Library, proc: Process) returns (r: Outcome<bool>)
      requires Valid() && proc.Valid()
      modifies proc
      ensures r == Eval(Env(lib, proc.number, proc.files.value), Tree)
      ensures r.Ok? ==> proc.Valid()
      decreases Repr, 1
    {
      hide EvalLeaf, Process.Cached;
      if !isLogical {
        r := ValidateLeaf(lib, proc);
      } else if op == AND_OP {
        r := ValidateUntil(lib, proc, false);
      } else if op == OR_OP {
        r := ValidateUntil(lib, proc, true);
      } else {
        r := Ok(false);
      }
    }

    /** The loop of both logical operators; they differ in the answer that ends it early. */
    method ValidateUntil(lib: Library, proc: Process, stop: bool) returns (r: Outcome<bool>)
      requires Valid() && Tree.Log? && proc.Valid()
      modifies proc
      ensures r == EvalUntil(Env(lib, proc.number, proc.files.value), Tree.subs, declared, stop)
      ensures r.Ok? ==> proc.Valid()
      decreases Repr, 0
    {
      hide Eval, Process.Cached;
      ghost var env := Env(lib, proc.number, proc.files.value);
      ghost var rest := Repr - {this};
      ForestLength(subExprs, Tree.subs, rest);
      var i := 0;
      while i < declared
        invariant 0 <= i <= declared && i <= |subExprs|
        invariant proc.Valid() && rest < Repr
        invariant Forest(subExprs[i..], Tree.subs[i..], rest)
        invariant EvalUntil(env, Tree.subs, declared, stop) == EvalUntil(env, Tree.subs[i..], declared - i, stop)
      {
        if i >= |subExprs| {
          return Throws;
        }
        var v := subExprs[i].Validate(lib, proc);
        assert Tree.subs[i..][1..] == Tree.subs[i + 1..] && subExprs[i..][1..] == subExprs[i + 1..];
        if v.Throws? {
          return Throws;
        }
        if v.value == stop {
          return Ok(stop);
        }
        rest := rest - subExprs[i].Repr;
        i := i + 1;
      }
      r := Ok(!stop);
    }

    method ValidateLeaf(lib: Library, proc: Process) returns (r: Outcome<bool>)
      requires proc.Valid()
      modifies proc
      ensures r == EvalLeaf(Env(lib, proc.number, proc.files.value), op, operand, literal)
      ensures r.Ok? ==> proc.Valid()
    {
      if op == EQ_OP {
        var a := EqualityAttr(operand);
        if a.None? {
          return Ok(false);
        }
        var v := proc.Get(a.value);
        r := if v.Ok? then Ok(literal == v.value) else Throws;
      } else if op == LIKE_OP {
        if !lib.isRegex(literal) {
          return Throws;
        }
        var compareValue := proc.GetName();
        if PatternAttr(operand) != Name {
          var v := proc.Get(PatternAttr(operand));
          compareValue := v.value;
        }
        r := Ok(lib.regexSearch(compareValue, literal));
      } else if IsOrder(op) {
        var compareValue := Ok("");
        var a := OrderAttr(operand);
        if a.Some? {
          compareValue := proc.Get(a.value);
        }
        r := if compareValue.Ok? then CompareText(lib, op, compareValue.value, literal) else Throws;
      } else {
        r := Ok(false);
      }
    }

    /** findPid(): the first non-empty answer of the children, but nothing below ||. */
    method FindPid() returns (r: string)
      requires Valid()
      ensures r == Evaluation.FindPid(Tree)
      decreases Repr
    {
      if !isLogical {
        return if operand == "pid" then literal else "";
      }
      if op == OR_OP {
        return "";
      }
      ghost var rest := Repr - {this};
      ForestLength(subExprs, Tree.subs, rest);
      for i := 0 to |subExprs|
        invariant rest < Repr && Forest(subExprs[i..], Tree.subs[i..], rest)
        invariant FirstLeaf(Tree.subs) == FirstLeaf(Tree.subs[i..])
      {
        var pid := subExprs[i].FindPid();
        assert Tree.subs[i..][1..] == Tree.subs[i + 1..] && subExprs[i..][1..] == subExprs[i + 1..];
        if |pid| != 0 {
          return pid;
        }
        rest := rest - subExprs[i].Repr;
      }
      return "";
    }

    /** The destructor deletes the children and the node: every node of the tree once, nothing else. */
    method Destroy(heap: Heap)
      requires Valid() && Repr <= heap.live
      modifies heap
      ensures heap.live == old(heap.live) - Repr
      decreases Repr, 0
    {
      if isLogical {
        DestroyAll(heap, subExprs, Tree.subs, Repr - {this});
      }
      heap.Free(this);
    }
  }

  /** The loop of the destructor over the children. */
  method DestroyAll(heap: Heap, subExprs: seq<ExprNode>, ghost trees: seq<Expr>, ghost repr: set<ExprNode>)
    requires Forest(subExprs, trees, repr) && repr <= heap.live
    modifies heap
    ensures heap.live == old(heap.live) - repr
    decreases repr, 1
  {
    hide ExprNode.Valid;
    ForestLength(subExprs, trees, repr);
    ghost var rest, gone: set<ExprNode> := repr, {};
    ghost var live := heap.live;
    for i := 0 to |subExprs|
      invariant rest !! gone && rest + gone == repr
      invariant Forest(subExprs[i..], trees[i..], rest)
      invariant heap.live == live - gone
    {
      ghost var child := subExprs[i].Repr;
      assert subExprs[i..][1..] == subExprs[i + 1..] && trees[i..][1..] == trees[i + 1..];
      subExprs[i].Destroy(heap);
      rest, gone := rest - child, gone + child;
    }
  }

  /** The nodes are the roots of valid, pairwise disjoint trees that together make up exactly `repr`. */
  ghost predicate Forest(nodes: seq<ExprNode>, trees: seq<Expr>, repr: set<ExprNode>)
    reads repr
    decreases repr, 1
  {
    if nodes == [] then trees == [] && repr == {}
    else
      && trees != []
      && nodes[0] in repr && nodes[0].Repr <= repr
      && nodes[0].Valid() && nodes[0].Tree == trees[0]
      && Forest(nodes[1..], trees[1..], repr - nodes[0].Repr)
  }

  lemma {:induction false} ForestLength(nodes: seq<ExprNode>, trees: seq<Expr>, repr: set<ExprNode>)
    requires Forest(nodes, trees, repr)
    ensures |nodes| == |trees|
  {
    if nodes == [] {
    } else {
      ForestLength(nodes[1..], trees[1..], repr - nodes[0].Repr);
    }
  }

  lemma ForestPush(node: ExprNode, nodes: seq<ExprNode>, trees: seq<Expr>, repr: set<ExprNode>)
    requires node.Valid() && Forest(nodes, trees, repr) && node.Repr !! repr
    ensures Forest([node] + nodes, [node.Tree] + trees, node.Repr + repr)
  {
    hide ExprNode.Valid;
    assert ([node] + nodes)[1..] == nodes && ([node.Tree] + trees)[1..] == trees;
    assert node.Repr + repr - node.Repr == repr;
    assert node in node.Repr by {
      NodeOwnsItself(node);
    }
  }

  lemma ForestPop(nodes: seq<ExprNode>, trees: seq<Expr>, repr: set<ExprNode>)
    requires Forest(nodes, trees, repr) && nodes != []
    ensures trees != [] && nodes[0].Valid() && nodes[0].Tree == trees[0] && nodes[0].Repr <= repr
    ensures Forest(nodes[1..], trees[1..], repr - nodes[0].Repr)
  {
    hide ExprNode.Valid;
  }

  lemma NodeOwnsItself(node: ExprNode)
    requires node.Valid()
    ensures node in node.Repr
  {
  }

  lemma {:induction false} ForestAppend(nodes: seq<ExprNode>, trees: seq<Expr>, repr: set<ExprNode>, node: ExprNode)
    requires node.Valid() && Forest(nodes, trees, repr) && node.Repr !! repr
    ensures Forest(nodes + [node], trees + [node.Tree], repr + node.Repr)
  {
    hide ExprNode.Valid;
    if nodes == [] {
      ForestPush(node, [], [], {});
      assert nodes + [node] == [node] + [] && trees + [node.Tree] == [node.Tree] + [];
      assert repr + node.Repr == node.Repr + {};
    } else {
      ForestAppend(nodes[1..], trees[1..], repr - nodes[0].Repr, node);
      assert (nodes + [node])[1..] == nodes[1..] + [node];
      assert (trees + [node.Tree])[1..] == trees[1..] + [node.Tree];
      assert repr + node.Repr - nodes[0].Repr == repr - nodes[0].Repr + node.Repr;
    }
  }

  /** A forest has as many heap nodes as its trees have nodes. */
  lemma {:induction false} ForestSize(nodes: seq<ExprNode>, trees: seq<Expr>, repr: set<ExprNode>)
    requires Forest(nodes, trees, repr)
    ensures |repr| == NodesAll(trees)
    decreases repr, 1
  {
    if nodes == [] {
    } else {
      var first := nodes[0];
      ForestSize(nodes[1..], trees[1..], repr - first.Repr);
      TreeSize(first);
      assert repr == (repr - first.Repr) + first.Repr;
    }
  }

  lemma {:induction false} TreeSize(node: ExprNode)
    requires node.Valid()
    ensures |node.Repr| == Nodes(node.Tree)
    decreases node.Repr, 0
  {
    if !node.isLogical {
    } else {
      ForestSize(node.subExprs, node.Tree.subs, node.Repr - {node});
      assert node.Repr == (node.Repr - {node}) + {node};
    }
  }
}
