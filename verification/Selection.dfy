/** Selection expressions: the trees a filter text denotes, and their prefix token stream. */
module Selection {
  import opened Text

  const AND_OP := "&&"
  const OR_OP := "||"
  const EQ_OP := "=="
  const LT_OP := "<"
  const LTE_OP := "<="
  const GT_OP := ">"
  const GTE_OP := ">="
  const LIKE_OP := "%="

  /** A logical node keeps the 16-bit count it was declared with beside its children. */
  datatype Expr =
    | Rel(op: string, operand: string, literal: string)
    | Log(op: string, declared: nat, subs: seq<Expr>)

  predicate IsLogical(t: string) {
    t == AND_OP || t == OR_OP
  }

  predicate IsOrder(t: string) {
    t == LT_OP || t == LTE_OP || t == GT_OP || t == GTE_OP
  }

  predicate IsRelational(t: string) {
    t == EQ_OP || IsOrder(t) || t == LIKE_OP
  }

  predicate IsOperator(t: string) {
    IsLogical(t) || IsRelational(t)
  }

  /** Every declared count is the number of children. */
  predicate CountsAgree(e: Expr) {
    e.Log? ==>
      && e.declared == |e.subs|
      && forall i :: 0 <= i < |e.subs| ==> CountsAgree(e.subs[i])
  }

  /** Trees that can be written: known operators, no operator used as an operand, counts below 2^16. */
  predicate Writable(e: Expr) {
    match e
    case Rel(op, operand, literal) =>
      IsRelational(op) && !IsOperator(operand) && !IsOperator(literal)
    case Log(op, declared, subs) =>
      && IsLogical(op)
      && declared == |subs| < 0x1_0000
      && forall i :: 0 <= i < |subs| ==> Writable(subs[i])
  }

  /** The lexicals that print() writes for the tree, without the parentheses. */
  function Flatten(e: Expr): (ts: seq<string>)
    ensures ts != []
    decreases e, 1
  {
    match e
    case Rel(op, operand, literal) => [op, operand, literal]
    case Log(op, declared, subs) => [op, Digits(declared)] + FlattenAll(subs)
  }

  function FlattenAll(es: seq<Expr>): seq<string>
    decreases es, 0
  {
    if es == [] then [] else Flatten(es[0]) + FlattenAll(es[1..])
  }

  /** Nodes of a forest. */
  function NodesAll(es: seq<Expr>): nat
    decreases es, 0
  {
    if es == [] then 0 else Nodes(es[0]) + NodesAll(es[1..])
  }

  function Nodes(e: Expr): nat
    decreases e, 1
  {
    match e
    case Rel(_, _, _) => 1
    case Log(_, _, subs) => 1 + NodesAll(subs)
  }

  /** Parent-to-child links of a forest. */
  function LinksAll(es: seq<Expr>): nat
    decreases es, 0
  {
    if es == [] then 0 else Links(es[0]) + LinksAll(es[1..])
  }

  function Links(e: Expr): nat
    decreases e, 1
  {
    match e
    case Rel(_, _, _) => 0
    case Log(_, _, subs) => |subs| + LinksAll(subs)
  }

  lemma {:induction false} NodesConcat(a: seq<Expr>, b: seq<Expr>)
    ensures NodesAll(a + b) == NodesAll(a) + NodesAll(b)
  {
    if a == [] {
      assert a + b == b;
    } else {
      assert (a + b)[1..] == a[1..] + b;
      NodesConcat(a[1..], b);
    }
  }

  lemma {:induction false} FlattenConcat(a: seq<Expr>, b: seq<Expr>)
    ensures FlattenAll(a + b) == FlattenAll(a) + FlattenAll(b)
  {
    if a == [] {
      assert a + b == b;
    } else {
      assert (a + b)[1..] == a[1..] + b;
      FlattenConcat(a[1..], b);
    }
  }

  /** In a forest every node is a root or the child of exactly one link. */
  lemma {:induction false} RootsAndLinks(es: seq<Expr>)
    ensures NodesAll(es) == |es| + LinksAll(es)
    decreases es
  {
    if es == [] {
    } else {
      match es[0] {
        case Rel(_, _, _) =>
        case Log(_, _, subs) => RootsAndLinks(subs);
      }
      RootsAndLinks(es[1..]);
    }
  }
}
