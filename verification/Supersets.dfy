/** When removing common operands uses up the second expression. */
module Supersets {
  import opened Expressions
  import opened Equality
  import opened Slots
  import opened OperandLists
  import opened OperandShapes
  import opened Submenu

  lemma {:induction false} ConstantStays(op: BoolOp, e: Expr, c: Expr)
    requires ConstantFree(e) && !IsYn(e) && IsYn(c)
    ensures CancelOperands(op, e, c) == (e, c)
  {
    if Rooted(op, e) {
      ConstantStays(op, e.left, c);
      ConstantStays(op, e.right, c);
    }
  }

  /** One operand cancels at most one of a level. */
  lemma {:induction false} ScanOnce(op: BoolOp, x: Expr, ys: seq<Expr>) returns (i: nat)
    requires !Rooted(op, x) && forall y :: y in ys ==> Free(op, y)
    ensures var r := Scan(op, x, ys);
            !Rooted(op, r.0) && (r.1 == ys || (i < |ys| && r.1 == ys[i := Unit(op)]))
    decreases |ys|
  {
    hide Free, ExprEq, CancelOperands;
    i := 0;
    if ys != [] {
      var y, rest := ys[0], ys[1..];
      assert y in ys && ys == [y] + rest && forall z :: z in rest ==> z in ys;
      OneFree(op, x, y);
      if CancelOperands(op, x, y) == (x, y) {
        var k := ScanOnce(op, x, rest);
        i := k + 1;
        assert k < |rest| ==> [y] + rest[k := Unit(op)] == ys[i := Unit(op)];
      } else {
        FreePartly(op, rest);
        ScanUnit(op, rest);
        assert [Unit(op)] + rest == ys[0 := Unit(op)];
      }
    }
  }

  lemma OneFree(op: BoolOp, x: Expr, y: Expr)
    requires !Rooted(op, x) && Free(op, y)
    ensures CancelOperands(op, x, y) == (x, y) || CancelOperands(op, x, y) == (Unit(op), Unit(op))
    ensures !Rooted(op, y)
  {}

  lemma FreePartly(op: BoolOp, ys: seq<Expr>)
    requires forall y :: y in ys ==> Free(op, y)
    ensures Partly(op, ys)
  {}

  lemma {:induction false} KeptSome(op: BoolOp, xs: seq<Expr>, i: nat)
    requires i < |xs| && xs[i] != Unit(op)
    ensures Kept(op, xs) != multiset{}
  {
    hide ShapeOf;
    if i > 0 {
      KeptSome(op, xs[1..], i - 1);
    }
  }

  /** What is no level of its own never uses up a level. */
  lemma LoneOperand(op: BoolOp, x: Expr, e: Expr)
    requires !Rooted(op, x) && Rooted(op, e) && ConstantFree(e)
    ensures EliminateYn(CancelOperands(op, x, e).1) != Sym(Yes)
  {
    hide CancelOperands, EliminateYn, Kept, ShapeOf, Free, Partly;
    var ys, r := Operands(op, e), CancelOperands(op, x, e);
    KeptLevel(op, e);
    ScanTree(op, x, e);
    var i := ScanOnce(op, x, ys);
    var zs := Operands(op, r.1);
    UnitPartly(op, ys, zs, i);
    FoldPartly(op, r.1);
    var j := if i == 0 then 1 else 0;
    assert ys[j] in ys;
    NotUnit(op, ys[j]);
    KeptSome(op, zs, j);
  }

  lemma UnitPartly(op: BoolOp, ys: seq<Expr>, zs: seq<Expr>, i: nat)
    requires Partly(op, ys) && (zs == ys || (i < |ys| && zs == ys[i := Unit(op)]))
    ensures Partly(op, zs)
  {
    hide Free;
  }

  /** A conjunction uses up what is a part of it. */
  lemma ConjunctionCancels(e1: Expr, e2: Expr)
    requires ConstantFree(e1) && ConstantFree(e2) && Rooted(AND, e1) && !IsYn(e2)
    ensures EliminateYn(CancelOperands(AND, e1, e2).1) == Sym(Yes) <==> Shapes(AND, e2) <= Shapes(AND, e1)
  {
    hide CancelOperands, EliminateYn, ExprEq, Free, Kept, CancelLists, ConstantFree, ShapeOf;
    var xs, ys, r := Operands(AND, e1), Operands(AND, e2), CancelOperands(AND, e1, e2);
    AndIsFree(e1);
    KeptLevel(AND, e1);
    KeptLevel(AND, e2);
    forall x, y | x in xs && y in ys
      ensures ExprEq(x, y) <==> ShapeOf(x) == ShapeOf(y)
    {
      FreeIsFree(AND, x);
      FreeIsFree(AND, y);
      PermutationExact(x, y);
    }
    assert forall x :: x in xs ==> Exact(AND, x, ys);
    CancelTree(AND, e1, e2);
    CancelFree(AND, xs, ys);
    assert Remaining(AND, xs, ys, CancelLists(AND, xs, ys));
    FoldPartly(AND, r.1);
    PartOf(Shapes(AND, e1), Shapes(AND, e2));
  }

  lemma AndIsFree(e: Expr)
    requires ConstantFree(e) && e.Bin?
    ensures !IsYn(e)
  {}

  lemma FreeIsFree(op: BoolOp, x: Expr)
    requires Free(op, x)
    ensures ConstantFree(x)
  {}

  lemma PartOf<T(!new)>(x: multiset<T>, y: multiset<T>)
    ensures y - x == multiset{} <==> y <= x
  {
    if y - x == multiset{} {
      forall e
        ensures y[e] <= x[e]
      {
        assert (y - x)[e] == 0;
      }
    }
  }

  /** Nothing but y is left of the second expression if and only if it is y, or the first is
      a conjunction that has all its conjuncts, each at least as often. In particular a
      condition that is no conjunction never includes itself. */
  lemma UsedUpExact(e1: Expr, e2: Expr)
    requires ConstantFree(e1) && ConstantFree(e2)
    ensures EliminateEq(e1, e2).1 == Sym(Yes) <==>
              e2 == Sym(Yes) || (Rooted(AND, e1) && !IsYn(e2) && Shapes(AND, e2) <= Shapes(AND, e1))
  {
    hide EliminateYn, CancelOperands, ConstantFree, Shapes;
    FreeFixed(e2);
    EliminateYnFolds(e2);
    if IsYn(e2) {
      ConstantBase(e1, e2);
    } else if Rooted(AND, e1) {
      ConjunctionCancels(e1, e2);
      ConjunctionFirst(e1, e2);
    } else {
      OtherFirst(e1, e2);
    }
  }

  lemma ConstantBase(e1: Expr, e2: Expr)
    requires ConstantFree(e1) && IsYn(e2)
    ensures EliminateEq(e1, e2).1 == e2
  {
    hide CancelOperands, ExprEq, ConstantFree;
    if e1.Bin? {
      ConstantStays(e1.op, e1, e2);
    }
  }

  lemma ConjunctionFirst(e1: Expr, e2: Expr)
    requires ConstantFree(e1) && ConstantFree(e2) && Rooted(AND, e1) && !IsYn(e2)
    ensures EliminateEq(e1, e2).1 == Sym(Yes) <==> EliminateYn(CancelOperands(AND, e1, e2).1) == Sym(Yes)
  {
    hide CancelOperands, EliminateYn, ConstantFree, ExprEq;
    var r := CancelOperands(AND, e1, e2);
    FirstStaysRooted(AND, e1, e2);
    if Rooted(AND, e2) {
      CancelKeepsRoot(AND, e1, e2);
    } else {
      OtherUnchanged(AND, e1, e2);
      if r.1.Bin? {
        LoneOperand(r.1.op, r.0, r.1);
        FreeFixed(e2);
        EliminateYnFolds(e2);
      }
    }
  }

  lemma OtherFirst(e1: Expr, e2: Expr)
    requires ConstantFree(e1) && ConstantFree(e2) && !Rooted(AND, e1) && !IsYn(e2)
    ensures EliminateEq(e1, e2).1 != Sym(Yes)
  {
    hide CancelOperands, EliminateYn, ConstantFree, ExprEq;
    FreeFixed(e2);
    EliminateYnFolds(e2);
    if e1.Bin? {
      DisjunctionFirst(e1, e2);
    } else if e2.Bin? {
      LoneOperand(e2.op, e1, e2);
    }
  }

  lemma DisjunctionFirst(e1: Expr, e2: Expr)
    requires ConstantFree(e1) && ConstantFree(e2) && Rooted(OR, e1) && !IsYn(e2) && EliminateYn(e2) == e2
    ensures EliminateEq(e1, e2).1 != Sym(Yes)
  {
    hide CancelOperands, EliminateYn, ConstantFree, ExprEq, Free, Kept, CancelLists;
    var r := CancelOperands(OR, e1, e2);
    FirstStaysRooted(OR, e1, e2);
    if Rooted(OR, e2) {
      CancelKeepsRoot(OR, e1, e2);
      AndIsFree(e1);
      KeptLevel(OR, e1);
      KeptLevel(OR, e2);
      CancelTree(OR, e1, e2);
      ListsPartly(OR, Operands(OR, e1), Operands(OR, e2));
      FoldPartly(OR, r.1);
    } else {
      OtherUnchanged(OR, e1, e2);
      NoIsFixed();
      if r.1.Bin? {
        LoneOperand(r.1.op, r.0, r.1);
      }
    }
  }

  lemma NoIsFixed()
    ensures EliminateYn(Sym(No)) == Sym(No)
  {}

  lemma FirstStaysRooted(op: BoolOp, e1: Expr, e2: Expr)
    requires Rooted(op, e1)
    ensures Rooted(op, CancelOperands(op, e1, e2).0)
  {}

  lemma {:induction false} OtherUnchanged(op: BoolOp, e1: Expr, e2: Expr)
    requires !Rooted(op, e2) && ConstantFree(e1) && !IsYn(e1)
    ensures var r := CancelOperands(op, e1, e2).1; r == e2 || r == Unit(op)
  {
    hide ExprEq;
    if Rooted(op, e1) {
      OtherUnchanged(op, e1.left, e2);
      OtherUnchanged(op, e1.right, CancelOperands(op, e1.left, e2).1);
    }
  }

  lemma {:induction false} ListsPartly(op: BoolOp, xs: seq<Expr>, ys: seq<Expr>)
    requires (forall x :: x in xs ==> Free(op, x)) && Partly(op, ys)
    ensures Partly(op, CancelLists(op, xs, ys).1)
    decreases |xs|
  {
    hide Free, Partly, Scan;
    if xs != [] {
      assert xs[0] in xs;
      ScanPartly(op, xs[0], ys);
      ListsPartly(op, xs[1..], Scan(op, xs[0], ys).1);
    }
  }

  lemma {:induction false} ScanPartly(op: BoolOp, x: Expr, ys: seq<Expr>)
    requires (Free(op, x) || x == Unit(op)) && Partly(op, ys)
    ensures Partly(op, Scan(op, x, ys).1)
    decreases |ys|
  {
    hide Free, Partly, CancelOperands;
    if ys == [] {
      PartlyNone(op);
    } else {
      assert ys == [ys[0]] + ys[1..];
      PartlyCons(op, ys[0], ys[1..]);
      PairPartly(op, x, ys[0]);
      var r := CancelOperands(op, x, ys[0]);
      ScanPartly(op, r.0, ys[1..]);
      PartlyCons(op, r.1, Scan(op, r.0, ys[1..]).1);
    }
  }

  lemma PairPartly(op: BoolOp, x: Expr, y: Expr)
    requires (Free(op, x) || x == Unit(op)) && (Free(op, y) || y == Unit(op))
    ensures var r := CancelOperands(op, x, y); (Free(op, r.0) || r.0 == Unit(op)) && (Free(op, r.1) || r.1 == Unit(op))
  {
    hide ConstantFree, ExprEq;
  }

  /** The submenu test: without constants among them, an item's conditions include a symbol's
      if and only if the symbol has none, or the item's are a conjunction of all the symbol's
      conjuncts and perhaps more. */
  lemma SupersetExact(item: Dependency, base: Dependency)
    requires ConstantFree(NotNoForm(item)) && ConstantFree(NotNoForm(base))
    ensures Superset(item, base) <==>
              var i, b := NotNoForm(item), NotNoForm(base);
              b == Sym(Yes) || (Rooted(AND, i) && !IsYn(b) && Shapes(AND, b) <= Shapes(AND, i))
  {
    hide NotNoForm, EliminateEq, Shapes, ConstantFree;
    UsedUpExact(NotNoForm(item), NotNoForm(base));
  }
}
