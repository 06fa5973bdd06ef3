/** The equality test on operand lists: it accepts any regrouping of the same
    operands, in particular every expression equals itself. */
module OperandLists {
  import opened Expressions
  import opened Equality
  import opened Slots

  predicate IsYn(e: Expr) { e == Sym(Yes) || e == Sym(No) }

  /** One operand tried against a list, then a list against a list. */
  function Scan(op: BoolOp, x: Expr, ys: seq<Expr>): (r: (Expr, seq<Expr>))
    ensures |r.1| == |ys|
    decreases |ys|
  {
    if ys == [] then (x, [])
    else
      var (x', y) := CancelOperands(op, x, ys[0]);
      var (x'', rest) := Scan(op, x', ys[1..]);
      (x'', [y] + rest)
  }

  function CancelLists(op: BoolOp, xs: seq<Expr>, ys: seq<Expr>): (r: (seq<Expr>, seq<Expr>))
    ensures |r.0| == |xs| && |r.1| == |ys|
  {
    if xs == [] then ([], ys)
    else
      var (x, ys') := Scan(op, xs[0], ys);
      var (rest, ys'') := CancelLists(op, xs[1..], ys');
      ([x] + rest, ys'')
  }

  lemma {:induction false} ScanAppend(op: BoolOp, x: Expr, ys: seq<Expr>, zs: seq<Expr>)
    ensures var a := Scan(op, x, ys);
            var b := Scan(op, a.0, zs);
            Scan(op, x, ys + zs) == (b.0, a.1 + b.1)
    decreases |ys|
  {
    var a := Scan(op, x, ys);
    if ys == [] {
      assert ys + zs == zs && a.1 + Scan(op, x, zs).1 == Scan(op, x, zs).1;
    } else {
      assert (ys + zs)[0] == ys[0] && (ys + zs)[1..] == ys[1..] + zs;
      var r := CancelOperands(op, x, ys[0]);
      ScanAppend(op, r.0, ys[1..], zs);
      var a' := Scan(op, r.0, ys[1..]);
      assert a.1 == [r.1] + a'.1;
      var b := Scan(op, a.0, zs);
      assert a.1 + b.1 == [r.1] + (a'.1 + b.1);
    }
  }

  lemma {:induction false} CancelAppend(op: BoolOp, xs: seq<Expr>, zs: seq<Expr>, ys: seq<Expr>)
    ensures var a := CancelLists(op, xs, ys);
            var b := CancelLists(op, zs, a.1);
            CancelLists(op, xs + zs, ys) == (a.0 + b.0, b.1)
    decreases |xs|
  {
    var a := CancelLists(op, xs, ys);
    var b := CancelLists(op, zs, a.1);
    if xs == [] {
      assert xs + zs == zs && a.0 + b.0 == b.0;
    } else {
      assert (xs + zs)[0] == xs[0] && (xs + zs)[1..] == xs[1..] + zs;
      var s := Scan(op, xs[0], ys);
      CancelAppend(op, xs[1..], zs, s.1);
      var a' := CancelLists(op, xs[1..], s.1);
      assert a.0 == [s.0] + a'.0;
      assert a.0 + b.0 == [s.0] + (a'.0 + b.0);
    }
  }

  lemma {:induction false} ScanTree(op: BoolOp, x: Expr, e: Expr)
    requires !Rooted(op, x)
    ensures !Rooted(op, CancelOperands(op, x, e).0)
    ensures Scan(op, x, Operands(op, e)) == (CancelOperands(op, x, e).0, Operands(op, CancelOperands(op, x, e).1))
    decreases e
  {
    if Rooted(op, e) {
      var x' := CancelOperands(op, x, e.left).0;
      ScanTree(op, x, e.left);
      ScanTree(op, x', e.right);
      ScanAppend(op, x, Operands(op, e.left), Operands(op, e.right));
    } else {
      assert Operands(op, e) == [e];
      var r := CancelOperands(op, x, e);
      assert Scan(op, r.0, []) == (r.0, []);
      assert [r.1] + [] == [r.1];
    }
  }

  /** Walking two trees cancels as walking their operand lists does. */
  lemma {:induction false} CancelTree(op: BoolOp, e1: Expr, e2: Expr)
    ensures var r := CancelOperands(op, e1, e2);
            CancelLists(op, Operands(op, e1), Operands(op, e2)) == (Operands(op, r.0), Operands(op, r.1))
  {
    if Rooted(op, e1) {
      var e2' := CancelOperands(op, e1.left, e2).1;
      CancelTree(op, e1.left, e2);
      CancelTree(op, e1.right, e2');
      CancelAppend(op, Operands(op, e1.left), Operands(op, e1.right), Operands(op, e2));
    } else {
      ScanTree(op, e1, e2);
      var r := CancelOperands(op, e1, e2);
      assert Operands(op, e1) == [e1] && Operands(op, r.0) == [r.0];
      var s := Scan(op, e1, Operands(op, e2));
      assert CancelLists(op, [], s.1) == ([], s.1);
      assert [s.0] + [] == [s.0];
    }
  }

  // ----- a list against itself -----

  function Cancelled(op: BoolOp, x: Expr): Expr { if IsYn(x) then x else Unit(op) }

  function AllCancelled(op: BoolOp, xs: seq<Expr>): (r: seq<Expr>)
    ensures forall x :: x in r ==> IsYn(x)
  {
    if xs == [] then [] else [Cancelled(op, xs[0])] + AllCancelled(op, xs[1..])
  }

  /** Nothing happens between y or n and anything that is not the same. */
  lemma {:induction false} ScanInert(op: BoolOp, x: Expr, ys: seq<Expr>)
    requires !Rooted(op, x) && forall y :: y in ys ==> !Rooted(op, y) && (IsYn(x) || IsYn(y))
    ensures Scan(op, x, ys) == (x, ys)
  {
    if ys != [] {
      assert CancelOperands(op, x, ys[0]) == (x, ys[0]);
      ScanInert(op, x, ys[1..]);
      assert ys == [ys[0]] + ys[1..];
    }
  }

  lemma ScanSelf(op: BoolOp, done: seq<Expr>, x: Expr, tail: seq<Expr>)
    requires forall y :: y in done ==> IsYn(y)
    requires !Rooted(op, x) && ExprEq(x, x)
    requires forall y :: y in tail ==> !Rooted(op, y)
    ensures Scan(op, x, done + ([x] + tail)) == (Cancelled(op, x), done + ([Cancelled(op, x)] + tail))
  {
    var c := Cancelled(op, x);
    ScanInert(op, x, done);
    ScanAppend(op, x, done, [x] + tail);
    assert CancelOperands(op, x, x) == (c, c);
    assert ([x] + tail)[1..] == tail && ([x] + tail)[0] == x;
    ScanInert(op, c, tail);
    assert Scan(op, x, [x] + tail) == (c, [c] + tail);
  }

  lemma {:induction false} CancelSelf(op: BoolOp, done: seq<Expr>, rest: seq<Expr>)
    requires forall y :: y in done ==> IsYn(y)
    requires forall x :: x in rest ==> !Rooted(op, x) && ExprEq(x, x)
    ensures CancelLists(op, rest, done + rest) == (AllCancelled(op, rest), done + AllCancelled(op, rest))
    decreases |rest|
  {
    if rest == [] {
      assert done + rest == done && done + AllCancelled(op, rest) == done;
    } else {
      var x, tail, c := rest[0], rest[1..], Cancelled(op, rest[0]);
      assert done + rest == done + ([x] + tail);
      ScanSelf(op, done, x, tail);
      assert done + ([c] + tail) == (done + [c]) + tail;
      CancelSelf(op, done + [c], tail);
      assert (done + [c]) + AllCancelled(op, tail) == done + ([c] + AllCancelled(op, tail));
    }
  }

  /** A level of nothing but y and n folds to a constant its operands determine. */
  lemma {:induction false} FoldYn(op: BoolOp, e: Expr)
    requires forall x :: x in Operands(op, e) ==> IsYn(x)
    ensures EliminateYn(e) == if Absorber(op) in Operands(op, e) then Absorber(op) else Unit(op)
  {
    if Rooted(op, e) {
      FoldYn(op, e.left);
      FoldYn(op, e.right);
    } else {
      assert e in Operands(op, e);
    }
  }

  lemma {:induction false} ExprEqReflexive(e: Expr)
    ensures ExprEq(e, e)
    decreases Size(e)
  {
    if e.Not? {
      ExprEqReflexive(e.arg);
    } else if e.Bin? {
      RegroupingEqual(e, e);
    }
  }

  /** Expressions with the same operands in the same order are equal, however
      the operands are grouped. */
  lemma {:induction false} RegroupingEqual(e1: Expr, e2: Expr)
    requires e1.Bin? && e2.Bin? && e1.op == e2.op
    requires Operands(e1.op, e1) == Operands(e1.op, e2)
    ensures ExprEq(e1, e2)
    decreases Size(e1), 0
  {
    var op, ops := e1.op, Operands(e1.op, e1);
    OperandsUnrooted(op, e1);
    forall x | x in ops
      ensures ExprEq(x, x)
    {
      ExprEqReflexive(x);
    }
    CancelSelf(op, [], ops);
    assert [] + ops == ops && [] + AllCancelled(op, ops) == AllCancelled(op, ops);
    CancelTree(op, e1, e2);
    CancelKeepsRoot(op, e1, e2);
    ResidueConstant(op, e1, e2);
  }

  lemma ResidueConstant(op: BoolOp, e1: Expr, e2: Expr)
    requires Rooted(op, e1) && Rooted(op, e2)
    requires var r := CancelOperands(op, e1, e2);
             && Rooted(op, r.1)
             && Operands(op, r.0) == Operands(op, r.1)
             && forall x :: x in Operands(op, r.0) ==> IsYn(x)
    ensures ExprEq(e1, e2)
  {
    var r := CancelOperands(op, e1, e2);
    FoldYn(op, r.0);
    FoldYn(op, r.1);
    assert EliminateEq(e1, e2) == (EliminateYn(r.0), EliminateYn(r.1));
  }

  lemma {:induction false} OperandsUnrooted(op: BoolOp, e: Expr)
    ensures forall x :: x in Operands(op, e) ==> !Rooted(op, x)
  {
    if Rooted(op, e) {
      OperandsUnrooted(op, e.left);
      OperandsUnrooted(op, e.right);
    }
  }

  lemma {:induction false} CancelKeepsRoot(op: BoolOp, e1: Expr, e2: Expr)
    requires Rooted(op, e2)
    ensures Rooted(op, CancelOperands(op, e1, e2).1)
    decreases Size(e1)
  {
    if Rooted(op, e1) {
      CancelKeepsRoot(op, e1.left, e2);
      CancelKeepsRoot(op, e1.right, CancelOperands(op, e1.left, e2).1);
    }
  }
}
