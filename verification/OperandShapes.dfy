/** What the equality test decides: order and grouping of operands do not matter, how
    often an operand occurs does, and operands y or n below the top level spoil it. */
module OperandShapes {
  import opened Expressions
  import opened Equality
  import opened Slots
  import opened OperandLists

  /** An expression up to order and grouping of operands, at every depth. */
  datatype Shape = Atom(e: Expr) | Negated(s: Shape) | Level(op: BoolOp, operands: multiset<Shape>)

  function ShapeOf(e: Expr): Shape
    decreases e, 0
  {
    match e
    case Sym(_) => Atom(e)
    case Compare(_, _, _) => Atom(e)
    case Not(a) => Negated(ShapeOf(a))
    case Bin(op, l, r) => Level(op, Shapes(op, l) + Shapes(op, r))
  }

  /** The operands of a level, each up to order and grouping. */
  function Shapes(op: BoolOp, e: Expr): multiset<Shape>
    decreases e, 1
  {
    if Rooted(op, e) then Shapes(op, e.left) + Shapes(op, e.right) else multiset{ShapeOf(e)}
  }

  /** No operand, at any depth, is y or n. */
  predicate ConstantFree(e: Expr) {
    match e
    case Sym(_) => true
    case Compare(_, _, _) => true
    case Not(a) => ConstantFree(a)
    case Bin(_, l, r) => !IsYn(l) && !IsYn(r) && ConstantFree(l) && ConstantFree(r)
  }

  /** An operand of a constant-free level. */
  predicate Free(op: BoolOp, x: Expr) { ConstantFree(x) && !IsYn(x) && !Rooted(op, x) }

  /** A level some of whose operands have been cancelled. */
  ghost predicate Partly(op: BoolOp, xs: seq<Expr>) { forall x :: x in xs ==> Free(op, x) || x == Unit(op) }

  /** The operands that are left. */
  function Kept(op: BoolOp, xs: seq<Expr>): multiset<Shape> {
    if xs == [] then multiset{}
    else (if xs[0] == Unit(op) then multiset{} else multiset{ShapeOf(xs[0])}) + Kept(op, xs[1..])
  }

  /** The test is exact for x against every operand that is left of ys. */
  ghost predicate Exact(op: BoolOp, x: Expr, ys: seq<Expr>) {
    forall y :: y in ys && y != Unit(op) ==> (ExprEq(x, y) <==> ShapeOf(x) == ShapeOf(y))
  }

  lemma FreeEqual(op: BoolOp, x: Expr, y: Expr)
    requires (Free(op, x) || x == Unit(op)) && (Free(op, y) || y == Unit(op))
    requires x != Unit(op) && y != Unit(op) ==> (ExprEq(x, y) <==> ShapeOf(x) == ShapeOf(y))
    ensures CancelOperands(op, x, y) ==
            if x != Unit(op) && y != Unit(op) && ShapeOf(x) == ShapeOf(y) then (Unit(op), Unit(op)) else (x, y)
    ensures Free(op, x) ==> x != Unit(op)
  {
    hide ShapeOf, ConstantFree;
  }

  lemma KeptCons(op: BoolOp, x: Expr, xs: seq<Expr>)
    ensures Kept(op, [x] + xs) == (if x == Unit(op) then multiset{} else multiset{ShapeOf(x)}) + Kept(op, xs)
  {
    hide ShapeOf;
    assert ([x] + xs)[1..] == xs;
  }

  lemma KeptNone(op: BoolOp)
    ensures Kept(op, []) == multiset{}
  {}

  lemma PartlyCons(op: BoolOp, x: Expr, xs: seq<Expr>)
    ensures Partly(op, [x] + xs) <==> (Free(op, x) || x == Unit(op)) && Partly(op, xs)
  {
    hide Free;
    assert x in [x] + xs && forall y :: y in xs ==> y in [x] + xs;
  }

  lemma ExactCons(op: BoolOp, x: Expr, y: Expr, ys: seq<Expr>)
    ensures Exact(op, x, [y] + ys) <==>
            (y != Unit(op) ==> (ExprEq(x, y) <==> ShapeOf(x) == ShapeOf(y))) && Exact(op, x, ys)
  {
    hide ShapeOf, ExprEq;
    assert y in [y] + ys && forall z :: z in ys ==> z in [y] + ys;
  }

  lemma DropOther<T>(y: T, rest: multiset<T>, x: T)
    requires x != y
    ensures multiset{y} + (rest - multiset{x}) == (multiset{y} + rest) - multiset{x}
    ensures x in multiset{y} + rest <==> x in rest
  {}

  /** Taking x from both sides of a difference. */
  lemma TakeOne<T(!new)>(x: T, xs: multiset<T>, ys: multiset<T>)
    ensures ys - multiset{x} - xs == ys - (multiset{x} + xs)
    ensures (multiset{x} + xs) - ys == if x in ys then xs - (ys - multiset{x}) else multiset{x} + (xs - ys)
  {
    var a, b := (multiset{x} + xs) - ys, if x in ys then xs - (ys - multiset{x}) else multiset{x} + (xs - ys);
    forall e ensures a[e] == b[e] {}
  }

  /** Nothing but cancelled operands is new. */
  ghost predicate Within(op: BoolOp, ys': seq<Expr>, ys: seq<Expr>) {
    forall y :: y in ys' ==> y in ys || y == Unit(op)
  }

  lemma WithinCons(op: BoolOp, y': Expr, ys': seq<Expr>, y: Expr, ys: seq<Expr>)
    requires Within(op, ys', ys) && (y' == y || y' == Unit(op))
    ensures Within(op, [y'] + ys', [y] + ys)
  {
    assert y in [y] + ys && forall z :: z in ys ==> z in [y] + ys;
  }

  lemma WithinSelf(op: BoolOp, ys: seq<Expr>)
    ensures Within(op, ys, ys)
  {}

  lemma ExactWithin(op: BoolOp, x: Expr, ys': seq<Expr>, ys: seq<Expr>)
    requires Exact(op, x, ys) && Within(op, ys', ys)
    ensures Exact(op, x, ys')
  {
    hide ExprEq, ShapeOf;
  }

  /** The operand x has been cancelled with one occurrence of an equal one in ys, if there
      is one, and r is what remains. */
  ghost predicate Scanned(op: BoolOp, x: Expr, ys: seq<Expr>, r: (Expr, seq<Expr>)) {
    && Partly(op, r.1) && Within(op, r.1, ys)
    && r.0 == (if ShapeOf(x) in Kept(op, ys) then Unit(op) else x)
    && Kept(op, r.1) == Kept(op, ys) - multiset{ShapeOf(x)}
  }

  lemma {:induction false} ScanFree(op: BoolOp, x: Expr, ys: seq<Expr>)
    requires Free(op, x) && Partly(op, ys) && Exact(op, x, ys)
    ensures Scanned(op, x, ys, Scan(op, x, ys))
    decreases |ys|
  {
    hide CancelOperands, Free, Partly, Unit, Kept, Exact, ShapeOf, ExprEq, Within, Scanned;
    if ys == [] {
      ScannedNone(op, x);
    } else {
      var y, rest := ys[0], ys[1..];
      assert ys == [y] + rest;
      PartlyCons(op, y, rest);
      ExactCons(op, x, y, rest);
      FreeEqual(op, x, y);
      if y != Unit(op) && ShapeOf(x) == ShapeOf(y) {
        ScanUnit(op, rest);
        ScannedHit(op, x, y, rest);
      } else {
        ScanFree(op, x, rest);
        ScannedMiss(op, x, y, rest, Scan(op, x, rest));
      }
    }
  }

  lemma ScannedNone(op: BoolOp, x: Expr)
    ensures Scanned(op, x, [], (x, []))
  {}

  lemma ScannedHit(op: BoolOp, x: Expr, y: Expr, rest: seq<Expr>)
    requires Partly(op, rest) && y != Unit(op) && ShapeOf(x) == ShapeOf(y)
    ensures Scanned(op, x, [y] + rest, (Unit(op), [Unit(op)] + rest))
  {
    hide Free, Partly, Unit, Kept, ShapeOf, Within;
    KeptCons(op, y, rest);
    PartlyCons(op, Unit(op), rest);
    KeptCons(op, Unit(op), rest);
    WithinSelf(op, rest);
    WithinCons(op, Unit(op), rest, y, rest);
  }

  lemma ScannedMiss(op: BoolOp, x: Expr, y: Expr, rest: seq<Expr>, r: (Expr, seq<Expr>))
    requires Free(op, y) || y == Unit(op)
    requires y == Unit(op) || ShapeOf(x) != ShapeOf(y)
    requires Scanned(op, x, rest, r)
    ensures Scanned(op, x, [y] + rest, (r.0, [y] + r.1))
  {
    hide Free, Partly, Unit, Kept, ShapeOf, Within;
    KeptCons(op, y, rest);
    KeptCons(op, y, r.1);
    PartlyCons(op, y, r.1);
    WithinCons(op, y, r.1, y, rest);
    if y != Unit(op) {
      DropOther(ShapeOf(y), Kept(op, rest), ShapeOf(x));
    }
  }

  /** What is already cancelled stays so. */
  lemma {:induction false} ScanUnit(op: BoolOp, ys: seq<Expr>)
    requires Partly(op, ys)
    ensures Scan(op, Unit(op), ys) == (Unit(op), ys)
  {
    hide CancelOperands, Free, Partly, Unit, ShapeOf;
    if ys != [] {
      assert ys == [ys[0]] + ys[1..];
      PartlyCons(op, ys[0], ys[1..]);
      FreeEqual(op, Unit(op), ys[0]);
      ScanUnit(op, ys[1..]);
    }
  }

  /** Each side keeps what it has more of than the other. */
  lemma {:induction false} CancelFree(op: BoolOp, xs: seq<Expr>, ys: seq<Expr>)
    requires (forall x :: x in xs ==> Free(op, x) && Exact(op, x, ys)) && Partly(op, ys)
    ensures var r := CancelLists(op, xs, ys);
            Partly(op, r.0) && Partly(op, r.1) && Remaining(op, xs, ys, r)
    decreases |xs|
  {
    hide Scan, Free, Unit, Kept, Partly, Exact, Within, ShapeOf, Remaining;
    if xs == [] {
      PartlyNone(op);
      RemainingNone(op, ys);
    } else {
      var x, rest := xs[0], xs[1..];
      assert x in xs && xs == [x] + rest;
      var s := Scan(op, x, ys);
      ScanFree(op, x, ys);
      forall z | z in rest ensures Free(op, z) && Exact(op, z, s.1) {
        assert z in xs;
        ExactWithin(op, z, s.1, ys);
      }
      CancelFree(op, rest, s.1);
      var r := CancelLists(op, rest, s.1);
      PartlyCons(op, s.0, r.0);
      RemainingMore(op, x, rest, ys, s, r);
    }
  }

  ghost predicate Remaining(op: BoolOp, xs: seq<Expr>, ys: seq<Expr>, r: (seq<Expr>, seq<Expr>)) {
    Kept(op, r.0) == Kept(op, xs) - Kept(op, ys) && Kept(op, r.1) == Kept(op, ys) - Kept(op, xs)
  }

  lemma RemainingNone(op: BoolOp, ys: seq<Expr>)
    ensures Remaining(op, [], ys, ([], ys))
  {
    hide ShapeOf;
    KeptNone(op);
  }

  lemma RemainingMore(op: BoolOp, x: Expr, rest: seq<Expr>, ys: seq<Expr>, s: (Expr, seq<Expr>),
                      r: (seq<Expr>, seq<Expr>))
    requires Free(op, x) && Scanned(op, x, ys, s) && Remaining(op, rest, s.1, r)
    ensures Remaining(op, [x] + rest, ys, ([s.0] + r.0, r.1))
  {
    hide Free, Unit, Kept, Partly, Within, ShapeOf;
    NotUnit(op, x);
    KeptCons(op, s.0, r.0);
    KeptCons(op, x, rest);
    TakeOne(ShapeOf(x), Kept(op, rest), Kept(op, ys));
  }

  lemma PartlyNone(op: BoolOp)
    ensures Partly(op, [])
  {}

  lemma NotUnit(op: BoolOp, x: Expr)
    requires Free(op, x)
    ensures x != Unit(op)
  {}

  lemma {:induction false} KeptAppend(op: BoolOp, xs: seq<Expr>, ys: seq<Expr>)
    ensures Kept(op, xs + ys) == Kept(op, xs) + Kept(op, ys)
    decreases |xs|
  {
    hide ShapeOf;
    if xs == [] {
      assert xs + ys == ys;
    } else {
      assert (xs + ys)[1..] == xs[1..] + ys;
      KeptAppend(op, xs[1..], ys);
    }
  }

  /** Of a whole level everything is left. */
  lemma {:induction false} KeptLevel(op: BoolOp, e: Expr)
    requires ConstantFree(e) && !IsYn(e)
    ensures (forall x :: x in Operands(op, e) ==> Free(op, x)) && Kept(op, Operands(op, e)) == Shapes(op, e)
    ensures Partly(op, Operands(op, e))
  {
    hide ShapeOf;
    if Rooted(op, e) {
      KeptLevel(op, e.left);
      KeptLevel(op, e.right);
      KeptAppend(op, Operands(op, e.left), Operands(op, e.right));
    } else {
      KeptOne(op, e);
    }
  }

  lemma KeptOne(op: BoolOp, x: Expr)
    ensures Kept(op, [x]) == if x == Unit(op) then multiset{} else multiset{ShapeOf(x)}
  {
    hide ShapeOf;
    assert [x][1..] == [];
  }

  /** r has the operands k, and is the unit only if there are none. */
  ghost predicate Folded(op: BoolOp, r: Expr, k: multiset<Shape>) {
    && r != Absorber(op) && Partly(op, Operands(op, r)) && Kept(op, Operands(op, r)) == k
    && (r == Unit(op) <==> k == multiset{})
    && (r.Sym? && r != Unit(op) ==> k == multiset{ShapeOf(r)})
  }

  /** Folding a level drops what is cancelled and keeps the rest. */
  lemma {:induction false} FoldPartly(op: BoolOp, e: Expr)
    requires Partly(op, Operands(op, e))
    ensures Folded(op, EliminateYn(e), Kept(op, Operands(op, e)))
    decreases e
  {
    hide Partly, Kept, EliminateYn, Folded, Free, Unit, Absorber;
    if Rooted(op, e) {
      var l, r := Operands(op, e.left), Operands(op, e.right);
      PartlyAppend(op, l, r);
      FoldPartly(op, e.left);
      FoldPartly(op, e.right);
      KeptAppend(op, l, r);
      FoldBoth(op, EliminateYn(e.left), EliminateYn(e.right), Kept(op, l), Kept(op, r));
      FoldNode(op, e);
    } else {
      FoldLeaf(op, e);
    }
  }

  lemma PartlyAppend(op: BoolOp, xs: seq<Expr>, ys: seq<Expr>)
    ensures Partly(op, xs + ys) <==> Partly(op, xs) && Partly(op, ys)
  {
    hide Free, Unit;
    assert (forall x :: x in xs ==> x in xs + ys) && (forall x :: x in ys ==> x in xs + ys);
  }

  lemma FoldLeaf(op: BoolOp, e: Expr)
    requires Partly(op, [e]) && !Rooted(op, e)
    ensures Folded(op, EliminateYn(e), Kept(op, Operands(op, e)))
  {
    hide ShapeOf, EliminateYn, Kept;
    assert e in [e];
    KeptOne(op, e);
    FreeFixed(e);
    EliminateYnFolds(e);
  }

  lemma {:induction false} FreeFixed(e: Expr)
    requires ConstantFree(e)
    ensures !HasConstantOperand(e)
  {
    if e.Bin? {
      FreeFixed(e.left);
      FreeFixed(e.right);
    }
  }

  lemma FoldBoth(op: BoolOp, l: Expr, r: Expr, k: multiset<Shape>, k': multiset<Shape>)
    requires Folded(op, l, k) && Folded(op, r, k')
    ensures Folded(op, if l == Unit(op) then r else if r == Unit(op) then l else Bin(op, l, r), k + k')
  {
    hide Partly, Kept, Free, ShapeOf;
    var e := Bin(op, l, r);
    assert Operands(op, e) == Operands(op, l) + Operands(op, r);
    PartlyAppend(op, Operands(op, l), Operands(op, r));
    KeptAppend(op, Operands(op, l), Operands(op, r));
    assert k == multiset{} ==> k + k' == k';
    assert k' == multiset{} ==> k + k' == k;
    assert k != multiset{} ==> k + k' != multiset{};
  }

  lemma FoldNode(op: BoolOp, e: Expr)
    requires Rooted(op, e)
    requires exists k :: Folded(op, EliminateYn(e.left), k)
    requires exists k :: Folded(op, EliminateYn(e.right), k)
    ensures var l, r := EliminateYn(e.left), EliminateYn(e.right);
            EliminateYn(e) == if l == Unit(op) then r else if r == Unit(op) then l else Bin(op, l, r)
  {}

  /** Without y or n among the operands the test is exact: two expressions are equal if
      and only if they agree up to order and grouping of operands at every depth. */
  lemma {:induction false} PermutationExact(e1: Expr, e2: Expr)
    requires ConstantFree(e1) && ConstantFree(e2)
    ensures ExprEq(e1, e2) <==> ShapeOf(e1) == ShapeOf(e2)
    decreases Size(e1) + Size(e2)
  {
    if e1.Not? && e2.Not? {
      PermutationExact(e1.arg, e2.arg);
    } else if e1.Bin? && e2.Bin? && e1.op == e2.op {
      var xs, ys := Operands(e1.op, e1), Operands(e1.op, e2);
      KeptLevel(e1.op, e1);
      KeptLevel(e1.op, e2);
      forall x, y | x in xs && y in ys
        ensures ExprEq(x, y) <==> ShapeOf(x) == ShapeOf(y)
      {
        assert Free(e1.op, x) && Free(e1.op, y);
        PermutationExact(x, y);
      }
      LevelExact(e1, e2);
    }
  }

  /** So on such expressions it is an equivalence. */
  lemma EqualityIsEquivalence(e1: Expr, e2: Expr, e3: Expr)
    requires ConstantFree(e1) && ConstantFree(e2) && ConstantFree(e3)
    ensures ExprEq(e1, e1) && (ExprEq(e1, e2) ==> ExprEq(e2, e1))
    ensures ExprEq(e1, e2) && ExprEq(e2, e3) ==> ExprEq(e1, e3)
  {
    hide ExprEq, ShapeOf;
    PermutationExact(e1, e1);
    PermutationExact(e1, e2);
    PermutationExact(e2, e1);
    PermutationExact(e2, e3);
    PermutationExact(e1, e3);
  }

  /** One level, the test being exact for its operands. */
  lemma LevelExact(e1: Expr, e2: Expr)
    requires ConstantFree(e1) && ConstantFree(e2) && e1.Bin? && e2.Bin? && e1.op == e2.op
    requires forall x, y :: x in Operands(e1.op, e1) && y in Operands(e1.op, e2) ==>
                              (ExprEq(x, y) <==> ShapeOf(x) == ShapeOf(y))
    ensures ExprEq(e1, e2) <==> Shapes(e1.op, e1) == Shapes(e1.op, e2)
    ensures ShapeOf(e1) == ShapeOf(e2) <==> Shapes(e1.op, e1) == Shapes(e1.op, e2)
  {
    hide CancelOperands, EliminateYn, ExprEq, Free, Kept, CancelLists, Unit, ConstantFree;
    var op, xs, ys := e1.op, Operands(e1.op, e1), Operands(e1.op, e2);
    var r := CancelOperands(op, e1, e2);
    KeptLevel(op, e1);
    KeptLevel(op, e2);
    assert forall x :: x in xs ==> Exact(op, x, ys);
    CancelTree(op, e1, e2);
    CancelFree(op, xs, ys);
    assert Remaining(op, xs, ys, CancelLists(op, xs, ys));
    CancelRoots(op, e1, e2);
    FoldPartly(op, r.0);
    FoldPartly(op, r.1);
    FoldedEqual(op, e1, e2);
    DifferenceExact(op, Shapes(op, e1), Shapes(op, e2), EliminateYn(r.0), EliminateYn(r.1));
  }

  lemma FoldedEqual(op: BoolOp, e1: Expr, e2: Expr)
    requires Rooted(op, e1) && Rooted(op, e2)
    requires var r := CancelOperands(op, e1, e2); Rooted(op, r.0) && Rooted(op, r.1)
    ensures var r := CancelOperands(op, e1, e2);
            ExprEq(e1, e2) <==> EliminateYn(r.0).Sym? && EliminateYn(r.0) == EliminateYn(r.1)
  {
    hide CancelOperands, EliminateYn;
  }

  /** Two residues are equal only if both are empty. */
  lemma DifferenceExact(op: BoolOp, x: multiset<Shape>, y: multiset<Shape>, a: Expr, b: Expr)
    requires a == Unit(op) <==> x - y == multiset{}
    requires b == Unit(op) <==> y - x == multiset{}
    requires a.Sym? && a != Unit(op) ==> x - y == multiset{ShapeOf(a)}
    requires b.Sym? && b != Unit(op) ==> y - x == multiset{ShapeOf(b)}
    ensures a.Sym? && a == b <==> x == y
  {
    hide ShapeOf;
    var s := ShapeOf(a);
    assert x - y == multiset{s} ==> s !in y - x;
    assert x == y ==> x - y == multiset{};
    if x - y == multiset{} == y - x {
      NoDifference(x, y);
    }
  }

  lemma NoDifference<T(!new)>(x: multiset<T>, y: multiset<T>)
    requires x - y == multiset{} && y - x == multiset{}
    ensures x == y
  {
    forall e
      ensures x[e] == y[e]
    {
      assert (x - y)[e] == 0 && (y - x)[e] == 0;
    }
  }

  lemma {:induction false} CancelRoots(op: BoolOp, e1: Expr, e2: Expr)
    requires Rooted(op, e1) && Rooted(op, e2)
    ensures Rooted(op, CancelOperands(op, e1, e2).0) && Rooted(op, CancelOperands(op, e1, e2).1)
  {
    CancelKeepsRoot(op, e1, e2);
  }

  /** A repeated operand is not ignored: A && A && B differs from A && B. */
  lemma RepetitionMatters(a: Expr, b: Expr)
    requires ConstantFree(a) && ConstantFree(b) && !IsYn(a) && !IsYn(b)
    ensures !ExprEq(Bin(AND, Bin(AND, a, a), b), Bin(AND, a, b))
  {
    hide ShapeOf, ExprEq, Shapes;
    var e1, e2 := Bin(AND, Bin(AND, a, a), b), Bin(AND, a, b);
    PermutationExact(e1, e2);
    SomeShape(AND, a);
    TwoLevels(a, b);
    assert |Shapes(AND, a) + Shapes(AND, a) + Shapes(AND, b)| > |Shapes(AND, a) + Shapes(AND, b)|;
  }

  lemma TwoLevels(a: Expr, b: Expr)
    ensures ShapeOf(Bin(AND, Bin(AND, a, a), b)) == Level(AND, Shapes(AND, a) + Shapes(AND, a) + Shapes(AND, b))
    ensures ShapeOf(Bin(AND, a, b)) == Level(AND, Shapes(AND, a) + Shapes(AND, b))
  {}

  lemma {:induction false} SomeShape(op: BoolOp, e: Expr)
    ensures |Shapes(op, e)| > 0
  {
    if Rooted(op, e) {
      SomeShape(op, e.left);
    }
  }

  // ----- operands y or n below the top level -----

  function OrNo(x: Expr): Expr { Bin(OR, x, Sym(No)) }

  /** Three spellings of A && B. */
  function Spelling(k: nat, a: Symbol, b: Symbol): Expr {
    Bin(AND, if k < 2 then OrNo(Sym(a)) else Sym(a), if k < 1 then OrNo(Sym(b)) else Sym(b))
  }

  /** What one operand meets in a pair. */
  lemma ScanPair(op: BoolOp, x: Expr, y1: Expr, y2: Expr)
    requires !Rooted(op, x) && !Rooted(op, y1) && !Rooted(op, y2)
    requires x == Unit(op) || !IsYn(x)
    requires IsYn(y1) ==> y1 == Unit(op)
    requires IsYn(y2) ==> y2 == Unit(op)
    ensures CancelOperands(op, x, Bin(op, y1, y2)) ==
            if x == Unit(op) then (x, Bin(op, y1, y2))
            else if ExprEq(x, y1) then (Unit(op), Bin(op, Unit(op), y2))
            else if ExprEq(x, y2) then (Unit(op), Bin(op, y1, Unit(op)))
            else (x, Bin(op, y1, y2))
  {
    hide ExprEq, CancelOperands;
    UnitAlone(op, y1);
    UnitAlone(op, y2);
    OneOperand(op, x, y1);
    OneOperand(op, x, y2);
    OneOperand(op, Unit(op), y2);
    CancelRightPair(op, x, y1, y2);
  }

  lemma CancelRightPair(op: BoolOp, x: Expr, y1: Expr, y2: Expr)
    requires !Rooted(op, x)
    ensures var (a1, b1) := CancelOperands(op, x, y1);
            var (a2, b2) := CancelOperands(op, a1, y2);
            CancelOperands(op, x, Bin(op, y1, y2)) == (a2, Bin(op, b1, b2))
  {}

  lemma UnitAlone(op: BoolOp, y: Expr)
    ensures ExprEq(Unit(op), y) <==> y == Unit(op)
    ensures ExprEq(y, Unit(op)) <==> y == Unit(op)
  {}

  lemma NamesEqual(a: Symbol, b: Symbol)
    ensures ExprEq(Sym(a), Sym(b)) <==> a == b
    ensures !ExprEq(OrNo(Sym(a)), Sym(b)) && !ExprEq(Sym(b), OrNo(Sym(a)))
    ensures ExprEq(OrNo(Sym(a)), OrNo(Sym(a)))
    ensures a.Config? ==> EliminateYn(OrNo(Sym(a))) == Sym(a)
  {
    ExprEqReflexive(OrNo(Sym(a)));
  }

  lemma PairResidues(x1: Expr, x2: Expr, y1: Expr, y2: Expr, a: Expr, b: Expr)
    requires CancelOperands(AND, Bin(AND, x1, x2), Bin(AND, y1, y2)) == (a, b) && Rooted(AND, a) && Rooted(AND, b)
    ensures ExprEq(Bin(AND, x1, x2), Bin(AND, y1, y2)) <==> EliminateYn(a).Sym? && EliminateYn(a) == EliminateYn(b)
  {
    hide CancelOperands, EliminateYn, ExprEq;
    FoldedEqual(AND, Bin(AND, x1, x2), Bin(AND, y1, y2));
  }

  lemma CancelPair(x1: Expr, x2: Expr, y: Expr)
    ensures var (a1, b1) := CancelOperands(AND, x1, y);
            var (a2, b2) := CancelOperands(AND, x2, b1);
            CancelOperands(AND, Bin(AND, x1, x2), y) == (Bin(AND, a1, a2), b2)
  {}

  /** Each spelling is equal to the next, ... */
  lemma NextSpelling(a: Symbol, b: Symbol)
    requires a.Config? && b.Config? && a != b
    ensures ExprEq(Spelling(0, a, b), Spelling(1, a, b)) && ExprEq(Spelling(1, a, b), Spelling(2, a, b))
  {
    hide ExprEq, CancelOperands;
    var x, y, s, t, u := OrNo(Sym(a)), OrNo(Sym(b)), Sym(a), Sym(b), Sym(Yes);
    NamesEqual(a, b);
    NamesEqual(b, a);
    NamesEqual(b, Yes);
    NamesEqual(a, a);
    NamesEqual(b, b);
    CancelPair(x, y, Bin(AND, x, t));
    ScanPair(AND, x, x, t);
    ScanPair(AND, y, u, t);
    PairResidues(x, y, x, t, Bin(AND, u, y), Bin(AND, u, t));
    CancelPair(x, t, Bin(AND, s, t));
    ScanPair(AND, x, s, t);
    ScanPair(AND, t, s, t);
    PairResidues(x, t, s, t, Bin(AND, x, u), Bin(AND, s, u));
  }

  /** ... but the first is not equal to the last. */
  lemma FarSpelling(a: Symbol, b: Symbol)
    requires a.Config? && b.Config? && a != b
    ensures !ExprEq(Spelling(0, a, b), Spelling(2, a, b)) && !ExprEq(Spelling(2, a, b), Spelling(0, a, b))
  {
    hide ExprEq, CancelOperands;
    var x, y, s, t := OrNo(Sym(a)), OrNo(Sym(b)), Sym(a), Sym(b);
    NamesEqual(a, b);
    NamesEqual(b, a);
    NamesEqual(a, a);
    NamesEqual(b, b);
    CancelPair(x, y, Bin(AND, s, t));
    ScanPair(AND, x, s, t);
    ScanPair(AND, y, s, t);
    PairResidues(x, y, s, t, Bin(AND, x, y), Bin(AND, s, t));
    CancelPair(s, t, Bin(AND, x, y));
    ScanPair(AND, s, x, y);
    ScanPair(AND, t, x, y);
    PairResidues(s, t, x, y, Bin(AND, s, t), Bin(AND, x, y));
  }

  lemma ScanThree(op: BoolOp, x: Expr, y1: Expr, y2: Expr, y3: Expr)
    requires !Rooted(op, x) && !Rooted(op, y1) && !Rooted(op, y2) && !Rooted(op, y3)
    ensures var (a1, b1) := CancelOperands(op, x, y1);
            var (a2, b2) := CancelOperands(op, a1, y2);
            var (a3, b3) := CancelOperands(op, a2, y3);
            CancelOperands(op, x, Bin(op, Bin(op, y1, y2), y3)) == (a3, Bin(op, Bin(op, b1, b2), b3))
  {
    assert CancelOperands(op, x, y1).0 == x || CancelOperands(op, x, y1).0 == Unit(op);
  }

  lemma OneOperand(op: BoolOp, x: Expr, y: Expr)
    requires !Rooted(op, x) && !Rooted(op, y) && (IsYn(x) ==> x == Unit(op)) && (IsYn(y) ==> y == Unit(op))
    ensures CancelOperands(op, x, y) == if ExprEq(x, y) then (Unit(op), Unit(op)) else (x, y)
  {}

  lemma ThreeByThree(op: BoolOp, x1: Expr, x2: Expr, x3: Expr, y: Expr)
    ensures var (a1, b1) := CancelOperands(op, x1, y);
            var (a2, b2) := CancelOperands(op, x2, b1);
            var (a3, b3) := CancelOperands(op, x3, b2);
            CancelOperands(op, Bin(op, Bin(op, x1, x2), x3), y) == (Bin(op, Bin(op, a1, a2), a3), b3)
  {}

  /** With y or n among nested operands the test is not transitive, and the order of the
      operands of a level matters. */
  lemma OrderMatters(a: Symbol, b: Symbol)
    requires a.Config? && b.Config? && a != b
    ensures var p, q, r := Spelling(0, a, b), Spelling(1, a, b), Spelling(2, a, b);
            && ExprEq(p, q) && ExprEq(q, r) && !ExprEq(p, r)
            && !ExprEq(Bin(OR, Bin(OR, p, q), r), Bin(OR, Bin(OR, q, r), p))
  {
    var p, q, r, n := Spelling(0, a, b), Spelling(1, a, b), Spelling(2, a, b), Sym(No);
    NextSpelling(a, b);
    FarSpelling(a, b);
    ThreeSpellings(p, q, r);
    assert EliminateYn(r) == r && EliminateYn(Bin(OR, Bin(OR, n, n), r)) == r;
  }

  lemma ThreeSpellings(p: Expr, q: Expr, r: Expr)
    requires Rooted(AND, p) && Rooted(AND, q) && Rooted(AND, r) && EliminateYn(r) == r
    requires ExprEq(p, q) && ExprEq(q, r) && !ExprEq(r, p)
    ensures !ExprEq(Bin(OR, Bin(OR, p, q), r), Bin(OR, Bin(OR, q, r), p))
  {
    hide ExprEq, CancelOperands;
    var n := Sym(No);
    UnitUnequal(p);
    UnitUnequal(q);
    UnitUnequal(r);
    OneOperand(OR, p, q);
    OneOperand(OR, n, r);
    OneOperand(OR, n, p);
    ScanThree(OR, p, q, r, p);
    OneOperand(OR, q, n);
    OneOperand(OR, q, r);
    ScanThree(OR, q, n, r, p);
    OneOperand(OR, r, n);
    OneOperand(OR, r, p);
    ScanThree(OR, r, n, n, p);
    var e1, e2 := Bin(OR, Bin(OR, p, q), r), Bin(OR, Bin(OR, q, r), p);
    ThreeByThree(OR, p, q, r, e2);
    assert CancelOperands(OR, e1, e2) == (Bin(OR, Bin(OR, n, n), r), Bin(OR, Bin(OR, n, n), p));
    FoldedEqual(OR, e1, e2);
    FoldRest(r);
  }

  lemma UnitUnequal(x: Expr)
    requires x.Bin?
    ensures !ExprEq(x, Sym(No)) && !ExprEq(Sym(No), x)
  {}

  lemma FoldRest(r: Expr)
    ensures EliminateYn(Bin(OR, Bin(OR, Sym(No), Sym(No)), r)) == EliminateYn(r)
  {}
}
