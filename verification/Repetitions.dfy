/** What is left after simplification: no level has an operand twice, in whatever order
    and grouping the two occurrences are written. */
module Repetitions {
  import opened Expressions
  import opened Equality
  import opened Joins
  import opened Slots
  import opened Duplicates
  import opened OperandShapes

  /** No two operands of a level, at any depth above negations, pass the equality test; so
      those without operands y or n differ up to order and grouping. */
  ghost predicate NoRepeats(e: Expr)
    decreases Size(e)
  {
    e.Bin? ==>
      var ops := Operands(e.op, e);
      && (forall i, j :: 0 <= i < |ops| && 0 <= j < |ops| && i != j ==> !ExprEq(ops[i], ops[j]))
      && (forall i, j :: 0 <= i < |ops| && 0 <= j < |ops| && i != j && ConstantFree(ops[i]) && ConstantFree(ops[j]) ==>
                           ShapeOf(ops[i]) != ShapeOf(ops[j]))
      && (forall i :: 0 <= i < |ops| ==> NoRepeats(ops[i]))
  }

  lemma {:induction false} ReducedNoRepeats(e: Expr)
    requires Reduced(e)
    ensures NoRepeats(e)
    decreases Size(e)
  {
    hide ExprEq, ShapeOf, ConstantFree;
    if e.Bin? {
      var ops := Operands(e.op, e);
      forall i, j | 0 <= i < |ops| && 0 <= j < |ops| && i != j
        ensures !ExprEq(ops[i], ops[j])
        ensures ConstantFree(ops[i]) && ConstantFree(ops[j]) ==> ShapeOf(ops[i]) != ShapeOf(ops[j])
      {
        assert Join(e.op, ops[i], ops[j]).None?;
        if ExprEq(ops[i], ops[j]) {
          JoinEqual(e.op, ops[i], ops[j]);
        }
        if ConstantFree(ops[i]) && ConstantFree(ops[j]) {
          PermutationExact(ops[i], ops[j]);
        }
      }
      forall i | 0 <= i < |ops|
        ensures NoRepeats(ops[i])
      {
        ReducedNoRepeats(ops[i]);
      }
    }
  }

  /** Simplification leaves no repetition, for any expression. */
  lemma DedupNoRepeats(e: Expr)
    ensures NoRepeats(Dedup(e))
  {
    hide Dedup, NoRepeats;
    DedupMeaning(e);
    ReducedNoRepeats(Dedup(e));
  }

  // ----- expressions without operands y or n stay so -----

  /** Below negations no operand is y or n. */
  predicate FreeBelow(e: Expr) {
    match e
    case Sym(_) => true
    case Compare(_, _, _) => true
    case Not(a) => ConstantFree(a)
    case Bin(_, l, r) => FreeBelow(l) && FreeBelow(r)
  }

  lemma {:induction false} FreeSplit(e: Expr)
    ensures ConstantFree(e) <==> FreeBelow(e) && !HasConstantOperand(e)
  {
    if e.Bin? {
      FreeSplit(e.left);
      FreeSplit(e.right);
    }
  }

  lemma {:induction false} FreeBelowAt(e: Expr, p: Path)
    requires HasSlot(e, p) && FreeBelow(e)
    ensures FreeBelow(At(e, p))
  {
    if p != [] {
      FreeBelowAt(Child(e, p[0]), p[1..]);
    }
  }

  lemma {:induction false} FreeBelowPut(e: Expr, p: Path, x: Expr)
    requires HasSlot(e, p) && FreeBelow(e) && FreeBelow(x)
    ensures FreeBelow(Put(e, p, x))
  {
    if p != [] {
      FreeBelowPut(Child(e, p[0]), p[1..], x);
    }
  }

  lemma FreeBelowJoin(op: BoolOp, e1: Expr, e2: Expr)
    requires FreeBelow(e1) && Join(op, e1, e2).Some?
    ensures FreeBelow(Join(op, e1, e2).value)
  {
    hide ExprEq;
  }

  lemma {:induction false} FreeBelowFold(e: Expr)
    requires FreeBelow(e)
    ensures FreeBelow(EliminateYn(e))
  {
    if e.Bin? {
      FreeBelowFold(e.left);
      FreeBelowFold(e.right);
    }
  }

  lemma {:induction false} FreeBelowPass(op: BoolOp, e: Expr, p1: Path, p2: Path)
    requires InLevel(op, e, p1) && HasSlot(e, p1) && InLevel(op, e, p2) && HasSlot(e, p2) && FreeBelow(e)
    ensures FreeBelow(Pass(op, e, p1, p2).0)
    decreases Size(e), LevelSize(op, At(e, p1)) + LevelSize(op, At(e, p2)), 1
  {
    hide FreeBelow, Pass, PassPair, SameShape, InLevel, HasSlot, HasConstantOperand, LevelSize;
    SameShapeRefl(op, e);
    if Rooted(op, At(e, p1)) {
      SlotsKept(op, e, p1, p2, e);
      var r1 := Pass(op, e, p1 + [Left], p2);
      SlotsKept(op, e, p1, p2, r1.0);
      PassFirst(op, e, p1, p2);
      FreeBelowPass(op, e, p1 + [Left], p2);
      FreeBelowPass(op, r1.0, p1 + [Right], p2);
    } else if Rooted(op, At(e, p2)) {
      SlotsKept(op, e, p2, p1, e);
      var r1 := Pass(op, e, p1, p2 + [Left]);
      SlotsKept(op, e, p2, p1, r1.0);
      PassSecond(op, e, p1, p2);
      FreeBelowPass(op, e, p1, p2 + [Left]);
      FreeBelowPass(op, r1.0, p1, p2 + [Right]);
    } else {
      PassLeaf(op, e, p1, p2);
      if p1 != p2 {
        FreeBelowPair(op, e, p1, p2);
      }
    }
  }

  lemma {:induction false} FreeBelowPair(op: BoolOp, e: Expr, p1: Path, p2: Path)
    requires IsOperand(op, e, p1) && IsOperand(op, e, p2) && p1 != p2 && FreeBelow(e)
    ensures FreeBelow(PassPair(op, e, p1, p2).0)
    decreases Size(e), 0, 0
  {
    hide FreeBelow, Pass;
    AtSmaller(e, p1);
    FreeBelowAt(e, p1);
    var x := At(e, p1);
    var (x', n) := if x.Bin? then Pass(x.op, x, [], []) else (x, 0);
    if x.Bin? {
      FreeBelowPass(x.op, x, [], []);
    }
    Prepared(op, e, p1, p2, x', n);
    FreeBelowPut(e, p1, x');
    var e1 := Put(e, p1, x');
    var j := Join(op, x', At(e1, p2));
    if j.Some? {
      Written(op, e1, p1, p2);
      FreeBelowJoin(op, x', At(e1, p2));
      UnitFree(op);
      FreeBelowPut(e1, p1, Unit(op));
      FreeBelowPut(Put(e1, p1, Unit(op)), p2, j.value);
    }
  }

  lemma UnitFree(op: BoolOp)
    ensures FreeBelow(Unit(op))
  {}

  lemma {:induction false} DedupConstantFree(e: Expr)
    requires ConstantFree(e)
    ensures ConstantFree(Dedup(e))
    decreases Size(e)
  {
    hide Pass, ConstantFree, FreeBelow;
    if e.Bin? {
      FreeSplit(e);
      FreeBelowPass(e.op, e, [], []);
      var (e1, n) := Pass(e.op, e, [], []);
      if n > 0 {
        EliminateYnFolds(e1);
        FreeBelowFold(e1);
        FreeSplit(EliminateYn(e1));
        DedupConstantFree(EliminateYn(e1));
      }
    }
  }

  /** All operands of every level differ up to order and grouping. */
  ghost predicate AllDistinct(e: Expr)
    decreases Size(e)
  {
    e.Bin? ==>
      var ops := Operands(e.op, e);
      && (forall i, j :: 0 <= i < |ops| && 0 <= j < |ops| && i != j ==> ShapeOf(ops[i]) != ShapeOf(ops[j]))
      && (forall i :: 0 <= i < |ops| ==> AllDistinct(ops[i]))
  }

  lemma {:induction false} FreeDistinct(e: Expr)
    requires ConstantFree(e) && NoRepeats(e)
    ensures AllDistinct(e)
    decreases Size(e)
  {
    hide ShapeOf, ExprEq;
    if e.Bin? {
      var ops := Operands(e.op, e);
      KeptLevel(e.op, e);
      forall i | 0 <= i < |ops|
        ensures ConstantFree(ops[i])
      {
        assert ops[i] in ops;
      }
      forall i | 0 <= i < |ops|
        ensures AllDistinct(ops[i])
      {
        FreeDistinct(ops[i]);
      }
    }
  }

  /** Without operands y or n to begin with, the simplified expression has none either, and
      no two operands of any of its levels agree up to order and grouping. */
  lemma DedupDistinct(e: Expr)
    requires ConstantFree(e)
    ensures ConstantFree(Dedup(e)) && AllDistinct(Dedup(e))
  {
    hide Dedup, ConstantFree, NoRepeats, AllDistinct;
    DedupConstantFree(e);
    DedupNoRepeats(e);
    FreeDistinct(Dedup(e));
  }
}
