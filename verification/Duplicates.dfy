/** In-place removal of duplicate and redundant operands. */
module Duplicates {
  import opened Expressions
  import opened Equality
  import opened Joins
  import opened Normalisation
  import opened Slots

  // ----- what a pass does -----

  /** One pass over the operands of the `op` level of e, those below p1 against those below
      p2, where the two slots may overlap: what becomes of e, and how many joins were made. */
  function Pass(op: BoolOp, e: Expr, p1: Path, p2: Path): (r: (Expr, nat))
    requires InLevel(op, e, p1) && HasSlot(e, p1) && InLevel(op, e, p2) && HasSlot(e, p2)
    ensures SameShape(op, e, r.0) && Size(r.0) <= Size(e)
    ensures if r.1 == 0 then r.0 == e else HasConstantOperand(r.0)
    decreases Size(e), LevelSize(op, At(e, p1)) + LevelSize(op, At(e, p2)), 1
  {
    if Rooted(op, At(e, p1)) then
      InLevelStep(op, e, p1, Left);
      InLevelStep(op, e, p1, Right);
      var (e1, n1) := Pass(op, e, p1 + [Left], p2);
      SameShapeSlots(op, e, e1, p1 + [Right]);
      SameShapeSlots(op, e, e1, p2);
      var (e2, n2) := Pass(op, e1, p1 + [Right], p2);
      SameShapeTrans(op, e, e1, e2);
      (e2, n1 + n2)
    else if Rooted(op, At(e, p2)) then
      InLevelStep(op, e, p2, Left);
      InLevelStep(op, e, p2, Right);
      var (e1, n1) := Pass(op, e, p1, p2 + [Left]);
      SameShapeSlots(op, e, e1, p1);
      SameShapeSlots(op, e, e1, p2 + [Right]);
      var (e2, n2) := Pass(op, e1, p1, p2 + [Right]);
      SameShapeTrans(op, e, e1, e2);
      (e2, n1 + n2)
    else if p1 == p2 then
      SameShapeRefl(op, e);
      (e, 0)
    else PassPair(op, e, p1, p2)
  }

  /** Two operands: a pass over the first if it is itself a level, then a join. */
  function PassPair(op: BoolOp, e: Expr, p1: Path, p2: Path): (r: (Expr, nat))
    requires IsOperand(op, e, p1) && IsOperand(op, e, p2) && p1 != p2
    ensures SameShape(op, e, r.0) && Size(r.0) <= Size(e)
    ensures if r.1 == 0 then r.0 == e else HasConstantOperand(r.0)
    decreases Size(e), 0, 0
  {
    AtSmaller(e, p1);
    var x := At(e, p1);
    var (x', n) := if x.Bin? then Pass(x.op, x, [], []) else (x, 0);
    Prepared(op, e, p1, p2, x', n);
    var e1 := Put(e, p1, x');
    var j := Join(op, x', At(e1, p2));
    if j.None? then (e1, n)
    else
      Written(op, e1, p1, p2);
      var e2 := Put(Put(e1, p1, Unit(op)), p2, j.value);
      SameShapeTrans(op, e, e1, e2);
      (e2, n + 1)
  }

  /** The first operand is replaced by what a pass leaves of it. */
  lemma Prepared(op: BoolOp, e: Expr, p1: Path, p2: Path, x: Expr, n: nat)
    requires IsOperand(op, e, p1) && IsOperand(op, e, p2) && p1 != p2
    requires var x0 := At(e, p1); if x0.Bin? then SameShape(x0.op, x0, x) else x == x0
    requires Size(x) <= Size(At(e, p1)) && if n == 0 then x == At(e, p1) else HasConstantOperand(x)
    ensures var e1 := Put(e, p1, x);
            && SameShape(op, e, e1) && Size(e1) <= Size(e) && !Rooted(op, x)
            && IsOperand(op, e1, p1) && IsOperand(op, e1, p2) && At(e1, p1) == x && At(e1, p2) == At(e, p2)
            && if n == 0 then e1 == e else HasConstantOperand(e1)
  {
    AtPut(e, p1, x);
    PutOperandShape(op, e, p1, x);
    AtSmaller(Put(e, p1, x), p1);
  }

  /** The unit goes to one slot, the join to the other. */
  lemma Written(op: BoolOp, e: Expr, p: Path, q: Path)
    requires IsOperand(op, e, p) && IsOperand(op, e, q) && p != q
    requires Join(op, At(e, p), At(e, q)).Some?
    ensures HasSlot(Put(e, p, Unit(op)), q)
    ensures var e' := Put(Put(e, p, Unit(op)), q, Join(op, At(e, p), At(e, q)).value);
            SameShape(op, e, e') && Size(e') <= Size(e) && HasConstantOperand(e')
  {
    var j := Join(op, At(e, p), At(e, q)).value;
    JoinSize(op, At(e, p), At(e, q));
    PutOperandShape(op, e, p, Unit(op));
    var e1 := Put(e, p, Unit(op));
    PutOperandShape(op, e1, q, j);
    SameShapeTrans(op, e, e1, Put(e1, q, j));
    AtPut(e, p, Unit(op));
    assert p != [];
    ConstantAt(Put(e1, q, j), p);
  }

  /** The slots of a level keep their levels while its operands are rewritten. */
  lemma SlotsKept(op: BoolOp, e: Expr, p: Path, q: Path, e1: Expr)
    requires InLevel(op, e, p) && HasSlot(e, p) && InLevel(op, e, q) && HasSlot(e, q) && Rooted(op, At(e, p))
    requires SameShape(op, e, e1)
    ensures InLevel(op, e, p + [Left]) && HasSlot(e, p + [Left])
    ensures LevelSize(op, At(e, p + [Left])) < LevelSize(op, At(e, p))
    ensures InLevel(op, e1, p + [Right]) && HasSlot(e1, p + [Right]) && InLevel(op, e1, q) && HasSlot(e1, q)
    ensures LevelSize(op, At(e1, p + [Right])) < LevelSize(op, At(e, p))
    ensures LevelSize(op, At(e1, q)) == LevelSize(op, At(e, q))
  {
    hide SameShape, InLevel, HasSlot;
    InLevelStep(op, e, p, Left);
    InLevelStep(op, e, p, Right);
    SameShapeSlots(op, e, e1, p + [Right]);
    SameShapeSlots(op, e, e1, q);
  }

  /** A pass over a level below p1 is one over its left and one over its right operands. */
  lemma PassFirst(op: BoolOp, e: Expr, p1: Path, p2: Path)
    requires InLevel(op, e, p1) && HasSlot(e, p1) && InLevel(op, e, p2) && HasSlot(e, p2) && Rooted(op, At(e, p1))
    requires InLevel(op, e, p1 + [Left]) && HasSlot(e, p1 + [Left])
    ensures var (e1, n1) := Pass(op, e, p1 + [Left], p2);
            InLevel(op, e1, p1 + [Right]) && HasSlot(e1, p1 + [Right]) && InLevel(op, e1, p2) && HasSlot(e1, p2) ==>
              var (e2, n2) := Pass(op, e1, p1 + [Right], p2);
              Pass(op, e, p1, p2) == (e2, n1 + n2)
  {
    hide SameShape, InLevel, HasSlot, LevelSize, HasConstantOperand, PassPair;
  }

  lemma PassSecond(op: BoolOp, e: Expr, p1: Path, p2: Path)
    requires InLevel(op, e, p1) && HasSlot(e, p1) && InLevel(op, e, p2) && HasSlot(e, p2)
    requires !Rooted(op, At(e, p1)) && Rooted(op, At(e, p2)) && InLevel(op, e, p2 + [Left]) && HasSlot(e, p2 + [Left])
    ensures var (e1, n1) := Pass(op, e, p1, p2 + [Left]);
            InLevel(op, e1, p1) && HasSlot(e1, p1) && InLevel(op, e1, p2 + [Right]) && HasSlot(e1, p2 + [Right]) ==>
              var (e2, n2) := Pass(op, e1, p1, p2 + [Right]);
              Pass(op, e, p1, p2) == (e2, n1 + n2)
  {
    hide SameShape, InLevel, HasSlot, LevelSize, HasConstantOperand, PassPair;
  }

  lemma PassLeaf(op: BoolOp, e: Expr, p1: Path, p2: Path)
    requires IsOperand(op, e, p1) && IsOperand(op, e, p2)
    ensures Pass(op, e, p1, p2) == if p1 == p2 then (e, 0) else PassPair(op, e, p1, p2)
  {
    hide SameShape, InLevel, HasSlot, LevelSize, HasConstantOperand, PassPair;
  }

  /** Passes until nothing more can be joined, folding constants between them. */
  function Dedup(e: Expr): Expr
    decreases Size(e)
  {
    if !e.Bin? then e
    else
      var (e1, n) := Pass(e.op, e, [], []);
      if n == 0 then e
      else
        EliminateYnFolds(e1);
        Dedup(EliminateYn(e1))
  }

  // ----- what a pass keeps -----

  /** No two operands of any level (not below a negation) can be joined. */
  ghost predicate Reduced(e: Expr)
    decreases Size(e)
  {
    e.Bin? ==>
      var ops := Operands(e.op, e);
      && (forall i, j :: 0 <= i < |ops| && 0 <= j < |ops| && i != j ==> Join(e.op, ops[i], ops[j]).None?)
      && (forall i :: 0 <= i < |ops| ==> Reduced(ops[i]))
  }

  /** What rewriting keeps. */
  ghost predicate Improves(a: Expr, b: Expr) {
    && (Canonical(a) ==> Equivalent(a, b) && Canonical(b))
    && (Normal(a) ==> Normal(b))
  }

  /** Every operand below slot p1 has been tried against every other one below p2. */
  ghost predicate Tried(op: BoolOp, e: Expr, p1: Path, p2: Path) {
    forall s, t :: IsOperand(op, e, s) && IsOperand(op, e, t) && p1 <= s && p2 <= t && s != t ==>
                     Join(op, At(e, s), At(e, t)).None? && Reduced(At(e, s))
  }

  /** A pass over p1 and p2 keeps the value; it joins nothing if and only if there is nothing
      to join, and something only if the level was not reduced. */
  ghost predicate Outcome(op: BoolOp, e: Expr, p1: Path, p2: Path, r: (Expr, nat)) {
    && Improves(e, r.0)
    && (r.1 == 0 ==> Tried(op, e, p1, p2))
    && (r.1 > 0 ==> !Tried(op, e, [], []))
  }

  lemma ImprovesTrans(a: Expr, b: Expr, c: Expr)
    requires Improves(a, b) && Improves(b, c)
    ensures Improves(a, c)
  {}

  lemma StepBelow(p: Path, s: Path)
    requires p <= s && p != s
    ensures p + [Left] <= s || p + [Right] <= s
  {
    assert s[|p|] == Left || s[|p|] == Right;
  }

  /** Trying all pairs of a level without success leaves it reduced. */
  lemma TriedReduced(e: Expr)
    requires e.Bin? && Tried(e.op, e, [], [])
    ensures Reduced(e)
  {
    var ops := Operands(e.op, e);
    forall i, j | 0 <= i < |ops| && 0 <= j < |ops| && i != j
      ensures Join(e.op, ops[i], ops[j]).None? && Reduced(ops[i])
    {
      var p, q := OperandSlots(e.op, e, i, j);
      assert [] <= p && [] <= q;
    }
    forall i | 0 <= i < |ops|
      ensures Reduced(ops[i])
    {
      var j := if i == 0 then 1 else 0;
      assert Join(e.op, ops[i], ops[j]).None?;
    }
  }

  lemma ReducedTried(e: Expr)
    requires e.Bin? && Reduced(e)
    ensures Tried(e.op, e, [], [])
  {
    forall s, t | IsOperand(e.op, e, s) && IsOperand(e.op, e, t) && s != t
      ensures Join(e.op, At(e, s), At(e, t)).None? && Reduced(At(e, s))
    {
      var i, j := SlotIndices(e.op, e, s, t);
    }
  }


  lemma Congruence(op: BoolOp, e: Expr, p: Path, x: Expr)
    requires IsOperand(op, e, p) && !Rooted(op, x) && Improves(At(e, p), x)
    ensures Improves(e, Put(e, p, x))
  {
    PutOperandShape(op, e, p, x);
    AtSmaller(e, p);
    forall env | WellTyped(env) && Canonical(e)
      ensures Eval(e, env) == Eval(Put(e, p, x), env)
    {
      var c := PutOperand(op, e, p, x, env);
    }
  }

  lemma JoinNormal(op: BoolOp, e1: Expr, e2: Expr)
    requires Normal(e1) && Normal(e2) && Join(op, e1, e2).Some?
    ensures Normal(Join(op, e1, e2).value)
  {}

  /** Writing the unit to one slot and the join to the other keeps the value. */
  lemma JoinImproves(op: BoolOp, e: Expr, p: Path, q: Path)
    requires IsOperand(op, e, p) && IsOperand(op, e, q) && p != q
    requires Join(op, At(e, p), At(e, q)).Some? && HasSlot(Put(e, p, Unit(op)), q)
    ensures Improves(e, Put(Put(e, p, Unit(op)), q, Join(op, At(e, p), At(e, q)).value))
  {
    var j := Join(op, At(e, p), At(e, q)).value;
    JoinSize(op, At(e, p), At(e, q));
    PutOperandShape(op, e, p, Unit(op));
    var e1 := Put(e, p, Unit(op));
    PutOperandShape(op, e1, q, j);
    AtSmaller(e, p);
    AtSmaller(e, q);
    if Normal(e) {
      JoinNormal(op, At(e, p), At(e, q));
    }
    if Canonical(e) {
      JoinSound(op, At(e, p), At(e, q));
    }
    forall env | WellTyped(env) && Canonical(e)
      ensures Eval(e, env) == Eval(Put(e1, q, j), env)
    {
      assert Eval(j, env) == Eval(Bin(op, At(e, p), At(e, q)), env);
      PutTwo(op, e, p, q, Unit(op), j, env);
    }
  }

  /** The operands below a slot are those below its two children. */
  lemma SplitTried(op: BoolOp, e: Expr, p1: Path, p2: Path, first: bool)
    requires var p := if first then p1 else p2; InLevel(op, e, p) && HasSlot(e, p) && Rooted(op, At(e, p))
    requires if first then Tried(op, e, p1 + [Left], p2) && Tried(op, e, p1 + [Right], p2)
             else Tried(op, e, p1, p2 + [Left]) && Tried(op, e, p1, p2 + [Right])
    ensures Tried(op, e, p1, p2)
  {
    var p := if first then p1 else p2;
    forall s | IsOperand(op, e, s) && p <= s
      ensures p + [Left] <= s || p + [Right] <= s
    {
      assert s != p;
      StepBelow(p, s);
    }
  }

  lemma OutcomeTwo(op: BoolOp, e: Expr, p1: Path, p2: Path, first: bool, r1: (Expr, nat), r2: (Expr, nat))
    requires var p := if first then p1 else p2; InLevel(op, e, p) && HasSlot(e, p) && Rooted(op, At(e, p))
    requires Outcome(op, e, if first then p1 + [Left] else p1, if first then p2 else p2 + [Left], r1)
    requires Outcome(op, r1.0, if first then p1 + [Right] else p1, if first then p2 else p2 + [Right], r2)
    requires r1.1 == 0 ==> r1.0 == e
    ensures Outcome(op, e, p1, p2, (r2.0, r1.1 + r2.1))
  {
    hide Tried, Improves;
    ImprovesTrans(e, r1.0, r2.0);
    if r1.1 + r2.1 == 0 {
      SplitTried(op, e, p1, p2, first);
    }
  }

  lemma {:induction false} PassOutcome(op: BoolOp, e: Expr, p1: Path, p2: Path)
    requires InLevel(op, e, p1) && HasSlot(e, p1) && InLevel(op, e, p2) && HasSlot(e, p2)
    ensures Outcome(op, e, p1, p2, Pass(op, e, p1, p2))
    decreases Size(e), LevelSize(op, At(e, p1)) + LevelSize(op, At(e, p2)), 1
  {
    hide Outcome, Pass, PassPair, SameShape, InLevel, HasSlot, HasConstantOperand, LevelSize;
    SameShapeRefl(op, e);
    if Rooted(op, At(e, p1)) {
      SlotsKept(op, e, p1, p2, e);
      var r1 := Pass(op, e, p1 + [Left], p2);
      SlotsKept(op, e, p1, p2, r1.0);
      PassFirst(op, e, p1, p2);
      PassOutcome(op, e, p1 + [Left], p2);
      PassOutcome(op, r1.0, p1 + [Right], p2);
      OutcomeTwo(op, e, p1, p2, true, r1, Pass(op, r1.0, p1 + [Right], p2));
    } else if Rooted(op, At(e, p2)) {
      SlotsKept(op, e, p2, p1, e);
      var r1 := Pass(op, e, p1, p2 + [Left]);
      SlotsKept(op, e, p2, p1, r1.0);
      PassSecond(op, e, p1, p2);
      PassOutcome(op, e, p1, p2 + [Left]);
      PassOutcome(op, r1.0, p1, p2 + [Right]);
      OutcomeTwo(op, e, p1, p2, false, r1, Pass(op, r1.0, p1, p2 + [Right]));
    } else if p1 == p2 {
      PassLeaf(op, e, p1, p2);
      SameSlot(op, e, p1);
    } else {
      PassLeaf(op, e, p1, p2);
      PairOutcome(op, e, p1, p2);
    }
  }

  lemma SameSlot(op: BoolOp, e: Expr, p: Path)
    requires IsOperand(op, e, p)
    ensures Outcome(op, e, p, p, (e, 0))
  {
    OnlyOperandBelow(op, e, p);
  }

  lemma {:induction false} PairOutcome(op: BoolOp, e: Expr, p1: Path, p2: Path)
    requires IsOperand(op, e, p1) && IsOperand(op, e, p2) && p1 != p2
    ensures Outcome(op, e, p1, p2, PassPair(op, e, p1, p2))
    decreases Size(e), 0, 0
  {
    hide Outcome, Improves, Pass, Tried;
    AtSmaller(e, p1);
    var x := At(e, p1);
    var (x', n) := if x.Bin? then Pass(x.op, x, [], []) else (x, 0);
    Prepared(op, e, p1, p2, x', n);
    var e1 := Put(e, p1, x');
    if x.Bin? {
      PassOutcome(x.op, x, [], []);
    }
    FirstReduced(op, e, p1, p2, x', n);
    if Join(op, x', At(e1, p2)).None? {
      NotJoined(op, e, p1, p2, x', n);
    } else {
      Written(op, e1, p1, p2);
      Joined(op, e, p1, p2, x', n);
    }
  }

  /** After a pass over the first operand. */
  lemma FirstReduced(op: BoolOp, e: Expr, p1: Path, p2: Path, x: Expr, n: nat)
    requires IsOperand(op, e, p1) && IsOperand(op, e, p2) && p1 != p2 && !Rooted(op, x)
    requires var x0 := At(e, p1); if x0.Bin? then Outcome(x0.op, x0, [], [], (x, n)) else x == x0 && n == 0
    requires n == 0 ==> x == At(e, p1)
    ensures Improves(e, Put(e, p1, x)) && (n == 0 ==> Reduced(x)) && (n > 0 ==> !Tried(op, e, [], []))
  {
    var x0 := At(e, p1);
    Congruence(op, e, p1, x);
    if n == 0 {
      if x0.Bin? {
        TriedReduced(x0);
      }
    } else if Tried(op, e, [], []) {
      assert [] <= p1 && [] <= p2;
      assert Reduced(At(e, p1));
      ReducedTried(x0);
    }
  }

  lemma NotJoined(op: BoolOp, e: Expr, p1: Path, p2: Path, x: Expr, n: nat)
    requires IsOperand(op, e, p1) && IsOperand(op, e, p2) && Improves(e, Put(e, p1, x))
    requires (n == 0 ==> Reduced(x) && x == At(e, p1)) && (n > 0 ==> !Tried(op, e, [], []))
    requires Join(op, x, At(e, p2)).None?
    ensures Outcome(op, e, p1, p2, (Put(e, p1, x), n))
  {
    OnlyOperandBelow(op, e, p1);
    OnlyOperandBelow(op, e, p2);
  }

  lemma Joined(op: BoolOp, e: Expr, p1: Path, p2: Path, x: Expr, n: nat)
    requires IsOperand(op, e, p1) && IsOperand(op, e, p2) && p1 != p2 && Improves(e, Put(e, p1, x))
    requires var e1 := Put(e, p1, x);
             && IsOperand(op, e1, p1) && IsOperand(op, e1, p2) && At(e1, p1) == x && At(e1, p2) == At(e, p2)
             && HasSlot(Put(e1, p1, Unit(op)), p2) && Join(op, x, At(e1, p2)).Some?
    requires (n == 0 ==> x == At(e, p1)) && (n > 0 ==> !Tried(op, e, [], []))
    ensures var e1 := Put(e, p1, x);
            Outcome(op, e, p1, p2, (Put(Put(e1, p1, Unit(op)), p2, Join(op, x, At(e1, p2)).value), n + 1))
  {
    hide Improves;
    var e1 := Put(e, p1, x);
    JoinImproves(op, e1, p1, p2);
    ImprovesTrans(e, e1, Put(Put(e1, p1, Unit(op)), p2, Join(op, x, At(e1, p2)).value));
    if n == 0 {
      assert [] <= p1 && [] <= p2;
    }
  }

  /** An operand slot has no operand slot of its level below it. */
  lemma {:induction false} OnlyOperandBelow(op: BoolOp, e: Expr, p: Path)
    requires IsOperand(op, e, p)
    ensures forall s :: IsOperand(op, e, s) && p <= s ==> s == p
  {
    if p != [] {
      OnlyOperandBelow(op, Child(e, p[0]), p[1..]);
      forall s | IsOperand(op, e, s) && p <= s
        ensures s == p
      {
        assert s == [s[0]] + s[1..] && p == [p[0]] + p[1..];
        assert p[1..] <= s[1..];
        assert IsOperand(op, Child(e, p[0]), s[1..]);
      }
    }
  }

  lemma FoldImproves(e: Expr)
    ensures Improves(e, EliminateYn(e))
  {
    EliminateYnNormal(e);
    if Canonical(e) {
      EliminateYnCanonical(e);
    }
    forall env ensures Eval(EliminateYn(e), env) == Eval(e, env) {
      EliminateYnValue(e, env);
    }
  }

  lemma {:induction false} EliminateYnCanonical(e: Expr)
    requires Canonical(e)
    ensures Canonical(EliminateYn(e))
  {
    if e.Bin? {
      EliminateYnCanonical(e.left);
      EliminateYnCanonical(e.right);
    }
  }

  lemma {:induction false} EliminateYnNormal(e: Expr)
    ensures Normal(e) ==> Normal(EliminateYn(e))
  {
    if e.Bin? {
      EliminateYnNormal(e.left);
      EliminateYnNormal(e.right);
    }
  }

  /** The simplified expression has the same value and is reduced; an expression changes,
      and then shrinks, if and only if it was not reduced. */
  lemma {:induction false} DedupMeaning(e: Expr)
    ensures Canonical(e) ==> Equivalent(e, Dedup(e)) && Canonical(Dedup(e))
    ensures Normal(e) ==> Normal(Dedup(e))
    ensures Reduced(Dedup(e))
    ensures if Reduced(e) then Dedup(e) == e else Size(Dedup(e)) < Size(e)
    decreases Size(e)
  {
    hide Pass;
    if e.Bin? {
      var (e1, n) := Pass(e.op, e, [], []);
      PassOutcome(e.op, e, [], []);
      if n == 0 {
        TriedReduced(e);
      } else {
        EliminateYnFolds(e1);
        FoldImproves(e1);
        DedupMeaning(EliminateYn(e1));
        if Reduced(e) {
          ReducedTried(e);
        }
      }
    }
  }

  lemma FoldSlot(e: Expr)
    ensures !e.Bin? ==> EliminateYn(e) == e
    ensures e.Bin? ==>
              var l, r := EliminateYn(e.left), EliminateYn(e.right);
              EliminateYn(e) == if l == Absorber(e.op) then Absorber(e.op) else if l == Unit(e.op) then r
                                else if r == Absorber(e.op) then Absorber(e.op) else if r == Unit(e.op) then l
                                else Bin(e.op, l, r)
  {}

  class ExprTree {
    var root: Expr
    var transCount: nat

    constructor (e: Expr)
      ensures root == e && transCount == 0
    {
      root := e;
      transCount := 0;
    }

    /** Folds the constants y and n at the slot p, both operands first. */
    method EliminateYnInPlace(p: Path)
      requires HasSlot(root, p)
      modifies this`root
      ensures root == Put(old(root), p, EliminateYn(At(old(root), p)))
      decreases Size(At(root, p))
    {
      hide HasSlot, At, Put, EliminateYn;
      ghost var root0, e := root, At(root, p);
      AtPut(root, p, e);
      FoldSlot(e);
      if At(root, p).Bin? {
        PutChild(root, p, Left, EliminateYn(e.left));
        EliminateYnInPlace(p + [Left]);
        PutChild(root, p, Right, EliminateYn(e.right));
        EliminateYnInPlace(p + [Right]);
        var now := At(root, p);
        if now.left == Absorber(now.op) {
          root := Put(root, p, Absorber(now.op));
        } else if now.left == Unit(now.op) {
          root := Put(root, p, now.right);
        } else if now.right == Absorber(now.op) {
          root := Put(root, p, Absorber(now.op));
        } else if now.right == Unit(now.op) {
          root := Put(root, p, now.left);
        }
      }
    }

    /** Walks the operands of the `op` level of the slot `base`, those below p1
        against those below p2; the two slots may overlap. */
    method EliminateDups1(op: BoolOp, base: Path, p1: Path, p2: Path)
      requires HasSlot(root, base)
      requires InLevel(op, At(root, base), p1) && HasSlot(At(root, base), p1)
      requires InLevel(op, At(root, base), p2) && HasSlot(At(root, base), p2)
      modifies this
      ensures var r := Pass(op, At(old(root), base), p1, p2);
              root == Put(old(root), base, r.0) && transCount == old(transCount) + r.1
      decreases Size(At(root, base)), LevelSize(op, At(At(root, base), p1)) + LevelSize(op, At(At(root, base), p2)), 1
    {
      hide Pass, PassPair, SameShape, InLevel, HasSlot, HasConstantOperand, LevelSize, At, Put;
      ghost var root0, e := root, At(root, base);
      Concat(root, base, p1);
      Concat(root, base, p2);
      AtPut(root, base, e);
      SameShapeRefl(op, e);
      if Rooted(op, At(root, base + p1)) {
        SlotsKept(op, e, p1, p2, e);
        ghost var e1 := Pass(op, e, p1 + [Left], p2).0;
        SlotsKept(op, e, p1, p2, e1);
        PassFirst(op, e, p1, p2);
        EliminateDups1(op, base, p1 + [Left], p2);
        AtPut(root0, base, e1);
        EliminateDups1(op, base, p1 + [Right], p2);
      } else if Rooted(op, At(root, base + p2)) {
        SlotsKept(op, e, p2, p1, e);
        ghost var e1 := Pass(op, e, p1, p2 + [Left]).0;
        SlotsKept(op, e, p2, p1, e1);
        PassSecond(op, e, p1, p2);
        EliminateDups1(op, base, p1, p2 + [Left]);
        AtPut(root0, base, e1);
        EliminateDups1(op, base, p1, p2 + [Right]);
      } else {
        PassLeaf(op, e, p1, p2);
        if p1 != p2 {
          CompareOperands(op, base, p1, p2);
        }
      }
    }

    /** Both slots hold operands: a pass over the first, then a join if possible. */
    method CompareOperands(op: BoolOp, base: Path, p1: Path, p2: Path)
      requires HasSlot(root, base)
      requires IsOperand(op, At(root, base), p1) && IsOperand(op, At(root, base), p2) && p1 != p2
      modifies this
      ensures var r := PassPair(op, At(old(root), base), p1, p2);
              root == Put(old(root), base, r.0) && transCount == old(transCount) + r.1
      decreases Size(At(root, base)), 0, 0
    {
      hide Pass, SameShape, HasConstantOperand, LevelSize;
      ghost var root0, e := root, At(root, base);
      Concat(root, base, p1);
      AtPut(root, base, e);
      AtPut(e, p1, At(e, p1));
      AtSmaller(e, p1);
      var x := At(root, base + p1);
      ghost var x', n := x, 0;
      if x.Bin? {
        EliminateDups1(x.op, base + p1, [], []);
        x', n := Pass(x.op, x, [], []).0, Pass(x.op, x, [], []).1;
      }
      Prepared(op, e, p1, p2, x', n);
      ghost var e1 := Put(e, p1, x');
      AtPut(root0, base, e1);
      Concat(root, base, p1);
      Concat(root, base, p2);
      var tmp := Join(op, At(root, base + p1), At(root, base + p2));
      if tmp.Some? {
        Written(op, e1, p1, p2);
        ghost var e2 := Put(e1, p1, Unit(op));
        root := Put(root, base + p1, Unit(op));
        AtPut(root0, base, e2);
        Concat(root, base, p2);
        root := Put(root, base + p2, tmp.value);
        transCount := transCount + 1;
        AtPut(root0, base, Put(e2, p2, tmp.value));
      }
    }
  }

  /** Simplifies an expression until nothing more can be joined. */
  method EliminateDups(e: Expr) returns (r: Expr)
    ensures r == Dedup(e)
    ensures Canonical(e) ==> Equivalent(e, r) && Canonical(r)
    ensures Reduced(r) && (Normal(e) ==> Normal(r))
    ensures if Reduced(e) then r == e else Size(r) < Size(e)
  {
    DedupMeaning(e);
    var tree := new ExprTree(e);
    while true
      invariant Dedup(tree.root) == Dedup(e)
      decreases Size(tree.root)
    {
      tree.transCount := 0;
      if tree.root.Bin? {
        tree.EliminateDups1(tree.root.op, [], [], []);
      }
      if tree.transCount == 0 {
        return tree.root;
      }
      EliminateYnFolds(tree.root);
      tree.EliminateYnInPlace([]);
    }
  }
}
