/** Constant folding, elimination of common operands and the equality test. */
module Equality {
  import opened Tristate
  import opened Expressions

  // ----- constant folding -----

  function EliminateYn(e: Expr): Expr {
    match e
    case Bin(op, l, r) =>
      var l', r' := EliminateYn(l), EliminateYn(r);
      if l' == Absorber(op) then Absorber(op)
      else if l' == Unit(op) then r'
      else if r' == Absorber(op) then Absorber(op)
      else if r' == Unit(op) then l'
      else Bin(op, l', r')
    case _ => e
  }

  /** Some && or || (not below a negation) has an operand y or n. */
  predicate HasConstantOperand(e: Expr) {
    e.Bin? && (e.left == Sym(Yes) || e.left == Sym(No) || e.right == Sym(Yes) || e.right == Sym(No)
               || HasConstantOperand(e.left) || HasConstantOperand(e.right))
  }

  /** Folding leaves no constant operand, and shrinks the expression exactly
      when there was one. */
  lemma {:induction false} EliminateYnFolds(e: Expr)
    ensures !HasConstantOperand(EliminateYn(e))
    ensures HasConstantOperand(e) ==> Size(EliminateYn(e)) < Size(e)
    ensures !HasConstantOperand(e) ==> EliminateYn(e) == e
  {
    if e.Bin? {
      EliminateYnFolds(e.left);
      EliminateYnFolds(e.right);
    }
  }

  lemma {:induction false} EliminateYnValue(e: Expr, env: Env)
    ensures Eval(EliminateYn(e), env) == Eval(e, env)
  {
    if e.Bin? {
      EliminateYnValue(e.left, env);
      EliminateYnValue(e.right, env);
    }
  }

  // ----- elimination of common operands -----

  predicate Rooted(op: BoolOp, e: Expr) { e.Bin? && e.op == op }

  /** Cancels operands of the `op` level that occur in both expressions: both
      occurrences become the unit of `op`. */
  function CancelOperands(op: BoolOp, e1: Expr, e2: Expr): (r: (Expr, Expr))
    ensures Size(r.0) <= Size(e1) && Size(r.1) <= Size(e2)
    decreases if Rooted(op, e1) || Rooted(op, e2) then 2 * (Size(e1) + Size(e2)) - 1
              else 2 * (Size(e1) + Size(e2)) + 2
  {
    if Rooted(op, e1) then
      var (l, e2') := CancelOperands(op, e1.left, e2);
      var (r, e2'') := CancelOperands(op, e1.right, e2');
      (Bin(op, l, r), e2'')
    else if Rooted(op, e2) then
      var (e1', l) := CancelOperands(op, e1, e2.left);
      var (e1'', r) := CancelOperands(op, e1', e2.right);
      (e1'', Bin(op, l, r))
    else if e1 == e2 && (e1 == Sym(Yes) || e1 == Sym(No)) then (e1, e2)
    else if !ExprEq(e1, e2) then (e1, e2)
    else (Unit(op), Unit(op))
  }

  function EliminateEq(e1: Expr, e2: Expr): (r: (Expr, Expr))
    ensures Size(r.0) <= Size(e1) && Size(r.1) <= Size(e2)
    decreases 2 * (Size(e1) + Size(e2))
  {
    var (a1, a2) := if e1.Bin? then CancelOperands(e1.op, e1, e2) else (e1, e2);
    var (b1, b2) := if a2.Bin? && !Rooted(a2.op, a1) then CancelOperands(a2.op, a1, a2) else (a1, a2);
    EliminateYnFolds(b1);
    EliminateYnFolds(b2);
    (EliminateYn(b1), EliminateYn(b2))
  }

  /** Structural equality up to order and grouping of operands. */
  predicate ExprEq(e1: Expr, e2: Expr)
    decreases 2 * (Size(e1) + Size(e2)) + 1
  {
    match (e1, e2)
    case (Sym(s1), Sym(s2)) => s1 == s2
    case (Compare(_, _, _), Compare(_, _, _)) => e1 == e2
    case (Not(a1), Not(a2)) => ExprEq(a1, a2)
    case (Bin(op1, _, _), Bin(op2, _, _)) =>
      op1 == op2 &&
      var (r1, r2) := EliminateEq(e1, e2);
      r1.Sym? && r1 == r2
    case _ => false
  }

  // ----- soundness -----

  /** e and its residue r differ by the operand c. */
  predicate Residue(op: BoolOp, e: Tri, r: Tri, c: Tri) { e == Apply(op, r, c) }

  lemma ResidueCompose(op: BoolOp, a: Tri, ra: Tri, b: Tri, rb: Tri, c1: Tri, c2: Tri)
    requires Residue(op, a, ra, c1) && Residue(op, b, rb, c2)
    ensures Residue(op, Apply(op, a, b), Apply(op, ra, rb), Apply(op, c1, c2))
  {}

  lemma ResidueChain(op: BoolOp, a: Tri, b: Tri, r: Tri, c1: Tri, c2: Tri)
    requires Residue(op, a, b, c1) && Residue(op, b, r, c2)
    ensures Residue(op, a, r, Apply(op, c1, c2))
  {}

  lemma ResidueMonotone(op: BoolOp, a: Tri, ra: Tri, b: Tri, rb: Tri, c: Tri)
    requires Residue(op, a, ra, c) && Residue(op, b, rb, c)
    ensures ra <= rb ==> a <= b
    ensures ra >= rb ==> a >= b
  {}

  /** What is cancelled is one value c, the same on both sides. */
  lemma {:induction false} CancelSound(op: BoolOp, e1: Expr, e2: Expr, env: Env) returns (c: Tri)
    ensures Residue(op, Eval(e1, env), Eval(CancelOperands(op, e1, e2).0, env), c)
    ensures Residue(op, Eval(e2, env), Eval(CancelOperands(op, e1, e2).1, env), c)
    decreases if Rooted(op, e1) || Rooted(op, e2) then 2 * (Size(e1) + Size(e2)) - 1
              else 2 * (Size(e1) + Size(e2)) + 2
  {
    if Rooted(op, e1) {
      c := CancelLeft(op, e1, e2, env);
    } else if Rooted(op, e2) {
      c := CancelRight(op, e1, e2, env);
    } else if ExprEq(e1, e2) && !(e1 == e2 && (e1 == Sym(Yes) || e1 == Sym(No))) {
      ExprEqSound(e1, e2, env);
      c := Eval(e1, env);
    } else {
      c := Eval(Unit(op), env);
    }
  }

  lemma {:induction false} CancelLeft(op: BoolOp, e1: Expr, e2: Expr, env: Env) returns (c: Tri)
    requires Rooted(op, e1)
    ensures Residue(op, Eval(e1, env), Eval(CancelOperands(op, e1, e2).0, env), c)
    ensures Residue(op, Eval(e2, env), Eval(CancelOperands(op, e1, e2).1, env), c)
    decreases 2 * (Size(e1) + Size(e2)) - 1, 0
  {
    var p := CancelOperands(op, e1.left, e2);
    var q := CancelOperands(op, e1.right, p.1);
    var c1 := CancelSound(op, e1.left, e2, env);
    var c2 := CancelSound(op, e1.right, p.1, env);
    c := Apply(op, c1, c2);
    ResidueCompose(op, Eval(e1.left, env), Eval(p.0, env), Eval(e1.right, env), Eval(q.0, env), c1, c2);
    ResidueChain(op, Eval(e2, env), Eval(p.1, env), Eval(q.1, env), c1, c2);
  }

  lemma {:induction false} CancelRight(op: BoolOp, e1: Expr, e2: Expr, env: Env) returns (c: Tri)
    requires !Rooted(op, e1) && Rooted(op, e2)
    ensures Residue(op, Eval(e1, env), Eval(CancelOperands(op, e1, e2).0, env), c)
    ensures Residue(op, Eval(e2, env), Eval(CancelOperands(op, e1, e2).1, env), c)
    decreases 2 * (Size(e1) + Size(e2)) - 1, 0
  {
    var p := CancelOperands(op, e1, e2.left);
    var q := CancelOperands(op, p.0, e2.right);
    var c1 := CancelSound(op, e1, e2.left, env);
    var c2 := CancelSound(op, p.0, e2.right, env);
    c := Apply(op, c1, c2);
    ResidueCompose(op, Eval(e2.left, env), Eval(p.1, env), Eval(e2.right, env), Eval(q.1, env), c1, c2);
    ResidueChain(op, Eval(e1, env), Eval(p.0, env), Eval(q.0, env), c1, c2);
  }

  /** The order of the residues carries over to the originals. */
  lemma {:induction false} EliminateEqMonotone(e1: Expr, e2: Expr, env: Env)
    ensures var r := EliminateEq(e1, e2);
            && (Eval(r.0, env) <= Eval(r.1, env) ==> Eval(e1, env) <= Eval(e2, env))
            && (Eval(r.0, env) >= Eval(r.1, env) ==> Eval(e1, env) >= Eval(e2, env))
    decreases 2 * (Size(e1) + Size(e2))
  {
    var a := if e1.Bin? then CancelOperands(e1.op, e1, e2) else (e1, e2);
    var b := if a.1.Bin? && !Rooted(a.1.op, a.0) then CancelOperands(a.1.op, a.0, a.1) else a;
    if e1.Bin? {
      var c := CancelSound(e1.op, e1, e2, env);
      ResidueMonotone(e1.op, Eval(e1, env), Eval(a.0, env), Eval(e2, env), Eval(a.1, env), c);
    }
    if a.1.Bin? && !Rooted(a.1.op, a.0) {
      var c := CancelSound(a.1.op, a.0, a.1, env);
      ResidueMonotone(a.1.op, Eval(a.0, env), Eval(b.0, env), Eval(a.1, env), Eval(b.1, env), c);
    }
    EliminateYnValue(b.0, env);
    EliminateYnValue(b.1, env);
  }

  /** Expressions the test calls equal have equal values in every environment. */
  lemma {:induction false} ExprEqSound(e1: Expr, e2: Expr, env: Env)
    requires ExprEq(e1, e2)
    ensures Eval(e1, env) == Eval(e2, env)
    decreases 2 * (Size(e1) + Size(e2)) + 1
  {
    if e1.Not? {
      ExprEqSound(e1.arg, e2.arg, env);
    } else if e1.Bin? {
      EliminateEqMonotone(e1, e2, env);
    }
  }

  /** If nothing but y remains of the second, the first is at most the second:
      what the test for an automatic submenu relies on. */
  lemma SupersetSound(e1: Expr, e2: Expr)
    requires EliminateEq(e1, e2).1 == Sym(Yes)
    ensures forall env :: Eval(e1, env) <= Eval(e2, env)
  {
    forall env ensures Eval(e1, env) <= Eval(e2, env) {
      EliminateEqMonotone(e1, e2, env);
    }
  }
}
