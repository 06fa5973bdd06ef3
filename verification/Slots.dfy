/** Operand slots of an expression tree. A pointer to an operand pointer is the
    path from the root to it through && and || nodes; two slots may lie in one
    tree, one may even contain the other, and a write through either is seen
    through both. */
module Slots {
  import opened Tristate
  import opened Expressions
  import opened Equality
  import opened Joins
  import opened Normalisation

  datatype Dir = Left | Right
  type Path = seq<Dir>

  function Child(e: Expr, d: Dir): Expr
    requires e.Bin?
  {
    if d == Left then e.left else e.right
  }

  function WithChild(e: Expr, d: Dir, x: Expr): Expr
    requires e.Bin?
  {
    if d == Left then Bin(e.op, x, e.right) else Bin(e.op, e.left, x)
  }

  function Other(d: Dir): Dir { if d == Left then Right else Left }

  predicate HasSlot(e: Expr, p: Path) {
    p == [] || (e.Bin? && HasSlot(Child(e, p[0]), p[1..]))
  }

  function At(e: Expr, p: Path): Expr
    requires HasSlot(e, p)
  {
    if p == [] then e else At(Child(e, p[0]), p[1..])
  }

  function Put(e: Expr, p: Path, x: Expr): Expr
    requires HasSlot(e, p)
  {
    if p == [] then x else WithChild(e, p[0], Put(Child(e, p[0]), p[1..], x))
  }

  lemma {:induction false} AtPut(e: Expr, p: Path, x: Expr)
    requires HasSlot(e, p)
    ensures HasSlot(Put(e, p, x), p) && At(Put(e, p, x), p) == x
    ensures forall y :: Put(Put(e, p, x), p, y) == Put(e, p, y)
    ensures Put(e, p, At(e, p)) == e
  {
    if p != [] {
      AtPut(Child(e, p[0]), p[1..], x);
    }
  }

  lemma {:induction false} Concat(e: Expr, p: Path, q: Path)
    requires HasSlot(e, p) && HasSlot(At(e, p), q)
    ensures HasSlot(e, p + q) && At(e, p + q) == At(At(e, p), q)
    ensures forall x :: Put(e, p + q, x) == Put(e, p, Put(At(e, p), q, x))
  {
    if p == [] {
      assert p + q == q;
    } else {
      assert (p + q)[1..] == p[1..] + q;
      Concat(Child(e, p[0]), p[1..], q);
    }
  }

  /** Writing a child slot is writing its node with that child replaced. */
  lemma PutChild(e: Expr, p: Path, d: Dir, x: Expr)
    requires HasSlot(e, p) && At(e, p).Bin?
    ensures HasSlot(e, p + [d]) && At(e, p + [d]) == Child(At(e, p), d)
    ensures Put(e, p + [d], x) == Put(e, p, WithChild(At(e, p), d, x))
    ensures var e' := Put(e, p + [d], x);
            && HasSlot(e', p) && At(e', p) == WithChild(At(e, p), d, x)
            && forall y :: Put(e', p, y) == Put(e, p, y)
  {
    Concat(e, p, [d]);
    assert Put(At(e, p), [d], x) == WithChild(At(e, p), d, x);
    AtPut(e, p, WithChild(At(e, p), d, x));
  }

  lemma {:induction false} AtSmaller(e: Expr, p: Path)
    requires HasSlot(e, p)
    ensures Size(At(e, p)) <= Size(e)
    ensures p != [] ==> Size(At(e, p)) < Size(e)
    ensures HasConstantOperand(At(e, p)) ==> HasConstantOperand(e)
    ensures Canonical(e) ==> Canonical(At(e, p))
    ensures Normal(e) ==> Normal(At(e, p))
  {
    if p != [] {
      AtSmaller(Child(e, p[0]), p[1..]);
    }
  }

  lemma {:induction false} ConstantAt(e: Expr, p: Path)
    requires HasSlot(e, p) && p != []
    requires At(e, p) == Sym(Yes) || At(e, p) == Sym(No)
    ensures HasConstantOperand(e)
  {
    if |p| > 1 {
      ConstantAt(Child(e, p[0]), p[1..]);
    }
  }

  // ----- the operands of one operator -----

  /** p is the slot of an operand of the `op` level of e. */
  predicate InLevel(op: BoolOp, e: Expr, p: Path) {
    p == [] || (Rooted(op, e) && InLevel(op, Child(e, p[0]), p[1..]))
  }

  predicate IsOperand(op: BoolOp, e: Expr, p: Path) {
    InLevel(op, e, p) && HasSlot(e, p) && !Rooted(op, At(e, p))
  }

  lemma {:induction false} InLevelHasSlot(op: BoolOp, e: Expr, p: Path)
    requires InLevel(op, e, p)
    ensures HasSlot(e, p)
  {
    if p != [] {
      InLevelHasSlot(op, Child(e, p[0]), p[1..]);
    }
  }

  lemma {:induction false} InLevelStep(op: BoolOp, e: Expr, p: Path, d: Dir)
    requires InLevel(op, e, p) && HasSlot(e, p) && Rooted(op, At(e, p))
    ensures InLevel(op, e, p + [d]) && HasSlot(e, p + [d]) && At(e, p + [d]) == Child(At(e, p), d)
  {
    if p != [] {
      assert (p + [d])[1..] == p[1..] + [d];
      InLevelStep(op, Child(e, p[0]), p[1..], d);
    }
  }

  /** The operands of the `op` level, from left to right. */
  function Operands(op: BoolOp, e: Expr): (s: seq<Expr>)
    ensures |s| >= 1 && (Rooted(op, e) ==> |s| >= 2)
    ensures forall x :: x in s ==> Size(x) <= Size(e) && (Rooted(op, e) ==> Size(x) < Size(e))
  {
    if Rooted(op, e) then Operands(op, e.left) + Operands(op, e.right) else [e]
  }

  /** Distinct positions of the operand list are distinct slots. */
  lemma {:induction false} OperandSlots(op: BoolOp, e: Expr, i: nat, j: nat) returns (p: Path, q: Path)
    requires i < |Operands(op, e)| && j < |Operands(op, e)|
    ensures IsOperand(op, e, p) && At(e, p) == Operands(op, e)[i]
    ensures IsOperand(op, e, q) && At(e, q) == Operands(op, e)[j]
    ensures i != j ==> p != q
  {
    if Rooted(op, e) {
      var n := |Operands(op, e.left)|;
      if i < n && j < n {
        p, q := OperandSlots(op, e.left, i, j);
        p, q := [Left] + p, [Left] + q;
      } else if i >= n && j >= n {
        p, q := OperandSlots(op, e.right, i - n, j - n);
        p, q := [Right] + p, [Right] + q;
      } else if i < n {
        p, q := OperandSlots(op, e.left, i, i);
        p := [Left] + p;
        var p', q' := OperandSlots(op, e.right, j - n, j - n);
        q := [Right] + q';
      } else {
        p, q := OperandSlots(op, e.right, i - n, i - n);
        p := [Right] + p;
        var p', q' := OperandSlots(op, e.left, j, j);
        q := [Left] + q';
      }
    } else {
      p, q := [], [];
    }
  }

  lemma {:induction false} SlotIndices(op: BoolOp, e: Expr, p: Path, q: Path) returns (i: nat, j: nat)
    requires IsOperand(op, e, p) && IsOperand(op, e, q)
    ensures i < |Operands(op, e)| && At(e, p) == Operands(op, e)[i]
    ensures j < |Operands(op, e)| && At(e, q) == Operands(op, e)[j]
    ensures p != q ==> i != j
  {
    if Rooted(op, e) {
      assert p == [p[0]] + p[1..] && q == [q[0]] + q[1..];
      var n := |Operands(op, e.left)|;
      if p[0] == q[0] {
        i, j := SlotIndices(op, Child(e, p[0]), p[1..], q[1..]);
        i, j := if p[0] == Left then i else i + n, if p[0] == Left then j else j + n;
      } else {
        var i', _ := SlotIndices(op, Child(e, p[0]), p[1..], p[1..]);
        var j', _ := SlotIndices(op, Child(e, q[0]), q[1..], q[1..]);
        i, j := if p[0] == Left then i' else i' + n, if q[0] == Left then j' else j' + n;
      }
    } else {
      i, j := 0, 0;
    }
  }

  /** The tree of `op` nodes is the same; only operands differ. */
  predicate SameShape(op: BoolOp, a: Expr, b: Expr) {
    if Rooted(op, a) then Rooted(op, b) && SameShape(op, a.left, b.left) && SameShape(op, a.right, b.right)
    else !Rooted(op, b)
  }

  function LevelSize(op: BoolOp, e: Expr): nat {
    if Rooted(op, e) then 1 + LevelSize(op, e.left) + LevelSize(op, e.right) else 0
  }

  lemma {:induction false} SameShapeRefl(op: BoolOp, a: Expr)
    ensures SameShape(op, a, a)
  {
    if Rooted(op, a) {
      SameShapeRefl(op, a.left);
      SameShapeRefl(op, a.right);
    }
  }

  lemma {:induction false} SameShapeTrans(op: BoolOp, a: Expr, b: Expr, c: Expr)
    requires SameShape(op, a, b) && SameShape(op, b, c)
    ensures SameShape(op, a, c)
  {
    if Rooted(op, a) {
      SameShapeTrans(op, a.left, b.left, c.left);
      SameShapeTrans(op, a.right, b.right, c.right);
    }
  }

  lemma {:induction false} SameShapeSlots(op: BoolOp, a: Expr, b: Expr, p: Path)
    requires SameShape(op, a, b) && InLevel(op, a, p) && HasSlot(a, p)
    ensures InLevel(op, b, p) && HasSlot(b, p)
    ensures SameShape(op, At(a, p), At(b, p))
    ensures LevelSize(op, At(a, p)) == LevelSize(op, At(b, p))
  {
    if p == [] {
      SameLevelSize(op, a, b);
    } else {
      SameShapeSlots(op, Child(a, p[0]), Child(b, p[0]), p[1..]);
    }
  }

  lemma {:induction false} SameLevelSize(op: BoolOp, a: Expr, b: Expr)
    requires SameShape(op, a, b)
    ensures LevelSize(op, a) == LevelSize(op, b)
  {
    if Rooted(op, a) {
      SameLevelSize(op, a.left, b.left);
      SameLevelSize(op, a.right, b.right);
    }
  }

  // ----- replacing operands -----

  lemma ResidueSibling(op: BoolOp, x: Tri, r: Tri, c: Tri, sibling: Tri)
    requires Residue(op, x, r, c)
    ensures Residue(op, Apply(op, x, sibling), r, Apply(op, c, sibling))
    ensures Apply(op, sibling, x) == Apply(op, x, sibling)
  {}

  lemma EvalChild(e: Expr, d: Dir, env: Env)
    requires e.Bin?
    ensures Eval(e, env) == Apply(e.op, Eval(Child(e, d), env), Eval(Child(e, Other(d)), env))
    ensures forall x :: Eval(WithChild(e, d, x), env) == Apply(e.op, Eval(x, env), Eval(Child(e, Other(d)), env))
  {}

  /** The value of a level, seen from one operand: that operand combined with
      the value c of all the others. */
  lemma {:induction false} PutOperand(op: BoolOp, e: Expr, p: Path, x: Expr, env: Env) returns (c: Tri)
    requires IsOperand(op, e, p)
    ensures Residue(op, Eval(e, env), Eval(At(e, p), env), c)
    ensures Residue(op, Eval(Put(e, p, x), env), Eval(x, env), c)
  {
    if p == [] {
      c := Eval(Unit(op), env);
    } else {
      var e1 := Child(e, p[0]);
      var sibling := Eval(Child(e, Other(p[0])), env);
      var c' := PutOperand(op, e1, p[1..], x, env);
      c := Apply(op, c', sibling);
      EvalChild(e, p[0], env);
      ResidueSibling(op, Eval(e1, env), Eval(At(e, p), env), c', sibling);
      ResidueSibling(op, Eval(Put(e1, p[1..], x), env), Eval(x, env), c', sibling);
    }
  }

  lemma {:induction false} PutOperandShape(op: BoolOp, e: Expr, p: Path, x: Expr)
    requires IsOperand(op, e, p) && !Rooted(op, x)
    ensures SameShape(op, e, Put(e, p, x))
    ensures Size(Put(e, p, x)) == Size(e) - Size(At(e, p)) + Size(x)
    ensures Canonical(e) && Canonical(x) ==> Canonical(Put(e, p, x))
    ensures Normal(e) && Normal(x) ==> Normal(Put(e, p, x))
    ensures IsOperand(op, Put(e, p, x), p)
    ensures forall q :: q != p && IsOperand(op, e, q) ==>
              IsOperand(op, Put(e, p, x), q) && At(Put(e, p, x), q) == At(e, q)
  {
    PutOperandOthers(op, e, p, x);
    if p != [] {
      hide InLevel, HasSlot;
      SameShapeRefl(op, e.left);
      SameShapeRefl(op, e.right);
      assert IsOperand(op, Child(e, p[0]), p[1..]);
      PutOperandShape(op, Child(e, p[0]), p[1..], x);
    }
  }

  lemma {:induction false} PutOperandOthers(op: BoolOp, e: Expr, p: Path, x: Expr)
    requires IsOperand(op, e, p) && !Rooted(op, x)
    ensures IsOperand(op, Put(e, p, x), p)
    ensures forall q :: q != p && IsOperand(op, e, q) ==>
              IsOperand(op, Put(e, p, x), q) && At(Put(e, p, x), q) == At(e, q)
  {
    if p != [] {
      PutOperandOthers(op, Child(e, p[0]), p[1..], x);
      var e' := Put(e, p, x);
      forall q | q != p && IsOperand(op, e, q)
        ensures IsOperand(op, e', q) && At(e', q) == At(e, q)
      {
        if q[0] == p[0] {
          assert p == [p[0]] + p[1..] && q == [q[0]] + q[1..];
          assert IsOperand(op, Child(e, p[0]), q[1..]);
        }
      }
    }
  }

  lemma ResidueExchange(op: BoolOp, x1: Tri, x2: Tri, a: Tri, b: Tri, l: Tri, l': Tri, r: Tri,
                        r': Tri, c: Tri, d: Tri)
    requires Residue(op, l, x1, c) && Residue(op, l', a, c) && Residue(op, r, x2, d) && Residue(op, r', b, d)
    requires Apply(op, a, b) == Apply(op, x1, x2)
    ensures Apply(op, l', r') == Apply(op, l, r) && Apply(op, r', l') == Apply(op, r, l)
  {
    match op
    case AND =>
      assert Apply(op, l', r') == Apply(op, l, r);
    case OR =>
      assert Apply(op, l', r') == Apply(op, l, r);
  }

  /** Two operands may be exchanged for any two with the same combined value. */
  lemma {:induction false} PutTwo(op: BoolOp, e: Expr, p: Path, q: Path, a: Expr, b: Expr, env: Env)
    requires IsOperand(op, e, p) && IsOperand(op, e, q) && p != q
    requires Apply(op, Eval(a, env), Eval(b, env)) == Apply(op, Eval(At(e, p), env), Eval(At(e, q), env))
    requires HasSlot(Put(e, p, a), q)
    ensures Eval(Put(Put(e, p, a), q, b), env) == Eval(e, env)
  {
    assert p == [p[0]] + p[1..] && q == [q[0]] + q[1..];
    if p[0] == q[0] {
      PutTwo(op, Child(e, p[0]), p[1..], q[1..], a, b, env);
      EvalChild(e, p[0], env);
    } else if p[0] == Left {
      PutApart(op, e.left, p[1..], a, e.right, q[1..], b, env);
    } else {
      PutApart(op, e.right, p[1..], a, e.left, q[1..], b, env);
    }
  }

  lemma PutApart(op: BoolOp, l: Expr, p: Path, a: Expr, r: Expr, q: Path, b: Expr, env: Env)
    requires IsOperand(op, l, p) && IsOperand(op, r, q)
    requires Apply(op, Eval(a, env), Eval(b, env)) == Apply(op, Eval(At(l, p), env), Eval(At(r, q), env))
    ensures Apply(op, Eval(Put(l, p, a), env), Eval(Put(r, q, b), env)) == Apply(op, Eval(l, env), Eval(r, env))
    ensures Apply(op, Eval(Put(r, q, b), env), Eval(Put(l, p, a), env)) == Apply(op, Eval(r, env), Eval(l, env))
  {
    var c := PutOperand(op, l, p, a, env);
    var d := PutOperand(op, r, q, b, env);
    ResidueExchange(op, Eval(At(l, p), env), Eval(At(r, q), env), Eval(a, env), Eval(b, env), Eval(l, env),
                    Eval(Put(l, p, a), env), Eval(r, env), Eval(Put(r, q, b), env), c, d);
  }
}
