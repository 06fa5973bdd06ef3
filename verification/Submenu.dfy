/** Dependency propagation and the test for automatic submenus. */
module Submenu {
  import opened Tristate
  import opened Expressions
  import opened Equality
  import opened Joins
  import opened Slots
  import opened Duplicates
  import opened Normalisation

  /** Cancels common operands of two slots in different trees, in place. */
  method CancelInPlace(op: BoolOp, t1: ExprTree, p1: Path, t2: ExprTree, p2: Path)
    requires t1 != t2 && HasSlot(t1.root, p1) && HasSlot(t2.root, p2)
    modifies t1`root, t2`root
    ensures t1.root == Put(old(t1.root), p1, CancelOperands(op, At(old(t1.root), p1), At(old(t2.root), p2)).0)
    ensures t2.root == Put(old(t2.root), p2, CancelOperands(op, At(old(t1.root), p1), At(old(t2.root), p2)).1)
    decreases Size(At(t1.root, p1)) + Size(At(t2.root, p2))
  {
    ghost var r1, r2, e1, e2 := t1.root, t2.root, At(t1.root, p1), At(t2.root, p2);
    AtPut(r1, p1, e1);
    AtPut(r2, p2, e2);
    if Rooted(op, At(t1.root, p1)) {
      ghost var c := CancelOperands(op, e1.left, e2);
      PutChild(r1, p1, Left, c.0);
      CancelInPlace(op, t1, p1 + [Left], t2, p2);
      AtPut(r2, p2, c.1);
      PutChild(t1.root, p1, Right, CancelOperands(op, e1.right, c.1).0);
      CancelInPlace(op, t1, p1 + [Right], t2, p2);
    } else if Rooted(op, At(t2.root, p2)) {
      ghost var c := CancelOperands(op, e1, e2.left);
      PutChild(r2, p2, Left, c.1);
      CancelInPlace(op, t1, p1, t2, p2 + [Left]);
      AtPut(r1, p1, c.0);
      PutChild(t2.root, p2, Right, CancelOperands(op, c.0, e2.right).1);
      CancelInPlace(op, t1, p1, t2, p2 + [Right]);
    } else if At(t1.root, p1) == At(t2.root, p2) && (At(t1.root, p1) == Sym(Yes) || At(t1.root, p1) == Sym(No)) {
    } else if ExprEq(At(t1.root, p1), At(t2.root, p2)) {
      t1.root := Put(t1.root, p1, Unit(op));
      t2.root := Put(t2.root, p2, Unit(op));
    }
  }

  /** Removes the operands common to two expressions, in place. */
  method EliminateEqInPlace(t1: ExprTree, t2: ExprTree)
    requires t1 != t2
    modifies t1`root, t2`root
    ensures (t1.root, t2.root) == EliminateEq(old(t1.root), old(t2.root))
  {
    if t1.root.Bin? {
      CancelInPlace(t1.root.op, t1, [], t2, []);
    }
    if t2.root.Bin? && !Rooted(t2.root.op, t1.root) {
      CancelInPlace(t2.root.op, t1, [], t2, []);
    }
    t1.EliminateYnInPlace([]);
    t2.EliminateYnInPlace([]);
  }

  // ----- dependency propagation -----

  /** `m` becomes `m && MODULES`. */
  function RewriteM(e: Expr, modules: Symbol): Expr {
    match e
    case Not(a) => Not(RewriteM(a, modules))
    case Bin(op, l, r) => Bin(op, RewriteM(l, modules), RewriteM(r, modules))
    case Sym(s) => if s == Mod then Bin(AND, e, Sym(modules)) else e
    case Compare(_, _, _) => e
  }

  /** The expression with the constant m read as another constant. */
  function ReadM(e: Expr, m: Symbol): Expr {
    match e
    case Not(a) => Not(ReadM(a, m))
    case Bin(op, l, r) => Bin(op, ReadM(l, m), ReadM(r, m))
    case Sym(s) => if s == Mod then Sym(m) else e
    case Compare(_, _, _) => e
  }

  /** With modules the rewriting changes nothing; without, m counts as n. */
  lemma {:induction false} RewriteMValue(e: Expr, modules: Symbol, env: Env)
    ensures Eval(RewriteM(e, modules), env) == Eval(ReadM(e, if Value(modules, env) == NO then No else Mod), env)
    ensures Value(modules, env) != NO ==> Eval(RewriteM(e, modules), env) == Eval(e, env)
  {
    match e
    case Not(a) => RewriteMValue(a, modules, env);
    case Bin(_, l, r) =>
      RewriteMValue(l, modules, env);
      RewriteMValue(r, modules, env);
    case Sym(_) =>
    case Compare(_, _, _) =>
  }

  lemma {:induction false} RewriteMCanonical(e: Expr, modules: Symbol)
    requires Canonical(e) && WellFormedSymbol(modules)
    ensures Canonical(RewriteM(e, modules))
  {
    match e
    case Not(a) => RewriteMCanonical(a, modules);
    case Bin(_, l, r) =>
      RewriteMCanonical(l, modules);
      RewriteMCanonical(r, modules);
    case Sym(_) =>
    case Compare(_, _, _) =>
  }

  function AndDep(d1: Dependency, d2: Dependency): Dependency {
    if d1.None? then d2 else if d2.None? then d1 else Some(Bin(AND, d1.value, d2.value))
  }

  predicate CanonicalDep(d: Dependency) { d.Some? ==> Canonical(d.value) }

  function RewriteDep(d: Dependency, modules: Symbol): Dependency {
    if d.None? then None else Some(RewriteM(d.value, modules))
  }

  /** A dependency combined with the one inherited from the parent, simplified. */
  function Combined(parent: Dependency, own: Dependency, modules: Symbol): Dependency {
    var base := if own.None? then None else Some(Transform(RewriteM(own.value, modules)));
    var r := AndDep(parent, base);
    if r.None? then None else Some(Dedup(r.value))
  }

  predicate NormalDep(d: Dependency) { d.Some? ==> Normal(d.value) }

  ghost predicate Conjunction(d: Dependency, d1: Dependency, d2: Dependency) {
    forall env :: WellTyped(env) ==> EvalDep(d, env) == TriAnd(EvalDep(d1, env), EvalDep(d2, env))
  }

  /** It is the minimum of the two, reduced and, if the parent's is, normalised. */
  lemma CombinedMeaning(parent: Dependency, own: Dependency, modules: Symbol)
    requires WellFormedSymbol(modules)
    ensures var r := Combined(parent, own, modules);
            && (CanonicalDep(parent) && CanonicalDep(own) ==>
                  CanonicalDep(r) && Conjunction(r, parent, RewriteDep(own, modules)))
            && (NormalDep(parent) ==> NormalDep(r))
            && (r.Some? ==> Reduced(r.value))
            && (r.None? <==> parent.None? && own.None?)
  {
    hide Transform, Dedup, Canonical, Reduced;
    if own.Some? {
      var rewritten := RewriteM(own.value, modules);
      TransformNormal(rewritten);
      if CanonicalDep(own) {
        RewriteMCanonical(own.value, modules);
        TransformCanonical(rewritten);
      }
      forall env | WellTyped(env)
        ensures Eval(Transform(rewritten), env) == Eval(rewritten, env)
      {
        TransformValue(rewritten, env);
      }
    }
    var base := if own.None? then None else Some(Transform(RewriteM(own.value, modules)));
    var both := AndDep(parent, base);
    AndMeaning(parent, base);
    if both.Some? {
      DedupMeaning(both.value);
    }
  }

  lemma AndMeaning(d1: Dependency, d2: Dependency)
    ensures CanonicalDep(d1) && CanonicalDep(d2) ==> CanonicalDep(AndDep(d1, d2))
    ensures NormalDep(d1) && NormalDep(d2) ==> NormalDep(AndDep(d1, d2))
    ensures Conjunction(AndDep(d1, d2), d1, d2)
  {}

  method Propagate(parent: Dependency, own: Dependency, modules: Symbol) returns (r: Dependency)
    ensures r == Combined(parent, own, modules)
    ensures WellFormedSymbol(modules) && CanonicalDep(parent) && CanonicalDep(own) ==>
              CanonicalDep(r) && Conjunction(r, parent, RewriteDep(own, modules))
    ensures WellFormedSymbol(modules) && NormalDep(parent) ==> NormalDep(r)
    ensures r.Some? ==> Reduced(r.value)
    ensures r.None? <==> parent.None? && own.None?
  {
    if WellFormedSymbol(modules) {
      CombinedMeaning(parent, own, modules);
    }
    var base: Dependency := None;
    if own.Some? {
      base := Some(Transform(RewriteM(own.value, modules)));
    }
    r := AndDep(parent, base);
    if r.Some? {
      var e := EliminateDups(r.value);
      r := Some(e);
    }
  }

  // ----- the submenu test -----

  /** "d is not n", as a simplified expression. */
  function NotNoForm(d: Dependency): Expr { Dedup(Transform(TransCompare(d, Unequal, No))) }

  lemma NotNoMeaning(d: Dependency)
    ensures CanonicalDep(d) ==> Equivalent(NotNoForm(d), TransCompare(d, Unequal, No)) && Canonical(NotNoForm(d))
    ensures Reduced(NotNoForm(d)) && Normal(NotNoForm(d))
  {
    hide Transform, Dedup;
    var t := TransCompare(d, Unequal, No);
    var e := Transform(t);
    TransformNormal(t);
    DedupMeaning(e);
    if CanonicalDep(d) {
      if d.Some? {
        TransCompareCanonical(d.value, Unequal, No);
      }
      TransformCanonical(t);
      forall env | WellTyped(env)
        ensures Eval(Dedup(e), env) == Eval(t, env)
      {
        TransformValue(t, env);
        assert Eval(e, env) == Eval(Dedup(e), env);
      }
    }
  }

  method NotNo(d: Dependency) returns (r: Expr)
    ensures r == NotNoForm(d)
    ensures CanonicalDep(d) ==> Equivalent(r, TransCompare(d, Unequal, No)) && Canonical(r)
    ensures Reduced(r) && Normal(r)
  {
    NotNoMeaning(d);
    r := EliminateDups(Transform(TransCompare(d, Unequal, No)));
  }

  lemma {:induction false} TransCompareCanonical(e: Expr, rel: Relation, c: Symbol)
    requires (rel == Equal || rel == Unequal) && (c == Yes || c == No)
    requires Canonical(e)
    ensures Canonical(TransCompareExpr(e, rel, c))
  {
    match e
    case Bin(_, l, r) =>
      TransCompareCanonical(l, Equal, c);
      TransCompareCanonical(r, Equal, c);
    case Not(a) => TransCompareCanonical(a, if rel == Equal then Unequal else Equal, c);
    case _ =>
  }

  predicate DepNegationFree(d: Dependency) { d.Some? ==> Logical(d.value) && NegationFree(d.value) }

  /** Removing the operands that the simplified conditions share uses up the base's. */
  predicate Superset(item: Dependency, base: Dependency) {
    EliminateEq(NotNoForm(item), NotNoForm(base)).1 == Sym(Yes)
  }

  /** Whether the item's dependencies include all of the symbol's. */
  method IsSuperset(item: Dependency, symbol: Dependency) returns (superset: bool)
    ensures superset == Superset(item, symbol)
    ensures superset && CanonicalDep(item) && CanonicalDep(symbol) ==> forall env :: WellTyped(env) ==>
              Eval(TransCompare(item, Unequal, No), env) <= Eval(TransCompare(symbol, Unequal, No), env)
  {
    if CanonicalDep(item) && CanonicalDep(symbol) && Superset(item, symbol) {
      SupersetMeaning(item, symbol);
    }
    var base := NotNo(symbol);
    var dep := NotNo(item);
    var t1 := new ExprTree(dep);
    var t2 := new ExprTree(base);
    EliminateEqInPlace(t1, t2);
    superset := t2.root == Sym(Yes);
  }

  /** If the test accepts, then whenever the item's condition is not n the symbol's is not
      n; with negations this holds of the comparisons the test is made on. */
  lemma SupersetMeaning(item: Dependency, symbol: Dependency)
    requires CanonicalDep(item) && CanonicalDep(symbol) && Superset(item, symbol)
    ensures forall env :: WellTyped(env) ==>
              Eval(TransCompare(item, Unequal, No), env) <= Eval(TransCompare(symbol, Unequal, No), env)
    ensures DepNegationFree(item) && DepNegationFree(symbol) ==>
              forall env :: WellTyped(env) && EvalDep(item, env) != NO ==> EvalDep(symbol, env) != NO
  {
    hide NotNoForm, EliminateEq;
    NotNoMeaning(item);
    NotNoMeaning(symbol);
    var dep, base := NotNoForm(item), NotNoForm(symbol);
    SupersetSound(dep, base);
    forall env | WellTyped(env)
      ensures Eval(TransCompare(item, Unequal, No), env) <= Eval(TransCompare(symbol, Unequal, No), env)
    {
      assert Eval(dep, env) <= Eval(base, env);
    }
    if DepNegationFree(item) && DepNegationFree(symbol) {
      forall env | WellTyped(env) && EvalDep(item, env) != NO
        ensures EvalDep(symbol, env) != NO
      {
        NotNoExact(item, env);
        NotNoExact(symbol, env);
      }
    }
  }

  lemma NotNoExact(d: Dependency, env: Env)
    requires DepNegationFree(d) && WellTyped(env)
    ensures Eval(TransCompare(d, Unequal, No), env) == FromBool(EvalDep(d, env) != NO)
  {
    if d.Some? {
      TransCompareValue(d.value, Unequal, No, env);
    }
  }
}
