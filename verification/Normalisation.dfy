/** Normalisation of expressions: negations pushed down to symbols, comparisons of
    bool symbols with constants removed. */
module Normalisation {
  import opened Tristate
  import opened Expressions
  import opened Joins

  /** A measure that pushing a negation down lowers, although it adds nodes. */
  function Weight(e: Expr): nat
    ensures Weight(e) >= 1
  {
    match e
    case Sym(_) => 1
    case Compare(_, _, _) => 2
    case Not(a) => 2 * Weight(a)
    case Bin(_, l, r) => 1 + Weight(l) + Weight(r)
  }

  predicate BuiltIn(s: Symbol) { s == Yes || s == Mod || s == No }

  /** A comparison of a bool symbol with y, m or n, rewritten without one. */
  function TransformCompare(e: Expr): Expr
    requires e.Compare?
  {
    if e.lsym.Type() != Boolean || !BuiltIn(e.rsym) then e
    else match e.rel
      case Equal =>
        if e.rsym == No then Not(Sym(e.lsym)) else if e.rsym == Mod then Sym(No) else Sym(e.lsym)
      case Unequal =>
        if e.rsym == No then Sym(e.lsym) else if e.rsym == Mod then Sym(Yes) else Not(Sym(e.lsym))
      case _ => e
  }

  function Opposite(rel: Relation): Relation {
    match rel
    case Equal => Unequal
    case Unequal => Equal
    case LessEq => Greater
    case GreaterEq => Less
    case Less => GreaterEq
    case Greater => LessEq
  }

  function Dual(op: BoolOp): BoolOp { if op == AND then OR else AND }

  /** The negation of l op r, by De Morgan's law. */
  function NegateEach(op: BoolOp, l: Expr, r: Expr): (x: Expr)
    ensures Weight(x) < Weight(Not(Bin(op, l, r)))
  {
    assert Weight(Not(l)) == 2 * Weight(l) && Weight(Not(r)) == 2 * Weight(r);
    Bin(Dual(op), Not(l), Not(r))
  }

  function Transform(e: Expr): (r: Expr)
    ensures Weight(r) <= Weight(e)
    decreases Weight(e)
  {
    match e
    case Sym(_) => e
    case Compare(_, _, _) => TransformCompare(e)
    case Bin(op, l, r) => Bin(op, Transform(l), Transform(r))
    case Not(a) =>
      match Transform(a)
      case Not(b) => Transform(b)
      case Compare(rel, s1, s2) => Compare(Opposite(rel), s1, s2)
      case Bin(op, l, r) => Transform(NegateEach(op, l, r))
      case Sym(s) =>
        if s == Yes then Sym(No) else if s == Mod then Sym(Mod) else if s == No then Sym(Yes) else Not(Sym(s))
  }

  /** Negations only above symbols other than y, m, n; no bool symbol tested for
      equality with y, m or n. */
  predicate Normal(e: Expr) {
    match e
    case Sym(_) => true
    case Bin(_, l, r) => Normal(l) && Normal(r)
    case Not(a) => a.Sym? && !BuiltIn(a.sym)
    case Compare(rel, s1, s2) => !(s1.Type() == Boolean && BuiltIn(s2) && (rel == Equal || rel == Unequal))
  }

  lemma {:induction false} TransformNormal(e: Expr)
    ensures Normal(Transform(e))
    decreases Weight(e)
  {
    match e
    case Sym(_) =>
    case Compare(_, _, _) =>
    case Bin(op, l, r) =>
      TransformNormal(l);
      TransformNormal(r);
    case Not(a) =>
      TransformNormal(a);
      match Transform(a)
      case Not(b) => TransformNormal(b);
      case Compare(_, _, _) =>
      case Bin(op, l, r) => TransformNormal(NegateEach(op, l, r));
      case Sym(_) =>
  }

  lemma {:induction false} NormalFixed(e: Expr)
    requires Normal(e)
    ensures Transform(e) == e
  {
    match e
    case Sym(_) =>
    case Compare(_, _, _) =>
    case Bin(_, l, r) =>
      NormalFixed(l);
      NormalFixed(r);
    case Not(a) =>
      assert Transform(a) == a;
  }

  /** Transforming twice is transforming once. */
  lemma TransformIdempotent(e: Expr)
    ensures Transform(Transform(e)) == Transform(e)
  {
    TransformNormal(e);
    NormalFixed(Transform(e));
  }

  lemma OppositeValue(rel: Relation, s1: Symbol, s2: Symbol, env: Env)
    ensures Eval(Compare(Opposite(rel), s1, s2), env) == TriNot(Eval(Compare(rel, s1, s2), env))
  {}

  lemma TransformCompareValue(e: Expr, env: Env)
    requires e.Compare? && WellTyped(env)
    ensures Eval(TransformCompare(e), env) == Eval(e, env)
  {
    if e.lsym.Type() == Boolean && BuiltIn(e.rsym) && (e.rel == Equal || e.rel == Unequal) {
      EqualsConstant(e.lsym, e.rsym, env);
      assert env.tri(Config(e.lsym.id, Boolean)) != MOD;
    }
  }

  lemma DeMorgan(op: BoolOp, l: Expr, r: Expr, env: Env)
    ensures Eval(NegateEach(op, l, r), env) == TriNot(Eval(Bin(op, l, r), env))
  {}

  /** The value is unchanged whatever the symbols are set to. */
  lemma {:induction false} TransformValue(e: Expr, env: Env)
    requires WellTyped(env)
    ensures Eval(Transform(e), env) == Eval(e, env)
    decreases Weight(e)
  {
    match e
    case Sym(_) =>
    case Compare(_, _, _) =>
      TransformCompareValue(e, env);
    case Bin(op, l, r) =>
      TransformValue(l, env);
      TransformValue(r, env);
    case Not(a) =>
      TransformValue(a, env);
      match Transform(a)
      case Not(b) =>
        TransformValue(b, env);
      case Compare(rel, s1, s2) =>
        OppositeValue(rel, s1, s2, env);
      case Bin(op, l, r) =>
        TransformValue(NegateEach(op, l, r), env);
        DeMorgan(op, l, r, env);
      case Sym(_) =>
  }

  lemma {:induction false} TransformCanonical(e: Expr)
    requires Canonical(e)
    ensures Canonical(Transform(e))
    decreases Weight(e)
  {
    match e
    case Sym(_) =>
    case Compare(_, _, _) =>
    case Bin(op, l, r) =>
      TransformCanonical(l);
      TransformCanonical(r);
    case Not(a) =>
      TransformCanonical(a);
      match Transform(a)
      case Not(b) => TransformCanonical(b);
      case Compare(_, _, _) =>
      case Bin(op, l, r) => TransformCanonical(NegateEach(op, l, r));
      case Sym(_) =>
  }

  // ----- FOO != n becomes FOO -----

  function TransBool(e: Expr): Expr {
    match e
    case Sym(_) => e
    case Not(a) => Not(TransBool(a))
    case Bin(op, l, r) => Bin(op, TransBool(l), TransBool(r))
    case Compare(rel, s1, s2) =>
      if rel == Unequal && s1.Type() == TristateType && s2 == No then Sym(s1) else e
  }

  /** On normalised expressions the rewriting never turns a value into n or out of
      n and never raises it, so a symbol without an m state does not notice. */
  lemma {:induction false} TransBoolPromotes(e: Expr, env: Env)
    requires WellTyped(env) && Normal(e)
    ensures Eval(TransBool(e), env) == NO <==> Eval(e, env) == NO
    ensures Eval(TransBool(e), env) <= Eval(e, env)
    ensures Promote(Eval(TransBool(e), env)) == Promote(Eval(e, env))
  {
    match e
    case Bin(_, l, r) =>
      TransBoolPromotes(l, env);
      TransBoolPromotes(r, env);
    case Compare(rel, s1, s2) =>
      if rel == Unequal && s1.Type() == TristateType && s2 == No {
        EqualsConstant(s1, s2, env);
      }
    case _ =>
  }

  /** Somewhere a tristate symbol is tested for not being n. */
  predicate TestsNotNo(e: Expr) {
    match e
    case Sym(_) => false
    case Not(a) => TestsNotNo(a)
    case Bin(_, l, r) => TestsNotNo(l) || TestsNotNo(r)
    case Compare(rel, s1, s2) => rel == Unequal && s1.Type() == TristateType && s2 == No
  }

  /** All such tests are gone afterwards, and nothing else has changed. */
  lemma {:induction false} TransBoolRemoves(e: Expr)
    ensures !TestsNotNo(TransBool(e))
    ensures !TestsNotNo(e) ==> TransBool(e) == e
  {
    match e
    case Not(a) => TransBoolRemoves(a);
    case Bin(_, l, r) =>
      TransBoolRemoves(l);
      TransBoolRemoves(r);
    case _ =>
  }

  /** Below a negation it would notice: !(FOO != n) with FOO = m. */
  lemma TransBoolNeedsNormal(a: Symbol)
    requires a.Type() == TristateType
    ensures exists env :: WellTyped(env)
              && Promote(Eval(TransBool(Not(Compare(Unequal, a, No))), env))
                 != Promote(Eval(Not(Compare(Unequal, a, No)), env))
  {
    var env := Env(s => if s == a then MOD else NO, _ => "", true);
    EqualsConstant(a, No, env);
    assert WellTyped(env);
    assert Eval(TransBool(Not(Compare(Unequal, a, No))), env) == MOD;
    assert Eval(Not(Compare(Unequal, a, No)), env) == NO;
  }

  // ----- explicit comparison with a constant -----

  /** The comparison of an expression with y or n, pushed down to the symbols.
      `rel` is Equal or Unequal. */
  function TransCompare(d: Dependency, rel: Relation, c: Symbol): Expr
    requires (rel == Equal || rel == Unequal) && (c == Yes || c == No)
  {
    match d
    case None => if rel == Unequal then Not(Sym(c)) else Sym(c)
    case Some(e) => TransCompareExpr(e, rel, c)
  }

  function TransCompareExpr(e: Expr, rel: Relation, c: Symbol): Expr
    requires (rel == Equal || rel == Unequal) && (c == Yes || c == No)
  {
    match e
    case Bin(op, l, r) =>
      var l', r' := TransCompareExpr(l, Equal, c), TransCompareExpr(r, Equal, c);
      var both := Bin(if c == Yes then op else Dual(op), l', r');
      if rel == Unequal then Not(both) else both
    case Not(a) => TransCompareExpr(a, if rel == Equal then Unequal else Equal, c)
    case Compare(_, _, _) => if (rel == Equal) == (c == Yes) then e else Not(e)
    case Sym(s) => Compare(rel, s, c)
  }

  /** Symbols that are bool, tristate or built in; only these have a tristate value
      that comparisons see. */
  predicate Logical(e: Expr) {
    match e
    case Sym(s) => BuiltIn(s) || s.Type() == Boolean || s.Type() == TristateType
    case Not(a) => Logical(a)
    case Bin(_, l, r) => Logical(l) && Logical(r)
    case Compare(_, _, _) => true
  }

  predicate NegationFree(e: Expr) {
    match e
    case Not(_) => false
    case Bin(_, l, r) => NegationFree(l) && NegationFree(r)
    case _ => true
  }

  predicate Wanted(v: Tri, rel: Relation, c: Symbol)
    requires c == Yes || c == No
  {
    var target := if c == Yes then YES else NO;
    if rel == Equal then v == target else v != target
  }

  lemma ConstantOrder(s: Symbol, c: Symbol, env: Env)
    requires WellTyped(env) && Logical(Sym(s)) && BuiltIn(c)
    ensures Eval(Compare(Equal, s, c), env) == FromBool(Value(s, env) == Value(c, env))
    ensures Eval(Compare(Unequal, s, c), env) == FromBool(Value(s, env) != Value(c, env))
  {
    if s.Config? {
      EqualsConstant(s, c, env);
    } else {
      LettersAreNoNumbers(0);
      LettersAreNoNumbers(1);
      LettersAreNoNumbers(2);
      Numbers.StrCmpZero(StringValue(s, env), StringValue(c, env));
    }
  }

  /** The result is y or n, and it is the intended answer if the expression is y
      or n, or if it has no negation. */
  lemma {:induction false} TransCompareValue(e: Expr, rel: Relation, c: Symbol, env: Env)
    requires (rel == Equal || rel == Unequal) && (c == Yes || c == No)
    requires WellTyped(env) && Logical(e)
    ensures Eval(TransCompareExpr(e, rel, c), env) != MOD
    ensures Eval(e, env) != MOD || NegationFree(e) ==>
              Eval(TransCompareExpr(e, rel, c), env) == FromBool(Wanted(Eval(e, env), rel, c))
  {
    match e
    case Bin(op, l, r) =>
      TransCompareValue(l, Equal, c, env);
      TransCompareValue(r, Equal, c, env);
    case Not(a) =>
      TransCompareValue(a, if rel == Equal then Unequal else Equal, c, env);
    case Compare(_, _, _) =>
    case Sym(s) =>
      ConstantOrder(s, c, env);
  }

  /** Where it is not: a negated symbol is answered wrongly exactly at m. */
  lemma TransCompareNegatedSymbol(a: Symbol, rel: Relation, c: Symbol, env: Env)
    requires (rel == Equal || rel == Unequal) && (c == Yes || c == No)
    requires WellTyped(env) && Logical(Sym(a))
    ensures Eval(TransCompareExpr(Not(Sym(a)), rel, c), env) == FromBool(Wanted(Eval(Not(Sym(a)), env), rel, c))
            <==> Value(a, env) != MOD
  {
    ConstantOrder(a, c, env);
  }
}
