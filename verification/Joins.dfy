/** Replacing two operands of one && or || by a single equivalent one. */
module Joins {
  import opened Tristate
  import opened Expressions
  import opened Equality

  /** The symbol an operand is about, for the operand forms that can be joined. */
  function Subject(e: Expr, first: bool): Option<Symbol> {
    match e
    case Sym(s) => Some(s)
    case Compare(rel, s, _) => if rel == Equal || rel == Unequal then Some(s) else None
    case Not(Sym(s)) => Some(s)
    case Not(Compare(rel, s, _)) => if first && (rel == Equal || rel == Unequal) then Some(s) else None
    case _ => None
  }

  predicate Is(e: Expr, rel: Relation, c: Symbol) { e.Compare? && e.rel == rel && e.rsym == c }

  /** One operand has the first form and the other the second, in either order. */
  predicate Pair(e1: Expr, rel1: Relation, c1: Symbol, e2: Expr, rel2: Relation, c2: Symbol) {
    (Is(e1, rel1, c1) && Is(e2, rel2, c2)) || (Is(e1, rel2, c2) && Is(e2, rel1, c1))
  }

  predicate WithSymbol(e1: Expr, e2: Expr, rel: Relation, c: Symbol) {
    (e1.Sym? && Is(e2, rel, c)) || (e2.Sym? && Is(e1, rel, c))
  }

  function JoinOr(e1: Expr, e2: Expr): Option<Expr> {
    var s1, s2 := Subject(e1, true), Subject(e2, false);
    if ExprEq(e1, e2) then Some(e1)
    else if s1.None? || s2.None? || s1 != s2 then None
    else
      var a := s1.value;
      if a.Type() == TristateType then
        if Pair(e1, Equal, Yes, e2, Equal, Mod) then Some(Compare(Unequal, a, No))
        else if Pair(e1, Equal, Yes, e2, Equal, No) then Some(Compare(Unequal, a, Mod))
        else if Pair(e1, Equal, Mod, e2, Equal, No) then Some(Compare(Unequal, a, Yes))
        else None
      else if a.Type() == Boolean
              && ((e1.Not? && e1.arg.Sym? && e2.Sym?) || (e2.Not? && e2.arg.Sym? && e1.Sym?))
      then Some(Sym(Yes))
      else None
  }

  /** (a = b) && (a != c) for constants b and c. */
  function JoinExclusion(a: Symbol, b: Symbol, c: Symbol): Expr {
    if b != c then Compare(Equal, a, b) else Sym(No)
  }

  /** Two comparisons of a tristate symbol that both have to hold. */
  function JoinComparisons(a: Symbol, e1: Expr, e2: Expr): Option<Expr>
    requires e1.Compare? && e2.Compare?
  {
    if e1.rel == Equal && e2.rel == Unequal && e1.rsym.IsConst() && e2.rsym.IsConst() then
      Some(JoinExclusion(a, e1.rsym, e2.rsym))
    else if e1.rel == Unequal && e2.rel == Equal && e1.rsym.IsConst() && e2.rsym.IsConst() then
      Some(JoinExclusion(a, e2.rsym, e1.rsym))
    else if Pair(e1, Unequal, Yes, e2, Unequal, No) then Some(Compare(Equal, a, Mod))
    else if Pair(e1, Unequal, Yes, e2, Unequal, Mod) then Some(Compare(Equal, a, No))
    else if Pair(e1, Unequal, Mod, e2, Unequal, No) then Some(Compare(Equal, a, Yes))
    else None
  }

  function JoinAnd(e1: Expr, e2: Expr): Option<Expr> {
    var s1, s2 := Subject(e1, true), Subject(e2, false);
    if ExprEq(e1, e2) then Some(e1)
    else if s1.None? || s2.None? || s1 != s2 then None
    else
      var a := s1.value;
      if a.Type() != Boolean && a.Type() != TristateType then None
      else if WithSymbol(e1, e2, Equal, Yes) then Some(Compare(Equal, a, Yes))
      else if WithSymbol(e1, e2, Unequal, No) then Some(Sym(a))
      else if WithSymbol(e1, e2, Unequal, Mod) then Some(Compare(Equal, a, Yes))
      else if a.Type() == TristateType && e1.Compare? && e2.Compare? then JoinComparisons(a, e1, e2)
      else None
  }

  function Join(op: BoolOp, e1: Expr, e2: Expr): Option<Expr> {
    if op == AND then JoinAnd(e1, e2) else JoinOr(e1, e2)
  }

  predicate Three(c1: Symbol, c2: Symbol, c3: Symbol) { {c1, c2, c3} == {Yes, Mod, No} }

  /** What is joined, in either order: of the three values of a tristate symbol, two
      alternatives are the exclusion of the third, and two exclusions leave the third;
      one value excludes another; y and "not n" are implied by, or imply, the symbol. */
  lemma JoinRules(a: Symbol, c1: Symbol, c2: Symbol, c3: Symbol)
    requires a.Type() == TristateType && Three(c1, c2, c3)
    ensures JoinOr(Compare(Equal, a, c1), Compare(Equal, a, c2)) == Some(Compare(Unequal, a, c3))
    ensures JoinAnd(Compare(Unequal, a, c1), Compare(Unequal, a, c2)) == Some(Compare(Equal, a, c3))
    ensures JoinAnd(Compare(Equal, a, c1), Compare(Unequal, a, c2)) == Some(Compare(Equal, a, c1))
    ensures JoinAnd(Compare(Unequal, a, c1), Compare(Equal, a, c2)) == Some(Compare(Equal, a, c2))
    ensures JoinAnd(Compare(Equal, a, c1), Compare(Unequal, a, c1)) == Some(Sym(No))
  {
    assert c1 in {Yes, Mod, No} && c2 in {Yes, Mod, No} && c3 in {Yes, Mod, No};
    assert Yes in {c1, c2, c3} && Mod in {c1, c2, c3} && No in {c1, c2, c3};
  }

  lemma JoinSymbolRules(a: Symbol, first: bool)
    requires a.Type() == TristateType || a.Type() == Boolean
    ensures var both := (op: BoolOp, x: Expr) => if first then Join(op, Sym(a), x) else Join(op, x, Sym(a));
            && both(AND, Compare(Equal, a, Yes)) == Some(Compare(Equal, a, Yes))
            && both(AND, Compare(Unequal, a, No)) == Some(Sym(a))
            && both(AND, Compare(Unequal, a, Mod)) == Some(Compare(Equal, a, Yes))
            && both(OR, Not(Sym(a))) == (if a.Type() == Boolean then Some(Sym(Yes)) else None)
            && both(OR, Sym(a)) == Some(Sym(a))
  {}

  /** Equal operands are merged, whatever they are. */
  lemma JoinEqual(op: BoolOp, e1: Expr, e2: Expr)
    requires ExprEq(e1, e2)
    ensures Join(op, e1, e2) == Some(e1)
  {
    hide ExprEq;
  }

  /** A value and an exclusion of a tristate symbol are joined for any two constants. */
  lemma ExclusionApplies(a: Symbol, b: Symbol, c: Symbol)
    requires a.Type() == TristateType && b.IsConst() && c.IsConst()
    ensures Join(AND, Compare(Equal, a, b), Compare(Unequal, a, c)) == Some(JoinExclusion(a, b, c))
    ensures Join(AND, Compare(Unequal, a, c), Compare(Equal, a, b)) == Some(JoinExclusion(a, b, c))
  {}

  // ----- what is assumed about constants -----

  /** Two constants that a tristate symbol cannot tell apart. */
  predicate SameLevel(b: Symbol, c: Symbol)
    requires b.IsConst() && c.IsConst()
  {
    Level(b) == Level(c) && 0 <= Level(b) <= 2
  }

  /** Literals are what the scanner produces, and no tristate symbol is compared
      with a number 0, 1 or 2: such a literal is a second spelling of n, m or y. */
  predicate Canonical(e: Expr) {
    match e
    case Sym(s) => WellFormedSymbol(s)
    case Not(a) => Canonical(a)
    case Bin(_, l, r) => Canonical(l) && Canonical(r)
    case Compare(_, a, c) =>
      && WellFormedSymbol(a)
      && WellFormedSymbol(c)
      && (a.Type() == TristateType && c.Literal? ==> !(0 <= Level(c) <= 2))
  }

  // ----- soundness -----

  lemma JoinOrSound(e1: Expr, e2: Expr, env: Env)
    requires WellTyped(env)
    requires JoinOr(e1, e2).Some?
    ensures Eval(JoinOr(e1, e2).value, env) == TriOr(Eval(e1, env), Eval(e2, env))
  {
    if ExprEq(e1, e2) {
      ExprEqSound(e1, e2, env);
    } else {
      var a := Subject(e1, true).value;
      if a.Type() == TristateType {
        assert e1 == Compare(Equal, a, e1.rsym) && e2 == Compare(Equal, a, e2.rsym);
        EqualsConstant(a, e1.rsym, env);
        EqualsConstant(a, e2.rsym, env);
        EqualsConstant(a, JoinOr(e1, e2).value.rsym, env);
      }
    }
  }

  /** The rule for (a = b) && (a != c) keeps the value in every environment if
      and only if b and c are not two spellings of one value. */
  lemma JoinExclusionExact(a: Symbol, b: Symbol, c: Symbol)
    requires a.Type() == TristateType
    requires b.IsConst() && c.IsConst() && WellFormedSymbol(b) && WellFormedSymbol(c)
    ensures Equivalent(JoinExclusion(a, b, c), Bin(AND, Compare(Equal, a, b), Compare(Unequal, a, c)))
            <==> (b == c || !SameLevel(b, c))
  {
    var source := Bin(AND, Compare(Equal, a, b), Compare(Unequal, a, c));
    forall env | WellTyped(env) && (b == c || !SameLevel(b, c))
      ensures Eval(JoinExclusion(a, b, c), env) == Eval(source, env)
    {
      EqualsConstant(a, b, env);
      EqualsConstant(a, c, env);
    }
    if b != c && SameLevel(b, c) {
      var env := Env(s => if s == a then Level(b) else NO, _ => "", true);
      assert WellTyped(env);
      EqualsConstant(a, b, env);
      EqualsConstant(a, c, env);
      assert Eval(JoinExclusion(a, b, c), env) != Eval(source, env);
    }
  }

  /** A concrete failure: FOO = y && FOO != "2" becomes FOO = y. */
  lemma JoinExclusionFails(a: Symbol)
    requires a.Type() == TristateType
    ensures JoinAnd(Compare(Equal, a, Yes), Compare(Unequal, a, Literal("2"))) == Some(Compare(Equal, a, Yes))
    ensures !Equivalent(Compare(Equal, a, Yes),
                        Bin(AND, Compare(Equal, a, Yes), Compare(Unequal, a, Literal("2"))))
  {
    var two := "2";
    assert Numbers.SkipSpace(two) == two;
    assert Numbers.Magnitude(two[..0], 10) == 0;
    assert Level(Literal(two)) == 2;
    JoinExclusionExact(a, Yes, Literal("2"));
  }

  lemma CanonicalExclusion(e1: Expr, e2: Expr, env: Env)
    requires WellTyped(env) && Canonical(e1) && Canonical(e2)
    requires e1.Compare? && e2.Compare? && e1.lsym == e2.lsym && e1.lsym.Type() == TristateType
    requires e1.rel == Equal && e2.rel == Unequal && e1.rsym.IsConst() && e2.rsym.IsConst()
    ensures Eval(JoinExclusion(e1.lsym, e1.rsym, e2.rsym), env) == TriAnd(Eval(e1, env), Eval(e2, env))
  {
    assert e1.rsym == e2.rsym || !SameLevel(e1.rsym, e2.rsym);
    JoinExclusionExact(e1.lsym, e1.rsym, e2.rsym);
    assert Eval(JoinExclusion(e1.lsym, e1.rsym, e2.rsym), env) == Eval(Bin(AND, e1, e2), env);
  }

  lemma JoinComparisonsSound(a: Symbol, e1: Expr, e2: Expr, env: Env)
    requires WellTyped(env) && Canonical(e1) && Canonical(e2) && a.Type() == TristateType
    requires e1.Compare? && e2.Compare? && e1.lsym == a == e2.lsym
    requires JoinComparisons(a, e1, e2).Some?
    ensures Eval(JoinComparisons(a, e1, e2).value, env) == TriAnd(Eval(e1, env), Eval(e2, env))
  {
    if e1.rel == Equal {
      CanonicalExclusion(e1, e2, env);
    } else if e2.rel == Equal {
      CanonicalExclusion(e2, e1, env);
    } else {
      EqualsConstant(a, Yes, env);
      EqualsConstant(a, Mod, env);
      EqualsConstant(a, No, env);
    }
  }

  lemma JoinAndSound(e1: Expr, e2: Expr, env: Env)
    requires WellTyped(env) && Canonical(e1) && Canonical(e2)
    requires JoinAnd(e1, e2).Some?
    ensures Eval(JoinAnd(e1, e2).value, env) == TriAnd(Eval(e1, env), Eval(e2, env))
  {
    if ExprEq(e1, e2) {
      ExprEqSound(e1, e2, env);
    } else {
      var a := Subject(e1, true).value;
      if WithSymbol(e1, e2, Equal, Yes) {
        EqualsConstant(a, Yes, env);
      } else if WithSymbol(e1, e2, Unequal, No) {
        EqualsConstant(a, No, env);
      } else if WithSymbol(e1, e2, Unequal, Mod) {
        EqualsConstant(a, Mod, env);
        EqualsConstant(a, Yes, env);
      } else {
        JoinComparisonsSound(a, e1, e2, env);
      }
    }
  }

  /** A join keeps the value of the pair in every environment and stays within
      canonical expressions. */
  lemma JoinSound(op: BoolOp, e1: Expr, e2: Expr)
    requires Canonical(e1) && Canonical(e2)
    requires Join(op, e1, e2).Some?
    ensures Equivalent(Join(op, e1, e2).value, Bin(op, e1, e2))
    ensures Canonical(Join(op, e1, e2).value)
  {
    forall env | WellTyped(env)
      ensures Eval(Join(op, e1, e2).value, env) == Eval(Bin(op, e1, e2), env)
    {
      if op == AND {
        JoinAndSound(e1, e2, env);
      } else {
        JoinOrSound(e1, e2, env);
      }
    }
  }

  /** A join is no larger than the first operand, and an operand like it. */
  lemma JoinSize(op: BoolOp, e1: Expr, e2: Expr)
    requires Join(op, e1, e2).Some?
    ensures Size(Join(op, e1, e2).value) <= Size(e1)
    ensures Rooted(op, Join(op, e1, e2).value) ==> Rooted(op, e1)
  {}
}
