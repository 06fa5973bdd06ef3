/** Symbols, dependency expressions and their values. */
module Expressions {
  import opened Tristate
  import opened Numbers

  datatype SymType = Unknown | Boolean | TristateType | Int | Hex | String

  /** A symbol by identity: the three built-in constants, any other quoted
      constant, or a configuration symbol of some type. */
  datatype Symbol =
    | Yes
    | Mod
    | No
    | Literal(text: string)
    | Config(id: nat, typ: SymType)
  {
    function Type(): SymType { if Config? then typ else Unknown }

    predicate IsConst() { !Config? }
  }

  datatype BoolOp = AND | OR

  datatype Relation = Equal | Unequal | Less | LessEq | Greater | GreaterEq

  datatype Expr =
    | Sym(sym: Symbol)
    | Not(arg: Expr)
    | Bin(op: BoolOp, left: Expr, right: Expr)
    | Compare(rel: Relation, lsym: Symbol, rsym: Symbol)

  /** A missing expression stands for `y`. */
  type Dependency = Option<Expr>

  /** The current values of the configuration symbols. */
  datatype Env = Env(tri: Symbol -> Tri, text: Symbol -> string, modules: bool)

  /** A bool symbol is never `m`, and nothing is `m` without module support. */
  ghost predicate WellTyped(env: Env) {
    forall id: nat, t: SymType :: env.tri(Config(id, t)) == MOD ==> t == TristateType && env.modules
  }

  function Value(s: Symbol, env: Env): Tri {
    match s
    case Yes => YES
    case Mod => MOD
    case No => NO
    case Literal(_) => NO
    case Config(_, _) => env.tri(s)
  }

  function StringValue(s: Symbol, env: Env): string {
    match s
    case Yes => "y"
    case Mod => "m"
    case No => "n"
    case Literal(t) => t
    case Config(_, typ) =>
      if typ == Boolean || typ == TristateType then
        (if env.tri(s) == MOD && !env.modules then "n" else TriName(env.tri(s)))
      else env.text(s)
  }

  datatype Parsed = Text | SignedNum(s: int) | UnsignedNum(u: int)

  function ParseString(str: string, typ: SymType): Parsed {
    match typ
    case Boolean | TristateType =>
      SignedNum(if str == "n" then 0 else if str == "m" then 1 else if str == "y" then 2 else -1)
    case Int => FromSigned(Signed(str, 10))
    case Hex => (match Unsigned(str, 16) case None => Text case Some(v) => UnsignedNum(v))
    case _ => FromSigned(Signed(str, 0))
  }

  function FromSigned(o: Option<int>): Parsed {
    match o case None => Text case Some(v) => SignedNum(v)
  }

  function Bits(p: Parsed): int
    requires !p.Text?
  {
    if p.SignedNum? then p.s % TWO64 else p.u
  }

  /** Sign of the comparison of two symbols: numeric where both sides read as
      numbers, byte order otherwise. */
  function Order(s1: Symbol, s2: Symbol, env: Env): int {
    var str1, str2 := StringValue(s1, env), StringValue(s2, env);
    var bothText := s1.Type() == String && s2.Type() == String;
    var k1 := if bothText then Text else ParseString(str1, s1.Type());
    var k2 := if bothText then Text else ParseString(str2, s2.Type());
    if k1.Text? || k2.Text? then StrCmp(str1, str2)
    else if k1.UnsignedNum? || k2.UnsignedNum? then Bits(k1) - Bits(k2)
    else k1.s - k2.s
  }

  predicate Holds(rel: Relation, order: int) {
    match rel
    case Equal => order == 0
    case Unequal => order != 0
    case Less => order < 0
    case LessEq => order <= 0
    case Greater => order > 0
    case GreaterEq => order >= 0
  }

  function Apply(op: BoolOp, a: Tri, b: Tri): Tri {
    if op == AND then TriAnd(a, b) else TriOr(a, b)
  }

  function Eval(e: Expr, env: Env): Tri {
    match e
    case Sym(s) => Value(s, env)
    case Not(a) => TriNot(Eval(a, env))
    case Bin(op, l, r) => Apply(op, Eval(l, env), Eval(r, env))
    case Compare(rel, s1, s2) => FromBool(Holds(rel, Order(s1, s2, env)))
  }

  function EvalDep(d: Dependency, env: Env): Tri {
    match d case None => YES case Some(e) => Eval(e, env)
  }

  /** Same value whatever the symbols are set to. */
  ghost predicate Equivalent(e1: Expr, e2: Expr) {
    forall env :: WellTyped(env) ==> Eval(e1, env) == Eval(e2, env)
  }

  function Size(e: Expr): nat
    ensures Size(e) >= 1
  {
    match e
    case Sym(_) => 1
    case Compare(_, _, _) => 1
    case Not(a) => 1 + Size(a)
    case Bin(_, l, r) => 1 + Size(l) + Size(r)
  }

  /** The operand an operator ignores, and the one that decides it. */
  function Unit(op: BoolOp): Expr { Sym(if op == AND then Yes else No) }

  function Absorber(op: BoolOp): Expr { Sym(if op == AND then No else Yes) }

  /** A quoted constant that is one of y, m, n is the built-in symbol. */
  predicate WellFormedSymbol(s: Symbol) {
    s.Literal? ==> s.text != "n" && s.text != "m" && s.text != "y"
  }

  /** The bool/tristate value a constant compares equal to; -1 (or any other
      number) if none. */
  function Level(s: Symbol): int
    requires s.IsConst()
  {
    match s
    case Yes => 2
    case Mod => 1
    case No => 0
    case Literal(t) => (match Signed(t, 0) case None => -1 case Some(v) => v)
  }

  lemma LettersAreNoNumbers(t: Tri)
    ensures Signed(TriName(t), 0) == None
  {
    var s := TriName(t);
    assert SkipSpace(s) == s;
    assert DigitValue(s[0]) == 99;
  }

  /** Comparing a bool or tristate symbol with a constant compares levels. */
  lemma EqualsConstant(a: Symbol, c: Symbol, env: Env)
    requires WellTyped(env)
    requires a.Type() == Boolean || a.Type() == TristateType
    requires c.IsConst() && WellFormedSymbol(c)
    ensures Eval(Compare(Equal, a, c), env) == FromBool(Value(a, env) == Level(c))
    ensures Eval(Compare(Unequal, a, c), env) == FromBool(Value(a, env) != Level(c))
  {
    var str := StringValue(c, env);
    LettersAreNoNumbers(0);
    LettersAreNoNumbers(1);
    LettersAreNoNumbers(2);
    StrCmpZero(StringValue(a, env), str);
  }
}
