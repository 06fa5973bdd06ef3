/** The equations that determine the value of every configuration symbol from the
    values of the symbols it depends on, and their unique solution. */
module SymbolRules {
  import opened Tristate
  import opened Expressions

  datatype Default = Default(cond: Dependency, value: Expr)

  datatype Role = Plain | Choice(members: seq<Symbol>) | Member(choice: Symbol)

  /** The properties of a symbol. A missing reverse dependency counts as n. */
  datatype SymbolDef = SymbolDef(
    prompts: seq<Dependency>,
    dirDep: Dependency,
    revDep: Option<Expr>,
    implied: Option<Expr>,
    defaults: seq<Default>,
    role: Role)

  /** What the user asked for; `pick` is the member chosen for a choice. */
  datatype UserValue = UserValue(isSet: bool, tri: Tri, text: string, pick: Option<Symbol>)

  /** A calculated value; `pick` is the selected member of a choice set to y. */
  datatype Cur = Cur(tri: Tri, text: string, pick: Option<Symbol>)

  /** Everything that is fixed once the configuration language has been read. */
  datatype Setup = Setup(defs: map<Symbol, SymbolDef>, modules: Tri, name: Symbol -> string)
  {
    function Def(s: Symbol): SymbolDef {
      if s in defs then defs[s] else SymbolDef([], None, None, None, [], Plain)
    }
  }

  type Users = map<Symbol, UserValue>

  function User(u: Users, s: Symbol): UserValue {
    if s in u then u[s] else UserValue(false, NO, "", None)
  }

  type Assignment = Symbol -> Cur

  function ToEnv(c: Setup, a: Assignment): Env {
    Env(s => a(s).tri, s => a(s).text, c.modules != NO)
  }

  // ----- visibility -----

  function PromptVisibility(c: Setup, s: Symbol, prompt: Dependency, a: Assignment): Tri {
    var v, role := EvalDep(prompt, ToEnv(c, a)), c.Def(s).role;
    if role.Member? && s.Type() == TristateType && v == MOD && Value(role.choice, ToEnv(c, a)) == YES then NO else v
  }

  function AnyPrompt(c: Setup, s: Symbol, prompts: seq<Dependency>, a: Assignment): Tri {
    if prompts == [] then NO
    else TriOr(AnyPrompt(c, s, prompts[..|prompts| - 1], a), PromptVisibility(c, s, prompts[|prompts| - 1], a))
  }

  /** A symbol that cannot be m is fully visible where it is visible at all. */
  function Promoted(c: Setup, s: Symbol, v: Tri): Tri {
    if v == MOD && (s.Type() != TristateType || c.modules == NO) then YES else v
  }

  function Visibility(c: Setup, s: Symbol, a: Assignment): Tri {
    Promoted(c, s, AnyPrompt(c, s, c.Def(s).prompts, a))
  }

  predicate IsLogical(s: Symbol) { s.Type() == Boolean || s.Type() == TristateType }

  /** Whether m counts as y for the symbol at present. */
  predicate ActsAsBool(c: Setup, s: Symbol, visible: Tri) {
    s.Type() == Boolean
    || (s.Type() == TristateType && ((c.Def(s).role.Member? && visible == YES) || c.modules == NO))
  }

  function Adjust(c: Setup, s: Symbol, visible: Tri, v: Tri): Tri {
    if v == MOD && ActsAsBool(c, s, visible) then YES else v
  }

  function EvalOpt(e: Option<Expr>, env: Env): Tri {
    match e case None => NO case Some(x) => Eval(x, env)
  }

  /** Direct, reverse and weak reverse dependency; choice members have none. */
  function DirDep(c: Setup, s: Symbol, a: Assignment): Tri {
    if c.Def(s).role.Member? then NO
    else Adjust(c, s, Visibility(c, s, a), EvalDep(c.Def(s).dirDep, ToEnv(c, a)))
  }

  function RevDep(c: Setup, s: Symbol, a: Assignment): Tri {
    if c.Def(s).role.Member? then NO
    else Adjust(c, s, Visibility(c, s, a), EvalOpt(c.Def(s).revDep, ToEnv(c, a)))
  }

  function Implied(c: Setup, s: Symbol, a: Assignment): Tri {
    if c.Def(s).role.Member? then NO
    else Adjust(c, s, Visibility(c, s, a), EvalOpt(c.Def(s).implied, ToEnv(c, a)))
  }

  // ----- values -----

  /** The first default whose condition is not n. */
  function ActiveDefault(defaults: seq<Default>, env: Env): Option<Default> {
    if defaults == [] then None
    else if EvalDep(defaults[0].cond, env) != NO then Some(defaults[0])
    else ActiveDefault(defaults[1..], env)
  }

  function DefaultTri(c: Setup, s: Symbol, a: Assignment): Tri {
    var env := ToEnv(c, a);
    match ActiveDefault(c.Def(s).defaults, env)
    case None => NO
    case Some(d) => TriAnd(Eval(d.value, env), EvalDep(d.cond, env))
  }

  /** The value before reverse dependencies. */
  function OwnTri(c: Setup, u: Users, s: Symbol, a: Assignment): Tri {
    var visible := Visibility(c, s, a);
    if visible != NO && User(u, s).isSet then TriAnd(User(u, s).tri, visible)
    else if c.Def(s).role.Choice? then NO
    else if Implied(c, s, a) != NO then
      TriAnd(TriOr(DefaultTri(c, s, a), Implied(c, s, a)), DirDep(c, s, a))
    else DefaultTri(c, s, a)
  }

  function LogicalTri(c: Setup, u: Users, s: Symbol, a: Assignment): Tri {
    var visible := Visibility(c, s, a);
    var role := c.Def(s).role;
    if role.Member? && visible == YES then FromBool(a(role.choice).pick == Some(s))
    else if DirDep(c, s, a) == NO && RevDep(c, s, a) != NO then NO
    else Adjust(c, s, visible, TriOr(OwnTri(c, u, s, a), RevDep(c, s, a)))
  }

  /** The text a symbol contributes as the default of another. */
  function CurText(c: Setup, s: Symbol, a: Assignment): string {
    if s.IsConst() then StringValue(s, ToEnv(c, a)) else a(s).text
  }

  function StringText(c: Setup, u: Users, s: Symbol, a: Assignment): string {
    if Visibility(c, s, a) != NO && User(u, s).isSet then User(u, s).text
    else match ActiveDefault(c.Def(s).defaults, ToEnv(c, a))
      case None => ""
      case Some(d) => if d.value.Sym? then CurText(c, d.value.sym, a) else ""
  }

  // ----- choices -----

  /** The assignment seen while the members of a choice set to y are examined. */
  function WithYes(a: Assignment, s: Symbol): Assignment { t => if t == s then Cur(YES, "n", None) else a(t) }

  function FirstVisible(c: Setup, members: seq<Symbol>, a: Assignment): Option<Symbol> {
    if members == [] then None
    else if Visibility(c, members[0], a) != NO then Some(members[0])
    else FirstVisible(c, members[1..], a)
  }

  function VisibleDefault(c: Setup, defaults: seq<Default>, a: Assignment): Option<Symbol> {
    if defaults == [] then None
    else
      var d := defaults[0];
      if EvalDep(d.cond, ToEnv(c, a)) != NO && d.value.Sym? && Visibility(c, d.value.sym, a) != NO then
        Some(d.value.sym)
      else VisibleDefault(c, defaults[1..], a)
  }

  /** The member a choice set to y selects: the user's if visible, else the first
      visible default, else the first visible member. */
  function PickMember(c: Setup, u: Users, s: Symbol, a: Assignment): Option<Symbol>
    requires c.Def(s).role.Choice?
  {
    var pick := User(u, s).pick;
    if pick.Some? && Visibility(c, pick.value, a) != NO then pick
    else
      var d := VisibleDefault(c, c.Def(s).defaults, a);
      if d.Some? then d else FirstVisible(c, c.Def(s).role.members, a)
  }

  function ChoiceCur(c: Setup, u: Users, s: Symbol, tri: Tri, a: Assignment): Cur
    requires c.Def(s).role.Choice?
  {
    if tri != YES then Cur(tri, "n", None)
    else
      var pick := PickMember(c, u, s, WithYes(a, s));
      if pick.None? then Cur(NO, "n", None) else Cur(YES, "n", pick)
  }

  /** The value of a symbol in terms of an assignment to the others. */
  function Rule(c: Setup, u: Users, s: Symbol, a: Assignment): Cur {
    if s.Type() == Unknown then Cur(NO, c.name(s), None)
    else if !IsLogical(s) then Cur(NO, StringText(c, u, s, a), None)
    else if c.Def(s).role.Choice? then ChoiceCur(c, u, s, LogicalTri(c, u, s, a), a)
    else Cur(LogicalTri(c, u, s, a), "n", None)
  }

  ghost predicate IsSolution(c: Setup, u: Users, a: Assignment) { forall s :: a(s) == Rule(c, u, s, a) }

  // ----- dependencies -----

  function Symbols(e: Expr): set<Symbol> {
    match e
    case Sym(s) => {s}
    case Not(a) => Symbols(a)
    case Bin(_, l, r) => Symbols(l) + Symbols(r)
    case Compare(_, s1, s2) => {s1, s2}
  }

  function OptSymbols(d: Option<Expr>): set<Symbol> { if d.None? then {} else Symbols(d.value) }

  function PromptDeps(prompts: seq<Dependency>): set<Symbol> {
    if prompts == [] then {} else PromptDeps(prompts[..|prompts| - 1]) + OptSymbols(prompts[|prompts| - 1])
  }

  function CondDeps(defaults: seq<Default>): set<Symbol> {
    if defaults == [] then {} else OptSymbols(defaults[0].cond) + CondDeps(defaults[1..])
  }

  function ValueDeps(defaults: seq<Default>): set<Symbol> {
    if defaults == [] then {} else Symbols(defaults[0].value) + ValueDeps(defaults[1..])
  }

  function MemberDeps(c: Setup, members: seq<Symbol>): set<Symbol> {
    if members == [] then {} else PromptDeps(c.Def(members[0]).prompts) + MemberDeps(c, members[1..])
  }

  /** The symbols the properties of s mention; the defaults of a choice name its
      members without depending on them. */
  function OwnDeps(c: Setup, s: Symbol): set<Symbol> {
    var d := c.Def(s);
    PromptDeps(d.prompts) + OptSymbols(d.dirDep) + OptSymbols(d.revDep) + OptSymbols(d.implied) + CondDeps(d.defaults)
    + (if d.role.Choice? then {} else ValueDeps(d.defaults))
  }

  /** The symbols the value of s refers to. A choice also refers to the conditions
      of its members' prompts, a member to its choice. */
  function Deps(c: Setup, s: Symbol): set<Symbol> {
    OwnDeps(c, s)
    + (match c.Def(s).role
       case Plain => {}
       case Member(choice) => {choice}
       case Choice(members) => MemberDeps(c, members) - {s})
  }

  /** Choices and their members refer to each other. */
  ghost predicate GroupsLinked(c: Setup) {
    && (forall s :: c.Def(s).role.Member? ==>
          var choice := c.Def(s).role.choice;
          IsLogical(choice) && IsLogical(s) && c.Def(choice).role.Choice? && s in c.Def(choice).role.members)
    && (forall s :: c.Def(s).role.Choice? ==>
          IsLogical(s) && forall m :: m in c.Def(s).role.members ==> c.Def(m).role == Member(s))
  }

  /** And what may be selected for a choice is one of its members. */
  ghost predicate ChoicesLinked(c: Setup, u: Users) {
    && GroupsLinked(c)
    && (forall s :: c.Def(s).role.Choice? ==>
          var members := c.Def(s).role.members;
          && (forall d :: d in c.Def(s).defaults ==> d.value.Sym? && d.value.sym in members)
          && (User(u, s).pick.Some? ==> User(u, s).pick.value in members))
  }

  /** A numbering that shows the dependencies to be free of cycles. */
  ghost predicate Ranked(c: Setup, rank: Symbol -> nat) {
    forall s, d :: d in Deps(c, s) ==> rank(d) < rank(s)
  }

  ghost predicate Agree(a: Assignment, b: Assignment, on: set<Symbol>) { forall d :: d in on ==> a(d) == b(d) }

  ghost predicate AgreeValues(a: Assignment, b: Assignment, on: set<Symbol>) {
    forall d :: d in on && d.Config? ==> a(d).tri == b(d).tri && a(d).text == b(d).text
  }

  // ----- a rule reads no more than its dependencies -----

  lemma {:induction false} EvalFrame(c: Setup, e: Expr, a: Assignment, b: Assignment)
    requires AgreeValues(a, b, Symbols(e))
    ensures Eval(e, ToEnv(c, a)) == Eval(e, ToEnv(c, b))
  {
    match e
    case Sym(_) =>
    case Not(x) => EvalFrame(c, x, a, b);
    case Bin(_, l, r) =>
      EvalFrame(c, l, a, b);
      EvalFrame(c, r, a, b);
    case Compare(_, s1, s2) =>
      assert StringValue(s1, ToEnv(c, a)) == StringValue(s1, ToEnv(c, b));
      assert StringValue(s2, ToEnv(c, a)) == StringValue(s2, ToEnv(c, b));
  }

  lemma OptFrame(c: Setup, e: Option<Expr>, a: Assignment, b: Assignment)
    requires AgreeValues(a, b, OptSymbols(e))
    ensures EvalDep(e, ToEnv(c, a)) == EvalDep(e, ToEnv(c, b))
    ensures EvalOpt(e, ToEnv(c, a)) == EvalOpt(e, ToEnv(c, b))
  {
    if e.Some? {
      EvalFrame(c, e.value, a, b);
    }
  }

  lemma {:induction false} PromptFrame(c: Setup, s: Symbol, prompts: seq<Dependency>, a: Assignment, b: Assignment)
    requires AgreeValues(a, b, PromptDeps(prompts))
    requires c.Def(s).role.Member? ==>
               Value(c.Def(s).role.choice, ToEnv(c, a)) == Value(c.Def(s).role.choice, ToEnv(c, b))
    ensures AnyPrompt(c, s, prompts, a) == AnyPrompt(c, s, prompts, b)
  {
    if prompts != [] {
      PromptFrame(c, s, prompts[..|prompts| - 1], a, b);
      OptFrame(c, prompts[|prompts| - 1], a, b);
    }
  }

  lemma VisibilityFrame(c: Setup, s: Symbol, a: Assignment, b: Assignment)
    requires AgreeValues(a, b, PromptDeps(c.Def(s).prompts))
    requires c.Def(s).role.Member? ==>
               Value(c.Def(s).role.choice, ToEnv(c, a)) == Value(c.Def(s).role.choice, ToEnv(c, b))
    ensures Visibility(c, s, a) == Visibility(c, s, b)
  {
    PromptFrame(c, s, c.Def(s).prompts, a, b);
  }

  lemma {:induction false} DefaultFrame(c: Setup, defaults: seq<Default>, a: Assignment, b: Assignment)
    requires Agree(a, b, CondDeps(defaults))
    ensures ActiveDefault(defaults, ToEnv(c, a)) == ActiveDefault(defaults, ToEnv(c, b))
    ensures ActiveDefault(defaults, ToEnv(c, a)).Some? ==>
              var d := ActiveDefault(defaults, ToEnv(c, a)).value;
              d in defaults && EvalDep(d.cond, ToEnv(c, a)) == EvalDep(d.cond, ToEnv(c, b))
  {
    if defaults != [] {
      OptFrame(c, defaults[0].cond, a, b);
      DefaultFrame(c, defaults[1..], a, b);
    }
  }

  lemma {:induction false} ValueDepsContain(defaults: seq<Default>, d: Default)
    requires d in defaults
    ensures Symbols(d.value) <= ValueDeps(defaults)
  {
    if d != defaults[0] {
      ValueDepsContain(defaults[1..], d);
    }
  }

  lemma {:induction false} MemberDepsContain(c: Setup, members: seq<Symbol>, m: Symbol)
    requires m in members
    ensures PromptDeps(c.Def(m).prompts) <= MemberDeps(c, members)
  {
    if m != members[0] {
      MemberDepsContain(c, members[1..], m);
    }
  }

  lemma DependencyFrame(c: Setup, s: Symbol, a: Assignment, b: Assignment)
    requires Agree(a, b, Deps(c, s))
    ensures Visibility(c, s, a) == Visibility(c, s, b)
    ensures DirDep(c, s, a) == DirDep(c, s, b)
    ensures RevDep(c, s, a) == RevDep(c, s, b)
    ensures Implied(c, s, a) == Implied(c, s, b)
  {
    VisibilityFrame(c, s, a, b);
    OptFrame(c, c.Def(s).dirDep, a, b);
    OptFrame(c, c.Def(s).revDep, a, b);
    OptFrame(c, c.Def(s).implied, a, b);
  }

  lemma DefaultTriFrame(c: Setup, s: Symbol, a: Assignment, b: Assignment)
    requires Agree(a, b, CondDeps(c.Def(s).defaults)) && Agree(a, b, ValueDeps(c.Def(s).defaults))
    ensures DefaultTri(c, s, a) == DefaultTri(c, s, b)
  {
    var defaults := c.Def(s).defaults;
    DefaultFrame(c, defaults, a, b);
    var d := ActiveDefault(defaults, ToEnv(c, a));
    if d.Some? {
      ValueDepsContain(defaults, d.value);
      EvalFrame(c, d.value.value, a, b);
    }
  }

  lemma StringTextFrame(c: Setup, u: Users, s: Symbol, a: Assignment, b: Assignment)
    requires Agree(a, b, CondDeps(c.Def(s).defaults)) && Agree(a, b, ValueDeps(c.Def(s).defaults))
    requires Visibility(c, s, a) == Visibility(c, s, b)
    ensures StringText(c, u, s, a) == StringText(c, u, s, b)
  {
    var defaults := c.Def(s).defaults;
    DefaultFrame(c, defaults, a, b);
    var d := ActiveDefault(defaults, ToEnv(c, a));
    if d.Some? {
      ValueDepsContain(defaults, d.value);
      if d.value.value.Sym? {
        assert d.value.value.sym in Symbols(d.value.value);
        assert CurText(c, d.value.value.sym, a) == CurText(c, d.value.value.sym, b);
      }
    }
  }

  lemma OwnFrame(c: Setup, u: Users, s: Symbol, a: Assignment, b: Assignment)
    requires Agree(a, b, Deps(c, s))
    ensures OwnTri(c, u, s, a) == OwnTri(c, u, s, b)
  {
    hide Visibility, DirDep, RevDep, Implied, DefaultTri;
    DependencyFrame(c, s, a, b);
    if !c.Def(s).role.Choice? {
      DefaultTriFrame(c, s, a, b);
    }
  }

  lemma LogicalFrame(c: Setup, u: Users, s: Symbol, a: Assignment, b: Assignment)
    requires Agree(a, b, Deps(c, s))
    ensures LogicalTri(c, u, s, a) == LogicalTri(c, u, s, b)
  {
    DependencyFrame(c, s, a, b);
    OwnFrame(c, u, s, a, b);
  }

  lemma MemberFrame(c: Setup, u: Users, s: Symbol, m: Symbol, a: Assignment, b: Assignment)
    requires ChoicesLinked(c, u) && c.Def(s).role.Choice? && m in c.Def(s).role.members
    requires Agree(a, b, Deps(c, s))
    ensures Visibility(c, m, WithYes(a, s)) == Visibility(c, m, WithYes(b, s))
  {
    hide Visibility, PromptDeps, MemberDeps, OwnDeps;
    MemberDepsContain(c, c.Def(s).role.members, m);
    VisibilityFrame(c, m, WithYes(a, s), WithYes(b, s));
  }

  lemma {:induction false} FirstVisibleFrame(c: Setup, u: Users, s: Symbol, members: seq<Symbol>, a: Assignment,
                                             b: Assignment)
    requires ChoicesLinked(c, u) && c.Def(s).role.Choice? && forall m :: m in members ==> m in c.Def(s).role.members
    requires Agree(a, b, Deps(c, s))
    ensures FirstVisible(c, members, WithYes(a, s)) == FirstVisible(c, members, WithYes(b, s))
  {
    if members != [] {
      MemberFrame(c, u, s, members[0], a, b);
      FirstVisibleFrame(c, u, s, members[1..], a, b);
    }
  }

  lemma {:induction false} VisibleDefaultFrame(c: Setup, u: Users, s: Symbol, defaults: seq<Default>, a: Assignment,
                                               b: Assignment)
    requires ChoicesLinked(c, u) && c.Def(s).role.Choice?
    requires forall d :: d in defaults ==> d.value.Sym? && d.value.sym in c.Def(s).role.members
    requires Agree(a, b, Deps(c, s)) && CondDeps(defaults) <= Deps(c, s)
    ensures VisibleDefault(c, defaults, WithYes(a, s)) == VisibleDefault(c, defaults, WithYes(b, s))
  {
    if defaults != [] {
      MemberFrame(c, u, s, defaults[0].value.sym, a, b);
      OptFrame(c, defaults[0].cond, WithYes(a, s), WithYes(b, s));
      VisibleDefaultFrame(c, u, s, defaults[1..], a, b);
    }
  }

  lemma PickFrame(c: Setup, u: Users, s: Symbol, a: Assignment, b: Assignment)
    requires ChoicesLinked(c, u) && Agree(a, b, Deps(c, s)) && c.Def(s).role.Choice?
    ensures PickMember(c, u, s, WithYes(a, s)) == PickMember(c, u, s, WithYes(b, s))
  {
    hide Visibility, MemberDeps, PromptDeps, Agree;
    FirstVisibleFrame(c, u, s, c.Def(s).role.members, a, b);
    VisibleDefaultFrame(c, u, s, c.Def(s).defaults, a, b);
    if User(u, s).pick.Some? {
      MemberFrame(c, u, s, User(u, s).pick.value, a, b);
    }
  }

  lemma RuleFrame(c: Setup, u: Users, s: Symbol, a: Assignment, b: Assignment)
    requires ChoicesLinked(c, u) && Agree(a, b, Deps(c, s))
    ensures Rule(c, u, s, a) == Rule(c, u, s, b)
  {
    if IsLogical(s) {
      LogicalFrame(c, u, s, a, b);
      if c.Def(s).role.Choice? {
        PickFrame(c, u, s, a, b);
      }
    } else if s.Type() != Unknown {
      DependencyFrame(c, s, a, b);
      StringTextFrame(c, u, s, a, b);
    }
  }

  // ----- the solution -----

  /** The rules applied k times to nothing. */
  ghost function Iterate(c: Setup, u: Users, k: nat): Assignment {
    if k == 0 then (s => Cur(NO, "", None))
    else
      var previous := Iterate(c, u, k - 1);
      s => Rule(c, u, s, previous)
  }

  lemma IterateStep(c: Setup, u: Users, k: nat, s: Symbol)
    ensures Iterate(c, u, k + 1)(s) == Rule(c, u, s, Iterate(c, u, k))
  {}

  lemma {:induction false} IterateStable(c: Setup, u: Users, rank: Symbol -> nat, k: nat, s: Symbol)
    requires ChoicesLinked(c, u) && Ranked(c, rank) && rank(s) < k
    ensures Iterate(c, u, k)(s) == Iterate(c, u, k + 1)(s)
    decreases k
  {
    hide Rule, Deps, ChoicesLinked;
    IterateStep(c, u, k - 1, s);
    IterateStep(c, u, k, s);
    var a, b := Iterate(c, u, k - 1), Iterate(c, u, k);
    forall d | d in Deps(c, s)
      ensures a(d) == b(d)
    {
      IterateStable(c, u, rank, k - 1, d);
    }
    RuleFrame(c, u, s, a, b);
  }

  lemma {:induction false} IterateLimit(c: Setup, u: Users, rank: Symbol -> nat, j: nat, k: nat, s: Symbol)
    requires ChoicesLinked(c, u) && Ranked(c, rank) && rank(s) < j <= k
    ensures Iterate(c, u, j)(s) == Iterate(c, u, k)(s)
    decreases k - j
  {
    if j < k {
      IterateStable(c, u, rank, j, s);
      IterateLimit(c, u, rank, j + 1, k, s);
    }
  }

  ghost function Solution(c: Setup, u: Users, rank: Symbol -> nat): Assignment {
    s => Iterate(c, u, rank(s) + 1)(s)
  }

  lemma SolutionAgrees(c: Setup, u: Users, rank: Symbol -> nat, s: Symbol)
    requires ChoicesLinked(c, u) && Ranked(c, rank)
    ensures Agree(Iterate(c, u, rank(s)), Solution(c, u, rank), Deps(c, s))
  {
    hide Rule, Deps, ChoicesLinked, Iterate;
    forall d | d in Deps(c, s)
      ensures Iterate(c, u, rank(s))(d) == Solution(c, u, rank)(d)
    {
      IterateLimit(c, u, rank, rank(d) + 1, rank(s), d);
    }
  }

  lemma SolutionAt(c: Setup, u: Users, rank: Symbol -> nat, s: Symbol)
    requires ChoicesLinked(c, u) && Ranked(c, rank)
    ensures Solution(c, u, rank)(s) == Rule(c, u, s, Solution(c, u, rank))
  {
    SolutionAgrees(c, u, rank, s);
    RuleFrame(c, u, s, Iterate(c, u, rank(s)), Solution(c, u, rank));
    IterateStep(c, u, rank(s), s);
  }

  /** Without cyclic dependencies every symbol has a value that fits all rules. */
  lemma SolutionExists(c: Setup, u: Users, rank: Symbol -> nat)
    requires ChoicesLinked(c, u) && Ranked(c, rank)
    ensures IsSolution(c, u, Solution(c, u, rank))
  {
    forall s
      ensures Solution(c, u, rank)(s) == Rule(c, u, s, Solution(c, u, rank))
    {
      SolutionAt(c, u, rank, s);
    }
  }

  /** And only one. */
  lemma {:induction false} SolutionUnique(c: Setup, u: Users, rank: Symbol -> nat, a: Assignment, b: Assignment,
                                          s: Symbol)
    requires ChoicesLinked(c, u) && Ranked(c, rank) && IsSolution(c, u, a) && IsSolution(c, u, b)
    ensures a(s) == b(s)
    decreases rank(s)
  {
    forall d | d in Deps(c, s)
      ensures a(d) == b(d)
    {
      SolutionUnique(c, u, rank, a, b, d);
    }
    RuleFrame(c, u, s, a, b);
  }
}
