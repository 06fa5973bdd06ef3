/** What the solution of the symbol equations guarantees. */
module SymbolTheorems {
  import opened Tristate
  import opened Expressions
  import opened Equality
  import opened Slots
  import opened SymbolRules

  // ----- typing -----

  lemma {:induction false} AnyPromptNo(c: Setup, s: Symbol, prompts: seq<Dependency>, a: Assignment)
    requires forall p :: p in prompts ==> PromptVisibility(c, s, p, a) != MOD
    ensures AnyPrompt(c, s, prompts, a) != MOD
  {
    if prompts != [] {
      AnyPromptNo(c, s, prompts[..|prompts| - 1], a);
    }
  }

  /** In a solution no bool symbol is m, and without modules nothing is: the
      assumption under which expressions are simplified. */
  lemma SolutionWellTyped(c: Setup, u: Users, a: Assignment)
    requires IsSolution(c, u, a)
    ensures WellTyped(ToEnv(c, a))
  {
    forall id: nat, t: SymType | a(Config(id, t)).tri == MOD
      ensures t == TristateType && c.modules != NO
    {
      var s := Config(id, t);
      assert a(s) == Rule(c, u, s, a);
      LogicalTyped(c, u, s, a);
    }
  }

  lemma LogicalTyped(c: Setup, u: Users, s: Symbol, a: Assignment)
    requires LogicalTri(c, u, s, a) == MOD
    ensures !ActsAsBool(c, s, Visibility(c, s, a))
  {}

  // ----- select -----

  /** The reverse dependency of a symbol after "a selects it if cond". */
  function AddSelect(rev: Option<Expr>, a: Symbol, cond: Dependency): Option<Expr> {
    var term := SelectTerm(a, cond);
    if rev.None? then Some(term) else Some(Bin(OR, rev.value, term))
  }

  function SelectTerm(a: Symbol, cond: Dependency): Expr {
    if cond.None? then Sym(a) else Bin(AND, Sym(a), cond.value)
  }

  function AddSelects(rev: Option<Expr>, selects: seq<(Symbol, Dependency)>): Option<Expr>
    decreases |selects|
  {
    if selects == [] then rev else AddSelects(AddSelect(rev, selects[0].0, selects[0].1), selects[1..])
  }

  /** Each select remains an alternative of the reverse dependency. */
  lemma {:induction false} SelectsRecorded(rev: Option<Expr>, selects: seq<(Symbol, Dependency)>, term: Expr)
    requires (rev.Some? && term in Operands(OR, rev.value))
               || (exists x :: x in selects && term == SelectTerm(x.0, x.1))
    ensures AddSelects(rev, selects).Some? && term in Operands(OR, AddSelects(rev, selects).value)
    decreases |selects|
  {
    if selects != [] {
      var rev' := AddSelect(rev, selects[0].0, selects[0].1);
      var first := SelectTerm(selects[0].0, selects[0].1);
      assert Operands(OR, first) == [first];
      if !(term in Operands(OR, rev'.value)) {
        var x :| x in selects && term == SelectTerm(x.0, x.1);
        assert x in selects[1..];
      }
      SelectsRecorded(rev', selects[1..], term);
    }
  }

  lemma {:induction false} OperandBelow(e: Expr, x: Expr, env: Env)
    requires x in Operands(OR, e)
    ensures Eval(x, env) <= Eval(e, env)
  {
    if Rooted(OR, e) {
      if x in Operands(OR, e.left) {
        OperandBelow(e.left, x, env);
      } else {
        OperandBelow(e.right, x, env);
      }
    }
  }

  /** The value a select demands of its target. */
  function Demanded(c: Setup, from: Symbol, cond: Dependency, a: Assignment): Tri {
    Eval(SelectTerm(from, cond), ToEnv(c, a))
  }

  /** Every selected symbol is at least as high as the minimum of the selecting
      symbol and the condition, unless its own direct dependency is n: then it is
      n. The target is a bool or tristate symbol outside choices. */
  lemma SelectClosure(c: Setup, u: Users, a: Assignment, from: Symbol, cond: Dependency, target: Symbol)
    requires IsSolution(c, u, a)
    requires IsLogical(target) && c.Def(target).role.Plain?
    requires c.Def(target).revDep.Some? && SelectTerm(from, cond) in Operands(OR, c.Def(target).revDep.value)
    ensures DirDep(c, target, a) != NO ==> a(target).tri >= Demanded(c, from, cond, a)
    ensures DirDep(c, target, a) == NO && Demanded(c, from, cond, a) != NO ==> a(target).tri == NO
    ensures Demanded(c, from, cond, a) == TriAnd(Value(from, ToEnv(c, a)), EvalDep(cond, ToEnv(c, a)))
  {
    assert a(target) == Rule(c, u, target, a);
    OperandBelow(c.Def(target).revDep.value, SelectTerm(from, cond), ToEnv(c, a));
    assert RevDep(c, target, a) >= Demanded(c, from, cond, a);
  }

  // ----- choices -----

  lemma MemberVisibility(c: Setup, m: Symbol, a: Assignment)
    requires c.Def(m).role.Member? && IsLogical(m) && Value(c.Def(m).role.choice, ToEnv(c, a)) == YES
    ensures Visibility(c, m, a) != MOD
  {
    if m.Type() == TristateType {
      AnyPromptNo(c, m, c.Def(m).prompts, a);
    }
  }

  lemma {:induction false} FirstVisibleMember(c: Setup, members: seq<Symbol>, a: Assignment)
    ensures var p := FirstVisible(c, members, a);
            if p.Some? then p.value in members && Visibility(c, p.value, a) != NO
            else forall m :: m in members ==> Visibility(c, m, a) == NO
  {
    if members != [] {
      FirstVisibleMember(c, members[1..], a);
    }
  }

  lemma {:induction false} VisibleDefaultMember(c: Setup, defaults: seq<Default>, a: Assignment)
    ensures var p := VisibleDefault(c, defaults, a);
            p.Some? ==> Visibility(c, p.value, a) != NO && exists d :: d in defaults && d.value == Sym(p.value)
  {
    if defaults != [] {
      VisibleDefaultMember(c, defaults[1..], a);
      var p := VisibleDefault(c, defaults[1..], a);
      if p.Some? {
        var d :| d in defaults[1..] && d.value == Sym(p.value);
        assert d in defaults;
      }
    }
  }

  /** A choice set to y selects a visible member as soon as there is one. */
  lemma PickVisible(c: Setup, u: Users, s: Symbol, a: Assignment)
    requires ChoicesLinked(c, u) && c.Def(s).role.Choice?
    ensures var p := PickMember(c, u, s, a);
            if p.Some? then p.value in c.Def(s).role.members && Visibility(c, p.value, a) != NO
            else forall m :: m in c.Def(s).role.members ==> Visibility(c, m, a) == NO
  {
    FirstVisibleMember(c, c.Def(s).role.members, a);
    VisibleDefaultMember(c, c.Def(s).defaults, a);
  }

  lemma MemberValue(c: Setup, u: Users, m: Symbol, a: Assignment)
    requires IsSolution(c, u, a) && ChoicesLinked(c, u)
    requires c.Def(m).role.Member? && c.Def(m).defaults == [] && a(c.Def(m).role.choice).tri == YES
    ensures a(m).tri == if Visibility(c, m, a) != NO && a(c.Def(m).role.choice).pick == Some(m) then YES else NO
  {
    assert a(m) == Rule(c, u, m, a);
    MemberVisibility(c, m, a);
    assert OwnTri(c, u, m, a) == NO || Visibility(c, m, a) == YES;
  }

  /** When a choice is y, exactly one of its members is y and the others are n;
      the members carry no defaults of their own. */
  lemma ExactlyOneMember(c: Setup, u: Users, s: Symbol, a: Assignment)
    requires IsSolution(c, u, a) && ChoicesLinked(c, u)
    requires c.Def(s).role.Choice? && a(s).tri == YES
    requires forall m :: m in c.Def(s).role.members ==> c.Def(m).defaults == []
    ensures a(s).pick.Some? && a(s).pick.value in c.Def(s).role.members
    ensures forall m :: m in c.Def(s).role.members ==> a(m).tri == if a(s).pick == Some(m) then YES else NO
  {
    var b := WithYes(a, s);
    assert a(s) == Rule(c, u, s, a);
    PickVisible(c, u, s, b);
    forall m | m in c.Def(s).role.members
      ensures a(m).tri == if a(s).pick == Some(m) then YES else NO
    {
      MemberValue(c, u, m, a);
      VisibilityFrame(c, m, a, b);
    }
  }

  /** A choice that the rules would set to y ends up n exactly when no member is
      visible. */
  lemma EmptyChoice(c: Setup, u: Users, s: Symbol, a: Assignment)
    requires IsSolution(c, u, a) && ChoicesLinked(c, u)
    requires c.Def(s).role.Choice? && LogicalTri(c, u, s, a) == YES
    ensures a(s).tri ==
            if exists m :: m in c.Def(s).role.members && Visibility(c, m, WithYes(a, s)) != NO then YES else NO
  {
    assert a(s) == Rule(c, u, s, a);
    PickVisible(c, u, s, WithYes(a, s));
  }

  // ----- setting a value -----

  /** Whether the user may set a symbol to a value. */
  predicate InRange(c: Setup, s: Symbol, val: Tri, visible: Tri, rev: Tri) {
    && visible != NO
    && IsLogical(s)
    && !(ActsAsBool(c, s, visible) && val == MOD)
    && visible > rev
    && (if c.Def(s).role.Member? && visible == YES then val == YES else rev <= val <= visible)
  }

  predicate WithinRange(c: Setup, s: Symbol, val: Tri, a: Assignment) {
    InRange(c, s, val, Visibility(c, s, a), RevDep(c, s, a))
  }

  function SetUser(u: Users, s: Symbol, val: Tri): Users {
    u[s := User(u, s).(isSet := true, tri := val)]
  }

  lemma RuleOther(c: Setup, u: Users, s: Symbol, val: Tri, t: Symbol, a: Assignment)
    requires t != s
    ensures Rule(c, SetUser(u, s, val), t, a) == Rule(c, u, t, a)
  {
    assert User(SetUser(u, s, val), t) == User(u, t);
  }

  /** Setting a symbol leaves everything it depends on as it was. */
  lemma {:induction false} LowerUnaffected(c: Setup, u: Users, rank: Symbol -> nat, s: Symbol, val: Tri,
                                           a: Assignment, b: Assignment, t: Symbol)
    requires ChoicesLinked(c, u) && Ranked(c, rank)
    requires IsSolution(c, u, a) && IsSolution(c, SetUser(u, s, val), b)
    requires rank(t) < rank(s)
    ensures a(t) == b(t)
    decreases rank(t)
  {
    hide Rule, Deps;
    forall d | d in Deps(c, t)
      ensures a(d) == b(d)
    {
      LowerUnaffected(c, u, rank, s, val, a, b, d);
    }
    RuleFrame(c, u, t, a, b);
    RuleOther(c, u, s, val, t, b);
  }

  /** An accepted change takes effect if and only if no select contradicts the
      symbol's direct dependency, or the new value is n. */
  lemma SetTakesEffect(c: Setup, u: Users, rank: Symbol -> nat, s: Symbol, val: Tri, a: Assignment, b: Assignment)
    requires ChoicesLinked(c, u) && Ranked(c, rank)
    requires IsSolution(c, u, a) && IsSolution(c, SetUser(u, s, val), b)
    requires c.Def(s).role.Plain? && WithinRange(c, s, val, a)
    ensures b(s).tri == val <==> (DirDep(c, s, a) != NO || RevDep(c, s, a) == NO || val == NO)
    ensures b(s).tri != val ==> b(s).tri == NO
  {
    forall d | d in Deps(c, s)
      ensures a(d) == b(d)
    {
      LowerUnaffected(c, u, rank, s, val, a, b, d);
    }
    DependencyFrame(c, s, a, b);
    assert b(s) == Rule(c, SetUser(u, s, val), s, b);
    hide IsSolution, Deps, Ranked;
    SetRule(c, u, s, val, b);
  }

  /** The rule for a symbol whose user value is in its range. */
  lemma SetRule(c: Setup, u: Users, s: Symbol, val: Tri, b: Assignment)
    requires c.Def(s).role.Plain? && WithinRange(c, s, val, b)
    ensures var t := Rule(c, SetUser(u, s, val), s, b).tri;
            && (t == val <==> DirDep(c, s, b) != NO || RevDep(c, s, b) == NO || val == NO)
            && (t != val ==> t == NO)
  {}

  /** Once the user has picked a visible member, it is y if and only if the choice is. */
  lemma PickTakesEffect(c: Setup, u: Users, s: Symbol, b: Assignment)
    requires IsSolution(c, u, b) && ChoicesLinked(c, u) && c.Def(s).role.Member?
    requires User(u, c.Def(s).role.choice).pick == Some(s) && Visibility(c, s, b) == YES
    ensures b(s).tri == YES <==> b(c.Def(s).role.choice).tri == YES
    ensures b(s).tri != YES ==> b(s).tri == NO
  {
    var choice := c.Def(s).role.choice;
    assert b(s) == Rule(c, u, s, b) && b(choice) == Rule(c, u, choice, b);
    if b(choice).tri == YES {
      VisibilityFrame(c, s, b, WithYes(b, choice));
    }
  }

  // ----- symbols defined in several places -----

  function OrDep(d1: Dependency, d2: Dependency): Dependency {
    if d1.None? then d2 else if d2.None? then d1 else Some(Bin(OR, d1.value, d2.value))
  }

  /** The direct dependency of a symbol defined at nodes with the given dependencies: any
      of them, except that a missing one leaves no trace beside others. */
  function DirOf(deps: seq<Dependency>): Dependency {
    if deps == [] then None else OrDep(DirOf(deps[..|deps| - 1]), deps[|deps| - 1])
  }

  /** Either all definitions are conditional, or none is. */
  predicate Uniform(deps: seq<Dependency>) {
    (forall d :: d in deps ==> d.Some?) || (forall d :: d in deps ==> d.None?)
  }

  lemma {:induction false} DirOfCovers(deps: seq<Dependency>, d: Dependency, env: Env)
    requires Uniform(deps) && d in deps
    ensures EvalDep(d, env) <= EvalDep(DirOf(deps), env)
    decreases |deps|
  {
    var rest, last := deps[..|deps| - 1], deps[|deps| - 1];
    assert deps == rest + [last] && last in deps && forall x :: x in rest ==> x in deps;
    if last.None? {
      NoDir(deps);
    } else if d in rest {
      DirOfCovers(rest, d, env);
      assert rest[|rest| - 1] in rest && DirOf(rest).Some?;
    }
  }

  lemma {:induction false} NoDir(deps: seq<Dependency>)
    requires forall d :: d in deps ==> d.None?
    ensures DirOf(deps) == None
  {
    if deps != [] {
      assert deps[|deps| - 1] in deps;
      NoDir(deps[..|deps| - 1]);
    }
  }

  /** Each prompt is limited by the dependency of the node it is defined at. */
  ghost predicate PromptsLimited(c: Setup, prompts: seq<Dependency>, deps: seq<Dependency>, a: Assignment) {
    forall p :: p in prompts ==> exists d :: d in deps && EvalDep(p, ToEnv(c, a)) <= EvalDep(d, ToEnv(c, a))
  }

  lemma {:induction false} PromptsBelowDir(c: Setup, s: Symbol, prompts: seq<Dependency>, deps: seq<Dependency>,
                                           a: Assignment)
    requires Uniform(deps) && PromptsLimited(c, prompts, deps, a)
    ensures AnyPrompt(c, s, prompts, a) <= EvalDep(DirOf(deps), ToEnv(c, a))
    decreases |prompts|
  {
    if prompts != [] {
      var rest, p := prompts[..|prompts| - 1], prompts[|prompts| - 1];
      assert p in prompts && forall q :: q in rest ==> q in prompts;
      PromptsBelowDir(c, s, rest, deps, a);
      var d :| d in deps && EvalDep(p, ToEnv(c, a)) <= EvalDep(d, ToEnv(c, a));
      DirOfCovers(deps, d, ToEnv(c, a));
    }
  }

  /** So if no unconditional definition stands beside a conditional one, every accepted
      change takes effect. */
  lemma UniformTakesEffect(c: Setup, u: Users, rank: Symbol -> nat, s: Symbol, val: Tri, a: Assignment, b: Assignment,
                           deps: seq<Dependency>)
    requires ChoicesLinked(c, u) && Ranked(c, rank)
    requires IsSolution(c, u, a) && IsSolution(c, SetUser(u, s, val), b)
    requires c.Def(s).role.Plain? && WithinRange(c, s, val, a)
    requires c.Def(s).dirDep == DirOf(deps) && Uniform(deps) && PromptsLimited(c, c.Def(s).prompts, deps, a)
    ensures b(s).tri == val
  {
    hide IsSolution, Ranked, ChoicesLinked, DirOf, AnyPrompt;
    PromptsBelowDir(c, s, c.Def(s).prompts, deps, a);
    SetTakesEffect(c, u, rank, s, val, a, b);
  }

  const TWICE := Config(0, TristateType)

  /** A tristate symbol defined without a condition and, again, under a condition that is n,
      and selected as m. */
  function TwiceDefined(): Setup {
    var deps := [None, Some(Sym(No))];
    Setup(map[TWICE := SymbolDef(deps, DirOf(deps), Some(Sym(Mod)), None, [], Plain)], YES, _ => "")
  }

  lemma TwiceFields(a: Assignment)
    ensures var c := TwiceDefined();
            && Visibility(c, TWICE, a) == YES && DirDep(c, TWICE, a) == NO && RevDep(c, TWICE, a) == MOD
            && PromptsLimited(c, c.Def(TWICE).prompts, [None, Some(Sym(No))], a)
  {
    var c, n: Dependency := TwiceDefined(), Some(Sym(No));
    var deps: seq<Dependency> := [None, n];
    assert deps[..1] == [None] && deps[..1][..0] == [];
    assert DirOf([None]) == None && DirOf(deps) == n;
    assert AnyPrompt(c, TWICE, [], a) == NO && AnyPrompt(c, TWICE, [None], a) == YES;
    assert AnyPrompt(c, TWICE, deps, a) == YES;
  }

  lemma TwiceRanked()
    ensures ChoicesLinked(TwiceDefined(), map[]) && Ranked(TwiceDefined(), s => if s == TWICE then 1 else 0)
  {
    var c, n: Dependency := TwiceDefined(), Some(Sym(No));
    var deps: seq<Dependency> := [None, n];
    assert deps[..1] == [None] && deps[..1][..0] == [];
    assert DirOf([None]) == None && DirOf(deps) == n;
    assert PromptDeps([None]) == {} && PromptDeps(deps) == {No};
    assert Deps(c, TWICE) == {No, Mod};
    assert forall s :: s != TWICE ==> Deps(c, s) == {};
  }

  /** A change that is accepted and lost: TWICE is set to y and is n afterwards. */
  lemma AcceptedChangeLost() returns (a: Assignment, b: Assignment)
    ensures var c := TwiceDefined();
            && IsSolution(c, map[], a) && IsSolution(c, SetUser(map[], TWICE, YES), b)
            && c.Def(TWICE).role.Plain? && WithinRange(c, TWICE, YES, a) && b(TWICE).tri == NO
  {
    hide Visibility, DirDep, RevDep, Solution, Deps, Ranked;
    var c, rank: Symbol -> nat := TwiceDefined(), s => if s == TWICE then 1 else 0;
    TwiceRanked();
    a, b := Solution(c, map[], rank), Solution(c, SetUser(map[], TWICE, YES), rank);
    SolutionExists(c, map[], rank);
    SolutionExists(c, SetUser(map[], TWICE, YES), rank);
    TwiceFields(a);
    SetTakesEffect(c, map[], rank, TWICE, YES, a, b);
  }
}
