/** The value every symbol has in a solution, by the position of the defaults, prompts and
    members that decide it. */
module SymbolValues {
  import opened Tristate
  import opened Expressions
  import opened SymbolRules
  import opened SymbolTheorems

  function Least(v: Tri, w: Tri): Tri { if v <= w then v else w }

  function Greatest(v: Tri, w: Tri): Tri { if v <= w then w else v }

  /** Outside choices, m counts as y for bool symbols, and for all without modules. */
  function Raised(c: Setup, s: Symbol, v: Tri): Tri {
    if v == MOD && (s.Type() == Boolean || c.modules == NO) then YES else v
  }

  // ----- visibility -----

  lemma {:induction false} AnyPromptGreatest(c: Setup, s: Symbol, prompts: seq<Dependency>, a: Assignment)
    ensures forall p :: p in prompts ==> PromptVisibility(c, s, p, a) <= AnyPrompt(c, s, prompts, a)
    ensures AnyPrompt(c, s, prompts, a) == NO
            || exists p :: p in prompts && AnyPrompt(c, s, prompts, a) == PromptVisibility(c, s, p, a)
    decreases |prompts|
  {
    if prompts != [] {
      var rest, last := prompts[..|prompts| - 1], prompts[|prompts| - 1];
      AnyPromptGreatest(c, s, rest, a);
      assert prompts == rest + [last];
      assert forall p :: p in prompts <==> p in rest || p == last;
    }
  }

  /** A tristate member of a choice set to y. */
  predicate InChoice(c: Setup, s: Symbol, a: Assignment) {
    && c.Def(s).role.Member? && s.Type() == TristateType
    && Value(c.Def(s).role.choice, ToEnv(c, a)) == YES
  }

  /** A symbol is as visible as its most visible prompt, and not at all if none is; where it
      cannot be m, it is fully visible instead of m. */
  lemma VisibleAsPrompts(c: Setup, s: Symbol, a: Assignment)
    requires !InChoice(c, s, a)
    ensures var v, prompts, env := Visibility(c, s, a), c.Def(s).prompts, ToEnv(c, a);
            && (forall p :: p in prompts ==> EvalDep(p, env) <= v)
            && (v == NO <==> forall p :: p in prompts ==> EvalDep(p, env) == NO)
            && (if s.Type() == TristateType && c.modules != NO
                then v == NO || exists p :: p in prompts && EvalDep(p, env) == v
                else v != MOD)
  {
    AnyPromptGreatest(c, s, c.Def(s).prompts, a);
  }

  /** But a tristate member of a choice set to y is visible only by a prompt that is y. */
  lemma VisibleInChoice(c: Setup, s: Symbol, a: Assignment)
    requires InChoice(c, s, a)
    ensures Visibility(c, s, a) ==
            if exists p :: p in c.Def(s).prompts && EvalDep(p, ToEnv(c, a)) == YES then YES else NO
  {
    AnyPromptGreatest(c, s, c.Def(s).prompts, a);
  }

  // ----- defaults -----

  /** The first default whose condition is not n is at i; there is none if i is the end. */
  ghost predicate FirstActive(defaults: seq<Default>, env: Env, i: nat) {
    && i <= |defaults|
    && (i < |defaults| ==> EvalDep(defaults[i].cond, env) != NO)
    && forall j :: 0 <= j < i ==> EvalDep(defaults[j].cond, env) == NO
  }

  /** What it gives: its value, limited by its condition. */
  function Given(defaults: seq<Default>, env: Env, i: nat): Tri {
    if i < |defaults| then Least(Eval(defaults[i].value, env), EvalDep(defaults[i].cond, env)) else NO
  }

  lemma {:induction false} ActiveDefaultAt(defaults: seq<Default>, env: Env, i: nat)
    requires FirstActive(defaults, env, i)
    ensures ActiveDefault(defaults, env) == if i < |defaults| then Some(defaults[i]) else None
    decreases |defaults|
  {
    if defaults != [] && i > 0 {
      assert EvalDep(defaults[0].cond, env) == NO;
      ActiveDefaultAt(defaults[1..], env, i - 1);
    }
  }

  lemma DefaultGiven(c: Setup, s: Symbol, a: Assignment, i: nat)
    requires FirstActive(c.Def(s).defaults, ToEnv(c, a), i)
    ensures DefaultTri(c, s, a) == Given(c.Def(s).defaults, ToEnv(c, a), i)
  {
    ActiveDefaultAt(c.Def(s).defaults, ToEnv(c, a), i);
  }

  /** The user's wish counts while the symbol is visible. */
  predicate Wished(c: Setup, u: Users, s: Symbol, a: Assignment) {
    Visibility(c, s, a) != NO && User(u, s).isSet
  }

  /** What select makes of a value: it is the least value unless the direct dependency is n,
      when the symbol is switched off. */
  predicate Settled(c: Setup, s: Symbol, a: Assignment, base: Tri, v: Tri) {
    var dir := EvalDep(c.Def(s).dirDep, ToEnv(c, a));
    var rev := Raised(c, s, EvalOpt(c.Def(s).revDep, ToEnv(c, a)));
    v == if rev == NO then Raised(c, s, base) else if dir == NO then NO else Raised(c, s, Greatest(base, rev))
  }

  /** A bool or tristate symbol outside choices the user has no say in takes the first default
      whose condition is not n, limited by that condition; an imply raises this, no further
      than the direct dependency. */
  lemma DefaultTaken(c: Setup, u: Users, a: Assignment, s: Symbol, i: nat)
    requires IsSolution(c, u, a) && IsLogical(s) && c.Def(s).role.Plain? && !Wished(c, u, s, a)
    requires FirstActive(c.Def(s).defaults, ToEnv(c, a), i)
    ensures var env, d := ToEnv(c, a), c.Def(s);
            var given, imp := Given(d.defaults, env, i), Raised(c, s, EvalOpt(d.implied, env));
            var dir := Raised(c, s, EvalDep(d.dirDep, env));
            Settled(c, s, a, if imp == NO then given else Least(dir, Greatest(given, imp)), a(s).tri)
  {
    hide Visibility, ActiveDefault;
    DefaultGiven(c, s, a, i);
    assert a(s) == Rule(c, u, s, a);
  }

  /** So without imply and select the value is just the default's, and n if no condition holds. */
  lemma DefaultAlone(c: Setup, u: Users, a: Assignment, s: Symbol, i: nat)
    requires IsSolution(c, u, a) && IsLogical(s) && c.Def(s).role.Plain? && !Wished(c, u, s, a)
    requires FirstActive(c.Def(s).defaults, ToEnv(c, a), i)
    requires EvalOpt(c.Def(s).implied, ToEnv(c, a)) == NO == EvalOpt(c.Def(s).revDep, ToEnv(c, a))
    ensures a(s).tri == Raised(c, s, Given(c.Def(s).defaults, ToEnv(c, a), i))
  {
    hide Visibility, ActiveDefault;
    DefaultTaken(c, u, a, s, i);
  }

  /** The user's value is limited by the visibility. */
  lemma WishTaken(c: Setup, u: Users, a: Assignment, s: Symbol)
    requires IsSolution(c, u, a) && IsLogical(s) && c.Def(s).role.Plain? && Wished(c, u, s, a)
    ensures Settled(c, s, a, Least(User(u, s).tri, Visibility(c, s, a)), a(s).tri)
  {
    hide Visibility, ActiveDefault;
    assert a(s) == Rule(c, u, s, a);
  }

  /** An int, hex or string symbol has the user's text while visible, else the text of its
      first default whose condition is not n, else none. */
  lemma TextTaken(c: Setup, u: Users, a: Assignment, s: Symbol, i: nat)
    requires IsSolution(c, u, a) && !IsLogical(s) && s.Type() != Unknown
    requires FirstActive(c.Def(s).defaults, ToEnv(c, a), i)
    ensures var defaults := c.Def(s).defaults;
            && a(s).tri == NO
            && (Wished(c, u, s, a) ==> a(s).text == User(u, s).text)
            && (!Wished(c, u, s, a) && i < |defaults| && defaults[i].value.Sym? ==>
                  var d := defaults[i].value.sym;
                  a(s).text == if d.IsConst() then StringValue(d, ToEnv(c, a)) else a(d).text)
            && (!Wished(c, u, s, a) && i == |defaults| ==> a(s).text == "")
  {
    hide Visibility, ActiveDefault;
    ActiveDefaultAt(c.Def(s).defaults, ToEnv(c, a), i);
    assert a(s) == Rule(c, u, s, a);
  }

  /** The text of a bool or tristate symbol is always n, and a symbol without type has its name. */
  lemma OtherTexts(c: Setup, u: Users, a: Assignment, s: Symbol)
    requires IsSolution(c, u, a)
    ensures IsLogical(s) ==> a(s).text == "n"
    ensures s.Type() == Unknown ==> a(s).tri == NO && a(s).text == c.name(s)
  {
    hide LogicalTri, PickMember;
    assert a(s) == Rule(c, u, s, a);
  }

  // ----- choices -----

  /** A choice takes no default: it has the user's value or what selects it, except that it is
      n instead of y while no member is visible. */
  lemma ChoiceTaken(c: Setup, u: Users, a: Assignment, s: Symbol, v: Tri)
    requires IsSolution(c, u, a) && ChoicesLinked(c, u) && c.Def(s).role.Choice?
    requires Settled(c, s, a, if Wished(c, u, s, a) then Least(User(u, s).tri, Visibility(c, s, a)) else NO, v)
    ensures v != YES ==> a(s).tri == v
    ensures v == YES ==>
              a(s).tri ==
              if exists m :: m in c.Def(s).role.members && Visibility(c, m, WithYes(a, s)) != NO then YES else NO
  {
    assert a(s) == Rule(c, u, s, a);
    assert LogicalTri(c, u, s, a) == v by { hide Visibility, ActiveDefault, IsSolution, ChoicesLinked; }
    hide Visibility, LogicalTri, PickMember;
    if v == YES {
      EmptyChoice(c, u, s, a);
    }
  }

  /** Outside a choice set to y a visible member keeps to the user's value, or its defaults. */
  lemma MemberTaken(c: Setup, u: Users, a: Assignment, m: Symbol, i: nat)
    requires IsSolution(c, u, a) && IsLogical(m) && c.Def(m).role.Member? && Visibility(c, m, a) != YES
    requires FirstActive(c.Def(m).defaults, ToEnv(c, a), i)
    ensures a(m).tri == Raised(c, m, if Wished(c, u, m, a) then Least(User(u, m).tri, Visibility(c, m, a))
                                     else Given(c.Def(m).defaults, ToEnv(c, a), i))
  {
    hide Visibility, ActiveDefault;
    DefaultGiven(c, m, a, i);
    assert a(m) == Rule(c, u, m, a);
  }

  /** A default of a choice counts if its condition is not n and the member is visible. */
  predicate Eligible(c: Setup, d: Default, a: Assignment) {
    EvalDep(d.cond, ToEnv(c, a)) != NO && d.value.Sym? && Visibility(c, d.value.sym, a) != NO
  }

  ghost predicate FirstEligible(c: Setup, defaults: seq<Default>, a: Assignment, i: nat) {
    && i <= |defaults|
    && (i < |defaults| ==> Eligible(c, defaults[i], a))
    && forall j :: 0 <= j < i ==> !Eligible(c, defaults[j], a)
  }

  lemma {:induction false} VisibleDefaultAt(c: Setup, defaults: seq<Default>, a: Assignment, i: nat)
    requires FirstEligible(c, defaults, a, i)
    ensures VisibleDefault(c, defaults, a) == if i < |defaults| then Some(defaults[i].value.sym) else None
    decreases |defaults|
  {
    hide Visibility;
    if defaults != [] && i > 0 {
      assert !Eligible(c, defaults[0], a);
      VisibleDefaultAt(c, defaults[1..], a, i - 1);
    }
  }

  ghost predicate FirstShown(c: Setup, members: seq<Symbol>, a: Assignment, k: nat) {
    && k < |members| && Visibility(c, members[k], a) != NO
    && forall j :: 0 <= j < k ==> Visibility(c, members[j], a) == NO
  }

  lemma {:induction false} FirstVisibleAt(c: Setup, members: seq<Symbol>, a: Assignment, k: nat)
    requires FirstShown(c, members, a, k)
    ensures FirstVisible(c, members, a) == Some(members[k])
    decreases |members|
  {
    hide Visibility;
    if k > 0 {
      assert Visibility(c, members[0], a) == NO;
      FirstVisibleAt(c, members[1..], a, k - 1);
    }
  }

  lemma SameBesideChoice(c: Setup, u: Users, s: Symbol, a: Assignment, m: Symbol)
    requires IsSolution(c, u, a) && ChoicesLinked(c, u) && c.Def(s).role.Choice? && a(s).tri == YES
    requires m in c.Def(s).role.members
    ensures Visibility(c, m, WithYes(a, s)) == Visibility(c, m, a)
  {
    assert a(s) == Rule(c, u, s, a);
    VisibilityFrame(c, m, a, WithYes(a, s));
  }

  lemma EligibleBesideChoice(c: Setup, u: Users, s: Symbol, a: Assignment, d: Default)
    requires IsSolution(c, u, a) && ChoicesLinked(c, u) && c.Def(s).role.Choice? && a(s).tri == YES
    requires d in c.Def(s).defaults
    ensures Eligible(c, d, WithYes(a, s)) == Eligible(c, d, a)
  {
    assert a(s) == Rule(c, u, s, a);
    OptFrame(c, d.cond, a, WithYes(a, s));
    SameBesideChoice(c, u, s, a, d.value.sym);
  }

  /** The member of a choice set to y that is y: the user's pick if visible, else that of the
      first default that counts, else the first visible one. */
  lemma PickedAs(c: Setup, u: Users, s: Symbol, a: Assignment, i: nat, k: nat)
    requires IsSolution(c, u, a) && ChoicesLinked(c, u) && c.Def(s).role.Choice? && a(s).tri == YES
    requires FirstEligible(c, c.Def(s).defaults, a, i) && FirstShown(c, c.Def(s).role.members, a, k)
    ensures var user, defaults := User(u, s).pick, c.Def(s).defaults;
            a(s).pick == if user.Some? && Visibility(c, user.value, a) != NO then user
                         else if i < |defaults| then Some(defaults[i].value.sym)
                         else Some(c.Def(s).role.members[k])
  {
    var b, d := WithYes(a, s), c.Def(s);
    assert a(s) == Rule(c, u, s, a);
    assert FirstEligible(c, d.defaults, b, i) by {
      forall j | 0 <= j < |d.defaults|
        ensures Eligible(c, d.defaults[j], b) == Eligible(c, d.defaults[j], a)
      {
        EligibleBesideChoice(c, u, s, a, d.defaults[j]);
      }
    }
    assert FirstShown(c, d.role.members, b, k) by {
      forall j | 0 <= j < |d.role.members|
        ensures Visibility(c, d.role.members[j], b) == Visibility(c, d.role.members[j], a)
      {
        SameBesideChoice(c, u, s, a, d.role.members[j]);
      }
    }
    if User(u, s).pick.Some? {
      SameBesideChoice(c, u, s, a, User(u, s).pick.value);
    }
    hide Visibility, Eligible, IsSolution, LogicalTri;
    VisibleDefaultAt(c, d.defaults, b, i);
    FirstVisibleAt(c, d.role.members, b, k);
  }

  lemma RuleOfSame(c: Setup, u: Users, v: Users, t: Symbol, a: Assignment)
    requires User(u, t) == User(v, t)
    ensures Rule(c, u, t, a) == Rule(c, v, t, a)
  {
    hide Visibility, DefaultTri, VisibleDefault, FirstVisible;
  }

  /** What the user says about s does not matter for the symbols below it. */
  lemma {:induction false} LowerSame(c: Setup, u: Users, v: Users, rank: Symbol -> nat, s: Symbol, a: Assignment,
                                     b: Assignment, t: Symbol)
    requires ChoicesLinked(c, u) && Ranked(c, rank) && IsSolution(c, u, a) && IsSolution(c, v, b)
    requires (forall n :: n != s ==> User(u, n) == User(v, n)) && rank(t) < rank(s)
    ensures a(t) == b(t)
    decreases rank(t)
  {
    hide Rule, Deps;
    forall d | d in Deps(c, t)
      ensures a(d) == b(d)
    {
      LowerSame(c, u, v, rank, s, a, b, d);
    }
    RuleFrame(c, u, t, a, b);
    RuleOfSame(c, u, v, t, b);
  }

  /** A choice set to y that has lost the mark of being set by the user stays y if and only if
      it is selected; otherwise the next calculation turns it off. */
  lemma LostMark(c: Setup, u: Users, v: Users, rank: Symbol -> nat, s: Symbol, a: Assignment, b: Assignment)
    requires ChoicesLinked(c, u) && Ranked(c, rank) && IsSolution(c, u, a) && IsSolution(c, v, b)
    requires c.Def(s).role.Choice? && a(s).tri == YES && User(v, s) == User(u, s).(isSet := false)
    requires forall n :: n != s ==> User(u, n) == User(v, n)
    ensures b(s).tri == YES <==> DirDep(c, s, a) != NO && RevDep(c, s, a) == YES
  {
    forall d | d in Deps(c, s)
      ensures a(d) == b(d)
    {
      LowerSame(c, u, v, rank, s, a, b, d);
    }
    assert a(s) == Rule(c, u, s, a) && b(s) == Rule(c, v, s, b) && IsLogical(s);
    hide IsSolution, Ranked, Rule;
    DependencyFrame(c, s, a, b);
    PickFrame(c, u, s, a, b);
    hide Deps, ChoicesLinked, Visibility, DirDep, RevDep, WithYes;
    SomePick(c, u, s, a);
    SamePick(c, u, v, s, WithYes(b, s));
    UnmarkedRule(c, v, s, b);
  }

  lemma SomePick(c: Setup, u: Users, s: Symbol, a: Assignment)
    requires c.Def(s).role.Choice? && IsLogical(s) && Rule(c, u, s, a).tri == YES
    ensures PickMember(c, u, s, WithYes(a, s)).Some?
  {
    hide LogicalTri, PickMember, WithYes;
  }

  lemma SamePick(c: Setup, u: Users, v: Users, s: Symbol, a: Assignment)
    requires c.Def(s).role.Choice? && User(u, s).pick == User(v, s).pick
    ensures PickMember(c, u, s, a) == PickMember(c, v, s, a)
  {
    hide Visibility, VisibleDefault, FirstVisible;
  }

  lemma UnmarkedRule(c: Setup, u: Users, s: Symbol, a: Assignment)
    requires c.Def(s).role.Choice? && IsLogical(s) && !User(u, s).isSet && PickMember(c, u, s, WithYes(a, s)).Some?
    ensures Rule(c, u, s, a).tri == YES <==> DirDep(c, s, a) != NO && RevDep(c, s, a) == YES
  {
    hide Visibility, PickMember, WithYes, DirDep;
  }

  // ----- the range of values -----

  /** A value of a visible symbol outside choices is accepted if and only if select leaves a
      choice and recalculating with it gives it back. */
  lemma RangeExact(c: Setup, u: Users, rank: Symbol -> nat, s: Symbol, val: Tri, a: Assignment, b: Assignment)
    requires ChoicesLinked(c, u) && Ranked(c, rank)
    requires IsSolution(c, u, a) && IsSolution(c, SetUser(u, s, val), b)
    requires IsLogical(s) && c.Def(s).role.Plain? && Visibility(c, s, a) != NO && DirDep(c, s, a) != NO
    requires val == Raised(c, s, val)
    ensures WithinRange(c, s, val, a) <==> RevDep(c, s, a) < Visibility(c, s, a) && b(s).tri == val
  {
    forall d | d in Deps(c, s)
      ensures a(d) == b(d)
    {
      LowerUnaffected(c, u, rank, s, val, a, b, d);
    }
    DependencyFrame(c, s, a, b);
    assert b(s) == Rule(c, SetUser(u, s, val), s, b);
    hide IsSolution, Deps, Ranked, Visibility, DirDep, RevDep, LogicalTri;
    WishedRule(c, SetUser(u, s, val), s, b);
    VisibleTyped(c, s, b);
  }

  lemma WishedRule(c: Setup, u: Users, s: Symbol, a: Assignment)
    requires IsLogical(s) && c.Def(s).role.Plain? && Wished(c, u, s, a) && DirDep(c, s, a) != NO
    ensures LogicalTri(c, u, s, a)
         == Raised(c, s, Greatest(Least(User(u, s).tri, Visibility(c, s, a)), RevDep(c, s, a)))
  {
    hide Visibility, DirDep, RevDep;
  }

  lemma VisibleTyped(c: Setup, s: Symbol, a: Assignment)
    requires IsLogical(s)
    ensures Visibility(c, s, a) == Raised(c, s, Visibility(c, s, a))
    ensures c.Def(s).role.Plain? ==> RevDep(c, s, a) == Raised(c, s, RevDep(c, s, a))
  {
    hide AnyPrompt;
  }

  /** A member that is only visible as m is set to exactly the values that recalculating gives back. */
  lemma MemberRangeExact(c: Setup, u: Users, rank: Symbol -> nat, s: Symbol, val: Tri, a: Assignment, b: Assignment)
    requires ChoicesLinked(c, u) && Ranked(c, rank)
    requires IsSolution(c, u, a) && IsSolution(c, SetUser(u, s, val), b)
    requires IsLogical(s) && c.Def(s).role.Member? && Visibility(c, s, a) == MOD
    ensures WithinRange(c, s, val, a) <==> b(s).tri == val
  {
    forall d | d in Deps(c, s)
      ensures a(d) == b(d)
    {
      LowerUnaffected(c, u, rank, s, val, a, b, d);
    }
    DependencyFrame(c, s, a, b);
    assert b(s) == Rule(c, SetUser(u, s, val), s, b);
    hide IsSolution, Deps, Ranked, Visibility;
    VisibleTyped(c, s, b);
  }
}
