/** The memoising evaluator: values are calculated on demand, marked valid, and
    not calculated again until everything is invalidated. */
module SymbolEvaluator {
  import opened Tristate
  import opened Expressions
  import opened SymbolRules
  import opened SymbolTheorems

  /** What an evaluation is judged against: the rules, the user values it started
      from, a numbering without cycles and the solution. */
  datatype Context = Context(c: Setup, users: Users, rank: Symbol -> nat, spec: Assignment)

  ghost predicate Sound(x: Context) {
    && ChoicesLinked(x.c, x.users)
    && Ranked(x.c, x.rank)
    && IsSolution(x.c, x.users, x.spec)
    && PromptsMentionChoice(x.c)
  }

  /** A member of a choice has a prompt, and its prompts inherit the choice as a
      dependency. */
  ghost predicate PromptsMentionChoice(c: Setup) {
    && (forall m :: c.Def(m).role.Member? ==> c.Def(m).prompts != [])
    && (forall m, p :: c.Def(m).role.Member? && p in c.Def(m).prompts ==> c.Def(m).role.choice in OptSymbols(p))
  }

  /** The fields of all symbols; `done` are the valid ones not under calculation. */
  datatype State = State(
    valid: set<Symbol>,
    done: set<Symbol>,
    cur: map<Symbol, Cur>,
    visible: map<Symbol, Tri>,
    dirDep: map<Symbol, Tri>,
    revDep: map<Symbol, Tri>,
    implied: map<Symbol, Tri>,
    users: Users)

  /** Fields start out zeroed. */
  function Look(m: map<Symbol, Tri>, s: Symbol): Tri { if s in m then m[s] else NO }

  function CurOf(m: map<Symbol, Cur>, s: Symbol): Cur { if s in m then m[s] else Cur(NO, "", None) }

  predicate SameValues(p: Cur, q: Cur) { p.tri == q.tri && p.text == q.text }

  ghost predicate Busy(st: State, s: Symbol) { s in st.valid && s !in st.done }

  /** The symbol on whose behalf the visibility of s may be recalculated. */
  function Home(c: Setup, s: Symbol): Symbol { if c.Def(s).role.Member? then c.Def(s).role.choice else s }

  ghost predicate FieldsRight(x: Context, st: State, s: Symbol) {
    && Look(st.visible, s) == Visibility(x.c, s, x.spec)
    && Look(st.dirDep, s) == DirDep(x.c, s, x.spec)
    && Look(st.revDep, s) == RevDep(x.c, s, x.spec)
  }

  /** A choice that is to be y no longer counts as set by the user if the user has not set one
      of its visible members. */
  ghost predicate LosesMark(x: Context, s: Symbol) {
    && x.c.Def(s).role.Choice?
    && LogicalTri(x.c, x.users, s, x.spec) == YES
    && !MembersSet(x, x.c.Def(s).role.members, WithYes(x.spec, s))
  }

  ghost predicate MembersSet(x: Context, members: seq<Symbol>, w: Assignment) {
    forall m :: m in members && Visibility(x.c, m, w) != NO ==> User(x.users, m).isSet
  }

  ghost function UserAfter(x: Context, s: Symbol): UserValue {
    if LosesMark(x, s) then User(x.users, s).(isSet := false) else User(x.users, s)
  }

  /** Every finished symbol holds the value the solution gives it. */
  ghost predicate Consistent(x: Context, st: State) {
    && st.done <= st.valid
    && (forall d :: d in st.done ==> CurOf(st.cur, d) == x.spec(d))
    && (forall d :: d in st.done && x.c.Def(d).role.Plain? && d.Type() != Unknown ==> FieldsRight(x, st, d))
    && (forall t :: t !in st.valid ==> User(st.users, t) == User(x.users, t))
    && (forall t :: User(st.users, t).pick == User(x.users, t).pick)
    && (forall t :: t in st.done ==> User(st.users, t) == UserAfter(x, t))
    && (forall t :: !x.c.Def(t).role.Choice? ==> User(st.users, t) == User(x.users, t))
    && (forall m :: x.c.Def(m).role.Member? ==> m !in st.dirDep && m !in st.revDep && m !in st.implied)
  }

  /** The dependency fields of t are none of a calculation's business: t is not
      calculated itself, nor is it a member of a choice that is. */
  ghost predicate Untouched(x: Context, st0: State, st1: State, bound: nat, t: Symbol) {
    && (t in st0.done || t !in st1.done)
    && (Home(x.c, t) in st0.valid || x.rank(Home(x.c, t)) >= bound)
  }

  /** What a calculation below `bound` leaves alone; the dependency fields of the
      symbols in `free` may change as well. */
  ghost predicate Kept(x: Context, st0: State, st1: State, bound: nat, free: set<Symbol>) {
    && st0.done <= st0.valid && st1.done <= st1.valid && st0.done <= st1.done
    && (forall t :: Busy(st1, t) <==> Busy(st0, t))
    && (forall t :: t in st1.done && t !in st0.done ==> x.rank(t) < bound)
    && (forall t :: Busy(st0, t) ==> CurOf(st1.cur, t) == CurOf(st0.cur, t) && User(st1.users, t) == User(st0.users, t))
    && (forall t :: Untouched(x, st0, st1, bound, t) && t !in free ==> SameFields(st0, st1, t))
  }

  ghost predicate SameFields(st0: State, st1: State, t: Symbol) {
    && Look(st1.visible, t) == Look(st0.visible, t)
    && Look(st1.dirDep, t) == Look(st0.dirDep, t)
    && Look(st1.revDep, t) == Look(st0.revDep, t)
    && Look(st1.implied, t) == Look(st0.implied, t)
  }

  lemma KeptRefl(x: Context, st: State, bound: nat)
    requires Consistent(x, st)
    ensures Kept(x, st, st, bound, {})
  {}

  lemma KeptTrans(x: Context, st0: State, st1: State, st2: State, bound: nat, free: set<Symbol>)
    requires Kept(x, st0, st1, bound, free) && Kept(x, st1, st2, bound, free)
    ensures Kept(x, st0, st2, bound, free)
  {
    forall t | Untouched(x, st0, st2, bound, t) && t !in free
      ensures SameFields(st0, st2, t)
    {
      var h := Home(x.c, t);
      assert h in st0.valid ==> h in st0.done || Busy(st1, h);
      assert Untouched(x, st0, st1, bound, t) && Untouched(x, st1, st2, bound, t);
      assert SameFields(st0, st1, t) && SameFields(st1, st2, t);
    }
  }

  lemma KeptWeaken(x: Context, st0: State, st1: State, low: nat, free: set<Symbol>, high: nat, more: set<Symbol>)
    requires Kept(x, st0, st1, low, free) && low <= high && free <= more
    ensures Kept(x, st0, st1, high, more)
  {}

  /** Symbol d can be read at this point and will show the value w(d): either it
      is under calculation and already shows it, or it lies below the bound. */
  ghost predicate Readable(x: Context, st: State, d: Symbol, bound: nat, w: Assignment) {
    d.Config? ==>
      if Busy(st, d) then SameValues(CurOf(st.cur, d), w(d))
      else x.rank(d) < bound && SameValues(x.spec(d), w(d))
  }

  ghost predicate AllReadable(x: Context, st: State, on: set<Symbol>, bound: nat, w: Assignment) {
    forall d :: d in on ==> Readable(x, st, d, bound, w)
  }

  ghost predicate BusyAbove(x: Context, st: State, bound: nat) {
    forall t :: Busy(st, t) ==> x.rank(t) >= bound
  }

  /** A calculation may start: the fields are consistent, and nothing below the
      bound is under calculation. */
  ghost predicate Ready(x: Context, st: State, bound: nat) {
    Sound(x) && Consistent(x, st) && BusyAbove(x, st, bound)
  }

  lemma ReadableKept(x: Context, st0: State, st1: State, on: set<Symbol>, bound: nat, w: Assignment, free: set<Symbol>)
    requires AllReadable(x, st0, on, bound, w) && Kept(x, st0, st1, bound, free)
    ensures AllReadable(x, st1, on, bound, w)
  {
    forall d | d in on
      ensures Readable(x, st1, d, bound, w)
    {
      assert Readable(x, st0, d, bound, w);
    }
  }

  lemma ReadableSubset(x: Context, st: State, on: set<Symbol>, sub: set<Symbol>, bound: nat, w: Assignment)
    requires AllReadable(x, st, on, bound, w) && sub <= on
    ensures AllReadable(x, st, sub, bound, w)
  {}

  /** The symbols have been calculated and show the values of w. */
  ghost predicate Shows(st: State, on: set<Symbol>, w: Assignment) {
    forall d :: d in on && d.Config? ==> d in st.valid && SameValues(CurOf(st.cur, d), w(d))
  }

  lemma ShowsKept(x: Context, st0: State, st1: State, on: set<Symbol>, bound: nat, w: Assignment, free: set<Symbol>)
    requires Shows(st0, on, w) && Kept(x, st0, st1, bound, free) && Consistent(x, st0) && Consistent(x, st1)
    ensures Shows(st1, on, w)
  {
    forall d | d in on && d.Config?
      ensures d in st1.valid && SameValues(CurOf(st1.cur, d), w(d))
    {
      if d in st0.done {
        assert CurOf(st0.cur, d) == x.spec(d) == CurOf(st1.cur, d);
      } else {
        assert Busy(st0, d) && Busy(st1, d);
      }
    }
  }

  function Snapshot(m: map<Symbol, Cur>): Assignment { s => CurOf(m, s) }

  lemma ReadValue(c: Setup, st: State, e: Expr, w: Assignment)
    requires Shows(st, Symbols(e), w)
    ensures Eval(e, ToEnv(c, Snapshot(st.cur))) == Eval(e, ToEnv(c, w))
  {
    EvalFrame(c, e, Snapshot(st.cur), w);
  }

  /** The symbols that visibility and dependency values refer to. */
  function VisibilityDeps(c: Setup, s: Symbol): set<Symbol> {
    var d := c.Def(s);
    PromptDeps(d.prompts)
    + (if d.role.Member? then {} else OptSymbols(d.dirDep) + OptSymbols(d.revDep) + OptSymbols(d.implied))
  }

  lemma {:induction false} PromptDepsContain(prompts: seq<Dependency>, i: nat)
    requires i < |prompts|
    ensures OptSymbols(prompts[i]) <= PromptDeps(prompts)
  {
    if i < |prompts| - 1 {
      PromptDepsContain(prompts[..|prompts| - 1], i);
    }
  }

  /** Writing a dependency field of a symbol that is not finished. */
  lemma FieldsChanged(x: Context, st0: State, st1: State, st2: State, bound: nat, s: Symbol)
    requires Ready(x, st1, bound) && Kept(x, st0, st1, bound, {s})
    requires s !in st1.done || x.c.Def(s).role.Member?
    requires st2.(visible := st1.visible, dirDep := st1.dirDep, revDep := st1.revDep, implied := st1.implied) == st1
    requires forall t :: t != s ==> SameFields(st1, st2, t)
    requires forall m :: x.c.Def(m).role.Member? ==> m !in st2.dirDep && m !in st2.revDep && m !in st2.implied
    ensures Ready(x, st2, bound) && Kept(x, st0, st2, bound, {s})
  {
    hide Rule, Sound;
    forall t | Untouched(x, st0, st2, bound, t) && t != s
      ensures SameFields(st0, st2, t)
    {
      assert Untouched(x, st0, st1, bound, t);
      assert SameFields(st0, st1, t) && SameFields(st1, st2, t);
    }
    forall d | d in st2.done && x.c.Def(d).role.Plain? && d.Type() != Unknown
      ensures FieldsRight(x, st2, d)
    {
      assert SameFields(st1, st2, d) && FieldsRight(x, st1, d);
    }
  }

  lemma MemberHasPrompt(x: Context, s: Symbol)
    requires Sound(x)
    ensures x.c.Def(s).role.Member? ==> x.c.Def(s).prompts != []
  {}

  lemma SplitDeps(c: Setup, s: Symbol)
    requires !c.Def(s).role.Member?
    ensures OptSymbols(c.Def(s).dirDep) <= VisibilityDeps(c, s)
    ensures OptSymbols(c.Def(s).revDep) <= VisibilityDeps(c, s)
    ensures OptSymbols(c.Def(s).implied) <= VisibilityDeps(c, s)
  {}

  /** A calculation from st1 to st2 followed by a write to a field of s. */
  lemma Written(x: Context, st0: State, st1: State, st2: State, st3: State, bound: nat, s: Symbol,
                on: set<Symbol>, w: Assignment)
    requires Kept(x, st0, st1, bound, {s}) && Kept(x, st1, st2, bound, {}) && Ready(x, st2, bound)
    requires Busy(st2, s) && !x.c.Def(s).role.Member? && AllReadable(x, st0, on, bound, w)
    requires st3.(visible := st2.visible, dirDep := st2.dirDep, revDep := st2.revDep, implied := st2.implied) == st2
    requires forall t :: t != s ==> SameFields(st2, st3, t)
    requires st3.dirDep.Keys <= st2.dirDep.Keys + {s} && st3.revDep.Keys <= st2.revDep.Keys + {s}
    requires st3.implied.Keys <= st2.implied.Keys + {s}
    ensures Ready(x, st3, bound) && Kept(x, st0, st3, bound, {s})
    ensures SameFields(st1, st2, s) && Busy(st3, s)
    ensures AllReadable(x, st3, on, bound, w)
  {
    hide Rule, Sound, FieldsRight;
    KeptWeaken(x, st1, st2, bound, {}, bound, {s});
    KeptTrans(x, st0, st1, st2, bound, {s});
    forall m | x.c.Def(m).role.Member?
      ensures m !in st3.dirDep && m !in st3.revDep && m !in st3.implied
    {
      assert m !in st2.dirDep && m !in st2.revDep && m !in st2.implied;
    }
    FieldsChanged(x, st0, st2, st3, bound, s);
    ReadableKept(x, st0, st3, on, bound, w, {s});
  }

  lemma VisibleSet(x: Context, st0: State, st1: State, bound: nat, s: Symbol, tri: Tri, on: set<Symbol>, w: Assignment)
    requires Ready(x, st0, bound) && Ready(x, st1, bound) && Kept(x, st0, st1, bound, {})
    requires Busy(st0, s) || x.c.Def(s).role.Member?
    requires AllReadable(x, st0, on, bound, w)
    ensures var st2 := st1.(visible := st1.visible[s := tri]);
            && Ready(x, st2, bound) && Kept(x, st0, st2, bound, {s}) && AllReadable(x, st2, on, bound, w)
            && (Busy(st0, s) ==> Busy(st2, s)) && Look(st2.visible, s) == tri && Consistent(x, st2)
  {
    hide Rule, Sound, FieldsRight;
    var st2 := st1.(visible := st1.visible[s := tri]);
    KeptWeaken(x, st0, st1, bound, {}, bound, {s});
    FieldsChanged(x, st0, st1, st2, bound, s);
    ReadableKept(x, st0, st2, on, bound, w, {s});
  }

  lemma MemberFields(x: Context, st: State, s: Symbol, w: Assignment)
    requires Consistent(x, st) && x.c.Def(s).role.Member?
    ensures Look(st.dirDep, s) == DirDep(x.c, s, w) && Look(st.revDep, s) == RevDep(x.c, s, w)
    ensures Look(st.implied, s) == Implied(x.c, s, w)
  {}

  /** The visibility of one prompt, read off the calculated fields. */
  lemma PromptValue(x: Context, st: State, s: Symbol, i: nat, w: Assignment)
    requires Sound(x) && i < |x.c.Def(s).prompts| && Shows(st, OptSymbols(x.c.Def(s).prompts[i]), w)
    ensures var v, role := EvalDep(x.c.Def(s).prompts[i], ToEnv(x.c, w)), x.c.Def(s).role;
            PromptVisibility(x.c, s, x.c.Def(s).prompts[i], w) ==
            if role.Member? && s.Type() == TristateType && v == MOD && CurOf(st.cur, role.choice).tri == YES
            then NO else v
    ensures x.c.Def(s).role.Member? ==> x.c.Def(s).role.choice in st.valid
  {
    var prompt, role := x.c.Def(s).prompts[i], x.c.Def(s).role;
    if role.Member? {
      assert prompt in x.c.Def(s).prompts;
      assert role.choice in OptSymbols(prompt) && role.choice.Config?;
    }
  }

  lemma {:induction false} CondDepsContain(defaults: seq<Default>, i: nat)
    requires i < |defaults|
    ensures OptSymbols(defaults[i].cond) <= CondDeps(defaults)
  {
    if i > 0 {
      CondDepsContain(defaults[1..], i - 1);
    }
  }

  lemma DefaultDeps(c: Setup, s: Symbol)
    ensures CondDeps(c.Def(s).defaults) <= Deps(c, s)
    ensures !c.Def(s).role.Choice? ==> ValueDeps(c.Def(s).defaults) <= Deps(c, s)
  {}

  /** Visibility and dependency values of s have been calculated. */
  ghost predicate FieldsKnown(x: Context, st: State, s: Symbol) {
    && Look(st.visible, s) == Visibility(x.c, s, x.spec)
    && Look(st.dirDep, s) == DirDep(x.c, s, x.spec)
    && Look(st.revDep, s) == RevDep(x.c, s, x.spec)
    && Look(st.implied, s) == Implied(x.c, s, x.spec)
  }

  /** Calculations on behalf of s do not disturb its own fields. */
  lemma BusyFields(x: Context, st0: State, st1: State, s: Symbol)
    requires Kept(x, st0, st1, x.rank(s), {}) && Busy(st0, s)
    requires x.c.Def(s).role.Member? ==> x.c.Def(s).role.choice in st0.done
    ensures SameFields(st0, st1, s) && Busy(st1, s)
  {
    assert Busy(st1, s);
    assert Untouched(x, st0, st1, x.rank(s), s);
  }

  /** The visibility fields of some members hold their values. */
  ghost predicate MembersVisible(c: Setup, st: State, members: seq<Symbol>, w: Assignment) {
    forall m :: m in members ==> Look(st.visible, m) == Visibility(c, m, w)
  }

  /** Calculations on behalf of a choice do not disturb its members' fields. */
  lemma MembersKept(x: Context, st0: State, st1: State, s: Symbol, free: set<Symbol>)
    requires Sound(x) && x.c.Def(s).role.Choice? && Busy(st0, s) && Kept(x, st0, st1, x.rank(s), free)
    ensures forall m :: m in x.c.Def(s).role.members && m !in free ==> Look(st1.visible, m) == Look(st0.visible, m)
  {
    hide Rule, Visibility;
    forall m | m in x.c.Def(s).role.members && m !in free
      ensures Look(st1.visible, m) == Look(st0.visible, m)
    {
      assert Home(x.c, m) == s;
      assert s in Deps(x.c, m);
      assert !(m in st1.done && m !in st0.done);
      assert Untouched(x, st0, st1, x.rank(s), m);
    }
  }

  lemma DefaultIsMember(x: Context, s: Symbol, i: nat)
    requires Sound(x) && x.c.Def(s).role.Choice? && i < |x.c.Def(s).defaults|
    ensures var e := x.c.Def(s).defaults[i].value; e.Sym? && e.sym in x.c.Def(s).role.members
  {
    assert x.c.Def(s).defaults[i] in x.c.Def(s).defaults;
  }

  ghost function MemberSet(c: Setup, s: Symbol): set<Symbol>
    requires c.Def(s).role.Choice?
  {
    set m | m in c.Def(s).role.members
  }

  lemma StillBusy(x: Context, st0: State, st1: State, s: Symbol, free: set<Symbol>)
    requires Busy(st0, s) && Kept(x, st0, st1, x.rank(s), free)
    ensures Busy(st1, s) && CurOf(st1.cur, s) == CurOf(st0.cur, s)
  {}

  /** A choice under calculation that has been found to be y. */
  ghost predicate ChoiceOpen(x: Context, st: State, s: Symbol) {
    x.c.Def(s).role.Choice? && Busy(st, s) && CurOf(st.cur, s) == Cur(YES, "n", None)
  }

  /** The prompts of its members may then be evaluated; they see the choice as y. */
  lemma MemberReadable(x: Context, st: State, s: Symbol, m: Symbol)
    requires Ready(x, st, x.rank(s)) && ChoiceOpen(x, st, s) && m in x.c.Def(s).role.members
    ensures AllReadable(x, st, VisibilityDeps(x.c, m), x.rank(s), WithYes(x.spec, s))
    ensures x.c.Def(m).role.Member?
  {
    hide Rule, Consistent;
    MemberDepsContain(x.c, x.c.Def(s).role.members, m);
    forall d | d in VisibilityDeps(x.c, m)
      ensures Readable(x, st, d, x.rank(s), WithYes(x.spec, s))
    {
      assert d != s ==> d in Deps(x.c, s) && x.rank(d) < x.rank(s);
    }
  }

  lemma MemberDone(x: Context, st0: State, st1: State, s: Symbol, i: nat, w: Assignment)
    requires Sound(x) && ChoiceOpen(x, st0, s) && i < |x.c.Def(s).role.members|
    requires MembersVisible(x.c, st0, x.c.Def(s).role.members[..i], w)
    requires Kept(x, st0, st1, x.rank(s), {x.c.Def(s).role.members[i]})
    requires Look(st1.visible, x.c.Def(s).role.members[i]) == Visibility(x.c, x.c.Def(s).role.members[i], w)
    ensures MembersVisible(x.c, st1, x.c.Def(s).role.members[..i + 1], w)
    ensures ChoiceOpen(x, st1, s) && {x.c.Def(s).role.members[i]} <= MemberSet(x.c, s)
  {
    hide Rule, Sound, Visibility;
    var members := x.c.Def(s).role.members;
    MembersKept(x, st0, st1, s, {members[i]});
    StillBusy(x, st0, st1, s, {members[i]});
    forall m | m in members[..i + 1]
      ensures Look(st1.visible, m) == Visibility(x.c, m, w)
    {
      if m != members[i] {
        assert m in members[..i];
      }
    }
  }

  /** One more member; only choices lose marks. */
  lemma MemberMark(x: Context, st: State, s: Symbol, i: nat, w: Assignment)
    requires Sound(x) && Consistent(x, st) && x.c.Def(s).role.Choice? && i < |x.c.Def(s).role.members|
    requires MembersVisible(x.c, st, x.c.Def(s).role.members[..i + 1], w)
    ensures var members := x.c.Def(s).role.members;
            var settled := Look(st.visible, members[i]) != NO ==> User(st.users, members[i]).isSet;
            MembersSet(x, members[..i + 1], w) <==> MembersSet(x, members[..i], w) && settled
  {
    hide Rule, Visibility, FieldsRight, UserAfter;
    var members := x.c.Def(s).role.members;
    assert members[..i + 1] == members[..i] + [members[i]];
    assert members[i] in members && members[i] in members[..i + 1];
    assert forall m :: m in members[..i + 1] <==> m in members[..i] || m == members[i];
  }

  lemma UserPick(x: Context, st: State, s: Symbol)
    requires Sound(x) && Consistent(x, st) && x.c.Def(s).role.Choice?
    ensures User(st.users, s).pick == User(x.users, s).pick
    ensures User(st.users, s).pick.Some? ==> User(st.users, s).pick.value in x.c.Def(s).role.members
  {}

  lemma ChoiceDefaultsReadable(x: Context, st0: State, st1: State, s: Symbol)
    requires Sound(x) && Ready(x, st1, x.rank(s)) && ChoiceOpen(x, st1, s)
    ensures AllReadable(x, st1, CondDeps(x.c.Def(s).defaults), x.rank(s), WithYes(x.spec, s))
  {
    hide Rule, Consistent, Deps, CondDeps, Visibility;
    DefaultDeps(x.c, s);
    forall d | d in CondDeps(x.c.Def(s).defaults)
      ensures Readable(x, st1, d, x.rank(s), WithYes(x.spec, s))
    {
      assert d in Deps(x.c, s);
    }
  }

  /** The state while s is being calculated: relative to the start st0, only s
      is busy in addition, and only lower symbols have been finished. */
  ghost predicate Since(x: Context, st0: State, st: State, s: Symbol) {
    && st0.done <= st0.valid && st0.done <= st.done && s !in st0.valid
    && (forall t :: Busy(st, t) <==> Busy(st0, t) || t == s)
    && (forall t :: t in st.done && t !in st0.done ==> x.rank(t) < x.rank(s))
    && (forall t :: Busy(st0, t) ==> CurOf(st.cur, t) == CurOf(st0.cur, t) && User(st.users, t) == User(st0.users, t))
    && (forall t :: Untouched(x, st0, st, x.rank(s) + 1, t) && t != s && Home(x.c, t) != s ==> SameFields(st0, st, t))
  }

  ghost predicate Progress(x: Context, st0: State, st: State, s: Symbol) {
    && Ready(x, st, x.rank(s))
    && Busy(st, s)
    && AllReadable(x, st, Deps(x.c, s), x.rank(s), x.spec)
    && Since(x, st0, st, s)
  }

  /** What lies below s can be read while nothing below it is busy. */
  lemma BelowReadable(x: Context, st: State, s: Symbol)
    requires Sound(x) && BusyAbove(x, st, x.rank(s))
    ensures AllReadable(x, st, Deps(x.c, s), x.rank(s), x.spec)
    ensures AllReadable(x, st, VisibilityDeps(x.c, s), x.rank(s), x.spec)
  {
    hide Rule;
    assert VisibilityDeps(x.c, s) <= Deps(x.c, s);
    forall d | d in Deps(x.c, s)
      ensures Readable(x, st, d, x.rank(s), x.spec)
    {
      assert x.rank(d) < x.rank(s);
    }
  }

  lemma Start(x: Context, st0: State, s: Symbol)
    requires Sound(x) && Consistent(x, st0) && BusyAbove(x, st0, x.rank(s) + 1) && s !in st0.valid
    ensures var st := st0.(valid := st0.valid + {s});
            && Progress(x, st0, st, s) && User(st.users, s) == User(x.users, s)
            && AllReadable(x, st, VisibilityDeps(x.c, s), x.rank(s), x.spec)
  {
    hide Rule, FieldsRight, Sound, Deps, VisibilityDeps, AllReadable;
    var st := st0.(valid := st0.valid + {s});
    forall t ensures Busy(st, t) <==> Busy(st0, t) || t == s {}
    BelowReadable(x, st, s);
    SameFieldsRight(x, st0, st);
  }

  lemma SameFieldsRight(x: Context, st0: State, st1: State)
    requires st0.(valid := st1.valid, cur := st1.cur, users := st1.users) == st1
    ensures forall d :: FieldsRight(x, st0, d) ==> FieldsRight(x, st1, d)
  {
    hide Visibility, DirDep, RevDep;
  }

  /** A calculation below s, or of its own fields and those of its members. */
  lemma Advance(x: Context, st0: State, st1: State, st2: State, s: Symbol, free: set<Symbol>)
    requires Progress(x, st0, st1, s) && Kept(x, st1, st2, x.rank(s), free) && Ready(x, st2, x.rank(s))
    requires forall t :: t in free ==> t == s || Home(x.c, t) == s
    ensures Progress(x, st0, st2, s) && User(st2.users, s) == User(st1.users, s)
  {
    hide Rule, Sound, Consistent, Deps;
    ReadableKept(x, st1, st2, Deps(x.c, s), x.rank(s), x.spec, free);
    forall t | Untouched(x, st0, st2, x.rank(s) + 1, t) && t != s && Home(x.c, t) != s
      ensures SameFields(st0, st2, t)
    {
      var h := Home(x.c, t);
      assert h in st0.valid ==> h in st0.done || Busy(st1, h);
      assert Untouched(x, st0, st1, x.rank(s) + 1, t) && Untouched(x, st1, st2, x.rank(s), t);
    }
  }

  /** Writing the value or the user's mark of the symbol under calculation. */
  lemma OwnWritten(x: Context, st0: State, st: State, st': State, s: Symbol)
    requires Progress(x, st0, st, s) && st.(cur := st'.cur, users := st'.users) == st'
    requires forall t :: t != s ==> CurOf(st'.cur, t) == CurOf(st.cur, t) && User(st'.users, t) == User(st.users, t)
    requires User(st'.users, s).pick == User(st.users, s).pick
    requires x.c.Def(s).role.Choice? || User(st'.users, s) == User(st.users, s)
    ensures Progress(x, st0, st', s)
  {
    hide Rule, Sound, Consistent, Deps, VisibilityDeps, AllReadable;
    OwnConsistent(x, st, st', s);
    BelowReadable(x, st', s);
    forall t | Untouched(x, st0, st', x.rank(s) + 1, t) && t != s && Home(x.c, t) != s
      ensures SameFields(st0, st', t)
    {
      assert Untouched(x, st0, st, x.rank(s) + 1, t);
      assert SameFields(st0, st, t);
    }
  }

  lemma OwnConsistent(x: Context, st: State, st': State, s: Symbol)
    requires Consistent(x, st) && Busy(st, s) && st.(cur := st'.cur, users := st'.users) == st'
    requires forall t :: t != s ==> CurOf(st'.cur, t) == CurOf(st.cur, t) && User(st'.users, t) == User(st.users, t)
    requires User(st'.users, s).pick == User(st.users, s).pick
    requires x.c.Def(s).role.Choice? || User(st'.users, s) == User(st.users, s)
    ensures Consistent(x, st')
  {
    hide FieldsRight, UserAfter;
    SameFieldsRight(x, st, st');
  }

  lemma CurWritten(x: Context, st0: State, st: State, s: Symbol, v: Cur)
    requires Progress(x, st0, st, s)
    ensures Progress(x, st0, st.(cur := st.cur[s := v]), s)
  {
    hide Progress;
    OwnWritten(x, st0, st, st.(cur := st.cur[s := v]), s);
  }

  /** A choice may lose its mark of being set by the user. */
  lemma UserWritten(x: Context, st0: State, st: State, s: Symbol, users: Users)
    requires Progress(x, st0, st, s)
    requires forall t :: t != s ==> User(users, t) == User(st.users, t)
    requires User(users, s).pick == User(st.users, s).pick && x.c.Def(s).role.Choice?
    ensures Progress(x, st0, st.(users := users), s)
  {
    hide Progress;
    OwnWritten(x, st0, st, st.(users := users), s);
  }

  lemma SpecRule(x: Context, s: Symbol)
    requires Sound(x)
    ensures x.spec(s) == Rule(x.c, x.users, s, x.spec)
  {
    hide Rule;
  }

  lemma SpecUnknown(x: Context, s: Symbol)
    requires Sound(x) && s.Type() == Unknown
    ensures x.spec(s) == Cur(NO, x.c.name(s), None)
  {
    SpecRule(x, s);
  }

  lemma TextIsPlain(x: Context, s: Symbol)
    requires Sound(x) && !IsLogical(s)
    ensures x.c.Def(s).role.Plain?
  {
    hide Rule;
  }

  /** A choice is none of its own members, so its fields stay. */
  lemma ChoiceFields(x: Context, st0: State, st1: State, s: Symbol)
    requires Sound(x) && x.c.Def(s).role.Choice? && Busy(st0, s)
    requires Kept(x, st0, st1, x.rank(s), MemberSet(x.c, s))
    ensures SameFields(st0, st1, s)
  {
    hide Rule;
    assert s !in MemberSet(x.c, s);
    assert Busy(st1, s);
    assert Untouched(x, st0, st1, x.rank(s), s);
  }

  lemma MemberHomes(x: Context, s: Symbol)
    requires Sound(x) && x.c.Def(s).role.Choice?
    ensures forall t :: t in MemberSet(x.c, s) ==> Home(x.c, t) == s
  {
    hide Rule;
  }

  lemma ChoiceFinished(x: Context, st: State, s: Symbol)
    requires Ready(x, st, x.rank(s))
    requires x.c.Def(s).role.Member? && x.c.Def(s).role.choice in st.valid
    ensures x.c.Def(s).role.choice in st.done
  {
    hide Rule, Consistent;
    assert x.c.Def(s).role.choice in Deps(x.c, s);
    assert !Busy(st, x.c.Def(s).role.choice);
  }

  lemma Finish(x: Context, st0: State, st: State, s: Symbol)
    requires Progress(x, st0, st, s) && CurOf(st.cur, s) == x.spec(s) && User(st.users, s) == UserAfter(x, s)
    requires s.Type() != Unknown ==> FieldsKnown(x, st, s)
    requires BusyAbove(x, st0, x.rank(s) + 1)
    ensures var st' := st.(done := st.done + {s});
            Ready(x, st', x.rank(s) + 1) && Kept(x, st0, st', x.rank(s) + 1, {}) && Consistent(x, st')
  {
    hide Rule, Sound, UserAfter;
    var st' := st.(done := st.done + {s});
    forall t ensures Busy(st', t) <==> Busy(st0, t) {
      assert Busy(st, t) <==> Busy(st0, t) || t == s;
    }
    forall d | d in st'.done && x.c.Def(d).role.Plain? && d.Type() != Unknown
      ensures FieldsRight(x, st', d)
    {
      assert d != s ==> FieldsRight(x, st, d);
    }
    forall t | Untouched(x, st0, st', x.rank(s) + 1, t)
      ensures SameFields(st0, st', t)
    {
      assert t != s && Home(x.c, t) != s;
      assert Untouched(x, st0, st, x.rank(s) + 1, t);
      assert SameFields(st0, st, t);
    }
  }

  ghost predicate Idle(st: State) { forall t :: !Busy(st, t) }

  lemma Answered(x: Context, st0: State, st1: State, s: Symbol)
    requires Consistent(x, st0) && Idle(st0) && Consistent(x, st1)
    requires if s in st0.valid then st1 == st0 else s in st1.done && Kept(x, st0, st1, x.rank(s) + 1, {})
    ensures Idle(st1) && s in st1.done && CurOf(st1.cur, s) == x.spec(s) && st0.done <= st1.done
  {
    hide Rule, FieldsRight;
    assert !Busy(st0, s);
  }

  lemma MarksRight(x: Context, st: State)
    requires Consistent(x, st)
    ensures forall t :: t in st.done ==> User(st.users, t) == UserAfter(x, t)
  {
    hide FieldsRight, UserAfter;
  }

  lemma Finished(x: Context, st: State, s: Symbol)
    requires Consistent(x, st) && s in st.done
    ensures CurOf(st.cur, s) == x.spec(s)
  {
    hide FieldsRight;
  }

  /** With nothing valid, the fields fit any context with the same user values. */
  lemma Invalidated(x: Context, y: Context, st0: State, st1: State)
    requires x.c == y.c && Consistent(x, st0) && y.users == st1.users
    requires st1 == st0.(users := st1.users, valid := {}, done := {})
    ensures Consistent(y, st1) && Idle(st1)
  {
    hide FieldsRight;
  }

  /** Visible members count as set by the user. */
  function MarkVisible(u: Users, members: seq<Symbol>, visible: map<Symbol, Tri>): Users
    decreases |members|
  {
    if members == [] then u
    else
      var m := members[0];
      MarkVisible(if Look(visible, m) != NO then u[m := User(u, m).(isSet := true)] else u, members[1..], visible)
  }

  /** The user values after a symbol has been set. */
  function SetUserAt(c: Setup, u: Users, s: Symbol, val: Tri, visible: map<Symbol, Tri>): Users {
    var role := c.Def(s).role;
    if role.Member? && val == YES then
      var u1 := u[role.choice := User(u, role.choice).(isSet := true, pick := Some(s))];
      var group := c.Def(role.choice).role;
      SetUser(if group.Choice? then MarkVisible(u1, group.members, visible) else u1, s, val)
    else SetUser(u, s, val)
  }

  lemma {:induction false} MarkKeepsPick(u: Users, members: seq<Symbol>, visible: map<Symbol, Tri>, t: Symbol)
    ensures User(MarkVisible(u, members, visible), t).pick == User(u, t).pick
    decreases |members|
  {
    if members != [] {
      var m := members[0];
      MarkKeepsPick(if Look(visible, m) != NO then u[m := User(u, m).(isSet := true)] else u, members[1..], visible, t);
    }
  }

  lemma PickRecorded(c: Setup, u: Users, s: Symbol, visible: map<Symbol, Tri>)
    requires c.Def(s).role.Member?
    ensures User(SetUserAt(c, u, s, YES, visible), c.Def(s).role.choice).pick == Some(s)
  {
    var choice := c.Def(s).role.choice;
    var u1 := u[choice := User(u, choice).(isSet := true, pick := Some(s))];
    var group := c.Def(choice).role;
    if group.Choice? {
      MarkKeepsPick(u1, group.members, visible, choice);
    }
  }

  lemma {:induction false} MarkedAll(u: Users, members: seq<Symbol>, visible: map<Symbol, Tri>, t: Symbol)
    ensures User(MarkVisible(u, members, visible), t) ==
            if t in members && Look(visible, t) != NO then User(u, t).(isSet := true) else User(u, t)
    decreases |members|
  {
    if members != [] {
      var m := members[0];
      MarkedAll(if Look(visible, m) != NO then u[m := User(u, m).(isSet := true)] else u, members[1..], visible, t);
      assert t in members <==> t == m || t in members[1..];
    }
  }

  /** Setting a member to y also counts as setting the choice and every visible member, and says
      nothing about other symbols. */
  lemma GroupMarked(c: Setup, u: Users, s: Symbol, visible: map<Symbol, Tri>, t: Symbol)
    requires GroupsLinked(c) && c.Def(s).role.Member?
    ensures var choice, v := c.Def(s).role.choice, SetUserAt(c, u, s, YES, visible);
            User(v, t) ==
            if t == s then User(u, s).(isSet := true, tri := YES)
            else if t == choice then User(u, choice).(isSet := true, pick := Some(s))
            else if t in c.Def(choice).role.members && Look(visible, t) != NO then User(u, t).(isSet := true)
            else User(u, t)
  {
    var choice := c.Def(s).role.choice;
    var u1 := u[choice := User(u, choice).(isSet := true, pick := Some(s))];
    MarkedAll(u1, c.Def(choice).role.members, visible, t);
    MarkedAll(u1, c.Def(choice).role.members, visible, s);
  }

  lemma Effect(x: Context, y: Context, s: Symbol, val: Tri)
    requires Sound(x) && Sound(y) && x.c == y.c && x.rank == y.rank && y.users == SetUser(x.users, s, val)
    requires x.c.Def(s).role.Plain? && WithinRange(x.c, s, val, x.spec)
    ensures y.spec(s).tri == val <==> (DirDep(x.c, s, x.spec) != NO || RevDep(x.c, s, x.spec) == NO || val == NO)
  {
    hide Rule, WithinRange, Ranked, ChoicesLinked;
    SetTakesEffect(x.c, x.users, x.rank, s, val, x.spec, y.spec);
  }

  class Evaluator {
    const c: Setup
    var users: Users
    var valid: set<Symbol>
    var cur: map<Symbol, Cur>
    var visible: map<Symbol, Tri>
    var dirDep: map<Symbol, Tri>
    var revDep: map<Symbol, Tri>
    var implied: map<Symbol, Tri>
    ghost var done: set<Symbol>

    ghost function Now(): State
      reads this
    {
      State(valid, done, cur, visible, dirDep, revDep, implied, users)
    }

    /** The value of an expression, calculating the symbols it mentions first. */
    method CalcExpr(e: Expr, ghost x: Context, ghost bound: nat, ghost w: Assignment) returns (v: Tri)
      requires x.c == c && Ready(x, Now(), bound) && AllReadable(x, Now(), Symbols(e), bound, w)
      modifies this
      ensures Ready(x, Now(), bound) && Kept(x, old(Now()), Now(), bound, {})
      ensures Shows(Now(), Symbols(e), w)
      ensures v == Eval(e, ToEnv(c, w))
      decreases bound + 1, 1, e
    {
      hide Rule, Sound;
      ghost var st0 := Now();
      match e
      case Sym(s) =>
        ReadSymbol(s, x, bound, w);
        ReadValue(c, Now(), e, w);
        v := Value(s, ToEnv(c, Snapshot(cur)));
      case Not(a) =>
        v := CalcExpr(a, x, bound, w);
        v := TriNot(v);
      case Bin(op, l, r) =>
        var v1 := CalcExpr(l, x, bound, w);
        ghost var st1 := Now();
        ReadableKept(x, st0, st1, Symbols(r), bound, w, {});
        var v2 := CalcExpr(r, x, bound, w);
        KeptTrans(x, st0, st1, Now(), bound, {});
        ShowsKept(x, st1, Now(), Symbols(l), bound, w, {});
        v := Apply(op, v1, v2);
      case Compare(rel, s1, s2) =>
        ReadSymbol(s1, x, bound, w);
        ghost var st1 := Now();
        ReadableKept(x, st0, st1, {s2}, bound, w, {});
        assert Readable(x, st1, s2, bound, w);
        ReadSymbol(s2, x, bound, w);
        KeptTrans(x, st0, st1, Now(), bound, {});
        ShowsKept(x, st1, Now(), {s1}, bound, w, {});
        ReadValue(c, Now(), e, w);
        v := FromBool(Holds(rel, Order(s1, s2, ToEnv(c, Snapshot(cur)))));
    }

    /** Calculates one symbol an expression mentions. */
    method ReadSymbol(s: Symbol, ghost x: Context, ghost bound: nat, ghost w: Assignment)
      requires x.c == c && Ready(x, Now(), bound) && Readable(x, Now(), s, bound, w)
      modifies this
      ensures Ready(x, Now(), bound) && Kept(x, old(Now()), Now(), bound, {})
      ensures Shows(Now(), {s}, w)
      decreases bound + 1, 0
    {
      hide Rule, Sound, FieldsRight;
      if s.Config? {
        ghost var st0 := Now();
        CalcValue(s, x);
        if s !in st0.valid {
          KeptWeaken(x, st0, Now(), x.rank(s) + 1, {}, bound, {});
        }
      }
    }

    method CalcOpt(e: Option<Expr>, missing: Tri, ghost x: Context, ghost bound: nat, ghost w: Assignment)
      returns (v: Tri)
      requires x.c == c && Ready(x, Now(), bound) && AllReadable(x, Now(), OptSymbols(e), bound, w)
      modifies this
      ensures Ready(x, Now(), bound) && Kept(x, old(Now()), Now(), bound, {})
      ensures Shows(Now(), OptSymbols(e), w)
      ensures v == if e.None? then missing else Eval(e.value, ToEnv(c, w))
      decreases bound + 1, 2
    {
      hide Rule, Sound, Consistent;
      if e.None? {
        KeptRefl(x, Now(), bound);
        v := missing;
      } else {
        v := CalcExpr(e.value, x, bound, w);
      }
    }

    /** The visibility of a symbol and, outside choices, its dependency values. */
    method CalcVisibility(s: Symbol, ghost x: Context, ghost bound: nat, ghost w: Assignment)
      requires x.c == c && Ready(x, Now(), bound)
      requires AllReadable(x, Now(), VisibilityDeps(c, s), bound, w)
      requires Busy(Now(), s) || c.Def(s).role.Member?
      modifies this
      ensures Ready(x, Now(), bound) && Kept(x, old(Now()), Now(), bound, {s})
      ensures Look(visible, s) == Visibility(c, s, w)
      ensures Look(dirDep, s) == DirDep(c, s, w) && Look(revDep, s) == RevDep(c, s, w)
                && Look(implied, s) == Implied(c, s, w)
      ensures c.Def(s).role.Member? ==> c.Def(s).role.choice in valid
      decreases bound + 1, 4
    {
      hide Rule, Sound, Consistent, Kept, Ready, AllReadable, AnyPrompt, VisibilityDeps, DirDep, RevDep, Implied;
      ghost var st0 := Now();
      var tri := CalcPrompts(s, x, bound, w);
      ghost var st1 := Now();
      tri := Promoted(c, s, tri);
      visible := visible[s := tri];
      ghost var st2 := Now();
      VisibleSet(x, st0, st1, bound, s, tri, VisibilityDeps(c, s), w);
      if !c.Def(s).role.Member? {
        CalcDependencies(s, x, bound, w);
        KeptTrans(x, st0, st2, Now(), bound, {s});
      } else {
        MemberFields(x, Now(), s, w);
      }
    }

    method CalcPrompts(s: Symbol, ghost x: Context, ghost bound: nat, ghost w: Assignment) returns (tri: Tri)
      requires x.c == c && Ready(x, Now(), bound)
      requires AllReadable(x, Now(), VisibilityDeps(c, s), bound, w)
      modifies this
      ensures Ready(x, Now(), bound) && Kept(x, old(Now()), Now(), bound, {})
      ensures tri == AnyPrompt(c, s, c.Def(s).prompts, w)
      ensures c.Def(s).role.Member? ==> c.Def(s).role.choice in valid
      decreases bound + 1, 3
    {
      hide Rule, Sound, Consistent, Kept, AllReadable, PromptVisibility, BusyAbove, Shows, Eval, PromptDeps;
      ghost var st0 := Now();
      KeptRefl(x, st0, bound);
      var prompts, role := c.Def(s).prompts, c.Def(s).role;
      tri := NO;
      for i := 0 to |prompts|
        invariant Ready(x, Now(), bound) && Kept(x, st0, Now(), bound, {})
        invariant tri == AnyPrompt(c, s, prompts[..i], w)
        invariant role.Member? && i > 0 ==> role.choice in valid
      {
        ghost var st1 := Now();
        PromptDepsContain(prompts, i);
        ReadableSubset(x, st0, VisibilityDeps(c, s), OptSymbols(prompts[i]), bound, w);
        ReadableKept(x, st0, st1, OptSymbols(prompts[i]), bound, w, {});
        var v := CalcOpt(prompts[i], YES, x, bound, w);
        KeptTrans(x, st0, st1, Now(), bound, {});
        if role.Member? && s.Type() == TristateType && v == MOD && CurOf(cur, role.choice).tri == YES {
          v := NO;
        }
        PromptValue(x, Now(), s, i, w);
        assert prompts[..i + 1][..i] == prompts[..i];
        tri := TriOr(tri, v);
      }
      assert prompts[..|prompts|] == prompts;
      MemberHasPrompt(x, s);
    }

    method CalcDependencies(s: Symbol, ghost x: Context, ghost bound: nat, ghost w: Assignment)
      requires x.c == c && Ready(x, Now(), bound)
      requires AllReadable(x, Now(), VisibilityDeps(c, s), bound, w)
      requires Busy(Now(), s) && !c.Def(s).role.Member?
      requires Look(visible, s) == Visibility(c, s, w)
      modifies this
      ensures Ready(x, Now(), bound) && Kept(x, old(Now()), Now(), bound, {s})
      ensures Look(visible, s) == Visibility(c, s, w)
      ensures Look(dirDep, s) == DirDep(c, s, w) && Look(revDep, s) == RevDep(c, s, w)
                && Look(implied, s) == Implied(c, s, w)
      decreases bound + 1, 3
    {
      hide Rule, Sound, FieldsRight, Consistent, VisibilityDeps, AllReadable, Visibility, BusyAbove, Eval, ActsAsBool;
      ghost var st0 := Now();
      SplitDeps(c, s);
      ReadableSubset(x, st0, VisibilityDeps(c, s), OptSymbols(c.Def(s).dirDep), bound, w);
      ReadableSubset(x, st0, VisibilityDeps(c, s), OptSymbols(c.Def(s).revDep), bound, w);
      ReadableSubset(x, st0, VisibilityDeps(c, s), OptSymbols(c.Def(s).implied), bound, w);
      ReadableSubset(x, st0, VisibilityDeps(c, s), {}, bound, w);
      KeptRefl(x, st0, bound);
      KeptWeaken(x, st0, st0, bound, {}, bound, {s});
      var tri := CalcOpt(c.Def(s).dirDep, YES, x, bound, w);
      ghost var st1 := Now();
      dirDep := dirDep[s := Adjust(c, s, Look(visible, s), tri)];
      ghost var st2 := Now();
      Written(x, st0, st0, st1, st2, bound, s, OptSymbols(c.Def(s).revDep), w);
      tri := CalcOpt(c.Def(s).revDep, NO, x, bound, w);
      ghost var st3 := Now();
      revDep := revDep[s := Adjust(c, s, Look(visible, s), tri)];
      ghost var st4 := Now();
      Written(x, st0, st2, st3, st4, bound, s, OptSymbols(c.Def(s).implied), w);
      tri := CalcOpt(c.Def(s).implied, NO, x, bound, w);
      ghost var st5 := Now();
      implied := implied[s := Adjust(c, s, Look(visible, s), tri)];
      Written(x, st0, st4, st5, Now(), bound, s, {}, w);
    }

    /** The first default whose condition is not n, with that condition's value. */
    method GetDefault(s: Symbol, ghost x: Context, ghost bound: nat, ghost w: Assignment)
      returns (d: Option<Default>, v: Tri)
      requires x.c == c && Ready(x, Now(), bound) && AllReadable(x, Now(), CondDeps(c.Def(s).defaults), bound, w)
      modifies this
      ensures Ready(x, Now(), bound) && Kept(x, old(Now()), Now(), bound, {})
      ensures d == ActiveDefault(c.Def(s).defaults, ToEnv(c, w))
      ensures d.Some? ==> d.value in c.Def(s).defaults && v == EvalDep(d.value.cond, ToEnv(c, w))
      decreases bound + 1, 3
    {
      hide Rule, Sound, Consistent, Kept, AllReadable;
      ghost var st0 := Now();
      KeptRefl(x, st0, bound);
      var defaults := c.Def(s).defaults;
      d, v := None, NO;
      var i := 0;
      while i < |defaults|
        invariant 0 <= i <= |defaults|
        invariant Ready(x, Now(), bound) && Kept(x, st0, Now(), bound, {})
        invariant ActiveDefault(defaults, ToEnv(c, w)) == ActiveDefault(defaults[i..], ToEnv(c, w))
      {
        ghost var st1 := Now();
        CondDepsContain(defaults, i);
        ReadableSubset(x, st0, CondDeps(defaults), OptSymbols(defaults[i].cond), bound, w);
        ReadableKept(x, st0, st1, OptSymbols(defaults[i].cond), bound, w, {});
        v := CalcOpt(defaults[i].cond, YES, x, bound, w);
        KeptTrans(x, st0, st1, Now(), bound, {});
        if v != NO {
          d := Some(defaults[i]);
          return;
        }
        i := i + 1;
      }
    }

    /** The default value of a bool or tristate symbol. */
    method CalcDefault(s: Symbol, ghost x: Context, ghost bound: nat, ghost w: Assignment) returns (tri: Tri)
      requires x.c == c && Ready(x, Now(), bound) && AllReadable(x, Now(), Deps(c, s), bound, w)
      requires !c.Def(s).role.Choice?
      modifies this
      ensures Ready(x, Now(), bound) && Kept(x, old(Now()), Now(), bound, {})
      ensures tri == DefaultTri(c, s, w)
      decreases bound + 1, 4
    {
      hide Rule, Sound, Consistent, Kept, AllReadable;
      ghost var st0 := Now();
      DefaultDeps(c, s);
      ReadableSubset(x, st0, Deps(c, s), CondDeps(c.Def(s).defaults), bound, w);
      var d, v := GetDefault(s, x, bound, w);
      tri := NO;
      if d.Some? {
        ghost var st1 := Now();
        ValueDepsContain(c.Def(s).defaults, d.value);
        ReadableSubset(x, st0, Deps(c, s), Symbols(d.value.value), bound, w);
        ReadableKept(x, st0, st1, Symbols(d.value.value), bound, w, {});
        var e := CalcExpr(d.value.value, x, bound, w);
        KeptTrans(x, st0, st1, Now(), bound, {});
        tri := TriAnd(e, v);
      }
    }

    /** The value of a bool or tristate symbol before reverse dependencies. */
    method CalcOwn(s: Symbol, ghost x: Context) returns (tri: Tri)
      requires x.c == c && Ready(x, Now(), x.rank(s)) && Busy(Now(), s)
      requires AllReadable(x, Now(), Deps(c, s), x.rank(s), x.spec)
      requires FieldsKnown(x, Now(), s) && User(users, s) == User(x.users, s)
      requires c.Def(s).role.Member? ==> c.Def(s).role.choice in done
      modifies this
      ensures Ready(x, Now(), x.rank(s)) && Kept(x, old(Now()), Now(), x.rank(s), {})
      ensures tri == OwnTri(c, x.users, s, x.spec)
      decreases x.rank(s) + 1, 5
    {
      hide Rule, Sound, Consistent, Kept, AllReadable, Visibility, DirDep, RevDep, Implied, DefaultTri, Deps;
      ghost var st0 := Now();
      KeptRefl(x, st0, x.rank(s));
      tri := NO;
      if Look(visible, s) != NO && User(users, s).isSet {
        tri := TriAnd(User(users, s).tri, Look(visible, s));
      } else if !c.Def(s).role.Choice? {
        tri := CalcDefault(s, x, x.rank(s), x.spec);
        BusyFields(x, st0, Now(), s);
        if Look(implied, s) != NO {
          tri := TriAnd(TriOr(tri, Look(implied, s)), Look(dirDep, s));
        }
      }
    }

    /** The value of a bool or tristate symbol, its visibility being known. */
    method CalcLogical(s: Symbol, ghost x: Context) returns (tri: Tri)
      requires x.c == c && Ready(x, Now(), x.rank(s)) && Busy(Now(), s)
      requires AllReadable(x, Now(), Deps(c, s), x.rank(s), x.spec)
      requires FieldsKnown(x, Now(), s) && User(users, s) == User(x.users, s)
      requires c.Def(s).role.Member? ==> c.Def(s).role.choice in done
      modifies this
      ensures Ready(x, Now(), x.rank(s)) && Kept(x, old(Now()), Now(), x.rank(s), {})
      ensures tri == LogicalTri(c, x.users, s, x.spec)
      decreases x.rank(s) + 1, 6
    {
      hide Rule, Sound, Kept, AllReadable, Visibility, DirDep, RevDep, Implied, OwnTri, Deps, FieldsRight;
      ghost var st0 := Now();
      var role := c.Def(s).role;
      if role.Member? && Look(visible, s) == YES {
        KeptRefl(x, st0, x.rank(s));
        tri := if CurOf(cur, role.choice).pick == Some(s) then YES else NO;
        return;
      }
      tri := CalcOwn(s, x);
      BusyFields(x, st0, Now(), s);
      if Look(dirDep, s) == NO && Look(revDep, s) != NO {
        tri := NO;
      } else {
        tri := TriOr(tri, Look(revDep, s));
      }
      if tri == MOD && ActsAsBool(c, s, Look(visible, s)) {
        tri := YES;
      }
    }

    /** The text of an int, hex or string symbol. */
    method CalcText(s: Symbol, ghost x: Context) returns (text: string)
      requires x.c == c && Ready(x, Now(), x.rank(s)) && Busy(Now(), s) && !c.Def(s).role.Choice?
      requires AllReadable(x, Now(), Deps(c, s), x.rank(s), x.spec)
      requires Look(visible, s) == Visibility(c, s, x.spec) && User(users, s) == User(x.users, s)
      modifies this
      ensures Ready(x, Now(), x.rank(s)) && Kept(x, old(Now()), Now(), x.rank(s), {})
      ensures text == StringText(c, x.users, s, x.spec)
      decreases x.rank(s) + 1, 6
    {
      hide Rule, Sound, Consistent, Kept, AllReadable, Visibility, Deps, FieldsRight;
      ghost var st0 := Now();
      KeptRefl(x, st0, x.rank(s));
      if Look(visible, s) != NO && User(users, s).isSet {
        return User(users, s).text;
      }
      DefaultDeps(c, s);
      ReadableSubset(x, st0, Deps(c, s), CondDeps(c.Def(s).defaults), x.rank(s), x.spec);
      var d, v := GetDefault(s, x, x.rank(s), x.spec);
      text := "";
      if d.Some? && d.value.value.Sym? {
        ghost var st1 := Now();
        var e := d.value.value;
        ValueDepsContain(c.Def(s).defaults, d.value);
        ReadableSubset(x, st0, Deps(c, s), Symbols(e), x.rank(s), x.spec);
        ReadableKept(x, st0, st1, Symbols(e), x.rank(s), x.spec, {});
        var t := CalcExpr(e, x, x.rank(s), x.spec);
        KeptTrans(x, st0, st1, Now(), x.rank(s), {});
        assert e.sym in Symbols(e);
        text := CurText(c, e.sym, Snapshot(cur));
      }
    }

    /** The visible default of a choice. */
    method CalcChoiceDefault(s: Symbol, ghost x: Context, ghost w: Assignment) returns (m: Option<Symbol>)
      requires x.c == c && Ready(x, Now(), x.rank(s)) && Busy(Now(), s) && c.Def(s).role.Choice?
      requires AllReadable(x, Now(), CondDeps(c.Def(s).defaults), x.rank(s), w)
      requires MembersVisible(c, Now(), c.Def(s).role.members, w)
      modifies this
      ensures Ready(x, Now(), x.rank(s)) && Kept(x, old(Now()), Now(), x.rank(s), {})
      ensures MembersVisible(c, Now(), c.Def(s).role.members, w)
      ensures m == VisibleDefault(c, c.Def(s).defaults, w)
      decreases x.rank(s) + 1, 4
    {
      hide Rule, Consistent, Kept, AllReadable, Visibility, Sound;
      ghost var st0 := Now();
      KeptRefl(x, st0, x.rank(s));
      var defaults := c.Def(s).defaults;
      var i := 0;
      while i < |defaults|
        invariant 0 <= i <= |defaults|
        invariant Ready(x, Now(), x.rank(s)) && Kept(x, st0, Now(), x.rank(s), {}) && Busy(Now(), s)
        invariant MembersVisible(c, Now(), c.Def(s).role.members, w)
        invariant VisibleDefault(c, defaults, w) == VisibleDefault(c, defaults[i..], w)
      {
        ghost var st1 := Now();
        CondDepsContain(defaults, i);
        ReadableSubset(x, st0, CondDeps(defaults), OptSymbols(defaults[i].cond), x.rank(s), w);
        ReadableKept(x, st0, st1, OptSymbols(defaults[i].cond), x.rank(s), w, {});
        var v := CalcOpt(defaults[i].cond, YES, x, x.rank(s), w);
        MembersKept(x, st1, Now(), s, {});
        StillBusy(x, st1, Now(), s, {});
        KeptTrans(x, st0, st1, Now(), x.rank(s), {});
        DefaultIsMember(x, s, i);
        var e := defaults[i].value;
        if v != NO && e.Sym? && Look(visible, e.sym) != NO {
          return Some(e.sym);
        }
        i := i + 1;
      }
      m := None;
    }

    /** The first visible member of a choice. */
    method FirstVisibleMember(members: seq<Symbol>, ghost w: Assignment) returns (m: Option<Symbol>)
      requires MembersVisible(c, Now(), members, w)
      ensures m == FirstVisible(c, members, w)
    {
      hide Visibility;
      var i := 0;
      while i < |members|
        invariant 0 <= i <= |members|
        invariant FirstVisible(c, members, w) == FirstVisible(c, members[i..], w)
      {
        if Look(visible, members[i]) != NO {
          return Some(members[i]);
        }
        i := i + 1;
      }
      m := None;
    }

    /** The visibility of every member; whether all visible ones are set by the user. */
    method CalcMembers(s: Symbol, ghost x: Context, ghost w: Assignment) returns (allSet: bool)
      requires x.c == c && Ready(x, Now(), x.rank(s)) && ChoiceOpen(x, Now(), s) && w == WithYes(x.spec, s)
      modifies this
      ensures Ready(x, Now(), x.rank(s)) && ChoiceOpen(x, Now(), s)
      ensures Kept(x, old(Now()), Now(), x.rank(s), MemberSet(c, s))
      ensures MembersVisible(c, Now(), c.Def(s).role.members, w)
      ensures allSet == MembersSet(x, c.Def(s).role.members, w)
      decreases x.rank(s) + 1, 5
    {
      hide Rule, Sound, Consistent, Kept, AllReadable, Visibility, VisibilityDeps;
      ghost var st0 := Now();
      var members := c.Def(s).role.members;
      KeptRefl(x, st0, x.rank(s));
      KeptWeaken(x, st0, st0, x.rank(s), {}, x.rank(s), MemberSet(c, s));
      allSet := true;
      for i := 0 to |members|
        invariant Ready(x, Now(), x.rank(s)) && ChoiceOpen(x, Now(), s)
        invariant Kept(x, st0, Now(), x.rank(s), MemberSet(c, s))
        invariant MembersVisible(c, Now(), members[..i], w)
        invariant allSet == MembersSet(x, members[..i], w)
      {
        ghost var st1 := Now();
        MemberReadable(x, st1, s, members[i]);
        CalcVisibility(members[i], x, x.rank(s), w);
        MemberDone(x, st1, Now(), s, i, w);
        KeptWeaken(x, st1, Now(), x.rank(s), {members[i]}, x.rank(s), MemberSet(c, s));
        KeptTrans(x, st0, st1, Now(), x.rank(s), MemberSet(c, s));
        MemberMark(x, Now(), s, i, w);
        if Look(visible, members[i]) != NO && !User(users, members[i]).isSet {
          allSet := false;
        }
      }
      assert members[..|members|] == members;
    }

    /** The member a choice set to y selects. */
    method CalcChoice(s: Symbol, ghost x: Context) returns (pick: Option<Symbol>, allSet: bool)
      requires x.c == c && Ready(x, Now(), x.rank(s)) && ChoiceOpen(x, Now(), s)
      requires AllReadable(x, Now(), Deps(c, s), x.rank(s), x.spec)
      modifies this
      ensures Ready(x, Now(), x.rank(s)) && Kept(x, old(Now()), Now(), x.rank(s), MemberSet(c, s))
      ensures pick == PickMember(c, x.users, s, WithYes(x.spec, s))
      ensures allSet == MembersSet(x, c.Def(s).role.members, WithYes(x.spec, s))
      decreases x.rank(s) + 1, 6
    {
      hide Rule, Sound, Kept, AllReadable, Visibility, Deps, FieldsRight, CondDeps;
      ghost var st0, w := Now(), WithYes(x.spec, s);
      allSet := CalcMembers(s, x, w);
      ghost var st1 := Now();
      pick := User(users, s).pick;
      UserPick(x, st1, s);
      if pick.Some? && Look(visible, pick.value) != NO {
        return;
      }
      ChoiceDefaultsReadable(x, st0, st1, s);
      pick := CalcChoiceDefault(s, x, w);
      KeptWeaken(x, st1, Now(), x.rank(s), {}, x.rank(s), MemberSet(c, s));
      KeptTrans(x, st0, st1, Now(), x.rank(s), MemberSet(c, s));
      if pick.None? {
        pick := FirstVisibleMember(c.Def(s).role.members, w);
      }
    }

    /** A bool or tristate symbol, after its visibility. */
    method FinishLogical(s: Symbol, ghost x: Context, ghost st0: State)
      requires x.c == c && Progress(x, st0, Now(), s) && FieldsKnown(x, Now(), s) && User(users, s) == User(x.users, s)
      requires c.Def(s).role.Member? ==> c.Def(s).role.choice in done
      requires IsLogical(s)
      modifies this
      ensures Progress(x, st0, Now(), s) && FieldsKnown(x, Now(), s)
      ensures CurOf(cur, s) == x.spec(s) && User(users, s) == UserAfter(x, s)
      decreases x.rank(s) + 1, 7
    {
      hide Sound, Consistent, Kept, AllReadable, Visibility, Deps, FieldsRight, DirDep, RevDep, Implied, LogicalTri,
           PickMember, MembersSet;
      ghost var st1 := Now();
      var tri := CalcLogical(s, x);
      ghost var st2 := Now();
      Advance(x, st0, st1, st2, s, {});
      BusyFields(x, st1, st2, s);
      cur := cur[s := Cur(tri, "n", None)];
      CurWritten(x, st0, st2, s, Cur(tri, "n", None));
      SpecRule(x, s);
      if c.Def(s).role.Choice? && tri == YES {
        ghost var st3 := Now();
        var pick, allSet := CalcChoice(s, x);
        ghost var st4 := Now();
        MemberHomes(x, s);
        Advance(x, st0, st3, st4, s, MemberSet(c, s));
        ChoiceFields(x, st3, st4, s);
        var v := if pick.None? then Cur(NO, "n", None) else Cur(YES, "n", pick);
        cur := cur[s := v];
        CurWritten(x, st0, st4, s, v);
        if !allSet {
          ghost var st5 := Now();
          users := users[s := User(users, s).(isSet := false)];
          UserWritten(x, st0, st5, s, users);
        }
      }
    }

    method FinishText(s: Symbol, ghost x: Context, ghost st0: State)
      requires x.c == c && Progress(x, st0, Now(), s) && FieldsKnown(x, Now(), s) && User(users, s) == User(x.users, s)
      requires !IsLogical(s) && s.Type() != Unknown
      modifies this
      ensures Progress(x, st0, Now(), s) && FieldsKnown(x, Now(), s)
      ensures CurOf(cur, s) == x.spec(s) && User(users, s) == UserAfter(x, s)
      decreases x.rank(s) + 1, 7
    {
      hide Sound, Consistent, Kept, AllReadable, Visibility, Deps, FieldsRight, DirDep, RevDep, Implied, StringText;
      ghost var st1 := Now();
      TextIsPlain(x, s);
      var text := CalcText(s, x);
      ghost var st2 := Now();
      Advance(x, st0, st1, st2, s, {});
      BusyFields(x, st1, st2, s);
      cur := cur[s := Cur(NO, text, None)];
      CurWritten(x, st0, st2, s, Cur(NO, text, None));
      SpecRule(x, s);
    }

    /** The value of a symbol is calculated unless it is valid. */
    method CalcValue(s: Symbol, ghost x: Context)
      requires x.c == c && Sound(x) && Consistent(x, Now())
      requires s in valid || BusyAbove(x, Now(), x.rank(s) + 1)
      modifies this
      ensures old(s in valid) ==> Now() == old(Now())
      ensures old(s !in valid) ==>
                s in done && Ready(x, Now(), x.rank(s) + 1) && Kept(x, old(Now()), Now(), x.rank(s) + 1, {})
      decreases if s in valid then 0 else x.rank(s) + 1, 9
    {
      hide Rule, Sound, Consistent, Kept, AllReadable, Visibility, Deps, FieldsRight, DirDep, RevDep, Implied,
           VisibilityDeps;
      if s in valid {
        return;
      }
      ghost var st0 := Now();
      Start(x, st0, s);
      valid := valid + {s};
      ghost var st1 := Now();
      if s.Type() == Unknown {
        cur := cur[s := Cur(NO, c.name(s), None)];
        CurWritten(x, st0, st1, s, Cur(NO, c.name(s), None));
        SpecUnknown(x, s);
        TextIsPlain(x, s);
      } else {
        CalcVisibility(s, x, x.rank(s), x.spec);
        ghost var st2 := Now();
        Advance(x, st0, st1, st2, s, {s});
        if c.Def(s).role.Member? {
          ChoiceFinished(x, st2, s);
        }
        // the value seen if the calculation came back to this symbol
        var initial := Cur(NO, if IsLogical(s) then "n" else "", None);
        cur := cur[s := initial];
        CurWritten(x, st0, st2, s, initial);
        if IsLogical(s) {
          FinishLogical(s, x, st0);
        } else {
          FinishText(s, x, st0);
        }
      }
      Finish(x, st0, Now(), s);
      done := done + {s};
    }

    constructor (c: Setup, users: Users)
      ensures this.c == c && this.users == users && valid == done == {} && cur == map[]
      ensures visible == dirDep == revDep == implied == map[]
    {
      this.c, this.users := c, users;
      valid, done, cur := {}, {}, map[];
      visible, dirDep, revDep, implied := map[], map[], map[], map[];
    }

    /** Queries in any order, repeated or not, all answer from the one solution. */
    method Query(order: seq<Symbol>, ghost x: Context) returns (values: seq<Cur>)
      requires x.c == c && Sound(x) && Consistent(x, Now()) && Idle(Now())
      modifies this
      ensures Consistent(x, Now()) && Idle(Now())
      ensures |values| == |order| && forall i :: 0 <= i < |order| ==> values[i] == x.spec(order[i]) && order[i] in done
      ensures forall i :: 0 <= i < |order| ==> User(users, order[i]) == UserAfter(x, order[i])
      ensures old(done) <= done
    {
      hide Rule, Sound, Consistent, Kept, UserAfter;
      values := [];
      for i := 0 to |order|
        invariant Consistent(x, Now()) && Idle(Now()) && old(done) <= done
        invariant |values| == i && forall j :: 0 <= j < i ==> values[j] == x.spec(order[j]) && order[j] in done
      {
        ghost var st0 := Now();
        CalcValue(order[i], x);
        Answered(x, st0, Now(), order[i]);
        values := values + [CurOf(cur, order[i])];
      }
      MarksRight(x, Now());
    }

    /** Whether a symbol may be set to a value, from its fields. */
    method TristateWithinRange(s: Symbol, val: Tri) returns (ok: bool)
      ensures ok == InRange(c, s, val, Look(visible, s), Look(revDep, s))
    {
      var visibility, rev := Look(visible, s), Look(revDep, s);
      if visibility == NO || !IsLogical(s) || (ActsAsBool(c, s, visibility) && val == MOD) || visibility <= rev {
        return false;
      }
      if c.Def(s).role.Member? && visibility == YES {
        return val == YES;
      }
      ok := val >= rev && val <= visibility;
    }

    /** Sets the user value of a symbol; a member set to y becomes the choice's pick, and all
        visible members count as set. If the value changes, everything is invalidated. */
    method SetTristateValue(s: Symbol, val: Tri) returns (ok: bool)
      modifies this`users, this`valid, this`done
      ensures ok <==> CurOf(cur, s).tri == val || InRange(c, s, val, Look(visible, s), Look(revDep, s))
      ensures users == if ok then SetUserAt(c, old(users), s, val, visible) else old(users)
      ensures if ok && CurOf(cur, s).tri != val then valid == done == {} else valid == old(valid) && done == old(done)
    {
      var oldval := CurOf(cur, s).tri;
      if oldval != val {
        ok := TristateWithinRange(s, val);
        if !ok {
          return;
        }
      }
      ghost var u0 := users;
      if c.Def(s).role.Member? && val == YES {
        var choice := c.Def(s).role.choice;
        users := users[choice := User(users, choice).(isSet := true, pick := Some(s))];
        var members := c.Def(choice).role;
        if members.Choice? {
          MarkMembers(members.members);
        }
      }
      users := SetUser(users, s, val);
      ok := true;
      if oldval != val {
        valid, done := {}, {};
      }
    }

    method MarkMembers(members: seq<Symbol>)
      modifies this`users
      ensures users == MarkVisible(old(users), members, visible)
    {
      ghost var u0 := users;
      for i := 0 to |members|
        invariant MarkVisible(users, members[i..], visible) == MarkVisible(u0, members, visible)
      {
        assert members[i..][1..] == members[i + 1..];
        if Look(visible, members[i]) != NO {
          users := users[members[i] := User(users, members[i]).(isSet := true)];
        }
      }
      assert members[|members|..] == [];
    }

    /** For a calculated symbol outside choices that is the test on the solution. */
    lemma AcceptedInRange(s: Symbol, val: Tri, x: Context)
      requires x.c == c && Consistent(x, Now()) && s in done && s.Type() != Unknown && c.Def(s).role.Plain?
      ensures CurOf(cur, s) == x.spec(s)
      ensures InRange(c, s, val, Look(visible, s), Look(revDep, s)) == WithinRange(c, s, val, x.spec)
      ensures SetUserAt(c, users, s, val, visible) == SetUser(users, s, val)
    {
      hide Rule, Visibility, RevDep, DirDep, InRange;
      assert FieldsRight(x, Now(), s);
    }

    /** An accepted change, followed by a new calculation of the symbol, gives it
        exactly the new value unless a select contradicts its dependencies. */
    method ChangeAndRecalculate(s: Symbol, val: Tri, ghost x: Context, ghost y: Context) returns (ok: bool)
      requires x.c == c == y.c && Sound(x) && Sound(y) && Consistent(x, Now()) && Idle(Now())
      requires users == x.users && y.users == SetUser(users, s, val) && x.rank == y.rank
      requires s in done && s.Type() != Unknown && c.Def(s).role.Plain? && x.spec(s).tri != val
      modifies this
      ensures ok <==> WithinRange(c, s, val, x.spec)
      ensures ok ==> s in done && CurOf(cur, s) == y.spec(s)
      ensures ok ==> (CurOf(cur, s).tri == val <==>
                        (DirDep(c, s, x.spec) != NO || RevDep(c, s, x.spec) == NO || val == NO))
    {
      hide Rule, Sound, Kept, Visibility, WithinRange, InRange, SetUserAt, FieldsRight;
      AcceptedInRange(s, val, x);
      ghost var st0 := Now();
      ok := SetTristateValue(s, val);
      if ok {
        Invalidated(x, y, st0, Now());
        var values := Query([s], y);
        assert [s][0] == s;
        Effect(x, y, s, val);
      }
    }

    /** A member of a choice that is set to y, and is visible then, becomes y if and only if
        the choice is. */
    method PickAndRecalculate(s: Symbol, ghost x: Context, ghost y: Context) returns (ok: bool)
      requires x.c == c == y.c && Sound(y) && Consistent(x, Now()) && Idle(Now())
      requires c.Def(s).role.Member? && y.users == SetUserAt(c, users, s, YES, visible) && CurOf(cur, s).tri != YES
      modifies this
      ensures ok <==> InRange(c, s, YES, old(Look(visible, s)), old(Look(revDep, s)))
      ensures ok ==> s in done && CurOf(cur, s) == y.spec(s)
      ensures ok && Visibility(c, s, y.spec) == YES ==>
                (CurOf(cur, s).tri == YES <==> y.spec(c.Def(s).role.choice).tri == YES)
    {
      hide Rule, Kept, Visibility, InRange, FieldsRight;
      ghost var st0 := Now();
      PickRecorded(c, users, s, visible);
      ok := SetTristateValue(s, YES);
      if ok {
        Invalidated(x, y, st0, Now());
        var values := Query([s], y);
        assert [s][0] == s;
        if Visibility(c, s, y.spec) == YES {
          PickTakesEffect(c, y.users, s, y.spec);
        }
      }
    }
  }
}
