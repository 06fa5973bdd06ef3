/** For which dependencies the check passes whatever symbol it starts from. */
module CycleOrders {
  import opened Tristate
  import opened Expressions
  import opened SymbolRules
  import opened CycleCheck

  /** A choice stands for itself and its members. */
  function Group(c: Setup, s: Symbol): Symbol { if c.Def(s).role.Member? then c.Def(s).role.choice else s }

  ghost predicate Step(c: Setup, x: Symbol, y: Symbol) { y in Refs(c, x) || Group(c, x) == Group(c, y) }

  ghost predicate IsPath(c: Setup, p: seq<Symbol>) {
    p != [] && forall i :: 0 <= i < |p| - 1 ==> Step(c, p[i], p[i + 1])
  }

  /** y can be reached from x through references, moving freely within groups. */
  ghost predicate Reaches(c: Setup, x: Symbol, y: Symbol) {
    exists p :: IsPath(c, p) && p[0] == x && p[|p| - 1] == y
  }

  ghost predicate StepClosed(c: Setup, set0: set<Symbol>) {
    forall x, y :: x in set0 && Step(c, x, y) ==> y in set0
  }

  lemma {:induction false} PathStays(c: Setup, p: seq<Symbol>, set0: set<Symbol>)
    requires IsPath(c, p) && StepClosed(c, set0) && p[0] in set0
    ensures p[|p| - 1] in set0
    decreases |p|
  {
    hide Step;
    if |p| > 1 {
      assert Step(c, p[0], p[1]);
      forall i | 0 <= i < |p[1..]| - 1 ensures Step(c, p[1..][i], p[1..][i + 1]) { assert Step(c, p[i + 1], p[i + 2]); }
      PathStays(c, p[1..], set0);
    }
  }

  lemma Unreachable(c: Setup, set0: set<Symbol>, x: Symbol, y: Symbol)
    requires StepClosed(c, set0) && x in set0 && y !in set0
    ensures !Reaches(c, x, y)
  {
    hide Step, StepClosed;
    if Reaches(c, x, y) {
      var p :| IsPath(c, p) && p[0] == x && p[|p| - 1] == y;
      PathStays(c, p, set0);
    }
  }

  lemma StepFirst(c: Setup, x: Symbol, y: Symbol, z: Symbol)
    requires Step(c, x, y) && Reaches(c, y, z)
    ensures Reaches(c, x, z)
  {
    hide Step;
    var p :| IsPath(c, p) && p[0] == y && p[|p| - 1] == z;
    var q := [x] + p;
    forall i | 0 <= i < |q| - 1 ensures Step(c, q[i], q[i + 1]) {
      assert i > 0 ==> Step(c, p[i - 1], p[i]);
    }
    assert IsPath(c, q) && q[0] == x && q[|q| - 1] == z;
  }

  lemma ReachesSelf(c: Setup, s: Symbol)
    ensures Reaches(c, s, s)
  {
    assert IsPath(c, [s]) && [s][0] == s && [s][|[s]| - 1] == s;
  }

  // ----- what passing says about one reference -----

  ghost predicate Covers(c: Setup, order: seq<Symbol>) { forall s :: s in c.defs ==> s in order }

  ghost predicate AlwaysPasses(c: Setup) { forall order :: Covers(c, order) ==> CheckAll(c, order) }

  lemma {:induction false} Listing(all: set<Symbol>) returns (list: seq<Symbol>)
    ensures forall s :: s in all ==> s in list
    decreases |all|
  {
    list := [];
    if all != {} {
      var x :| x in all;
      list := Listing(all - {x});
      list := [x] + list;
    }
  }

  const NONE := Flags({}, {})

  /** Then the check passes from every symbol. */
  lemma PassesFrom(c: Setup, s: Symbol)
    requires AlwaysPasses(c)
    ensures Visit(c, s, NONE).0
  {
    var list := Listing(c.defs.Keys);
    var order := [s] + list;
    assert Covers(c, order);
    assert CheckAll(c, order) && order[0] == s;
  }

  lemma EmptyClosed(c: Setup)
    ensures Closed(c, NONE) && Ordered(c, [])
  {}

  function GroupOf(c: Setup, s: Symbol): set<Symbol> {
    if c.Def(s).role.Choice? then SeqSet(c.Def(s).role.members) + {s} else {s}
  }

  lemma GroupOfExact(c: Setup, s: Symbol)
    requires GroupsLinked(c) && !c.Def(s).role.Member?
    ensures forall y :: y in GroupOf(c, s) <==> Group(c, y) == s
  {}

  /** What has been finished while only the group of s is being checked is closed. */
  lemma FinishedClosed(c: Setup, s: Symbol, f: Flags, done: seq<Symbol>)
    requires GroupsLinked(c) && !c.Def(s).role.Member?
    requires Closed(c, f) && f.check == GroupOf(c, s) && Ordered(c, done) && Finished(f, done)
    ensures StepClosed(c, SeqSet(done))
    ensures forall y :: y in GroupOf(c, s) ==> y !in SeqSet(done)
  {
    hide Refs;
    GroupOfExact(c, s);
    forall x, y | x in SeqSet(done) && Step(c, x, y)
      ensures y in SeqSet(done)
    {
      if y in Refs(c, x) {
        var i :| 0 <= i < |done| && done[i] == x;
        assert y in done[..i];
      } else {
        assert x in f.checked && x !in f.check;
        assert y in f.checked;
        assert Group(c, y) != s;
      }
    }
  }

  /** The own references of a plain symbol or a choice, checked first. */
  lemma OwnRefsFinished(c: Setup, s: Symbol) returns (done: seq<Symbol>, f: Flags)
    requires GroupsLinked(c) && Visit(c, s, NONE).0 && !c.Def(s).role.Member? && s in c.defs
    ensures Closed(c, f) && f.check == GroupOf(c, s) && Ordered(c, done) && Finished(f, done)
    ensures forall d :: d in Refs(c, s) ==> d in done
    ensures f == VisitAll(c, Refs(c, s), Enter(NONE, GroupOf(c, s))).1
              && VisitAll(c, Refs(c, s), Enter(NONE, GroupOf(c, s))).0
    ensures c.Def(s).role.Choice? ==> VisitMembers(c, c.Def(s).role.members, Leave(f, {s})).0
  {
    hide Refs, GroupsLinked, Closed, Ordered;
    EmptyClosed(c);
    var f1 := Enter(NONE, GroupOf(c, s));
    if c.Def(s).role.Choice? {
      EnterChoice(c, s, NONE);
    } else {
      EnterPlain(c, s, NONE);
    }
    LeftMonotone(c, NONE, f1);
    AllBalanced(c, Refs(c, s), f1);
    assert Finished(f1, []);
    done := AllOrders(c, Refs(c, s), f1, []);
    f := VisitAll(c, Refs(c, s), f1).1;
  }

  /** A reference that does not go from a member to a choice is on no cycle: if it
      leaves a plain symbol or a choice, ... */
  lemma OwnReference(c: Setup, s: Symbol, d: Symbol)
    requires GroupsLinked(c) && AlwaysPasses(c) && d in Refs(c, s) && !c.Def(s).role.Member?
    ensures !Reaches(c, d, s)
  {
    hide Refs, GroupsLinked, Reaches, StepClosed, AlwaysPasses;
    if s !in c.defs {
      NoRefs(c, s);
    }
    PassesFrom(c, s);
    var done, f := OwnRefsFinished(c, s);
    FinishedClosed(c, s, f, done);
    Unreachable(c, SeqSet(done), d, s);
  }

  /** ... if it goes to a plain symbol, ... */
  lemma PlainReference(c: Setup, s: Symbol, d: Symbol)
    requires GroupsLinked(c) && AlwaysPasses(c) && d in Refs(c, s) && c.Def(s).role.Member? && c.Def(d).role.Plain?
    ensures !Reaches(c, d, s)
  {
    hide Refs, Reaches, AlwaysPasses, Closed, Ordered, Finished;
    GroupOfExact(c, d);
    if d !in c.defs {
      NoRefs(c, d);
      Unreachable(c, {d}, d, s);
    } else {
      PassesFrom(c, d);
      var done, f := OwnRefsFinished(c, d);
      FinishedClosed(c, d, f, done);
      assert d in GroupOf(c, d);
      assert StepClosed(c, SeqSet(done) + {d});
      assert s in SeqSet(done) ==> Step(c, s, d);
      Unreachable(c, SeqSet(done) + {d}, d, s);
    }
  }

  /** ... or if it goes to a member. */
  lemma MemberReference(c: Setup, s: Symbol, d: Symbol)
    requires GroupsLinked(c) && AlwaysPasses(c) && d in Refs(c, s) && c.Def(s).role.Member? && c.Def(d).role.Member?
    ensures !Reaches(c, d, s)
  {
    hide Refs, Reaches, AlwaysPasses, StepClosed, Finished;
    var ch := c.Def(d).role.choice;
    MemberOfChoice(c, d);
    GroupOfExact(c, ch);
    PassesFrom(c, ch);
    var done, f := OwnRefsFinished(c, ch);
    var done', f' := MembersFinished(c, ch, done, f);
    MembersClosed(c, ch, f', done');
    var all := SeqSet(done') + GroupOf(c, ch);
    assert d in GroupOf(c, ch) && d != ch;
    if s in all {
      assert s != ch;
      assert s in GroupOf(c, ch) ==> d in done';
      RefsOrdered(c, done', s, d);
    }
    Unreachable(c, all, d, s);
  }

  lemma RefsOrdered(c: Setup, done: seq<Symbol>, s: Symbol, d: Symbol)
    requires Ordered(c, done) && s in done && d in Refs(c, s)
    ensures d in done
  {
    hide Refs;
    var i :| 0 <= i < |done| && done[i] == s;
    assert d in done[..i];
  }

  /** After its own references a choice has those of its members checked. */
  lemma MembersFinished(c: Setup, ch: Symbol, done: seq<Symbol>, f: Flags) returns (done': seq<Symbol>, f': Flags)
    requires GroupsLinked(c) && c.Def(ch).role.Choice? && ch in c.defs
    requires Closed(c, f) && f.check == GroupOf(c, ch) && Ordered(c, done) && Finished(f, done)
    requires forall d :: d in Refs(c, ch) ==> d in done
    requires VisitMembers(c, c.Def(ch).role.members, Leave(f, {ch})).0
    ensures Closed(c, f') && f'.check == GroupOf(c, ch) - {ch} && Ordered(c, done') && Finished(f', done')
              && ch in done'
    ensures forall x, d :: x in GroupOf(c, ch) && d in Refs(c, x) ==> d in done'
    ensures forall y :: y in GroupOf(c, ch) && y != ch ==> y !in done'
  {
    hide Refs, Closed, Ordered, GroupsLinked;
    var members, f3 := c.Def(ch).role.members, Leave(f, {ch});
    ClosedLeave(c, f, {ch});
    ClosedCheck(c, f);
    assert ch !in done;
    OrderedAppend(c, done, ch);
    assert Finished(f3, done + [ch]);
    MembersBalanced(c, members, f3);
    f' := VisitMembers(c, members, f3).1;
    done' := MembersOrder(c, members, f3, done + [ch]);
  }

  lemma MembersClosed(c: Setup, ch: Symbol, f: Flags, done: seq<Symbol>)
    requires GroupsLinked(c) && c.Def(ch).role.Choice?
    requires Closed(c, f) && f.check == GroupOf(c, ch) - {ch} && Ordered(c, done) && Finished(f, done)
    requires forall x, d :: x in GroupOf(c, ch) && d in Refs(c, x) ==> d in done
    ensures StepClosed(c, SeqSet(done) + GroupOf(c, ch))
  {
    hide Refs;
    GroupOfExact(c, ch);
    var all := SeqSet(done) + GroupOf(c, ch);
    forall x, y | x in all && Step(c, x, y)
      ensures y in all
    {
      if y in Refs(c, x) {
        if x in done {
          RefsOrdered(c, done, x, y);
        }
      } else if Group(c, y) != ch {
        assert x in f.checked && y in f.checked;
      }
    }
  }

  lemma NoCycleThrough(c: Setup, s: Symbol, d: Symbol)
    requires GroupsLinked(c) && AlwaysPasses(c) && d in Refs(c, s) && !(c.Def(s).role.Member? && c.Def(d).role.Choice?)
    ensures !Reaches(c, d, s)
  {
    hide Refs, Reaches, AlwaysPasses, GroupsLinked;
    if !c.Def(s).role.Member? {
      OwnReference(c, s, d);
    } else if c.Def(d).role.Plain? {
      PlainReference(c, s, d);
    } else {
      MemberReference(c, s, d);
    }
  }

  // ----- the numbering -----

  ghost function Reach(c: Setup, s: Symbol): set<Symbol> { set t | t in c.defs && Reaches(c, s, t) }

  lemma StepReach(c: Setup, x: Symbol, y: Symbol)
    requires Step(c, x, y)
    ensures Reach(c, y) <= Reach(c, x)
  {
    hide Step, Reaches;
    forall t | t in Reach(c, y) ensures t in Reach(c, x) { StepFirst(c, x, y, t); }
  }

  lemma ReachLowers(c: Setup, s: Symbol, d: Symbol)
    requires GroupsLinked(c) && AlwaysPasses(c) && d in Refs(c, s)
    ensures |Reach(c, d)| < |Reach(c, s)|
            || (|Reach(c, d)| == |Reach(c, s)| && c.Def(s).role.Member? && c.Def(d).role.Choice?)
  {
    hide Refs, Reaches, AlwaysPasses, GroupsLinked;
    assert Step(c, s, d);
    StepReach(c, s, d);
    Subset(Reach(c, d), Reach(c, s));
    if !(c.Def(s).role.Member? && c.Def(d).role.Choice?) {
      NoCycleThrough(c, s, d);
      if s !in c.defs {
        NoRefs(c, s);
      }
      ReachesSelf(c, s);
      Subset(Reach(c, d), Reach(c, s) - {s});
    }
  }

  /** The check passes in every order if and only if the groups can be numbered so that
      every reference lowers the number, save those from a member to a choice. */
  lemma CheckExactWithChoices(c: Setup)
    requires GroupsLinked(c)
    ensures AlwaysPasses(c) <==> exists g :: LooselyRanked(c, g)
  {
    hide Refs, Reach;
    if AlwaysPasses(c) {
      var g: Symbol -> nat := s => |Reach(c, s)|;
      forall s | c.Def(s).role.Member? ensures g(s) == g(c.Def(s).role.choice) {
        var ch := c.Def(s).role.choice;
        MemberOfChoice(c, s);
        StepReach(c, s, ch);
        StepReach(c, ch, s);
        assert Reach(c, s) == Reach(c, ch);
      }
      forall s, d | d in Refs(c, s)
        ensures g(d) < g(s) || (g(d) == g(s) && c.Def(s).role.Member? && c.Def(d).role.Choice?)
      {
        ReachLowers(c, s, d);
      }
      assert LooselyRanked(c, g);
    }
    if g :| LooselyRanked(c, g) {
      forall order | Covers(c, order) ensures CheckAll(c, order) { AcyclicPasses(c, g, order); }
    }
  }

  // ----- two choices that depend on each other through their members -----

  const CH1 := Config(0, Boolean)
  const M1 := Config(1, Boolean)
  const CH2 := Config(2, Boolean)
  const M2 := Config(3, Boolean)

  function MutualChoices(): Setup {
    var prompt := [Some(Bin(AND, Sym(CH1), Sym(CH2)))];
    Setup(map[CH1 := SymbolDef([], None, None, None, [], Choice([M1])),
              M1 := SymbolDef(prompt, None, None, None, [], Member(CH1)),
              CH2 := SymbolDef([], None, None, None, [], Choice([M2])),
              M2 := SymbolDef(prompt, None, None, None, [], Member(CH2))],
          YES, _ => "")
  }

  lemma MutualDeps(s: Symbol)
    ensures OwnDeps(MutualChoices(), s) == if s == M1 || s == M2 then {CH1, CH2} else {}
  {
    var prompt := MutualChoices().Def(M1).prompts;
    assert prompt[..0] == [] && PromptDeps(prompt) == {CH1, CH2};
  }

  lemma MutualMembers()
    ensures CH2 in Deps(MutualChoices(), CH1) && CH1 in Deps(MutualChoices(), CH2)
  {
    var c := MutualChoices();
    MutualDeps(M1);
    MutualDeps(M2);
    assert [M1][1..] == [] && [M2][1..] == [];
    MemberDepsContain(c, [M1], M1);
    MemberDepsContain(c, [M2], M2);
  }

  lemma MutualRanked()
    ensures LooselyRanked(MutualChoices(), s => 0)
  {
    hide Refs, OwnDeps;
    var c := MutualChoices();
    forall s, d | d in Refs(c, s)
      ensures c.Def(s).role.Member? && c.Def(d).role.Choice?
    {
      RefsAreDeps(c, s);
      MutualDeps(s);
    }
  }

  /** The check never objects, yet the values of the two choices depend on each other. */
  lemma MutualChoicesPass()
    ensures GroupsLinked(MutualChoices()) && AlwaysPasses(MutualChoices())
    ensures !exists rank :: Ranked(MutualChoices(), rank)
  {
    hide Refs, Deps, LooselyRanked;
    var c := MutualChoices();
    MutualRanked();
    MutualMembers();
    forall order | Covers(c, order) ensures CheckAll(c, order) { AcyclicPasses(c, s => 0, order); }
    forall rank ensures !Ranked(c, rank) {
      assert Ranked(c, rank) ==> rank(CH2) < rank(CH1) < rank(CH2);
    }
  }
}
