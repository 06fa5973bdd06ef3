/** The search for recursive dependencies: a depth-first walk with a mark for
    "being checked" and one for "checked"; a choice and its members are entered
    together. Recursion counts as an error. */
module CycleCheck {
  import opened Tristate
  import opened Expressions
  import opened SymbolRules

  // ----- the walk -----

  function ExprRefs(e: Expr): seq<Symbol> {
    match e
    case Sym(s) => [s]
    case Not(a) => ExprRefs(a)
    case Bin(_, l, r) => ExprRefs(l) + ExprRefs(r)
    case Compare(_, s1, s2) => [s1, s2]
  }

  function OptRefs(e: Option<Expr>): seq<Symbol> { if e.None? then [] else ExprRefs(e.value) }

  function PromptRefs(prompts: seq<Dependency>): seq<Symbol> {
    if prompts == [] then [] else PromptRefs(prompts[..|prompts| - 1]) + OptRefs(prompts[|prompts| - 1])
  }

  /** The expressions of all defaults: condition and, unless s is a choice, value. */
  function DefaultParts(defaults: seq<Default>, values: bool): seq<Option<Expr>> {
    if defaults == [] then []
    else [defaults[0].cond] + (if values then [Some(defaults[0].value)] else []) + DefaultParts(defaults[1..], values)
  }

  /** The expressions of the properties of s, in the order they are visited. */
  function Parts(c: Setup, s: Symbol): seq<Option<Expr>> {
    var d := c.Def(s);
    [d.dirDep, d.revDep, d.implied] + d.prompts + DefaultParts(d.defaults, !d.role.Choice?)
  }

  /** The symbols the properties of s mention. */
  function Refs(c: Setup, s: Symbol): seq<Symbol> { PromptRefs(Parts(c, s)) }

  datatype Flags = Flags(check: set<Symbol>, checked: set<Symbol>)

  function Enter(f: Flags, group: set<Symbol>): Flags { Flags(f.check + group, f.checked + group) }

  function Leave(f: Flags, group: set<Symbol>): Flags { f.(check := f.check - group) }

  function SeqSet(s: seq<Symbol>): set<Symbol> { set x | x in s }

  function Left(c: Setup, f: Flags): nat { |c.defs.Keys - f.checked| }

  lemma LeftMonotone(c: Setup, f: Flags, g: Flags)
    requires f.checked <= g.checked
    ensures Left(c, g) <= Left(c, f)
    ensures forall s :: s in c.defs && s in g.checked && s !in f.checked ==> Left(c, g) < Left(c, f)
  {
    var a, b := c.defs.Keys - f.checked, c.defs.Keys - g.checked;
    Subset(b, a);
    forall s | s in c.defs && s in g.checked && s !in f.checked
      ensures |b| < |a|
    {
      Subset(b, a - {s});
    }
  }

  lemma {:induction false} Subset(a: set<Symbol>, b: set<Symbol>)
    requires a <= b
    ensures |a| <= |b|
  {
    if a != {} {
      var x :| x in a;
      Subset(a - {x}, b - {x});
    }
  }

  /** Checks one symbol: whether no recursion was met, and the marks afterwards. */
  function Visit(c: Setup, s: Symbol, f: Flags): (r: (bool, Flags))
    ensures f.checked <= r.1.checked
    decreases Left(c, f), if c.Def(s).role.Member? then 2 else 1, 0
  {
    if s in f.check then (false, f)
    else if s in f.checked then (true, f)
    else match c.Def(s).role
      case Member(choice) =>
        if c.Def(choice).role.Member? then (true, f) else Visit(c, choice, f)
      case Choice(members) => VisitChoice(c, s, f)
      case Plain =>
        if s !in c.defs then (true, f.(checked := f.checked + {s}))
        else
          var f1 := Enter(f, {s});
          LeftMonotone(c, f, f1);
          var (ok, f2) := VisitAll(c, Refs(c, s), f1);
          (ok, Leave(f2, {s}))
  }

  /** A choice: first its own properties, with the whole group being checked, then
      those of its members, with the choice no longer being checked. */
  function VisitChoice(c: Setup, s: Symbol, f: Flags): (r: (bool, Flags))
    requires c.Def(s).role.Choice? && s !in f.checked
    ensures f.checked <= r.1.checked
    decreases Left(c, f), 0, 0
  {
    var group := SeqSet(c.Def(s).role.members);
    var f1 := Enter(f, group + {s});
    LeftMonotone(c, f, f1);
    var (ok, f2) := VisitAll(c, Refs(c, s), f1);
    var f3 := Leave(f2, {s});
    if !ok then (false, Leave(f3, group))
    else
      LeftMonotone(c, f1, f3);
      var (ok', f4) := VisitMembers(c, c.Def(s).role.members, f3);
      (ok', Leave(f4, group))
  }

  function VisitAll(c: Setup, refs: seq<Symbol>, f: Flags): (r: (bool, Flags))
    ensures f.checked <= r.1.checked
    decreases Left(c, f), 3, |refs|
  {
    if refs == [] then (true, f)
    else
      var (ok, f1) := Visit(c, refs[0], f);
      LeftMonotone(c, f, f1);
      if !ok then (false, f1) else VisitAll(c, refs[1..], f1)
  }

  function VisitMembers(c: Setup, members: seq<Symbol>, f: Flags): (r: (bool, Flags))
    ensures f.checked <= r.1.checked
    decreases Left(c, f), 4, |members|
  {
    if members == [] then (true, f)
    else
      var (ok, f1) := VisitAll(c, Refs(c, members[0]), f);
      LeftMonotone(c, f, f1);
      if !ok then (false, f1) else VisitMembers(c, members[1..], f1)
  }

  /** All symbols are checked in turn, as after parsing. */
  function CheckAll(c: Setup, order: seq<Symbol>): bool { VisitAll(c, order, Flags({}, {})).0 }

  // ----- the marks -----

  /** A choice and its members are marked together. */
  ghost predicate Closed(c: Setup, f: Flags) {
    && f.check <= f.checked
    && forall m :: c.Def(m).role.Member? ==> (m in f.checked <==> c.Def(m).role.choice in f.checked)
  }

  lemma EnterChoice(c: Setup, s: Symbol, f: Flags)
    requires GroupsLinked(c) && Closed(c, f) && c.Def(s).role.Choice? && s !in f.checked
    ensures var group := SeqSet(c.Def(s).role.members);
            Closed(c, Enter(f, group + {s})) && f.checked !! group + {s}
  {
    forall m | m in SeqSet(c.Def(s).role.members)
      ensures m !in f.checked
    {
      assert c.Def(m).role == Member(s);
    }
  }

  lemma ClosedCheck(c: Setup, f: Flags)
    requires Closed(c, f)
    ensures f.check <= f.checked
  {}

  lemma MemberMarked(c: Setup, m: Symbol, f: Flags)
    requires Closed(c, f) && c.Def(m).role.Member? && c.Def(m).role.choice in f.checked
    ensures m in f.checked
  {}

  lemma ClosedLeave(c: Setup, f: Flags, group: set<Symbol>)
    requires Closed(c, f)
    ensures Closed(c, Leave(f, group))
  {}

  lemma GroupMarks(check: set<Symbol>, group: set<Symbol>, s: Symbol)
    requires check !! group + {s}
    ensures (check + (group + {s}) - {s}) - group == check
  {}

  lemma EnterPlain(c: Setup, s: Symbol, f: Flags)
    requires GroupsLinked(c) && Closed(c, f) && c.Def(s).role.Plain?
    ensures Closed(c, Enter(f, {s})) && Closed(c, f.(checked := f.checked + {s}))
  {
    forall m | c.Def(m).role.Member?
      ensures c.Def(m).role.choice != s && m != s
    {
      MemberOfChoice(c, m);
    }
  }

  lemma MemberOfChoice(c: Setup, s: Symbol)
    requires GroupsLinked(c) && c.Def(s).role.Member?
    ensures c.Def(c.Def(s).role.choice).role.Choice?
  {}

  lemma TripleRefs(a: Dependency, b: Dependency, d: Dependency)
    ensures PromptRefs([a, b, d]) == OptRefs(a) + OptRefs(b) + OptRefs(d)
  {
    assert [a][..0] == [] && PromptRefs([a]) == OptRefs(a);
    assert [a, b][..1] == [a] && PromptRefs([a, b]) == OptRefs(a) + OptRefs(b);
    assert [a, b, d][..2] == [a, b];
  }

  lemma NoRefs(c: Setup, s: Symbol)
    requires s !in c.defs
    ensures Refs(c, s) == []
  {
    assert Parts(c, s) == [None, None, None];
    TripleRefs(None, None, None);
  }

  /** The marks for "being checked" are exactly the active calls: every check
      restores them, and leaves the symbol checked. */
  lemma {:induction false} VisitBalanced(c: Setup, s: Symbol, f: Flags)
    requires GroupsLinked(c) && Closed(c, f)
    ensures var r := Visit(c, s, f); r.1.check == f.check && Closed(c, r.1) && s in r.1.checked
    decreases Left(c, f), if c.Def(s).role.Member? then 2 else 1, 0
  {
    hide Refs, GroupsLinked, Closed, Left;
    ClosedCheck(c, f);
    if s !in f.check && s !in f.checked {
      match c.Def(s).role
      case Member(choice) =>
        MemberOfChoice(c, s);
        VisitBalanced(c, choice, f);
        MemberMarked(c, s, Visit(c, choice, f).1);
      case Choice(members) =>
        ChoiceBalanced(c, s, f);
      case Plain =>
        EnterPlain(c, s, f);
        if s in c.defs {
          var f1 := Enter(f, {s});
          LeftMonotone(c, f, f1);
          AllBalanced(c, Refs(c, s), f1);
          ClosedLeave(c, VisitAll(c, Refs(c, s), f1).1, {s});
        }
    }
  }

  lemma {:induction false} ChoiceBalanced(c: Setup, s: Symbol, f: Flags)
    requires GroupsLinked(c) && Closed(c, f) && c.Def(s).role.Choice? && s !in f.checked
    ensures var r := VisitChoice(c, s, f); r.1.check == f.check && Closed(c, r.1) && s in r.1.checked
    decreases Left(c, f), 0, 0
  {
    hide Refs, GroupsLinked;
    hide Closed, SeqSet;
    var members := c.Def(s).role.members;
    var group := SeqSet(members);
    var f1 := Enter(f, group + {s});
    EnterChoice(c, s, f);
    ClosedCheck(c, f);
    GroupMarks(f.check, group, s);
    LeftMonotone(c, f, f1);
    AllBalanced(c, Refs(c, s), f1);
    var r := VisitAll(c, Refs(c, s), f1);
    var f3 := Leave(r.1, {s});
    ClosedLeave(c, r.1, {s});
    if r.0 {
      LeftMonotone(c, f1, f3);
      MembersBalanced(c, members, f3);
      ClosedLeave(c, VisitMembers(c, members, f3).1, group);
    } else {
      ClosedLeave(c, f3, group);
    }
  }

  lemma {:induction false} AllBalanced(c: Setup, refs: seq<Symbol>, f: Flags)
    requires GroupsLinked(c) && Closed(c, f)
    ensures var r := VisitAll(c, refs, f);
            r.1.check == f.check && Closed(c, r.1) && (r.0 ==> forall s :: s in refs ==> s in r.1.checked)
    decreases Left(c, f), 3, |refs|
  {
    hide Refs, GroupsLinked;
    if refs != [] {
      VisitBalanced(c, refs[0], f);
      var (ok, f1) := Visit(c, refs[0], f);
      if ok {
        LeftMonotone(c, f, f1);
        AllBalanced(c, refs[1..], f1);
      }
    }
  }

  lemma {:induction false} MembersBalanced(c: Setup, members: seq<Symbol>, f: Flags)
    requires GroupsLinked(c) && Closed(c, f)
    ensures var r := VisitMembers(c, members, f); r.1.check == f.check && Closed(c, r.1)
    decreases Left(c, f), 4, |members|
  {
    hide Refs, GroupsLinked;
    if members != [] {
      AllBalanced(c, Refs(c, members[0]), f);
      var (ok, f1) := VisitAll(c, Refs(c, members[0]), f);
      if ok {
        LeftMonotone(c, f, f1);
        MembersBalanced(c, members[1..], f1);
      }
    }
  }

  // ----- no cycle, no error -----

  /** A numbering of groups (a choice and its members share a number) that all
      references lower, except those of a member to its own choice. */
  ghost predicate GroupRanked(c: Setup, g: Symbol -> nat) {
    && (forall s :: c.Def(s).role.Member? ==> g(s) == g(c.Def(s).role.choice))
    && (forall s, d :: d in Refs(c, s) ==> g(d) < g(s) || (c.Def(s).role.Member? && d == c.Def(s).role.choice))
  }

  /** The weaker numbering that matters for the walk: a member's reference to a choice,
      its own or another, need not lower the number. */
  ghost predicate LooselyRanked(c: Setup, g: Symbol -> nat) {
    && (forall s :: c.Def(s).role.Member? ==> g(s) == g(c.Def(s).role.choice))
    && (forall s, d :: d in Refs(c, s) ==>
        g(d) < g(s) || (g(d) == g(s) && c.Def(s).role.Member? && c.Def(d).role.Choice?))
  }

  ghost predicate Below(c: Setup, g: Symbol -> nat, d: Symbol, t: Symbol) {
    g(d) < g(t) || (g(d) == g(t) && c.Def(d).role.Choice? && c.Def(t).role.Member?)
  }

  /** d is settled, or lies below everything being checked. */
  ghost predicate Safe(c: Setup, f: Flags, g: Symbol -> nat, d: Symbol) {
    (d in f.checked && d !in f.check) || forall t :: t in f.check ==> Below(c, g, d, t)
  }

  lemma {:induction false} VisitPasses(c: Setup, g: Symbol -> nat, s: Symbol, f: Flags)
    requires GroupsLinked(c) && Closed(c, f) && LooselyRanked(c, g) && Safe(c, f, g, s)
    ensures Visit(c, s, f).0
    decreases Left(c, f), if c.Def(s).role.Member? then 2 else 1, 0
  {
    hide Refs, GroupsLinked, LooselyRanked, Below, Closed;
    NotBelowItself(c, g, s);
    if s !in f.checked {
      match c.Def(s).role
      case Member(choice) =>
        ChoiceSafe(c, g, s, f);
        VisitPasses(c, g, choice, f);
      case Choice(members) =>
        ChoicePasses(c, g, s, f);
      case Plain =>
        if s in c.defs {
          var f1 := Enter(f, {s});
          EnterPlain(c, s, f);
          LeftMonotone(c, f, f1);
          RefsSafe(c, g, s, f, f1);
          AllPass(c, g, Refs(c, s), f1);
        }
    }
  }

  lemma NotBelowItself(c: Setup, g: Symbol -> nat, s: Symbol)
    ensures !Below(c, g, s, s)
  {}

  lemma ChoiceSafe(c: Setup, g: Symbol -> nat, s: Symbol, f: Flags)
    requires GroupsLinked(c) && LooselyRanked(c, g) && c.Def(s).role.Member?
    requires forall t :: t in f.check ==> Below(c, g, s, t)
    ensures c.Def(c.Def(s).role.choice).role.Choice? && Safe(c, f, g, c.Def(s).role.choice)
  {
    forall t | t in f.check ensures Below(c, g, c.Def(s).role.choice, t) { assert Below(c, g, s, t); }
  }

  /** What a symbol that is no member refers to is safe once its group is being checked. */
  lemma RefsSafe(c: Setup, g: Symbol -> nat, s: Symbol, f: Flags, f1: Flags)
    requires LooselyRanked(c, g) && !c.Def(s).role.Member?
    requires forall t :: t in f.check ==> Below(c, g, s, t)
    requires forall t :: t in f1.check && t !in f.check ==> g(t) == g(s)
    ensures forall d :: d in Refs(c, s) ==> Safe(c, f1, g, d)
  {
    hide Refs, Safe, Below;
    forall d | d in Refs(c, s) ensures Safe(c, f1, g, d) { LowerSafe(c, g, s, d, f, f1); }
  }

  /** What a member refers to is safe while its choice is. */
  lemma MemberRefsSafe(c: Setup, g: Symbol -> nat, s: Symbol, m: Symbol, f: Flags)
    requires GroupsLinked(c) && LooselyRanked(c, g)
    requires c.Def(s).role.Choice? && m in c.Def(s).role.members
    requires forall t :: t in f.check ==> Below(c, g, s, t)
    ensures forall d :: d in Refs(c, m) ==> Safe(c, f, g, d)
  {
    hide Refs;
    assert c.Def(m).role == Member(s);
    forall d, t | d in Refs(c, m) && t in f.check ensures Below(c, g, d, t) { assert Below(c, g, s, t); }
  }

  /** A choice and its members have the same number. */
  lemma GroupNumber(c: Setup, g: Symbol -> nat, s: Symbol)
    requires GroupsLinked(c) && LooselyRanked(c, g) && c.Def(s).role.Choice?
    ensures forall t :: t in SeqSet(c.Def(s).role.members) + {s} ==> g(t) == g(s)
    ensures forall t :: t in SeqSet(c.Def(s).role.members) ==> Below(c, g, s, t)
  {
    hide Refs;
    forall t | t in SeqSet(c.Def(s).role.members) ensures c.Def(t).role == Member(s) {}
  }

  /** What lies strictly below s is safe once s is being checked. */
  lemma LowerSafe(c: Setup, g: Symbol -> nat, s: Symbol, d: Symbol, f: Flags, f1: Flags)
    requires g(d) < g(s) && forall t :: t in f.check ==> Below(c, g, s, t)
    requires forall t :: t in f1.check && t !in f.check ==> g(t) == g(s)
    ensures Safe(c, f1, g, d)
  {
    forall t | t in f1.check ensures Below(c, g, d, t) {
      assert t in f.check ==> Below(c, g, s, t);
    }
  }

  lemma {:induction false} ChoicePasses(c: Setup, g: Symbol -> nat, s: Symbol, f: Flags)
    requires GroupsLinked(c) && Closed(c, f) && LooselyRanked(c, g) && Safe(c, f, g, s)
    requires c.Def(s).role.Choice? && s !in f.checked
    ensures VisitChoice(c, s, f).0
    decreases Left(c, f), 0, 0
  {
    hide Refs, Closed, GroupsLinked, LooselyRanked, Below, SeqSet;
    var members := c.Def(s).role.members;
    var f1 := Enter(f, SeqSet(members) + {s});
    EnterChoice(c, s, f);
    LeftMonotone(c, f, f1);
    GroupNumber(c, g, s);
    RefsSafe(c, g, s, f, f1);
    AllPass(c, g, Refs(c, s), f1);
    AllBalanced(c, Refs(c, s), f1);
    var f2 := VisitAll(c, Refs(c, s), f1).1;
    var f3 := Leave(f2, {s});
    ClosedLeave(c, f2, {s});
    LeftMonotone(c, f1, f3);
    MembersPass(c, g, s, members, f3);
  }

  lemma {:induction false} AllPass(c: Setup, g: Symbol -> nat, refs: seq<Symbol>, f: Flags)
    requires GroupsLinked(c) && Closed(c, f) && LooselyRanked(c, g) && forall d :: d in refs ==> Safe(c, f, g, d)
    ensures VisitAll(c, refs, f).0
    decreases Left(c, f), 3, |refs|
  {
    hide Refs, GroupsLinked, LooselyRanked, Below;
    if refs != [] {
      assert Safe(c, f, g, refs[0]);
      VisitPasses(c, g, refs[0], f);
      VisitBalanced(c, refs[0], f);
      var f1 := Visit(c, refs[0], f).1;
      LeftMonotone(c, f, f1);
      forall d | d in refs[1..] ensures Safe(c, f1, g, d) { assert Safe(c, f, g, d); }
      AllPass(c, g, refs[1..], f1);
    }
  }

  lemma {:induction false} MembersPass(c: Setup, g: Symbol -> nat, s: Symbol, members: seq<Symbol>, f: Flags)
    requires GroupsLinked(c) && Closed(c, f) && LooselyRanked(c, g)
    requires c.Def(s).role.Choice? && forall m :: m in members ==> m in c.Def(s).role.members
    requires forall t :: t in f.check ==> Below(c, g, s, t)
    ensures VisitMembers(c, members, f).0
    decreases Left(c, f), 4, |members|
  {
    hide Refs, Closed, GroupsLinked, LooselyRanked, Below, Safe;
    if members != [] {
      var m := members[0];
      MemberRefsSafe(c, g, s, m, f);
      AllPass(c, g, Refs(c, m), f);
      AllBalanced(c, Refs(c, m), f);
      var f1 := VisitAll(c, Refs(c, m), f).1;
      LeftMonotone(c, f, f1);
      MembersPass(c, g, s, members[1..], f1);
    }
  }

  /** If the dependencies between groups have no cycle but such references, no order of
      checking reports an error. */
  lemma AcyclicPasses(c: Setup, g: Symbol -> nat, order: seq<Symbol>)
    requires GroupsLinked(c) && LooselyRanked(c, g)
    ensures CheckAll(c, order)
  {
    hide GroupsLinked, LooselyRanked, Below;
    var f := Flags({}, {});
    forall d | d in order ensures Safe(c, f, g, d) {}
    AllPass(c, g, order, f);
  }

  // ----- no error, no cycle -----

  /** An order of finishing in which every symbol comes after what it refers to,
      and a member after its choice. */
  ghost predicate Ordered(c: Setup, done: seq<Symbol>) {
    && (forall i, j :: 0 <= i < j < |done| ==> done[i] != done[j])
    && (forall i, d :: 0 <= i < |done| && d in Refs(c, done[i]) ==> d in done[..i])
    && (forall i :: 0 <= i < |done| && c.Def(done[i]).role.Member? ==> c.Def(done[i]).role.choice in done[..i])
  }

  /** Finished are the symbols that are checked and no longer being checked. */
  ghost predicate Finished(f: Flags, done: seq<Symbol>) {
    forall x :: x in done <==> x in f.checked && x !in f.check
  }

  lemma OrderedAppend(c: Setup, done: seq<Symbol>, s: Symbol)
    requires Ordered(c, done) && s !in done && forall d :: d in Refs(c, s) ==> d in done
    requires c.Def(s).role.Member? ==> c.Def(s).role.choice in done
    ensures Ordered(c, done + [s])
  {
    var done' := done + [s];
    forall i, d | 0 <= i < |done'| && d in Refs(c, done'[i])
      ensures d in done'[..i]
    {
      assert done'[..i] == done[..i];
    }
    forall i | 0 <= i < |done'| && c.Def(done'[i]).role.Member?
      ensures c.Def(done'[i]).role.choice in done'[..i]
    {
      assert done'[..i] == done[..i];
    }
  }

  lemma {:induction false} VisitOrders(c: Setup, s: Symbol, f: Flags, done: seq<Symbol>) returns (done': seq<Symbol>)
    requires GroupsLinked(c) && Closed(c, f) && Ordered(c, done) && Finished(f, done) && Visit(c, s, f).0
    ensures Ordered(c, done') && Finished(Visit(c, s, f).1, done') && s in done'
    decreases Left(c, f), if c.Def(s).role.Member? then 2 else 1, 0
  {
    hide Refs, GroupsLinked;
    done' := done;
    if s !in f.checked {
      match c.Def(s).role
      case Member(choice) =>
        MemberOfChoice(c, s);
        done' := VisitOrders(c, choice, f, done);
        VisitBalanced(c, s, f);
      case Choice(members) =>
        done' := ChoiceOrders(c, s, f, done);
      case Plain =>
        done' := PlainOrders(c, s, f, done);
    }
  }

  lemma {:induction false} PlainOrders(c: Setup, s: Symbol, f: Flags, done: seq<Symbol>) returns (done': seq<Symbol>)
    requires GroupsLinked(c) && Closed(c, f) && Ordered(c, done) && Finished(f, done) && Visit(c, s, f).0
    requires c.Def(s).role.Plain? && s !in f.checked
    ensures Ordered(c, done') && Finished(Visit(c, s, f).1, done') && s in done'
    decreases Left(c, f), 0, 0
  {
    hide Refs, GroupsLinked;
    done' := done;
    EnterPlain(c, s, f);
    if s in c.defs {
      var f1 := Enter(f, {s});
      LeftMonotone(c, f, f1);
      assert Finished(f1, done);
      done' := AllOrders(c, Refs(c, s), f1, done);
      AllBalanced(c, Refs(c, s), f1);
      assert s !in done';
    } else {
      NoRefs(c, s);
    }
    OrderedAppend(c, done', s);
    done' := done' + [s];
  }

  lemma {:induction false} AllOrders(c: Setup, refs: seq<Symbol>, f: Flags, done: seq<Symbol>)
    returns (done': seq<Symbol>)
    requires GroupsLinked(c) && Closed(c, f) && Ordered(c, done) && Finished(f, done) && VisitAll(c, refs, f).0
    ensures Ordered(c, done') && Finished(VisitAll(c, refs, f).1, done') && forall d :: d in refs ==> d in done'
    decreases Left(c, f), 3, |refs|
  {
    hide Refs, GroupsLinked;
    done' := done;
    if refs != [] {
      done' := VisitOrders(c, refs[0], f, done);
      VisitBalanced(c, refs[0], f);
      var f1 := Visit(c, refs[0], f).1;
      LeftMonotone(c, f, f1);
      AllBalanced(c, refs[1..], f1);
      done' := AllOrders(c, refs[1..], f1, done');
    }
  }

  lemma {:induction false} MembersOrder(c: Setup, members: seq<Symbol>, f: Flags, done: seq<Symbol>)
    returns (done': seq<Symbol>)
    requires GroupsLinked(c) && Closed(c, f) && Ordered(c, done) && Finished(f, done) && VisitMembers(c, members, f).0
    ensures Ordered(c, done') && Finished(VisitMembers(c, members, f).1, done')
    ensures forall m, d :: m in members && d in Refs(c, m) ==> d in done'
    ensures forall x :: x in done ==> x in done'
    decreases Left(c, f), 4, |members|
  {
    hide Refs, GroupsLinked;
    done' := done;
    if members != [] {
      done' := AllOrders(c, Refs(c, members[0]), f, done);
      AllBalanced(c, Refs(c, members[0]), f);
      var f1 := VisitAll(c, Refs(c, members[0]), f).1;
      LeftMonotone(c, f, f1);
      MembersBalanced(c, members[1..], f1);
      done' := MembersOrder(c, members[1..], f1, done');
    }
  }

  lemma {:induction false} ChoiceOrders(c: Setup, s: Symbol, f: Flags, done: seq<Symbol>) returns (done': seq<Symbol>)
    requires GroupsLinked(c) && Closed(c, f) && Ordered(c, done) && Finished(f, done)
    requires c.Def(s).role.Choice? && s !in f.checked && VisitChoice(c, s, f).0
    ensures Ordered(c, done') && Finished(VisitChoice(c, s, f).1, done') && s in done'
    decreases Left(c, f), 0, 0
  {
    hide Refs, GroupsLinked;
    hide Closed, Ordered, Finished, SeqSet;
    var members := c.Def(s).role.members;
    var group := SeqSet(members);
    var f1 := Enter(f, group + {s});
    EnterChoice(c, s, f);
    ClosedCheck(c, f);
    LeftMonotone(c, f, f1);
    FinishedEnter(f, group + {s}, done);
    done' := AllOrders(c, Refs(c, s), f1, done);
    AllBalanced(c, Refs(c, s), f1);
    var f2 := VisitAll(c, Refs(c, s), f1).1;
    var f3 := Leave(f2, {s});
    ClosedLeave(c, f2, {s});
    LeftMonotone(c, f1, f3);
    FinishedLeave(f2, {s}, done', done' + [s]);
    OrderedAppend(c, done', s);
    done' := done' + [s];
    ghost var before := MembersOrder(c, members, f3, done');
    MembersBalanced(c, members, f3);
    ChoiceMembers(c, s);
    done' := AppendMembers(c, s, members, before);
    FinishedLeave(VisitMembers(c, members, f3).1, group, before, done');
  }

  lemma FinishedEnter(f: Flags, group: set<Symbol>, done: seq<Symbol>)
    requires Finished(f, done) && f.checked !! group
    ensures Finished(Enter(f, group), done)
  {}

  lemma FinishedLeave(f: Flags, group: set<Symbol>, done: seq<Symbol>, done': seq<Symbol>)
    requires Finished(f, done) && group <= f.checked
    requires forall x :: x in done' <==> x in done || x in group
    ensures Finished(Leave(f, group), done')
    ensures forall x :: x in done ==> x !in f.check
  {}

  lemma ChoiceMembers(c: Setup, s: Symbol)
    requires GroupsLinked(c) && c.Def(s).role.Choice?
    ensures forall m :: m in c.Def(s).role.members <==> m in SeqSet(c.Def(s).role.members)
    ensures s !in c.Def(s).role.members && forall m :: m in c.Def(s).role.members ==> c.Def(m).role == Member(s)
  {}

  lemma {:induction false} AppendMembers(c: Setup, s: Symbol, members: seq<Symbol>, done: seq<Symbol>)
    returns (done': seq<Symbol>)
    requires GroupsLinked(c) && Ordered(c, done) && s in done
    requires forall m :: m in members ==> c.Def(m).role == Member(s)
    requires forall m, d :: m in members && d in Refs(c, m) ==> d in done
    ensures Ordered(c, done') && forall x :: x in done' <==> x in done || x in members
    decreases |members|
  {
    done' := done;
    if members != [] {
      if members[0] !in done {
        OrderedAppend(c, done, members[0]);
        done' := done + [members[0]];
      }
      done' := AppendMembers(c, s, members[1..], done');
    }
  }

  // ----- the theorems -----

  ghost predicate OwnRanked(c: Setup, rank: Symbol -> nat) {
    && (forall s, d :: d in Refs(c, s) ==> rank(d) < rank(s))
    && (forall s :: c.Def(s).role.Member? ==> rank(c.Def(s).role.choice) < rank(s))
  }

  function IndexOf(done: seq<Symbol>, s: Symbol): nat {
    if done == [] then 0 else if done[0] == s then 0 else 1 + IndexOf(done[1..], s)
  }

  lemma {:induction false} IndexOfCorrect(done: seq<Symbol>, i: nat)
    requires i < |done| && forall j :: 0 <= j < i ==> done[j] != done[i]
    ensures IndexOf(done, done[i]) == i
  {
    if i > 0 {
      IndexOfCorrect(done[1..], i - 1);
    }
  }

  /** If checking all symbols reports no error, no symbol depends on itself through
      properties, and no choice depends on its members. */
  lemma PassesAcyclic(c: Setup, order: seq<Symbol>) returns (rank: Symbol -> nat)
    requires GroupsLinked(c) && CheckAll(c, order) && forall s :: s in c.defs ==> s in order
    ensures OwnRanked(c, rank)
  {
    var done := AllOrders(c, order, Flags({}, {}), []);
    rank := s => IndexOf(done, s);
    forall s, d | d in Refs(c, s) || (c.Def(s).role.Member? && d == c.Def(s).role.choice)
      ensures rank(d) < rank(s)
    {
      if s !in c.defs {
        NoRefs(c, s);
      }
      assert s in c.defs;
      var i :| 0 <= i < |done| && done[i] == s;
      assert d in done[..i];
      var j :| 0 <= j < i && done[j] == d;
      IndexOfCorrect(done, i);
      IndexOfCorrect(done, j);
    }
  }

  ghost predicate ChoiceFree(c: Setup) { forall s :: c.Def(s).role.Plain? }

  /** Without choices the check is exact: it passes, in whatever order, if and
      only if the dependencies can be numbered without a cycle. */
  lemma CheckExact(c: Setup, order: seq<Symbol>)
    requires ChoiceFree(c) && forall s :: s in c.defs ==> s in order
    ensures CheckAll(c, order) <==> exists rank :: Ranked(c, rank)
  {
    if CheckAll(c, order) {
      var rank := PassesAcyclic(c, order);
      forall s, d | d in Deps(c, s)
        ensures rank(d) < rank(s)
      {
        RefsAreDeps(c, s);
      }
      assert Ranked(c, rank);
    }
    if rank :| Ranked(c, rank) {
      forall s, d | d in Refs(c, s)
        ensures rank(d) < rank(s)
      {
        RefsAreDeps(c, s);
      }
      AcyclicPasses(c, rank, order);
    }
  }

  /** A numbering of groups yields the numbering of symbols under which all values
      are determined. */
  lemma GroupRankedIsRanked(c: Setup, g: Symbol -> nat)
    requires GroupsLinked(c) && GroupRanked(c, g)
    ensures Ranked(c, s => 2 * g(s) + (if c.Def(s).role.Member? then 1 else 0))
    ensures LooselyRanked(c, g)
  {
    var rank: Symbol -> nat := s => 2 * g(s) + (if c.Def(s).role.Member? then 1 else 0);
    hide Refs, OwnDeps;
    forall s, d | d in Deps(c, s)
      ensures rank(d) < rank(s)
    {
      RefsAreDeps(c, s);
      if d !in OwnDeps(c, s) && c.Def(s).role.Choice? {
        var m := PromptOf(c, c.Def(s).role.members, d);
        MemberDepsBelow(c, g, s, m, d);
      }
    }
  }

  lemma MemberDepsBelow(c: Setup, g: Symbol -> nat, s: Symbol, m: Symbol, d: Symbol)
    requires GroupsLinked(c) && GroupRanked(c, g) && c.Def(s).role.Choice? && m in c.Def(s).role.members
    requires d in PromptDeps(c.Def(m).prompts) && d != s
    ensures g(d) < g(s)
  {
    assert c.Def(m).role == Member(s);
    RefsAreDeps(c, m);
    assert d in OwnDeps(c, m);
  }

  lemma {:induction false} PromptOf(c: Setup, members: seq<Symbol>, d: Symbol) returns (m: Symbol)
    requires d in MemberDeps(c, members)
    ensures m in members && d in PromptDeps(c.Def(m).prompts)
  {
    if d in PromptDeps(c.Def(members[0]).prompts) {
      m := members[0];
    } else {
      m := PromptOf(c, members[1..], d);
    }
  }

  lemma {:induction false} ExprRefsSet(e: Expr)
    ensures forall d :: d in ExprRefs(e) <==> d in Symbols(e)
  {
    match e
    case Not(a) => ExprRefsSet(a);
    case Bin(_, l, r) =>
      ExprRefsSet(l);
      ExprRefsSet(r);
    case _ =>
  }

  lemma OptRefsSet(e: Option<Expr>)
    ensures forall d :: d in OptRefs(e) <==> d in OptSymbols(e)
  {
    if e.Some? {
      ExprRefsSet(e.value);
    }
  }

  lemma {:induction false} PromptRefsSet(prompts: seq<Dependency>)
    ensures forall d :: d in PromptRefs(prompts) <==> d in PromptDeps(prompts)
  {
    if prompts != [] {
      PromptRefsSet(prompts[..|prompts| - 1]);
      OptRefsSet(prompts[|prompts| - 1]);
    }
  }

  lemma {:induction false} PromptDepsAppend(a: seq<Dependency>, b: seq<Dependency>)
    ensures PromptDeps(a + b) == PromptDeps(a) + PromptDeps(b)
    decreases |b|
  {
    if b == [] {
      assert a + b == a;
    } else {
      assert (a + b)[..|a + b| - 1] == a + b[..|b| - 1];
      PromptDepsAppend(a, b[..|b| - 1]);
    }
  }

  lemma SingleDeps(d: Dependency)
    ensures PromptDeps([d]) == OptSymbols(d)
  {
    assert [d][..0] == [];
  }

  lemma {:induction false} DefaultPartsSet(defaults: seq<Default>, values: bool)
    ensures PromptDeps(DefaultParts(defaults, values)) == CondDeps(defaults)
              + (if values then ValueDeps(defaults) else {})
  {
    if defaults != [] {
      var d, rest := defaults[0], DefaultParts(defaults[1..], values);
      DefaultPartsSet(defaults[1..], values);
      SingleDeps(d.cond);
      SingleDeps(Some(d.value));
      PromptDepsAppend([d.cond], if values then [Some(d.value)] else []);
      PromptDepsAppend([d.cond] + (if values then [Some(d.value)] else []), rest);
    }
  }

  /** What the check visits is what the values depend on. */
  lemma RefsAreDeps(c: Setup, s: Symbol)
    ensures forall d :: d in Refs(c, s) <==> d in OwnDeps(c, s)
  {
    var def := c.Def(s);
    var a, b := [def.dirDep, def.revDep, def.implied], DefaultParts(def.defaults, !def.role.Choice?);
    assert a == [def.dirDep] + [def.revDep] + [def.implied];
    SingleDeps(def.dirDep);
    SingleDeps(def.revDep);
    SingleDeps(def.implied);
    PromptDepsAppend([def.dirDep], [def.revDep]);
    PromptDepsAppend([def.dirDep] + [def.revDep], [def.implied]);
    PromptDepsAppend(a, def.prompts);
    PromptDepsAppend(a + def.prompts, b);
    DefaultPartsSet(def.defaults, !def.role.Choice?);
    PromptRefsSet(Parts(c, s));
  }

  lemma {:induction false} PromptDepsIn(prompts: seq<Dependency>, t: Symbol)
    ensures t in PromptDeps(prompts) <==> exists p :: p in prompts && t in OptSymbols(p)
    decreases |prompts|
  {
    if prompts != [] {
      var rest, last := prompts[..|prompts| - 1], prompts[|prompts| - 1];
      PromptDepsIn(rest, t);
      assert prompts == rest + [last];
      assert forall p :: p in prompts <==> p in rest || p == last;
    }
  }

  lemma {:induction false} DefaultDepsIn(defaults: seq<Default>, t: Symbol)
    ensures t in CondDeps(defaults) <==> exists d :: d in defaults && t in OptSymbols(d.cond)
    ensures t in ValueDeps(defaults) <==> exists d :: d in defaults && t in Symbols(d.value)
    decreases |defaults|
  {
    if defaults != [] {
      DefaultDepsIn(defaults[1..], t);
      assert forall d :: d in defaults <==> d == defaults[0] || d in defaults[1..];
    }
  }

  /** A symbol is visited from s if and only if a dependency of s, the condition of a prompt or
      default of s, or the value of a default mentions it; the defaults of a choice name
      members and are not followed. */
  lemma RefsExact(c: Setup, s: Symbol, t: Symbol)
    ensures var d := c.Def(s);
            t in Refs(c, s) <==>
              || t in OptSymbols(d.dirDep) || t in OptSymbols(d.revDep) || t in OptSymbols(d.implied)
              || (exists p :: p in d.prompts && t in OptSymbols(p))
              || (exists x :: x in d.defaults && t in OptSymbols(x.cond))
              || (!d.role.Choice? && exists x :: x in d.defaults && t in Symbols(x.value))
  {
    hide Refs, PromptDeps, CondDeps, ValueDeps;
    RefsAreDeps(c, s);
    PromptDepsIn(c.Def(s).prompts, t);
    DefaultDepsIn(c.Def(s).defaults, t);
  }

  // ----- choices: the order of checking can matter -----

  /** X depends on the choice CH, and the prompt of CH's only member depends on X. */
  const CH := Config(0, Boolean)
  const M := Config(1, Boolean)
  const X := Config(2, Boolean)

  function TangledChoice(): Setup {
    Setup(map[CH := SymbolDef([], None, None, None, [], Choice([M])),
              M := SymbolDef([Some(Bin(AND, Sym(CH), Sym(X)))], None, None, None, [], Member(CH)),
              X := SymbolDef([], Some(Sym(CH)), None, None, [], Plain)],
          YES, _ => "")
  }

  lemma {:induction false} PromptRefsAppend(a: seq<Dependency>, b: seq<Dependency>)
    ensures PromptRefs(a + b) == PromptRefs(a) + PromptRefs(b)
    decreases |b|
  {
    if b == [] {
      assert a + b == a;
    } else {
      assert (a + b)[..|a + b| - 1] == a + b[..|b| - 1];
      PromptRefsAppend(a, b[..|b| - 1]);
    }
  }

  lemma TangledRefs()
    ensures var c := TangledChoice(); Refs(c, CH) == [] && Refs(c, M) == [CH, X] && Refs(c, X) == [CH]
  {
    hide PromptRefs, Parts;
    var c := TangledChoice();
    TripleRefs(None, None, None);
    TripleRefs(Some(Sym(CH)), None, None);
    TangledParts();
    PromptRefsAppend([None, None, None], c.Def(M).prompts);
    MemberRefs();
  }

  lemma TangledParts()
    ensures var c := TangledChoice();
            && Parts(c, CH) == [None, None, None] && Parts(c, X) == [Some(Sym(CH)), None, None]
            && Parts(c, M) == [None, None, None] + c.Def(M).prompts
  {}

  lemma MemberRefs()
    ensures PromptRefs([Some(Bin(AND, Sym(CH), Sym(X)))]) == [CH, X]
  {
    var p := [Some(Bin(AND, Sym(CH), Sym(X)))];
    assert p[..0] == [] && PromptRefs(p[..0]) == [];
    assert ExprRefs(Sym(CH)) == [CH] && ExprRefs(Sym(X)) == [X];
  }

  lemma VisitOne(c: Setup, s: Symbol, f: Flags)
    ensures VisitAll(c, [s], f) == Visit(c, s, f)
  {
    assert [s][1..] == [];
  }

  lemma VisitTwo(c: Setup, s: Symbol, t: Symbol, f: Flags)
    ensures var r := Visit(c, s, f);
            VisitAll(c, [s, t], f) == if r.0 then Visit(c, t, r.1) else r
  {
    assert [s, t][1..] == [t];
    VisitOne(c, t, Visit(c, s, f).1);
  }

  lemma TangledFromChoice()
    ensures Visit(TangledChoice(), CH, Flags({}, {})) == (true, Flags({}, {CH, M, X}))
  {
    hide Refs, Left;
    var c, none := TangledChoice(), Flags({}, {});
    TangledRefs();
    assert SeqSet([M]) == {M};
    var f1, f3 := Flags({CH, M}, {CH, M}), Flags({M}, {CH, M});
    var g, g' := Flags({M, X}, {CH, M, X}), Flags({M}, {CH, M, X});
    assert Enter(none, {M} + {CH}) == f1 && Leave(f1, {CH}) == f3;
    VisitOne(c, CH, g);
    assert Enter(f3, {X}) == g && Leave(g, {X}) == g';
    assert Visit(c, X, f3) == (true, g');
    VisitTwo(c, CH, X, f3);
    assert VisitAll(c, [CH, X], f3) == (true, g');
    assert [M][1..] == [] && VisitMembers(c, [M], f3) == (true, g');
    assert Leave(g', {M}) == Flags({}, {CH, M, X});
    assert VisitAll(c, [], f1) == (true, f1);
  }

  lemma TangledFromX()
    ensures !Visit(TangledChoice(), X, Flags({}, {})).0
  {
    hide Refs, Left;
    var c, none := TangledChoice(), Flags({}, {});
    TangledRefs();
    assert SeqSet([M]) == {M};
    var h1, h2, h3 := Flags({X}, {X}), Flags({X, CH, M}, {X, CH, M}), Flags({X, M}, {X, CH, M});
    assert Enter(none, {X}) == h1 && Enter(h1, {M} + {CH}) == h2 && Leave(h2, {CH}) == h3;
    VisitTwo(c, CH, X, h3);
    assert !VisitAll(c, [CH, X], h3).0;
    assert !VisitMembers(c, [M], h3).0;
    assert VisitAll(c, [], h2) == (true, h2);
    assert !VisitChoice(c, CH, h1).0;
    VisitOne(c, CH, h1);
  }

  /** Starting at the choice nothing is reported, starting at X a recursion is. */
  lemma ChoiceOrderMatters()
    ensures CheckAll(TangledChoice(), [CH, M, X])
    ensures !CheckAll(TangledChoice(), [X, CH, M])
  {
    hide Refs, Left;
    var c, all := TangledChoice(), Flags({}, {CH, M, X});
    TangledFromChoice();
    TangledFromX();
    assert [CH, M, X][1..] == [M, X];
    VisitTwo(c, M, X, all);
  }

  // ----- in place -----

  lemma {:induction false} VisitAppend(c: Setup, refs: seq<Symbol>, more: seq<Symbol>, f: Flags)
    ensures var r := VisitAll(c, refs, f);
            VisitAll(c, refs + more, f) == if r.0 then VisitAll(c, more, r.1) else r
    decreases |refs|
  {
    if refs == [] {
      assert refs + more == more;
    } else {
      assert (refs + more)[0] == refs[0] && (refs + more)[1..] == refs[1..] + more;
      VisitAppend(c, refs[1..], more, Visit(c, refs[0], f).1);
    }
  }

  class Checker {
    const c: Setup
    var check: set<Symbol>
    var checked: set<Symbol>

    constructor (c: Setup)
      ensures this.c == c && check == checked == {}
    {
      this.c, check, checked := c, {}, {};
    }

    ghost function Marks(): Flags
      reads this
    {
      Flags(check, checked)
    }

    method CheckExprDeps(e: Expr) returns (ok: bool)
      modifies this
      ensures (ok, Marks()) == VisitAll(c, ExprRefs(e), old(Marks()))
      decreases Left(c, Marks()), 3, e
    {
      ghost var f := Marks();
      match e
      case Sym(s) =>
        VisitOne(c, s, f);
        ok := CheckDeps(s);
      case Not(a) =>
        ok := CheckExprDeps(a);
      case Bin(_, l, r) =>
        VisitAppend(c, ExprRefs(l), ExprRefs(r), f);
        ok := CheckExprDeps(l);
        LeftMonotone(c, f, Marks());
        if ok {
          ok := CheckExprDeps(r);
        }
      case Compare(_, s1, s2) =>
        VisitAppend(c, [s1], [s2], f);
        VisitOne(c, s1, f);
        assert [s1] + [s2] == [s1, s2];
        ok := CheckDeps(s1);
        LeftMonotone(c, f, Marks());
        if ok {
          VisitOne(c, s2, Marks());
          ok := CheckDeps(s2);
        }
    }

    method CheckOptDeps(e: Option<Expr>, ok: bool) returns (ok': bool)
      modifies this
      ensures ok ==> (ok', Marks()) == VisitAll(c, OptRefs(e), old(Marks()))
      ensures !ok ==> !ok' && Marks() == old(Marks())
      decreases Left(c, Marks()), 4
    {
      ok' := ok;
      if ok && e.Some? {
        ok' := CheckExprDeps(e.value);
      }
    }

    /** All properties of a symbol, until a recursion is met. */
    method CheckSymDeps(s: Symbol) returns (ok: bool)
      modifies this
      ensures (ok, Marks()) == VisitAll(c, Refs(c, s), old(Marks()))
      decreases Left(c, Marks()), 5
    {
      hide Parts, OptRefs, Visit;
      ghost var f := Marks();
      var parts := Parts(c, s);
      ok := true;
      for i := 0 to |parts|
        invariant (ok, Marks()) == VisitAll(c, PromptRefs(parts[..i]), f)
      {
        ghost var f1 := Marks();
        LeftMonotone(c, f, f1);
        VisitAppend(c, PromptRefs(parts[..i]), OptRefs(parts[i]), f);
        assert parts[..i + 1][..i] == parts[..i];
        ok := CheckOptDeps(parts[i], ok);
      }
      assert parts[..|parts|] == parts;
    }

    method CheckChoiceDeps(s: Symbol) returns (ok: bool)
      requires c.Def(s).role.Choice? && s !in checked
      modifies this
      ensures (ok, Marks()) == VisitChoice(c, s, old(Marks()))
      decreases Left(c, Marks()), 0
    {
      var members := c.Def(s).role.members;
      var group := SeqSet(members);
      ghost var f := Marks();
      check, checked := check + (group + {s}), checked + (group + {s});
      ghost var f1 := Marks();
      LeftMonotone(c, f, f1);
      ok := CheckSymDeps(s);
      check := check - {s};
      if ok {
        ghost var f3 := Marks();
        LeftMonotone(c, f1, f3);
        var i := 0;
        while i < |members| && ok
          invariant 0 <= i <= |members|
          invariant f3.checked <= checked
          invariant ok ==> VisitMembers(c, members, f3) == VisitMembers(c, members[i..], Marks())
          invariant !ok ==> VisitMembers(c, members, f3) == (false, Marks())
        {
          LeftMonotone(c, f3, Marks());
          ok := CheckSymDeps(members[i]);
          i := i + 1;
        }
      }
      check := check - group;
    }

    method CheckDeps(s: Symbol) returns (ok: bool)
      modifies this
      ensures (ok, Marks()) == Visit(c, s, old(Marks()))
      decreases Left(c, Marks()), if c.Def(s).role.Member? then 2 else 1
    {
      if s in check {
        return false;
      }
      if s in checked {
        return true;
      }
      ghost var f := Marks();
      match c.Def(s).role
      case Member(choice) =>
        if c.Def(choice).role.Member? {
          return true;
        }
        ok := CheckDeps(choice);
      case Choice(_) =>
        ok := CheckChoiceDeps(s);
      case Plain =>
        if s !in c.defs {
          checked := checked + {s};
          return true;
        }
        check, checked := check + {s}, checked + {s};
        LeftMonotone(c, f, Marks());
        ok := CheckSymDeps(s);
        check := check - {s};
    }
  }
}
