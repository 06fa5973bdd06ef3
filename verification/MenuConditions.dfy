/** The conditions attached to menu nodes while the tree is finalised. */
module MenuConditions {
  import opened Tristate
  import opened Expressions
  import opened Joins
  import opened Normalisation
  import opened Submenu
  import opened MenuForest
  import opened MenuLinks

  // ----- dependency of an item on a symbol -----

  predicate Contains(e: Expr, s: Symbol) {
    match e
    case Bin(_, l, r) => Contains(l, s) || Contains(r, s)
    case Sym(a) => a == s
    case Compare(_, a, b) => a == s || b == s
    case Not(a) => Contains(a, s)
  }

  predicate Depends(e: Expr, s: Symbol) {
    match e
    case Bin(op, l, r) => op == AND && (Depends(l, s) || Depends(r, s))
    case Sym(a) => a == s
    case Compare(rel, a, b) => a == s && ((rel == Equal && (b == Yes || b == Mod)) || (rel == Unequal && b == No))
    case Not(_) => false
  }

  lemma {:induction false} DependsContains(e: Expr, s: Symbol)
    requires Depends(e, s)
    ensures Contains(e, s)
  {
    if e.Bin? {
      if Depends(e.left, s) {
        DependsContains(e.left, s);
      } else {
        DependsContains(e.right, s);
      }
    }
  }

  /** An item that depends on a symbol is visible only where the symbol is not n. */
  lemma {:induction false} DependsMeaning(e: Expr, s: Symbol, env: Env)
    requires Depends(e, s) && WellTyped(env) && (s.Type() == Boolean || s.Type() == TristateType)
    ensures Eval(e, env) != NO ==> Value(s, env) != NO
  {
    match e
    case Bin(_, l, r) =>
      if Depends(l, s) {
        DependsMeaning(l, s, env);
      } else {
        DependsMeaning(r, s, env);
      }
    case Sym(_) =>
    case Compare(_, _, b) => EqualsConstant(s, b, env);
    case Not(_) =>
  }

  lemma {:induction false} TransBoolCanonical(e: Expr)
    requires Canonical(e)
    ensures Canonical(TransBool(e))
  {
    match e
    case Bin(_, l, r) =>
      TransBoolCanonical(l);
      TransBoolCanonical(r);
    case Not(a) => TransBoolCanonical(a);
    case _ =>
  }

  function TransBoolDep(d: Dependency): Dependency { if d.None? then None else Some(TransBool(d.value)) }

  // ----- nodes -----

  /** What a node shows: its symbol, whether that is a choice, the position of its prompt
      among its properties, whether the prompt has a text; and the symbol that stands for
      module support. */
  datatype Menus = Menus(sym: map<Node, Symbol>, choices: set<Node>, prompt: map<Node, nat>, texts: set<Node>,
                         modules: Symbol)

  ghost predicate GoodMenus(x: Menus) {
    && WellFormedSymbol(x.modules)
    && forall n :: n in x.sym ==> x.sym[n].Config?
  }

  /** The dependency of each node and the conditions of its properties. */
  datatype Conds = Conds(dep: map<Node, Dependency>, props: map<Node, seq<Dependency>>)
  {
    function Dep(n: Node): Dependency { if n in dep then dep[n] else None }

    function Props(n: Node): seq<Dependency> { if n in props then props[n] else [] }
  }

  ghost predicate SameConds(c1: Conds, c2: Conds, n: Node) { c1.Dep(n) == c2.Dep(n) && c1.Props(n) == c2.Props(n) }

  function ParentDep(x: Menus, c: Conds, p: Node): Dependency {
    if p in x.sym && p in x.choices then Some(Sym(x.sym[p])) else c.Dep(p)
  }

  predicate HasNoM(x: Menus, n: Node) { n in x.sym && x.sym[n].Type() != TristateType }

  /** The condition of a property of a node whose dependency is d; made boolean for symbols
      without an m state. */
  function PropCond(x: Menus, n: Node, d: Dependency, own: Dependency): Dependency {
    var e := Combined(d, own, x.modules);
    if HasNoM(x, n) then TransBoolDep(e) else e
  }

  function PropConds(x: Menus, n: Node, d: Dependency, own: seq<Dependency>): seq<Dependency> {
    seq(|own|, i requires 0 <= i < |own| => PropCond(x, n, d, own[i]))
  }

  /** Node n inherits from p: its dependency is its own combined with p's, and the condition
      of each property is the property's own combined with the node's dependency. */
  ghost predicate Derived(x: Menus, o: Conds, c: Conds, p: Node, n: Node) {
    && c.Dep(n) == Combined(ParentDep(x, c, p), o.Dep(n), x.modules)
    && c.Props(n) == PropConds(x, n, c.Dep(n), o.Props(n))
  }

  lemma DerivedSame(x: Menus, o: Conds, c1: Conds, c2: Conds, p: Node, n: Node)
    requires Derived(x, o, c1, p, n) && SameConds(c1, c2, p)
    ensures SameConds(c1, c2, n) <==> Derived(x, o, c2, p, n)
  {
    hide Combined, PropConds;
    assert ParentDep(x, c1, p) == ParentDep(x, c2, p);
  }

  // ----- what inherited conditions mean -----

  /** The condition of a property is the conjunction, up to m for symbols without an m
      state, and never above it. */
  ghost predicate PropMeans(x: Menus, n: Node, d: Dependency, own: Dependency, result: Dependency) {
    forall env :: WellTyped(env) ==>
                    var v := TriAnd(EvalDep(d, env), EvalDep(RewriteDep(own, x.modules), env));
                    && EvalDep(result, env) <= v
                    && (if HasNoM(x, n) then Promote(EvalDep(result, env)) == Promote(v) else EvalDep(result, env) == v)
  }

  ghost predicate Means(x: Menus, o: Conds, c: Conds, p: Node, n: Node) {
    && Conjunction(c.Dep(n), ParentDep(x, c, p), RewriteDep(o.Dep(n), x.modules))
    && |c.Props(n)| == |o.Props(n)|
    && forall i :: 0 <= i < |o.Props(n)| ==>
                     PropMeans(x, n, c.Dep(n), o.Props(n)[i], c.Props(n)[i]) && CanonicalDep(c.Props(n)[i])
  }

  predicate CanonicalNode(c: Conds, n: Node) {
    CanonicalDep(c.Dep(n)) && forall i :: 0 <= i < |c.Props(n)| ==> CanonicalDep(c.Props(n)[i])
  }

  lemma PropCondMeans(x: Menus, n: Node, d: Dependency, own: Dependency)
    requires GoodMenus(x) && CanonicalDep(d) && NormalDep(d) && CanonicalDep(own)
    ensures PropMeans(x, n, d, own, PropCond(x, n, d, own)) && CanonicalDep(PropCond(x, n, d, own))
  {
    hide Combined, Canonical, Normal, TransBool;
    var e := Combined(d, own, x.modules);
    CombinedMeaning(d, own, x.modules);
    if HasNoM(x, n) && e.Some? {
      TransBoolCanonical(e.value);
      forall env | WellTyped(env)
        ensures Promote(Eval(TransBool(e.value), env)) == Promote(Eval(e.value, env))
        ensures Eval(TransBool(e.value), env) <= Eval(e.value, env)
      {
        TransBoolPromotes(e.value, env);
      }
    }
  }

  lemma DerivedMeans(x: Menus, o: Conds, c: Conds, p: Node, n: Node)
    requires GoodMenus(x) && Derived(x, o, c, p, n) && CanonicalNode(o, n)
    requires CanonicalDep(c.Dep(p)) && NormalDep(c.Dep(p))
    ensures Means(x, o, c, p, n) && CanonicalDep(c.Dep(n)) && NormalDep(c.Dep(n))
  {
    hide Combined, PropCond, PropMeans, RewriteDep;
    CombinedMeaning(ParentDep(x, c, p), o.Dep(n), x.modules);
    forall i | 0 <= i < |o.Props(n)|
      ensures PropMeans(x, n, c.Dep(n), o.Props(n)[i], c.Props(n)[i]) && CanonicalDep(c.Props(n)[i])
    {
      PropCondMeans(x, n, c.Dep(n), o.Props(n)[i]);
    }
  }

  /** A node, and each of its properties, is never visible above its parent: for an item of a
      choice that is the mode of the choice, else the parent's own condition. */
  lemma ParentLimits(x: Menus, o: Conds, c: Conds, p: Node, n: Node, env: Env, i: nat)
    requires Means(x, o, c, p, n) && WellTyped(env) && i < |c.Props(n)|
    ensures var limit := if p in x.sym && p in x.choices then Value(x.sym[p], env) else EvalDep(c.Dep(p), env);
            EvalDep(c.Props(n)[i], env) <= EvalDep(c.Dep(n), env) <= limit
  {
    assert PropMeans(x, n, c.Dep(n), o.Props(n)[i], c.Props(n)[i]);
  }

  /** The conditions of a symbol without an m state no longer tell m from y in tests S != n. */
  lemma TestsRemoved(x: Menus, o: Conds, c: Conds, p: Node, n: Node, i: nat)
    requires Derived(x, o, c, p, n) && n in x.sym && x.sym[n].Type() != TristateType
    requires i < |c.Props(n)| && c.Props(n)[i].Some?
    ensures !TestsNotNo(c.Props(n)[i].value)
  {
    hide Combined, TestsNotNo, TransBool;
    TransBoolRemoves(Combined(c.Dep(n), o.Props(n)[i], x.modules).value);
  }

  // ----- the tree as parsed -----

  /** The parsed parents and conditions, and the conditions to be reached. */
  datatype Origin = Origin(parent: Field, conds: Conds, final: Conds)

  ghost predicate ChildrenAre(o: Origin, node: Node, kids: seq<Node>) {
    forall n :: Get(o.parent, n) == Some(node) <==> n in kids
  }

  ghost predicate Original(o: Origin, f: Forest, u: Option<Node>) {
    f.Cons? ==>
      && Get(o.parent, f.id) == u
      && ChildrenAre(o, f.id, Tops(f.kids))
      && Original(o, f.kids, Some(f.id))
      && Original(o, f.rest, u)
  }

  lemma {:induction false} OriginalTail(o: Origin, f: Forest, g: Forest, u: Option<Node>)
    requires Original(o, g, u) && Tail(f, g)
    ensures Original(o, f, u)
    decreases g
  {
    if f != g {
      OriginalTail(o, f, g.rest, u);
    }
  }

  lemma {:induction false} OriginalInside(o: Origin, f: Forest, u: Option<Node>, n: Node)
    requires Original(o, f, u) && n in Preorder(f)
    ensures Get(o.parent, n) == u || (Get(o.parent, n).Some? && Get(o.parent, n).value in Preorder(f))
    decreases f
  {
    if n != f.id {
      if n in Preorder(f.kids) {
        OriginalInside(o, f.kids, Some(f.id), n);
      } else {
        OriginalInside(o, f.rest, u, n);
      }
    }
  }

  /** All nodes below a parent inherit, from the top. */
  function Spread(x: Menus, o: Conds, f: Forest, up: Dependency, c: Conds): Conds
    decreases f
  {
    match f
    case Nil => c
    case Cons(id, kids, rest) =>
      var c1 := Given(x, o, id, up, c);
      Spread(x, o, rest, up, Spread(x, o, kids, ParentDep(x, c1, id), c1))
  }

  function Given(x: Menus, o: Conds, n: Node, up: Dependency, c: Conds): Conds {
    var d := Combined(up, o.Dep(n), x.modules);
    Conds(c.dep[n := d], c.props[n := PropConds(x, n, d, o.Props(n))])
  }

  /** The conditions of a whole tree. */
  function FinalConds(x: Menus, o: Conds, root: Node, kids: Forest): Conds {
    Spread(x, o, kids, ParentDep(x, o, root), o)
  }

  lemma {:induction false} SpreadDerived(x: Menus, o: Origin, f: Forest, u: Node, c: Conds)
    requires Original(o, f, Some(u)) && Distinct(Preorder(f)) && u !in Preorder(f)
    ensures var r := Spread(x, o.conds, f, ParentDep(x, c, u), c);
            && (forall n :: n !in Preorder(f) ==> SameConds(r, c, n))
            && (forall n :: n in Preorder(f) ==>
                  Get(o.parent, n).Some? && Derived(x, o.conds, r, Get(o.parent, n).value, n))
    decreases f
  {
    hide Combined, PropConds, Distinct, Derived;
    if f.Cons? {
      var up, id, kids, rest := ParentDep(x, c, u), f.id, f.kids, f.rest;
      var c1 := Given(x, o.conds, id, up, c);
      var r1 := Spread(x, o.conds, kids, ParentDep(x, c1, id), c1);
      var r := Spread(x, o.conds, rest, up, r1);
      DistinctParts([id] + Preorder(kids), Preorder(rest));
      DistinctParts([id], Preorder(kids));
      assert id in [id] && id in [id] + Preorder(kids) && id in Preorder(f);
      SpreadDerived(x, o, kids, id, c1);
      assert SameConds(r1, c1, u) && SameConds(c1, c, u) && ParentDep(x, r1, u) == up;
      SpreadDerived(x, o, rest, u, r1);
      GivenDerived(x, o.conds, id, u, c);
      assert SameConds(r, c1, id) by { assert SameConds(r, r1, id) && SameConds(r1, c1, id); }
      assert SameConds(r, c1, u) by { assert SameConds(r, r1, u) && SameConds(r1, c1, u); }
      DerivedSame(x, o.conds, c1, r, u, id);
      forall n | n in Preorder(kids)
        ensures Derived(x, o.conds, r, Get(o.parent, n).value, n)
      {
        OriginalInside(o, kids, Some(id), n);
        var p := Get(o.parent, n).value;
        assert p in [id] + Preorder(kids) && n in [id] + Preorder(kids);
        assert SameConds(r, r1, p) && SameConds(r, r1, n);
        DerivedSame(x, o.conds, r1, r, p, n);
      }
      forall n | n !in Preorder(f)
        ensures SameConds(r, c, n)
      {
        assert SameConds(r, r1, n) && SameConds(r1, c1, n) && SameConds(c1, c, n);
      }
    }
  }

  lemma GivenDerived(x: Menus, o: Conds, n: Node, u: Node, c: Conds)
    requires n != u
    ensures var c1 := Given(x, o, n, ParentDep(x, c, u), c);
            Derived(x, o, c1, u, n) && forall m :: m != n ==> SameConds(c1, c, m)
  {
    hide Combined, PropConds;
  }

  /** The conditions to be reached are those inherited from the parsed parents. */
  ghost predicate FinalRight(x: Menus, o: Origin) {
    && (forall n :: Get(o.parent, n).Some? ==> Derived(x, o.conds, o.final, Get(o.parent, n).value, n))
    && (forall n :: Get(o.parent, n).None? ==> SameConds(o.final, o.conds, n))
  }

  // ----- the submenu test -----

  /** The condition of a node's prompt. */
  function Visible(x: Menus, c: Conds, n: Node): Dependency {
    if n in x.prompt && x.prompt[n] < |c.Props(n)| then c.Props(n)[x.prompt[n]] else None
  }

  /** The condition an item is judged by. */
  function Item(x: Menus, c: Conds, n: Node): Dependency { if n in x.prompt then Visible(x, c, n) else c.Dep(n) }

  /** Item m belongs below symbol p: its condition mentions the symbol, and is a conjunction
      that demands it or a condition that includes all of the symbol's. */
  predicate Accepts(x: Menus, c: Conds, p: Node, m: Node) {
    && p in x.sym
    && Item(x, c, m).Some? && Contains(Item(x, c, m).value, x.sym[p])
    && (Depends(Item(x, c, m).value, x.sym[p]) || Superset(Item(x, c, m), Visible(x, c, p)))
  }

  lemma AcceptsSame(x: Menus, c1: Conds, c2: Conds, p: Node, m: Node)
    requires SameConds(c1, c2, p) && SameConds(c1, c2, m)
    ensures Accepts(x, c1, p, m) == Accepts(x, c2, p, m)
  {
    assert Item(x, c1, m) == Item(x, c2, m) && Visible(x, c1, p) == Visible(x, c2, p);
  }

  /** What finalisation depends on, given the conditions to be reached. */
  function TraitsOf(x: Menus, c: Conds): Traits {
    Traits(x.sym.Keys, x.texts, (p: Node, m: Node) => Accepts(x, c, p, m))
  }

  // ----- progress of a run -----

  /** The parent, in the parsed tree, has been finalised. */
  predicate Settled(o: Origin, log: seq<Node>, n: Node) { Get(o.parent, n).Some? && Get(o.parent, n).value in log }

  /** Children of finalised nodes have inherited; all others are as parsed. */
  ghost predicate Inherited(x: Menus, o: Origin, c: Conds, log: seq<Node>) {
    && FinalRight(x, o)
    && (forall n :: n in log && Get(o.parent, n).Some? ==> Settled(o, log, n))
    && (forall n :: SameConds(c, if Settled(o, log, n) then o.final else o.conds, n))
  }

  lemma Reached(x: Menus, o: Origin, c: Conds, log: seq<Node>, n: Node)
    requires Inherited(x, o, c, log) && (Get(o.parent, n).Some? ==> Settled(o, log, n))
    ensures SameConds(c, o.final, n)
  {
    hide Derived;
    assert SameConds(c, if Settled(o, log, n) then o.final else o.conds, n);
    assert !Settled(o, log, n) ==> SameConds(o.final, o.conds, n);
  }

  /** Once the children of a node have inherited from it, they stay as they are. */
  lemma ChildrenInherit(x: Menus, o: Origin, c1: Conds, c2: Conds, log: seq<Node>, node: Node, kids: seq<Node>)
    requires Inherited(x, o, c1, log) && ChildrenAre(o, node, kids)
    requires node !in kids && node !in log && (Get(o.parent, node).Some? ==> Settled(o, log, node))
    requires forall n :: n in kids ==> Derived(x, o.conds, c2, node, n)
    requires forall n :: n !in kids ==> SameConds(c1, c2, n)
    ensures Inherited(x, o, c2, log + [node])
  {
    hide Derived, SameConds;
    var log' := log + [node];
    Reached(x, o, c1, log, node);
    SameTrans(c1, o.final, c2, node);
    forall n
      ensures SameConds(c2, if Settled(o, log', n) then o.final else o.conds, n)
    {
      if n in kids {
        assert Get(o.parent, n) == Some(node);
        DerivedSame(x, o.conds, c2, o.final, node, n);
      } else {
        assert Settled(o, log', n) == Settled(o, log, n);
        SameTrans(c1, if Settled(o, log, n) then o.final else o.conds, c2, n);
      }
    }
  }

  lemma SameTrans(c1: Conds, c2: Conds, c3: Conds, n: Node)
    requires SameConds(c1, c2, n) && SameConds(c1, c3, n)
    ensures SameConds(c3, c2, n)
  {}

  /** The first node of f, still as parsed, can be finalised next. */
  ghost predicate Ready(x: Menus, o: Origin, c: Conds, log: seq<Node>, f: Forest) {
    && f.Cons?
    && Inherited(x, o, c, log)
    && Original(o, f, Get(o.parent, f.id))
    && Apart(Preorder(f), log)
    && (if Get(o.parent, f.id).Some? then Settled(o, log, f.id) else f.rest == Nil)
  }

  /** The nodes `finalised` have been finalised, in this order. */
  ghost predicate Ran(x: Menus, o: Origin, log1: seq<Node>, c: Conds, log2: seq<Node>, finalised: seq<Node>) {
    log2 == log1 + finalised && Inherited(x, o, c, log2)
  }

  lemma RanTrans(x: Menus, o: Origin, log1: seq<Node>, log2: seq<Node>, c: Conds, log3: seq<Node>, s1: seq<Node>,
                 s2: seq<Node>)
    requires log2 == log1 + s1 && Ran(x, o, log2, c, log3, s2)
    ensures Ran(x, o, log1, c, log3, s1 + s2)
  {
    hide Inherited;
    assert log1 + s1 + s2 == log1 + (s1 + s2);
  }
}
