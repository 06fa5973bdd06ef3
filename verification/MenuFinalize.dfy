/** Finalisation of the menu tree, relinking nodes in place. */
module MenuFinalize {
  import opened Tristate
  import opened Expressions
  import opened MenuForest
  import opened MenuLinks
  import opened Submenu
  import opened MenuConditions
  import opened MenuPlaces
  import opened MenuSiblings

  class MenuTree {
    const x: Menus
    ghost const origin: Origin
    var dep: map<Node, Dependency>
    var props: map<Node, seq<Dependency>>
    var list: Field
    var next: Field
    var parent: Field
    ghost var log: seq<Node>

    /** The tree as the parser has left it, with the conditions it is to reach. */
    constructor (x: Menus, links: Links, conds: Conds, ghost root: Node, ghost kids: Forest)
      ensures this.x == x && Now() == links && Conditions() == conds && log == []
      ensures origin == Origin(links.parent, conds, FinalConds(x, conds, root, kids))
    {
      this.x, list, next, parent := x, links.list, links.next, links.parent;
      dep, props := conds.dep, conds.props;
      origin, log := Origin(links.parent, conds, FinalConds(x, conds, root, kids)), [];
    }

    ghost function Now(): Links
      reads this
    {
      Links(list, next, parent)
    }

    /** Moves the children of a node one level up; returns the last one. */
    method Reparent(menu: Node, up: Node, ghost kids: Forest) returns (last: Node)
      requires Segment(Now(), Get(list, menu), Some(menu), kids, None) && kids.Cons? && Distinct(Preorder(kids))
      modifies this`parent
      ensures Segment(Now(), Get(list, menu), Some(up), kids, None)
      ensures OnlyAt(old(Now()), Now(), Preorder(kids))
      ensures last == LastTop(kids)
    {
      hide Segment, Distinct, Append, Preorder, OnlyAt, LastTop;
      ghost var k0 := Now();
      HeadOf(k0, Get(list, menu), Some(menu), kids, None);
      Start(k0, Get(list, menu), Some(up), kids);
      last := Get(list, menu).value;
      ghost var done, todo := Nil, kids;
      while true
        invariant todo.Cons? && todo.id == last && Append(done, todo) == kids
        invariant Segment(Now(), Get(list, menu), Some(up), done, Some(last))
        invariant Segment(Now(), Some(last), Some(menu), todo, None)
        invariant OnlyAt(k0, Now(), Preorder(kids))
        invariant list == k0.list && next == k0.next
        decreases |Preorder(todo)|
      {
        ghost var k := Now();
        parent := parent[last := Some(up)];
        MoveOne(k0, k, Now(), Get(list, menu), Some(menu), Some(up), kids, done, todo);
        done, todo := Append(done, Cons(last, todo.kids, Nil)), todo.rest;
        HeadOf(Now(), Get(next, last), Some(menu), todo, None);
        if Get(next, last).None? {
          break;
        }
        last := Get(next, last).value;
      }
      AppendNil(done);
    }

    /** Splices the children of a node into the list behind it. */
    method Splice(m: Node, up: Node, ghost f: Forest)
      requires f.Cons? && f.id == m && f.kids.Cons? && Segment(Now(), Some(m), Some(up), f, None)
                 && Distinct(Preorder(f))
      modifies this`list, this`next, this`parent
      ensures Segment(Now(), Some(m), Some(up), Cons(m, Nil, Append(f.kids, f.rest)), None)
      ensures OnlyAt(old(Now()), Now(), Preorder(f))
    {
      hide Segment, Distinct, Append, Preorder, OnlyAt, LastTop;
      ghost var k0 := Now();
      Opened(k0, Some(up), f);
      var last := Reparent(m, up, f.kids);
      ghost var k1 := Now();
      next := next[last := Get(next, m)];
      next := next[m := Get(list, m)];
      list := list[m := None];
      Spliced(k0, k1, Now(), Some(up), f);
    }

    /** Splices the children of promptless nodes into the list of a node's children. */
    method FlattenInPlace(node: Node, ghost kids: Forest)
      requires Segment(Now(), Get(list, node), Some(node), kids, None) && Distinct([node] + Preorder(kids))
      modifies this`list, this`next, this`parent
      ensures Segment(Now(), Get(list, node), Some(node), Flatten(kids, x.texts), None)
      ensures Get(list, node) == old(Get(list, node))
      ensures OnlyAt(old(Now()), Now(), Preorder(kids))
    {
      hide Segment, Distinct, Append, Preorder, OnlyAt, LastTop, Flatten;
      ghost var k0, start := Now(), Get(list, node);
      DistinctParts([node], Preorder(kids));
      Start(k0, start, Some(node), kids);
      AppendNil(Flatten(kids, x.texts));
      var menu := Get(list, node);
      ghost var done, todo := Nil, kids;
      while menu.Some?
        invariant Get(list, node) == start
        invariant Segment(Now(), start, Some(node), done, menu)
        invariant Segment(Now(), menu, Some(node), todo, None)
        invariant Preorder(done) + Preorder(todo) == Preorder(kids)
        invariant Append(done, Flatten(todo, x.texts)) == Flatten(kids, x.texts)
        invariant OnlyAt(k0, Now(), Preorder(kids))
        decreases |Preorder(todo)|
      {
        HeadOf(Now(), menu, Some(node), todo, None);
        var m := menu.value;
        ghost var k, step := Now(), todo;
        Start(k, menu, Some(node), todo);
        FlattenStep(k, Some(node), done, todo, x.texts, Preorder(kids));
        if Get(list, m).Some? && m !in x.texts {
          Splice(m, node, todo);
          step := Cons(m, Nil, Append(todo.kids, todo.rest));
        }
        Advance(k0, k, Now(), node, start, done, todo, step, Preorder(kids));
        menu := Get(next, m);
        AppendAssoc(done, Cons(m, step.kids, Nil), Flatten(step.rest, x.texts));
        AppendOne(m, step.kids, Flatten(step.rest, x.texts));
        done, todo := Append(done, Cons(m, step.kids, Nil)), step.rest;
      }
      HeadOf(Now(), menu, Some(node), todo, None);
      FlattenNil(x.texts);
      AppendNil(done);
    }

    function Conditions(): Conds
      reads this
    {
      Conds(dep, props)
    }

    ghost function Goal(): Traits { TraitsOf(x, origin.final) }

    /** One child inherits the conditions of its parent, and so do all its properties. */
    method Inherit(node: Node, m: Node)
      requires m != node && SameConds(Conditions(), origin.conds, m)
      modifies this`dep, this`props
      ensures Derived(x, origin.conds, Conditions(), node, m)
      ensures forall n :: n != m ==> SameConds(old(Conditions()), Conditions(), n)
    {
      hide Combined, PropCond;
      ghost var c := Conditions();
      var base := Propagate(ParentDep(x, Conditions(), node), Conditions().Dep(m), x.modules);
      var own := Conditions().Props(m);
      dep := dep[m := base];
      var result := own;
      for i := 0 to |own|
        invariant dep == c.dep[m := base] && props == c.props
        invariant |result| == |own| && result[i..] == own[i..]
        invariant forall j :: 0 <= j < i ==> result[j] == PropCond(x, m, base, own[j])
      {
        var visible := Propagate(base, result[i], x.modules);
        if HasNoM(x, m) {
          visible := TransBoolDep(visible);
        }
        PropCondIs(x, m, base, own[i]);
        result := result[i := visible];
      }
      props := props[m := result];
      assert result == PropConds(x, m, base, own);
      InheritedBy(x, origin.conds, c, Conditions(), node, m, base, result);
    }

    /** All children of a node inherit its conditions. */
    method PropagateChildren(node: Node, ghost kids: Forest)
      requires Segment(Now(), Get(list, node), Some(node), kids, None) && Distinct([node] + Preorder(kids))
      requires forall n :: n in Tops(kids) ==> SameConds(Conditions(), origin.conds, n)
      modifies this`dep, this`props
      ensures forall n :: n in Tops(kids) ==> Derived(x, origin.conds, Conditions(), node, n)
      ensures forall n :: n !in Tops(kids) ==> SameConds(old(Conditions()), Conditions(), n)
    {
      hide Segment, Distinct, Append, Preorder, OnlyAt, Derived, Tops, SameConds, Propagated;
      ghost var k, c0, start := Now(), Conditions(), Get(list, node);
      DistinctParts([node], Preorder(kids));
      Start(k, start, Some(node), kids);
      StartPropagated(x, origin.conds, c0, node, kids);
      var menu := Get(list, node);
      ghost var done, todo := Nil, kids;
      while menu.Some?
        invariant Segment(k, start, Some(node), done, menu) && Segment(k, menu, Some(node), todo, None)
        invariant Preorder(done) + Preorder(todo) == Preorder(kids) && Tops(done) + Tops(todo) == Tops(kids)
        invariant Propagated(x, origin.conds, c0, Conditions(), node, Tops(done))
        decreases |Preorder(todo)|
      {
        HeadOf(k, menu, Some(node), todo, None);
        var m := menu.value;
        ghost var c := Conditions();
        ThisChild(x, origin.conds, c0, c, node, kids, done, todo);
        Inherit(node, m);
        MorePropagated(x, origin.conds, c0, c, Conditions(), node, done, todo);
        Start(k, menu, Some(node), todo);
        Start(k, menu, Some(node), kids);
        Advance(k, k, k, node, start, done, todo, todo, Preorder(kids));
        menu := Get(next, m);
        done, todo := Append(done, Cons(m, todo.kids, Nil)), todo.rest;
      }
      HeadOf(k, menu, Some(node), todo, None);
      AllTops(done, todo);
      AllPropagated(x, origin.conds, c0, Conditions(), node, Tops(kids));
    }

    /** Whether an item belongs below a symbol. */
    method Test(node: Node, m: Node) returns (belongs: bool)
      requires node in x.sym
      ensures belongs == Accepts(x, Conditions(), node, m)
    {
      hide Superset;
      var item := Item(x, Conditions(), m);
      if item.None? || !Contains(item.value, x.sym[node]) {
        return false;
      }
      if Depends(item.value, x.sym[node]) {
        return true;
      }
      belongs := IsSuperset(item, Visible(x, Conditions(), node));
    }

    /** Finalises the children of a node, one after the other. */
    method FinalizeChildren(node: Node, ghost kids: Forest)
      requires Segment(Now(), Get(list, node), Some(node), kids, None) && Distinct([node] + Preorder(kids))
      requires Inherited(x, origin, Conditions(), log) && Original(origin, kids, Some(node))
      requires node in log && Apart(Preorder(kids), log)
      modifies this
      ensures Segment(Now(), Get(list, node), Some(node), FinalizeAll(kids, Goal()), None)
      ensures OnlyAt(old(Now()), Now(), Preorder(kids))
      ensures Ran(x, origin, old(log), Conditions(), log, Preorder(kids))
      decreases |Preorder(kids)|, 3
    {
      hide Segment, Distinct, Append, Preorder, OnlyAt, Inherited, Original, Done, Ran, Finalize, FinalizeAll, Ready,
           Apart;
      ghost var k0, start, log0, all, t := Now(), Get(list, node), log, Preorder(kids), Goal();
      DistinctParts([node], all);
      Start(k0, start, Some(node), kids);
      StartRun(x, origin, Conditions(), log0, kids, t);
      var menu := Get(list, node);
      ghost var done, todo := Nil, kids;
      while menu.Some?
        invariant Get(list, node) == start && OnlyAt(k0, Now(), all)
        invariant Segment(Now(), start, Some(node), done, menu) && Segment(Now(), menu, Some(node), todo, None)
        invariant Done(kids, done, todo, t) && Ran(x, origin, log0, Conditions(), log, Preorder(done))
        decreases |Preorder(todo)|
      {
        HeadOf(Now(), menu, Some(node), todo, None);
        DonePreorder(kids, done, todo, t);
        NextReady(x, origin, log0, Conditions(), log, t, kids, done, todo, Some(node));
        var m := menu.value;
        ghost var k, log1 := Now(), log;
        FinalizeNode(m, todo, Some(node));
        ghost var g := Finalize(todo, t);
        Advance(k0, k, Now(), node, start, done, todo, g, all);
        DoneStep(kids, done, todo, t);
        MoreRan(x, origin, log0, log1, Conditions(), log, done, g);
        menu := Get(next, m);
        done, todo := Append(done, Cons(m, g.kids, Nil)), g.rest;
      }
      HeadOf(Now(), menu, Some(node), todo, None);
      DonePreorder(kids, done, todo, t);
      DoneAll(kids, done, t);
      NoMore(done, todo);
    }

    /** Finalises the items behind a symbol that belong to it and makes it their parent. */
    method AbsorbItems(node: Node, ghost f: Forest, ghost up: Option<Node>)
      returns (last: Option<Node>, ghost done: Forest, ghost todo: Forest)
      requires f.Cons? && f.id == node && f.kids == Nil && node in x.sym
      requires Segment(Now(), Some(node), up, f, None) && Distinct(Preorder(f))
      requires Inherited(x, origin, Conditions(), log) && Original(origin, f.rest, Get(origin.parent, node))
      requires Apart(Preorder(f.rest), log)
      requires if Get(origin.parent, node).Some? then Settled(origin, log, node) else f.rest == Nil
      modifies this
      ensures Absorb(node, f.rest, Goal()) == (done, todo)
      ensures SameAt(old(Now()), Now(), node) && OnlyAt(old(Now()), Now(), Preorder(f.rest))
      ensures Segment(Now(), Get(next, node), Some(node), done, if todo.Cons? then Some(todo.id) else None)
      ensures Segment(Now(), if todo.Cons? then Some(todo.id) else None, up, todo, None)
      ensures last == if done.Cons? then Some(LastTop(done)) else None
      ensures Ran(x, origin, old(log), Conditions(), log, Preorder(done))
      ensures todo.Cons? ==> !Accepts(x, Conditions(), node, todo.id)
      decreases |Preorder(f)|, 0, 0
    {
      hide Segment, Distinct, Append, Preorder, OnlyAt, Inherited, Original, Done, Ran, Finalize, Absorb, Ready, Apart;
      hide LastTop, Tops, Accepts, Taken;
      ghost var k0, log0, all, t := Now(), log, Preorder(f.rest), Goal();
      ghost var u, start := Get(origin.parent, node), Get(next, node);
      Leaf(k0, up, f);
      Start(k0, start, Some(node), f.rest);
      StartRun(x, origin, Conditions(), log0, f.rest, t);
      StartTaken(node, t);
      last := None;
      var menu := Get(next, node);
      done, todo := Nil, f.rest;
      while menu.Some?
        invariant SameAt(k0, Now(), node) && OnlyAt(k0, Now(), all)
        invariant Segment(Now(), start, Some(node), done, menu) && Segment(Now(), menu, up, todo, None)
        invariant Done(f.rest, done, todo, t) && Ran(x, origin, log0, Conditions(), log, Preorder(done))
        invariant Taken(node, t, done)
        invariant last == if done.Cons? then Some(LastTop(done)) else None
        decreases |Preorder(todo)|
      {
        HeadOf(Now(), menu, up, todo, None);
        DonePreorder(f.rest, done, todo, t);
        NextReady(x, origin, log0, Conditions(), log, t, f.rest, done, todo, u);
        var m := menu.value;
        ghost var k, log1 := Now(), log;
        ReadyForTest(x, origin, log0, Conditions(), log, todo, node);
        var belongs := Test(node, m);
        if !belongs {
          break;
        }
        FinalizeNode(m, todo, up);
        ghost var g := Finalize(todo, t);
        ghost var k2 := Now();
        parent := parent[m := Some(node)];
        last := Some(m);
        AbsorbAdvance(k0, k, k2, Now(), node, up, done, todo, g, all);
        DoneStep(f.rest, done, todo, t);
        MoreRan(x, origin, log0, log1, Conditions(), log, done, g);
        TakenMore(node, t, done, g);
        menu := Get(next, m);
        done, todo := Append(done, Cons(m, g.kids, Nil)), g.rest;
      }
      HeadOf(Now(), menu, up, todo, None);
      DonePreorder(f.rest, done, todo, t);
      TakenAll(node, f.rest, done, todo, t);
    }

    /** Puts the items behind a symbol that belong to it into its menu. */
    method AbsorbInPlace(node: Node, ghost f: Forest, ghost up: Option<Node>)
      requires f.Cons? && f.id == node && f.kids == Nil && node in x.sym
      requires Segment(Now(), Some(node), up, f, None) && Distinct(Preorder(f))
      requires Inherited(x, origin, Conditions(), log) && Original(origin, f.rest, Get(origin.parent, node))
      requires Apart(Preorder(f.rest), log)
      requires if Get(origin.parent, node).Some? then Settled(origin, log, node) else f.rest == Nil
      modifies this
      ensures var a := Absorb(node, f.rest, Goal());
              && Segment(Now(), Some(node), up, Cons(node, a.0, a.1), None)
              && Ran(x, origin, old(log), Conditions(), log, Preorder(a.0))
              && (a.1.Cons? ==> !Accepts(x, Conditions(), node, a.1.id))
      ensures OnlyAt(old(Now()), Now(), Preorder(f))
      decreases |Preorder(f)|, 0, 1
    {
      hide Segment, Distinct, Preorder, OnlyAt, Inherited, Original, Ran, Absorb, Apart, LastTop, Accepts;
      ghost var k0, done, todo := Now(), Nil, Nil;
      var last;
      last, done, todo := AbsorbItems(node, f, up);
      ghost var k1 := Now();
      if last.Some? {
        list := list[node := Get(next, node)];
        next := next[node := Get(next, last.value)];
        next := next[last.value := None];
      }
      AbsorbEnd(k0, k1, Now(), up, f, done, todo, if todo.Cons? then Some(todo.id) else None);
    }

    /** Finalises what is or becomes part of a node's menu. */
    method FillMenu(node: Node, ghost f: Forest, ghost up: Option<Node>) returns (ghost kids: Forest)
      requires f.Cons? && f.id == node
      requires Segment(Now(), Some(node), up, f, None) && Distinct(Preorder(f))
      requires Ready(x, origin, Conditions(), log, f)
      modifies this
      ensures Finalize(f, Goal()).kids == Flatten(kids, x.texts)
      ensures Segment(Now(), Some(node), up, Cons(node, kids, Finalize(f, Goal()).rest), None)
      ensures OnlyAt(old(Now()), Now(), Preorder(f))
      ensures Ran(x, origin, old(log), Conditions(), log, [node] + Preorder(kids))
      decreases |Preorder(f)|, 1
    {
      hide Segment, Distinct, Append, Preorder, OnlyAt, Inherited, Original, Ran, FinalizeAll, Absorb, Flatten;
      hide Ready, Apart, Tops, SameConds, ChildrenAre, Derived, Accepts;
      ghost var k0, c0, log0 := Now(), Conditions(), log;
      Entered(k0, x, origin, c0, log0, f, up);
      log := log + [node];
      if Get(list, node).Some? {
        PropagateChildren(node, f.kids);
        ChildrenInherit(x, origin, c0, Conditions(), log0, node, Tops(f.kids));
        FinalizeChildren(node, f.kids);
        kids := FinalizeAll(f.kids, Goal());
        WithKids(k0, Now(), up, f, kids);
      } else if node in x.sym {
        NoChildren(x, origin, c0, log0, f);
        AbsorbInPlace(node, f, up);
        kids := Absorb(node, f.rest, Goal()).0;
      } else {
        NoChildren(x, origin, c0, log0, f);
        kids := Nil;
        LeafRun(x, origin, c0, log0, node);
        Start(k0, Some(node), up, f);
        FlattenNil(x.texts);
      }
      RanNode(x, origin, log0, Conditions(), log, node, Preorder(kids));
    }

    /** Finalises a node, with all that becomes part of its menu. */
    method FinalizeNode(node: Node, ghost f: Forest, ghost up: Option<Node>)
      requires f.Cons? && f.id == node
      requires Segment(Now(), Some(node), up, f, None) && Distinct(Preorder(f))
      requires Ready(x, origin, Conditions(), log, f)
      modifies this
      ensures Segment(Now(), Some(node), up, Finalize(f, Goal()), None)
      ensures OnlyAt(old(Now()), Now(), Preorder(f))
      ensures Ran(x, origin, old(log), Conditions(), log, [node] + Preorder(Finalize(f, Goal()).kids))
      decreases |Preorder(f)|, 2
    {
      hide Segment, Distinct, Append, Preorder, OnlyAt, Ran, Finalize, Flatten, Ready;
      ghost var k0 := Now();
      ghost var kids := FillMenu(node, f, up);
      ghost var k1, r := Now(), Finalize(f, Goal());
      SameNodes(f, r, kids);
      BeforeFlatten(k1, up, f, kids, r.rest);
      FlattenInPlace(node, kids);
      AfterFlatten(k0, k1, Now(), up, f, kids, r.kids, r.rest);
    }
  }

  /** Finalises a whole tree. Every node's conditions are those inherited from its parsed
      parent; the tree is the one these conditions determine: the parent of each node is that
      told by the symbols still open where it stands, and a prompted symbol without children
      refuses the node right behind it. No node is lost, duplicated or moved in source order,
      each is finalised once, and only prompted nodes below the root keep children. */
  method FinalizeTree(tree: MenuTree, root: Node, ghost kids: Forest) returns (ghost done: Forest)
    requires tree.log == [] && Whole(tree.Now(), root, kids)
    requires tree.origin == Origin(tree.parent, tree.Conditions(), FinalConds(tree.x, tree.Conditions(), root, kids))
    modifies tree
    ensures forall n :: SameConds(tree.Conditions(), FinalConds(tree.x, old(tree.Conditions()), root, kids), n)
    ensures Segment(tree.Now(), Some(root), None, Cons(root, done, Nil), None)
    ensures Cons(root, done, Nil) == Finalize(Cons(root, kids, Nil), TraitsOf(tree.x, tree.Conditions()))
    ensures Preorder(Cons(root, done, Nil)) == Preorder(Cons(root, kids, Nil)) == tree.log && Distinct(tree.log)
    ensures Clean(done, tree.x.texts)
    ensures Follows(kids, [], root, TraitsOf(tree.x, tree.Conditions()), tree.parent)
    ensures forall n :: n in Preorder(kids) && Get(tree.next, n).Some? ==>
              Refuses(n, Get(tree.next, n).value, TraitsOf(tree.x, tree.Conditions()), old(tree.parent))
    ensures forall n, p :: n in tree.log && Get(old(tree.parent), n) == Some(p) ==>
              Derived(tree.x, old(tree.Conditions()), tree.Conditions(), p, n)
    ensures GoodMenus(tree.x) && SoundConds(old(tree.Conditions()), root) ==>
              forall n, p :: n in tree.log && Get(old(tree.parent), n) == Some(p) ==>
                Means(tree.x, old(tree.Conditions()), tree.Conditions(), p, n)
  {
    hide Segment, Distinct, Preorder, Derived, Finalize, Clean, GoodMenus, FinalConds, Ready, SoundConds, Means, Whole;
    ghost var f, o, k0 := Cons(root, kids, Nil), tree.origin, tree.Now();
    RootReady(tree.x, o, k0, root, kids);
    tree.FinalizeNode(root, f, None);
    ghost var c, t := tree.Conditions(), tree.Goal();
    done := Finalize(f, t).kids;
    FinalizeTail(f, t);
    FinalizeClean(f, t);
    assert Finalize(f, t) == Cons(root, done, Nil);
    OneNode(root, done);
    assert tree.log == Preorder(f);
    AllReached(tree.x, o, k0, c, tree.log, root, kids);
    SameTraits(tree.x, o.final, c, f);
    TreePlaces(k0, tree.Now(), root, kids, TraitsOf(tree.x, c));
    if GoodMenus(tree.x) && SoundConds(o.conds, root) {
      TreeMeans(tree.x, o, k0, c, root, kids);
    }
  }

  /** A tree whose links are coherent and which holds every node that has a parent. */
  ghost predicate Whole(k: Links, root: Node, kids: Forest) {
    && Segment(k, Some(root), None, Cons(root, kids, Nil), None)
    && Distinct(Preorder(Cons(root, kids, Nil)))
    && forall n :: Get(k.parent, n).Some? ==> n in Preorder(kids)
  }

  lemma TreePlaces(k0: Links, k: Links, root: Node, kids: Forest, t: Traits)
    requires Whole(k0, root, kids) && Segment(k, Some(root), None, Finalize(Cons(root, kids, Nil), t), None)
    ensures Follows(kids, [], root, t, k.parent)
    ensures forall n :: n in Preorder(kids) && Get(k.next, n).Some? ==>
              Refuses(n, Get(k.next, n).value, t, k0.parent)
  {
    hide Distinct, Refuses, Follows, Finalize, Placed;
    SegmentPlaced(k0, Get(k0.list, root), root, kids, None);
    SegmentPlaced(k, Get(k.list, root), root, Finalize(Cons(root, kids, Nil), t).kids, None);
    TreeFollows(root, kids, t, k.parent);
    assert [root] + Preorder(kids) == Preorder(Cons(root, kids, Nil)) && root in [root];
    DistinctParts([root], Preorder(kids));
    forall n | n in Preorder(kids) && Get(k.next, n).Some?
      ensures Refuses(n, Get(k.next, n).value, t, k0.parent)
    {
      TreeNeighbours(root, kids, t, k0.parent, k, n);
    }
  }

  /** Every node of a list has the list's parent, or one inside the list. */
  lemma {:induction false} ParentInside(k: Links, start: Option<Node>, up: Option<Node>, f: Forest,
                                        end: Option<Node>, n: Node)
    requires Segment(k, start, up, f, end) && n in Preorder(f)
    ensures (n in Tops(f) && Get(k.parent, n) == up)
              || (Get(k.parent, n).Some? && Get(k.parent, n).value in Preorder(f))
    decreases f
  {
    if n != f.id {
      if n in Preorder(f.kids) {
        ParentInside(k, Get(k.list, f.id), Some(f.id), f.kids, None, n);
      } else {
        ParentInside(k, Get(k.next, f.id), up, f.rest, end, n);
      }
    }
  }

  ghost predicate ParentsKnown(k: Links, f: Forest) {
    forall n :: Get(k.parent, n).Some? && Get(k.parent, n).value in Preorder(f) ==> n in Preorder(f)
  }

  /** Coherent links determine which nodes are whose children. */
  lemma {:induction false} SegmentOriginal(o: Origin, k: Links, start: Option<Node>, up: Option<Node>, f: Forest,
                                           end: Option<Node>)
    requires Segment(k, start, up, f, end) && Distinct(Preorder(f)) && o.parent == k.parent
    requires up.Some? ==> up.value !in Preorder(f)
    requires ParentsKnown(k, f)
    ensures Original(o, f, up)
    decreases f
  {
    if f.Cons? {
      var s1, s2 := Get(k.list, f.id), Get(k.next, f.id);
      DistinctParts([f.id] + Preorder(f.kids), Preorder(f.rest));
      DistinctParts([f.id], Preorder(f.kids));
      assert f.id in [f.id] && f.id in [f.id] + Preorder(f.kids) && f.id in Preorder(f);
      forall n | n in Preorder(f.kids)
        ensures (n in Tops(f.kids) && Get(k.parent, n) == Some(f.id))
                  || (Get(k.parent, n).Some? && Get(k.parent, n).value in Preorder(f.kids))
      {
        ParentInside(k, s1, Some(f.id), f.kids, None, n);
      }
      forall n | n in Preorder(f.rest)
        ensures Get(k.parent, n) == up || (Get(k.parent, n).Some? && Get(k.parent, n).value in Preorder(f.rest))
      {
        ParentInside(k, s2, up, f.rest, end, n);
      }
      TopsInPreorder(f.kids);
      KidsParents(k, s1, f.id, f.kids);
      SegmentOriginal(o, k, s1, Some(f.id), f.kids, None);
      SegmentOriginal(o, k, s2, up, f.rest, end);
    }
  }

  lemma {:induction false} KidsParents(k: Links, start: Option<Node>, up: Node, f: Forest)
    requires Segment(k, start, Some(up), f, None)
    ensures forall n :: n in Tops(f) ==> Get(k.parent, n) == Some(up)
    decreases f
  {
    if f.Cons? {
      KidsParents(k, Get(k.next, f.id), up, f.rest);
    }
  }

  lemma RootReady(x: Menus, o: Origin, k: Links, root: Node, kids: Forest)
    requires Whole(k, root, kids) && o == Origin(k.parent, o.conds, FinalConds(x, o.conds, root, kids))
    ensures Ready(x, o, o.conds, [], Cons(root, kids, Nil)) && Segment(k, Some(root), None, Cons(root, kids, Nil), None)
    ensures Distinct(Preorder(Cons(root, kids, Nil))) && Original(o, kids, Some(root))
  {
    hide Derived, Distinct, Spread;
    var f := Cons(root, kids, Nil);
    assert forall n :: n in Preorder(kids) ==> n in Preorder(f);
    SegmentOriginal(o, k, Some(root), None, f, None);
    DistinctParts([root], Preorder(kids)) by {
      assert Preorder(f) == [root] + Preorder(kids);
    }
    assert root in [root];
    assert Get(o.parent, root) == None;
    SpreadDerived(x, o, kids, root, o.conds);
    FinalIsRight(x, o, root, kids);
    assert Inherited(x, o, o.conds, []);
  }

  lemma FinalIsRight(x: Menus, o: Origin, root: Node, kids: Forest)
    requires forall n :: n !in Preorder(kids) ==> SameConds(o.final, o.conds, n)
    requires forall n :: n in Preorder(kids) ==>
               Get(o.parent, n).Some? && Derived(x, o.conds, o.final, Get(o.parent, n).value, n)
    requires forall n :: Get(o.parent, n).Some? ==> n in Preorder(kids)
    ensures FinalRight(x, o)
  {}

  /** In the end every node has the conditions it was to reach. */
  lemma AllReached(x: Menus, o: Origin, k: Links, c: Conds, log: seq<Node>, root: Node, kids: Forest)
    requires Ran(x, o, [], c, log, log) && o.parent == k.parent && Whole(k, root, kids)
    requires log == Preorder(Cons(root, kids, Nil))
    ensures (forall n :: SameConds(c, o.final, n)) && SameConds(c, o.conds, root)
    ensures forall n, p :: n in log && Get(o.parent, n) == Some(p) ==> Derived(x, o.conds, c, p, n)
  {
    hide Derived, Distinct, SameConds;
    forall n
      ensures SameConds(c, o.final, n)
    {
      assert Get(o.parent, n).Some? ==> n in log;
      Reached(x, o, c, log, n);
    }
    assert SameConds(c, if Settled(o, log, root) then o.final else o.conds, root);
    forall n, p | n in log && Get(o.parent, n) == Some(p)
      ensures Derived(x, o.conds, c, p, n)
    {
      assert Derived(x, o.conds, o.final, p, n);
      SameBack(c, o.final, p);
      SameBack(c, o.final, n);
      DerivedSame(x, o.conds, o.final, c, p, n);
    }
  }

  lemma SameBack(c1: Conds, c2: Conds, n: Node)
    ensures SameConds(c1, c2, n) ==> SameConds(c2, c1, n)
  {}

  lemma SameTraits(x: Menus, c1: Conds, c2: Conds, f: Forest)
    requires f.Cons? && forall n :: SameConds(c2, c1, n)
    ensures Finalize(f, TraitsOf(x, c1)) == Finalize(f, TraitsOf(x, c2))
  {
    hide Finalize, Accepts, SameConds;
    var t1, t2 := TraitsOf(x, c1), TraitsOf(x, c2);
    forall p, m
      ensures t1.accepts(p, m) == t2.accepts(p, m)
    {
      AcceptsSame(x, c2, c1, p, m);
    }
    FinalizeFrame(f, t1, t2);
  }

  /** Every condition is canonical, and the root's dependency is normalised. */
  ghost predicate SoundConds(c: Conds, root: Node) {
    NormalDep(c.Dep(root)) && forall n :: CanonicalNode(c, n)
  }

  lemma TreeMeans(x: Menus, o: Origin, k: Links, c: Conds, root: Node, kids: Forest)
    requires GoodMenus(x) && SoundConds(o.conds, root) && Whole(k, root, kids) && o.parent == k.parent
    requires Original(o, kids, Some(root)) && SameConds(c, o.conds, root)
    requires forall n, p :: n in Preorder(Cons(root, kids, Nil)) && Get(o.parent, n) == Some(p) ==>
               Derived(x, o.conds, c, p, n)
    ensures forall n, p :: n in Preorder(Cons(root, kids, Nil)) && Get(o.parent, n) == Some(p) ==>
              Means(x, o.conds, c, p, n)
  {
    hide Derived, Means, Distinct, Original;
    assert CanonicalNode(o.conds, root);
    assert forall n :: n in Preorder(kids) ==> n in Preorder(Cons(root, kids, Nil));
    assert Get(o.parent, root) == None;
    ForestMeans(x, o, c, kids, root);
  }

  lemma {:induction false} ForestMeans(x: Menus, o: Origin, c: Conds, f: Forest, u: Node)
    requires GoodMenus(x) && Original(o, f, Some(u)) && CanonicalDep(c.Dep(u)) && NormalDep(c.Dep(u))
    requires forall n :: CanonicalNode(o.conds, n)
    requires forall n, p :: n in Preorder(f) && Get(o.parent, n) == Some(p) ==> Derived(x, o.conds, c, p, n)
    ensures forall n, p :: n in Preorder(f) && Get(o.parent, n) == Some(p) ==> Means(x, o.conds, c, p, n)
    decreases f
  {
    hide Derived, Means, CanonicalNode;
    if f.Cons? {
      assert f.id in Preorder(f);
      DerivedMeans(x, o.conds, c, u, f.id);
      ForestMeans(x, o, c, f.kids, f.id);
      ForestMeans(x, o, c, f.rest, u);
    }
  }

  function LastTop(f: Forest): Node
    requires f.Cons?
  {
    if f.rest.Cons? then LastTop(f.rest) else f.id
  }

  /** The nodes in the list have inherited from `node`, nothing else has changed. */
  ghost predicate Propagated(x: Menus, o: Conds, c1: Conds, c2: Conds, node: Node, kids: seq<Node>) {
    && (forall n :: n in kids ==> Derived(x, o, c2, node, n))
    && (forall n :: n !in kids ==> SameConds(c1, c2, n))
  }

  lemma PropCondIs(x: Menus, n: Node, d: Dependency, own: Dependency)
    ensures PropCond(x, n, d, own) ==
            var e := Combined(d, own, x.modules); if HasNoM(x, n) then TransBoolDep(e) else e
  {}

  lemma InheritedBy(x: Menus, o: Conds, c1: Conds, c2: Conds, node: Node, m: Node, d: Dependency,
                    result: seq<Dependency>)
    requires m != node && SameConds(c1, o, m)
    requires c2 == Conds(c1.dep[m := d], c1.props[m := result])
    requires d == Combined(ParentDep(x, c1, node), c1.Dep(m), x.modules) && result == PropConds(x, m, d, c1.Props(m))
    ensures Derived(x, o, c2, node, m) && forall n :: n != m ==> SameConds(c1, c2, n)
  {
    hide Combined, PropConds;
  }

  lemma StartPropagated(x: Menus, o: Conds, c: Conds, node: Node, kids: Forest)
    ensures Propagated(x, o, c, c, node, Tops(Nil)) && Tops(Nil) + Tops(kids) == Tops(kids)
  {}

  lemma AllPropagated(x: Menus, o: Conds, c1: Conds, c2: Conds, node: Node, kids: seq<Node>)
    requires Propagated(x, o, c1, c2, node, kids)
    ensures forall n :: n in kids ==> Derived(x, o, c2, node, n)
    ensures forall n :: n !in kids ==> SameConds(c1, c2, n)
  {
    hide Derived, SameConds;
  }

  lemma ThisChild(x: Menus, o: Conds, c0: Conds, c: Conds, node: Node, kids: Forest, done: Forest, todo: Forest)
    requires todo.Cons? && Tops(done) + Tops(todo) == Tops(kids)
    requires Preorder(done) + Preorder(todo) == Preorder(kids) && Distinct(Preorder(kids)) && node !in Preorder(kids)
    requires Propagated(x, o, c0, c, node, Tops(done)) && forall n :: n in Tops(kids) ==> SameConds(c0, o, n)
    ensures todo.id != node && todo.id !in Tops(done) && SameConds(c, o, todo.id)
  {
    hide Distinct, Derived;
    DistinctParts(Preorder(done), Preorder(todo));
    TopsInPreorder(done);
    assert todo.id in Preorder(todo) && todo.id in Tops(todo);
    assert todo.id in Preorder(kids) && todo.id in Tops(kids);
    assert SameConds(c0, o, todo.id) && SameConds(c0, c, todo.id);
  }

  lemma OneMorePropagated(x: Menus, o: Conds, c0: Conds, c1: Conds, c2: Conds, node: Node, ids: seq<Node>, m: Node)
    requires m != node && m !in ids && Propagated(x, o, c0, c1, node, ids) && Derived(x, o, c2, node, m)
    requires forall n :: n != m ==> SameConds(c1, c2, n)
    ensures Propagated(x, o, c0, c2, node, ids + [m])
  {
    hide Derived;
    forall n | n in ids
      ensures Derived(x, o, c2, node, n)
    {
      assert SameConds(c1, c2, n) && SameConds(c1, c2, node);
      DerivedSame(x, o, c1, c2, node, n);
    }
    forall n | n !in ids + [m]
      ensures SameConds(c0, c2, n)
    {
      assert SameConds(c0, c1, n) && SameConds(c1, c2, n);
    }
  }

  lemma MorePropagated(x: Menus, o: Conds, c0: Conds, c1: Conds, c2: Conds, node: Node, done: Forest, todo: Forest)
    requires todo.Cons? && todo.id != node && todo.id !in Tops(done)
    requires Propagated(x, o, c0, c1, node, Tops(done)) && Derived(x, o, c2, node, todo.id)
    requires forall n :: n != todo.id ==> SameConds(c1, c2, n)
    ensures var done' := Append(done, Cons(todo.id, todo.kids, Nil));
            Propagated(x, o, c0, c2, node, Tops(done')) && Tops(done') + Tops(todo.rest) == Tops(done) + Tops(todo)
  {
    hide Derived, Propagated, SameConds;
    var one := Cons(todo.id, todo.kids, Nil);
    AppendTops(done, one);
    assert Tops(one) == [todo.id];
    OneMorePropagated(x, o, c0, c1, c2, node, Tops(done), todo.id);
  }

  lemma AllTops(done: Forest, todo: Forest)
    requires todo == Nil
    ensures Tops(done) + Tops(todo) == Tops(done)
  {}

  lemma StartRun(x: Menus, o: Origin, c: Conds, log: seq<Node>, f: Forest, t: Traits)
    requires Inherited(x, o, c, log)
    ensures Ran(x, o, log, c, log, Preorder(Nil)) && Done(f, Nil, f, t)
  {
    hide Inherited;
    assert log + [] == log;
  }

  lemma OneNode(m: Node, kids: Forest)
    ensures Preorder(Cons(m, kids, Nil)) == [m] + Preorder(kids)
  {}

  lemma NoMore(done: Forest, todo: Forest)
    requires todo == Nil
    ensures Preorder(done) + Preorder(todo) == Preorder(done)
  {}

  /** After the items done, the next one is still as parsed and can be finalised. */
  lemma NextReady(x: Menus, o: Origin, log0: seq<Node>, c: Conds, log: seq<Node>, t: Traits, f: Forest, done: Forest,
                  todo: Forest, u: Option<Node>)
    requires todo.Cons? && Done(f, done, todo, t) && Distinct(Preorder(f))
    requires Ran(x, o, log0, c, log, Preorder(done)) && Original(o, f, u) && Apart(Preorder(f), log0)
    requires u.Some? && u.value in log0
    ensures Ready(x, o, c, log, todo) && Distinct(Preorder(todo)) && |Preorder(todo)| <= |Preorder(f)|
    ensures Get(o.parent, todo.id) == u && log == log0 + Preorder(done)
  {
    hide Inherited, Distinct, Done, Preorder, Apart;
    DonePreorder(f, done, todo, t);
    DistinctParts(Preorder(done), Preorder(todo));
    OriginalTail(o, todo, f, u);
    ApartLater(Preorder(done), Preorder(todo), log0);
  }

  lemma MoreRan(x: Menus, o: Origin, log0: seq<Node>, log1: seq<Node>, c: Conds, log: seq<Node>, done: Forest,
                g: Forest)
    requires g.Cons? && log1 == log0 + Preorder(done) && Ran(x, o, log1, c, log, [g.id] + Preorder(g.kids))
    ensures Ran(x, o, log0, c, log, Preorder(Append(done, Cons(g.id, g.kids, Nil))))
  {
    hide Inherited;
    OneNode(g.id, g.kids);
    RanTrans(x, o, log0, log1, c, log, Preorder(done), [g.id] + Preorder(g.kids));
  }

  lemma ApartLater(done: seq<Node>, todo: seq<Node>, log: seq<Node>)
    requires Apart(done + todo, log) && Apart(todo, done)
    ensures Apart(todo, log + done)
  {
    assert forall n :: n in todo ==> n in done + todo;
  }

  /** All items taken are accepted. */
  ghost predicate Taken(node: Node, t: Traits, done: Forest) { forall m :: m in Tops(done) ==> t.accepts(node, m) }

  lemma StartTaken(node: Node, t: Traits)
    ensures Taken(node, t, Nil)
  {}

  /** A symbol and the item behind it have the conditions they are to reach. */
  lemma ReadyForTest(x: Menus, o: Origin, log0: seq<Node>, c: Conds, log: seq<Node>, todo: Forest, node: Node)
    requires Ready(x, o, c, log, todo) && Settled(o, log0, node) && log0 <= log
    requires Get(o.parent, todo.id) == Get(o.parent, node)
    ensures TraitsOf(x, o.final).accepts(node, todo.id) == Accepts(x, c, node, todo.id)
  {
    hide Inherited, Original, Preorder, Accepts;
    assert Settled(o, log, node);
    Reached(x, o, c, log, node);
    Reached(x, o, c, log, todo.id);
    AcceptsSame(x, c, o.final, node, todo.id);
  }

  lemma TakenMore(node: Node, t: Traits, done: Forest, g: Forest)
    requires Taken(node, t, done) && g.Cons? && t.accepts(node, g.id)
    ensures var done' := Append(done, Cons(g.id, g.kids, Nil)); Taken(node, t, done') && LastTop(done') == g.id
  {
    var one := Cons(g.id, g.kids, Nil);
    AppendTops(done, one);
    LastAppended(done, one);
    assert Tops(one) == [g.id];
  }

  lemma TakenAll(node: Node, f: Forest, done: Forest, todo: Forest, t: Traits)
    requires Taken(node, t, done) && Done(f, done, todo, t) && (todo.Cons? ==> !t.accepts(node, todo.id))
    ensures Absorb(node, f, t) == (done, todo)
  {
    DoneAbsorb(node, f, done, todo, t);
  }

  lemma Leaf(k: Links, up: Option<Node>, f: Forest)
    requires f.Cons? && f.kids == Nil && Segment(k, Some(f.id), up, f, None) && Distinct(Preorder(f))
    ensures Segment(k, Get(k.next, f.id), up, f.rest, None) && Distinct(Preorder(f.rest)) && f.id !in Preorder(f.rest)
    ensures |Preorder(f.rest)| < |Preorder(f)| && SameAt(k, k, f.id)
  {
    assert Preorder(f) == [f.id] + Preorder(f.rest);
    DistinctParts([f.id], Preorder(f.rest));
  }

  /** A finalised item goes from the siblings ahead to the symbol's own items. */
  lemma AbsorbAdvance(k0: Links, k1: Links, k2: Links, k3: Links, node: Node, up: Option<Node>,
                      done: Forest, todo: Forest, g: Forest, all: seq<Node>)
    requires g.Cons? && todo.Cons? && g.id == todo.id && Preorder(g) == Preorder(todo)
    requires Preorder(done) + Preorder(todo) == all && Distinct(all) && node !in all
    requires OnlyAt(k0, k1, all) && OnlyAt(k1, k2, Preorder(todo)) && SameAt(k0, k1, node)
    requires Segment(k1, Get(k0.next, node), Some(node), done, Some(todo.id)) && Segment(k2, Some(g.id), up, g, None)
    requires k3 == k2.(parent := k2.parent[g.id := Some(node)])
    ensures var done' := Append(done, Cons(g.id, g.kids, Nil));
            && Segment(k3, Get(k0.next, node), Some(node), done', Get(k3.next, g.id))
            && Segment(k3, Get(k3.next, g.id), up, g.rest, None)
            && OnlyAt(k0, k3, all) && SameAt(k0, k3, node) && |Preorder(g.rest)| < |Preorder(todo)|
  {
    hide Distinct, OnlyAt;
    var one, start := Cons(g.id, g.kids, Nil), Get(k0.next, node);
    DistinctParts(Preorder(done), Preorder(todo));
    DistinctParts([g.id] + Preorder(g.kids), Preorder(g.rest));
    DistinctParts([g.id], Preorder(g.kids));
    ParentOnly(k1, k2, k3, g.id, Some(node), Preorder(todo));
    SegmentFrame(k1, k3, start, Some(node), done, Some(todo.id), Preorder(todo));
    SegmentFrame(k2, k3, Get(k2.list, g.id), Some(g.id), g.kids, None, [g.id]);
    SegmentFrame(k2, k3, Get(k2.next, g.id), up, g.rest, None, [g.id]);
    SegmentAppend(k3, start, Some(node), done, Some(todo.id), one, Get(k3.next, g.id));
    OnlyTrans(k0, k1, k3, all, Preorder(todo), node);
  }

  lemma ParentOnly(k1: Links, k2: Links, k3: Links, m: Node, up: Option<Node>, part: seq<Node>)
    requires OnlyAt(k1, k2, part) && m in part && k3 == k2.(parent := k2.parent[m := up])
    ensures OnlyAt(k1, k3, part) && OnlyAt(k2, k3, [m])
  {
    forall n | n !in part
      ensures SameAt(k1, k3, n)
    {
      assert SameAt(k1, k2, n);
    }
  }

  lemma AbsorbEnd(k0: Links, k1: Links, k2: Links, up: Option<Node>, f: Forest, done: Forest, todo: Forest,
                  menu: Option<Node>)
    requires f.Cons? && f.kids == Nil && Segment(k0, Some(f.id), up, f, None) && Distinct(Preorder(f))
    requires Preorder(done) + Preorder(todo) == Preorder(f.rest) && OnlyAt(k0, k1, Preorder(f.rest))
               && SameAt(k0, k1, f.id)
    requires Segment(k1, Get(k0.next, f.id), Some(f.id), done, menu) && Segment(k1, menu, up, todo, None)
    requires if done.Cons? then
               k2 == k1.(list := k1.list[f.id := Get(k1.next, f.id)],
                         next := k1.next[f.id := Get(k1.next, LastTop(done))][LastTop(done) := None])
             else k2 == k1
    ensures Segment(k2, Some(f.id), up, Cons(f.id, done, todo), None) && OnlyAt(k0, k2, Preorder(f))
  {
    var node := f.id;
    Leaf(k0, up, f);
    if done.Cons? {
      DistinctParts(Preorder(done), Preorder(todo));
      LastNext(k1, Get(k0.next, node), Some(node), done, menu);
      var k := k1.(next := k1.next[LastTop(done) := None]);
      Relinked(k1, k, Get(k0.next, node), Some(node), done, menu, None);
      SegmentFrame(k1, k, menu, up, todo, None, [LastTop(done)]);
      SegmentFrame(k, k2, Get(k0.next, node), Some(node), done, None, [node]);
      SegmentFrame(k, k2, menu, up, todo, None, [node]);
    }
  }

  lemma {:induction false} LastNext(k: Links, start: Option<Node>, up: Option<Node>, f: Forest, end: Option<Node>)
    requires f.Cons? && Segment(k, start, up, f, end)
    ensures Get(k.next, LastTop(f)) == end && LastTop(f) in Preorder(f)
    decreases f
  {
    if f.rest.Cons? {
      LastNext(k, Get(k.next, f.id), up, f.rest, end);
    }
  }

  /** What is known when the finalisation of a node begins. */
  lemma Entered(k: Links, x: Menus, o: Origin, c: Conds, log: seq<Node>, f: Forest, up: Option<Node>)
    requires Ready(x, o, c, log, f) && Segment(k, Some(f.id), up, f, None) && Distinct(Preorder(f))
    ensures Segment(k, Get(k.list, f.id), Some(f.id), f.kids, None) && Get(k.list, f.id).Some? == f.kids.Cons?
    ensures Distinct([f.id] + Preorder(f.kids)) && |Preorder(f.kids)| < |Preorder(f)|
    ensures Inherited(x, o, c, log) && f.id !in log && f.id !in Tops(f.kids)
    ensures ChildrenAre(o, f.id, Tops(f.kids)) && Original(o, f.kids, Some(f.id))
              && Original(o, f.rest, Get(o.parent, f.id))
    ensures if Get(o.parent, f.id).Some? then Settled(o, log, f.id) && Settled(o, log + [f.id], f.id) else f.rest == Nil
    ensures forall n :: n in Tops(f.kids) ==> SameConds(c, o.conds, n)
    ensures Apart(Preorder(f.kids), log + [f.id]) && Apart(Preorder(f.rest), log + [f.id])
  {
    hide Distinct, FinalRight;
    DistinctParts([f.id] + Preorder(f.kids), Preorder(f.rest));
    DistinctParts([f.id], Preorder(f.kids));
    TopsInPreorder(f.kids);
    HeadOf(k, Get(k.list, f.id), Some(f.id), f.kids, None);
    assert f.id in Preorder(f) && f.id in [f.id];
    forall n | n in Tops(f.kids)
      ensures SameConds(c, o.conds, n)
    {
      assert Get(o.parent, n) == Some(f.id);
      assert !Settled(o, log, n);
      assert SameConds(c, if Settled(o, log, n) then o.final else o.conds, n);
    }
  }

  lemma RanNode(x: Menus, o: Origin, log0: seq<Node>, c: Conds, log: seq<Node>, node: Node, s: seq<Node>)
    requires Ran(x, o, log0 + [node], c, log, s)
    ensures Ran(x, o, log0, c, log, [node] + s)
  {
    hide Inherited;
    RanTrans(x, o, log0, log0 + [node], c, log, [node], s);
  }

  lemma NoChildren(x: Menus, o: Origin, c: Conds, log: seq<Node>, f: Forest)
    requires f.Cons? && f.kids == Nil && ChildrenAre(o, f.id, Tops(f.kids)) && Inherited(x, o, c, log) && f.id !in log
    requires Get(o.parent, f.id).Some? ==> Settled(o, log, f.id)
    ensures Inherited(x, o, c, log + [f.id])
  {
    hide Derived;
    ChildrenInherit(x, o, c, c, log, f.id, []);
  }

  lemma LeafRun(x: Menus, o: Origin, c: Conds, log: seq<Node>, node: Node)
    requires Inherited(x, o, c, log + [node])
    ensures Ran(x, o, log + [node], c, log + [node], Preorder(Nil))
  {
    hide Inherited;
    assert log + [node] + [] == log + [node];
  }

  lemma SameNodes(f: Forest, r: Forest, kids: Forest)
    requires f.Cons? && r.Cons? && r.id == f.id && Preorder(r) == Preorder(f) && Preorder(r.kids) == Preorder(kids)
    ensures Preorder(Cons(f.id, kids, r.rest)) == Preorder(f)
  {}

  lemma WithKids(k0: Links, k1: Links, up: Option<Node>, f: Forest, kids: Forest)
    requires f.Cons? && Segment(k0, Some(f.id), up, f, None) && Distinct(Preorder(f))
               && OnlyAt(k0, k1, Preorder(f.kids))
    requires Segment(k1, Get(k1.list, f.id), Some(f.id), kids, None)
    ensures Segment(k1, Some(f.id), up, Cons(f.id, kids, f.rest), None) && OnlyAt(k0, k1, Preorder(f))
  {
    DistinctParts([f.id] + Preorder(f.kids), Preorder(f.rest));
    DistinctParts([f.id], Preorder(f.kids));
    assert f.id in [f.id] && SameAt(k0, k1, f.id);
    SegmentFrame(k0, k1, Get(k0.next, f.id), up, f.rest, None, Preorder(f.kids));
  }

  lemma BeforeFlatten(k: Links, up: Option<Node>, f: Forest, kids: Forest, rest: Forest)
    requires f.Cons? && Segment(k, Some(f.id), up, Cons(f.id, kids, rest), None)
    requires Preorder(Cons(f.id, kids, rest)) == Preorder(f) && Distinct(Preorder(f))
    ensures Segment(k, Get(k.list, f.id), Some(f.id), kids, None) && Distinct([f.id] + Preorder(kids))
  {
    DistinctParts([f.id] + Preorder(kids), Preorder(rest));
  }

  lemma AfterFlatten(k0: Links, k1: Links, k2: Links, up: Option<Node>, f: Forest, kids: Forest, flat: Forest,
                     rest: Forest)
    requires f.Cons? && Segment(k1, Some(f.id), up, Cons(f.id, kids, rest), None) && OnlyAt(k0, k1, Preorder(f))
    requires Preorder(Cons(f.id, kids, rest)) == Preorder(f) && Distinct(Preorder(f))
    requires Segment(k2, Get(k2.list, f.id), Some(f.id), flat, None) && OnlyAt(k1, k2, Preorder(kids))
    ensures Segment(k2, Some(f.id), up, Cons(f.id, flat, rest), None) && OnlyAt(k0, k2, Preorder(f))
  {
    hide Distinct;
    WithKids(k1, k2, up, Cons(f.id, kids, rest), flat);
    forall n | n !in Preorder(f)
      ensures SameAt(k0, k2, n)
    {
      assert SameAt(k0, k1, n) && SameAt(k1, k2, n);
    }
  }

  lemma Start(k: Links, start: Option<Node>, up: Option<Node>, f: Forest)
    ensures Segment(k, start, up, Nil, start) && Append(Nil, f) == f && OnlyAt(k, k, Preorder(f))
    ensures Preorder(Nil) == []
  {}

  lemma MoveOne(k0: Links, k1: Links, k2: Links, start: Option<Node>, up: Option<Node>, up': Option<Node>,
                all: Forest, done: Forest, todo: Forest)
    requires todo.Cons? && Append(done, todo) == all && Distinct(Preorder(all)) && OnlyAt(k0, k1, Preorder(all))
    requires Segment(k1, start, up', done, Some(todo.id)) && Segment(k1, Some(todo.id), up, todo, None)
    requires k2 == k1.(parent := k1.parent[todo.id := up'])
    ensures Segment(k2, start, up', Append(done, Cons(todo.id, todo.kids, Nil)), Get(k2.next, todo.id))
    ensures Segment(k2, Get(k2.next, todo.id), up, todo.rest, None)
    ensures OnlyAt(k0, k2, Preorder(all))
    ensures Append(Append(done, Cons(todo.id, todo.kids, Nil)), todo.rest) == all
    ensures |Preorder(todo.rest)| < |Preorder(todo)|
    ensures LastTop(Append(done, Cons(todo.id, todo.kids, Nil))) == todo.id
  {
    var one := Cons(todo.id, todo.kids, Nil);
    AppendAssoc(done, one, todo.rest);
    LastAppended(done, one);
    DistinctParts(Preorder(done), Preorder(todo));
    DistinctParts([todo.id] + Preorder(todo.kids), Preorder(todo.rest));
    DistinctParts([todo.id], Preorder(todo.kids));
    assert OnlyAt(k1, k2, [todo.id]);
    SegmentFrame(k1, k2, start, up', done, Some(todo.id), [todo.id]);
    SegmentFrame(k1, k2, Get(k1.list, todo.id), Some(todo.id), todo.kids, None, [todo.id]);
    SegmentFrame(k1, k2, Get(k1.next, todo.id), up, todo.rest, None, [todo.id]);
    SegmentAppend(k2, start, up', done, Some(todo.id), one, Get(k2.next, todo.id));
  }

  lemma {:induction false} LastAppended(f: Forest, g: Forest)
    requires g.Cons?
    ensures LastTop(Append(f, g)) == LastTop(g)
  {
    if f.Cons? {
      LastAppended(f.rest, g);
    }
  }

  lemma AppendNil(f: Forest)
    ensures Append(f, Nil) == f && Append(Nil, f) == f
  {}

  lemma FlattenNil(prompted: set<Node>)
    ensures Flatten(Nil, prompted) == Nil
  {}

  lemma AppendOne(id: Node, kids: Forest, f: Forest)
    ensures Append(Cons(id, kids, Nil), f) == Cons(id, kids, f)
  {}

  lemma Opened(k: Links, up: Option<Node>, f: Forest)
    requires f.Cons? && Segment(k, Some(f.id), up, f, None) && Distinct(Preorder(f))
    ensures Segment(k, Get(k.list, f.id), Some(f.id), f.kids, None) && Distinct(Preorder(f.kids))
    ensures Segment(k, Get(k.next, f.id), up, f.rest, None) && Distinct(Preorder(f.rest))
  {
    DistinctParts([f.id] + Preorder(f.kids), Preorder(f.rest));
    DistinctParts([f.id], Preorder(f.kids));
  }

  /** Linking the last sibling to another end. */
  lemma {:induction false} Relinked(k1: Links, k2: Links, start: Option<Node>, up: Option<Node>, f: Forest,
                                    end0: Option<Node>, end: Option<Node>)
    requires f.Cons? && Segment(k1, start, up, f, end0) && Distinct(Preorder(f))
    requires k2 == k1.(next := k1.next[LastTop(f) := end])
    ensures Segment(k2, start, up, f, end) && LastTop(f) in Preorder(f)
    decreases f
  {
    DistinctParts([f.id] + Preorder(f.kids), Preorder(f.rest));
    DistinctParts([f.id], Preorder(f.kids));
    if f.rest.Cons? {
      Relinked(k1, k2, Get(k1.next, f.id), up, f.rest, end0, end);
    }
    assert OnlyAt(k1, k2, [LastTop(f)]);
    SegmentFrame(k1, k2, Get(k1.list, f.id), Some(f.id), f.kids, None, [LastTop(f)]);
  }

  lemma Spliced(k0: Links, k1: Links, k2: Links, up: Option<Node>, f: Forest)
    requires f.Cons? && f.kids.Cons? && Distinct(Preorder(f)) && Segment(k0, Some(f.id), up, f, None)
    requires Segment(k1, Get(k1.list, f.id), up, f.kids, None) && OnlyAt(k0, k1, Preorder(f.kids))
    requires k2 == k1.(next := k1.next[LastTop(f.kids) := Get(k1.next, f.id)][f.id := Get(k1.list, f.id)],
                       list := k1.list[f.id := None])
    ensures Segment(k2, Some(f.id), up, Cons(f.id, Nil, Append(f.kids, f.rest)), None)
    ensures OnlyAt(k0, k2, Preorder(f))
  {
    var m, kids, rest := f.id, f.kids, f.rest;
    DistinctParts([m] + Preorder(kids), Preorder(rest));
    DistinctParts([m], Preorder(kids));
    assert m in [m] && SameAt(k0, k1, m);
    SegmentFrame(k0, k1, Get(k0.next, m), up, rest, None, Preorder(kids));
    var k := k1.(next := k1.next[LastTop(kids) := Get(k1.next, m)]);
    Relinked(k1, k, Get(k1.list, m), up, kids, None, Get(k1.next, m));
    SegmentFrame(k1, k, Get(k1.next, m), up, rest, None, [LastTop(kids)]);
    SegmentFrame(k, k2, Get(k1.list, m), up, kids, Get(k1.next, m), [m]);
    SegmentFrame(k, k2, Get(k1.next, m), up, rest, None, [m]);
    SegmentAppend(k2, Get(k1.list, m), up, kids, Get(k1.next, m), rest, None);
    assert OnlyAt(k0, k2, Preorder(f)) by {
      assert forall n :: n in Preorder(kids) ==> n in Preorder(f);
      assert m in Preorder(f);
    }
  }

  lemma FlattenStep(k: Links, up: Option<Node>, done: Forest, todo: Forest, prompted: set<Node>, all: seq<Node>)
    requires todo.Cons? && Segment(k, Some(todo.id), up, todo, None)
    requires Preorder(done) + Preorder(todo) == all && Distinct(all)
    ensures Distinct(Preorder(todo)) && Get(k.list, todo.id).Some? == todo.kids.Cons?
    ensures todo.kids.Cons? && todo.id !in prompted ==>
              Flatten(todo, prompted) == Cons(todo.id, Nil, Flatten(Append(todo.kids, todo.rest), prompted))
    ensures !(todo.kids.Cons? && todo.id !in prompted) ==>
              Flatten(todo, prompted) == Cons(todo.id, todo.kids, Flatten(todo.rest, prompted))
    ensures Preorder(Cons(todo.id, Nil, Append(todo.kids, todo.rest))) == Preorder(todo)
  {
    hide Distinct;
    DistinctParts(Preorder(done), Preorder(todo));
    HeadOf(k, Get(k.list, todo.id), Some(todo.id), todo.kids, None);
    assert [todo.id] + [] + (Preorder(todo.kids) + Preorder(todo.rest)) == Preorder(todo);
  }

  /** The first of the remaining siblings, changed or not, joins those done. */
  lemma Advance(k0: Links, k1: Links, k2: Links, node: Node, start: Option<Node>, done: Forest, todo: Forest,
                step: Forest, all: seq<Node>)
    requires step.Cons? && todo.Cons? && step.id == todo.id && Preorder(step) == Preorder(todo)
    requires Preorder(done) + Preorder(todo) == all && Distinct(all) && node !in all
    requires OnlyAt(k0, k1, all) && OnlyAt(k1, k2, Preorder(todo)) && Get(k1.list, node) == start
    requires Segment(k1, start, Some(node), done, Some(todo.id)) && Segment(k2, Some(step.id), Some(node), step, None)
    ensures var done', todo' := Append(done, Cons(step.id, step.kids, Nil)), step.rest;
            && Segment(k2, start, Some(node), done', Get(k2.next, step.id))
            && Segment(k2, Get(k2.next, step.id), Some(node), todo', None)
            && Preorder(done') + Preorder(todo') == all && |Preorder(todo')| < |Preorder(todo)|
            && OnlyAt(k0, k2, all) && Get(k2.list, node) == start
  {
    hide Distinct, OnlyAt;
    var one := Cons(step.id, step.kids, Nil);
    DistinctParts(Preorder(done), Preorder(todo));
    SegmentFrame(k1, k2, start, Some(node), done, Some(todo.id), Preorder(todo));
    SegmentAppend(k2, start, Some(node), done, Some(todo.id), one, Get(k2.next, step.id));
    StepPreorder(done, step, one, all);
    OnlyTrans(k0, k1, k2, all, Preorder(todo), node);
  }

  lemma StepPreorder(done: Forest, step: Forest, one: Forest, all: seq<Node>)
    requires step.Cons? && one == Cons(step.id, step.kids, Nil) && Preorder(done) + Preorder(step) == all
    ensures Preorder(Append(done, one)) + Preorder(step.rest) == all && |Preorder(step.rest)| < |Preorder(step)|
  {
    assert Preorder(one) + Preorder(step.rest) == Preorder(step);
    assert Preorder(done) + Preorder(one) + Preorder(step.rest) == Preorder(done)
        + (Preorder(one) + Preorder(step.rest));
  }

  lemma OnlyTrans(k0: Links, k1: Links, k2: Links, all: seq<Node>, part: seq<Node>, node: Node)
    requires OnlyAt(k0, k1, all) && OnlyAt(k1, k2, part) && (forall n :: n in part ==> n in all) && node !in all
    ensures OnlyAt(k0, k2, all) && SameAt(k1, k2, node)
  {
    assert node !in part;
    forall n | n !in all
      ensures SameAt(k0, k2, n)
    {
      assert SameAt(k0, k1, n) && SameAt(k1, k2, n);
    }
  }
}
