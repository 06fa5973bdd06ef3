/** What finalisation means for neighbouring items: which of them a symbol takes. */
module MenuSiblings {
  import opened Tristate
  import opened MenuForest
  import opened MenuLinks
  import opened MenuPlaces

  // ----- the first node of a list -----

  /** Once finalised, a symbol without children refuses what comes behind it; if it accepts the
      item behind it, that is now its first child. */
  lemma FirstItem(f: Forest, t: Traits)
    requires f.Cons? && f.kids == Nil && f.id in t.symbols
    ensures var r := Finalize(f, t);
            && (r.rest.Cons? ==> !t.accepts(f.id, r.rest.id))
            && (f.rest.Cons? && t.accepts(f.id, f.rest.id) ==> r.kids.Cons? && r.kids.id == f.rest.id)
            && (f.rest.Cons? && !t.accepts(f.id, f.rest.id) ==> r == f)
  {
    AbsorbMaximal(f.id, f.rest, t);
  }

  // ----- lists anywhere in the tree -----

  /** g is the end of a list somewhere in f. */
  ghost predicate Within(g: Forest, f: Forest) { g == f || (f.Cons? && (Within(g, f.kids) || Within(g, f.rest))) }

  /** The homes of open symbols are not ahead in the list. */
  ghost predicate Behindhand(stack: seq<Open>, up: Node, f: Forest) {
    up !in Preorder(f) && forall o :: o in stack ==> o.home !in Preorder(f)
  }

  lemma {:induction false} FollowsWithin(f: Forest, stack: seq<Open>, up: Node, t: Traits, p: Field, g: Forest)
    returns (s: seq<Open>, v: Node)
    requires Follows(f, stack, up, t, p) && Within(g, f) && Distinct(Preorder(f)) && Behindhand(stack, up, f)
    ensures Follows(g, s, v, t, p) && Distinct(Preorder(g)) && Behindhand(s, v, g)
    decreases f
  {
    hide Distinct;
    if g == f {
      s, v := stack, up;
    } else {
      var open := Closed(stack, f.id, t);
      var home := Home(f.id, Innermost(open, up), t);
      HomeBehind(f, stack, up, t);
      if Within(g, f.kids) {
        s, v := FollowsWithin(f.kids, [], home, t, p, g);
      } else {
        s, v := FollowsWithin(f.rest, Pushed(open, f, home, t), up, t, p, g);
      }
    }
  }

  lemma HomeBehind(f: Forest, stack: seq<Open>, up: Node, t: Traits)
    requires f.Cons? && Distinct(Preorder(f)) && Behindhand(stack, up, f)
    ensures Distinct(Preorder(f.kids)) && Distinct(Preorder(f.rest))
    ensures var open := Closed(stack, f.id, t);
            var home := Home(f.id, Innermost(open, up), t);
            Behindhand([], home, f.kids) && Behindhand(Pushed(open, f, home, t), up, f.rest)
  {
    hide Distinct, Closed;
    var open := Closed(stack, f.id, t);
    DistinctParts([f.id] + Preorder(f.kids), Preorder(f.rest));
    DistinctParts([f.id], Preorder(f.kids));
    assert f.id in [f.id] && f.id in [f.id] + Preorder(f.kids);
    assert forall n :: n in Preorder(f.kids) || n in Preorder(f.rest) ==> n in Preorder(f);
    assert forall o :: o in open ==> o in stack;
    assert open != [] ==> open[|open| - 1] in open;
  }

  /** A prompted symbol without children of its own has the next item of its parsed list as a
      child if and only if it accepts it. */
  lemma NextItem(f: Forest, root: Node, t: Traits, p: Field, g: Forest)
    requires Follows(f, [], root, t, p) && Distinct(Preorder(f)) && root !in Preorder(f) && Within(g, f)
    requires g.Cons? && g.kids == Nil && g.id in t.symbols && g.id in t.prompted && g.rest.Cons?
    ensures Get(p, g.rest.id) == Some(g.id) <==> t.accepts(g.id, g.rest.id)
  {
    hide Distinct, Within;
    var stack, up := FollowsWithin(f, [], root, t, p, g);
    NextFrom(g, stack, up, t, p);
  }

  lemma NextFrom(g: Forest, stack: seq<Open>, up: Node, t: Traits, p: Field)
    requires Follows(g, stack, up, t, p) && Behindhand(stack, up, g)
    requires g.Cons? && g.kids == Nil && g.id in t.symbols && g.id in t.prompted && g.rest.Cons?
    ensures Get(p, g.rest.id) == Some(g.id) <==> t.accepts(g.id, g.rest.id)
  {
    assert g.id in Preorder(g);
    hide Preorder, Closed;
    var open := Closed(stack, g.id, t);
    ClosedPushed(open, Open(g.id, g.id), g.rest.id, t);
    var left := Closed(open, g.rest.id, t);
    assert forall o :: o in left ==> o in open && o in stack;
    assert left != [] ==> left[|left| - 1] in left;
  }

  lemma ClosedPushed(stack: seq<Open>, last: Open, m: Node, t: Traits)
    ensures Closed(stack + [last], m, t) == if t.accepts(last.id, m) then stack + [last] else Closed(stack, m, t)
  {
    assert (stack + [last])[..|stack|] == stack;
  }

  // ----- the children of a symbol -----

  /** x itself, or a promptless symbol of the list, directly below x. */
  predicate Stands(q: Node, x: Node, row: seq<Node>, t: Traits, p: Field) {
    q == x || (q in row && q in t.symbols && q !in t.prompted && Get(p, q) == Some(x))
  }

  ghost predicate Standing(stack: seq<Open>, x: Node, row: seq<Node>, t: Traits, p: Field) {
    forall o :: o in stack && o.home == x ==> Stands(o.id, x, row, t, p)
  }

  lemma {:induction false} AcceptedFrom(f: Forest, stack: seq<Open>, up: Node, t: Traits, p: Field, x: Node, m: Node,
                                        row: seq<Node>)
    requires Follows(f, stack, up, t, p) && m in Tops(f) && Get(p, m) == Some(x) && up != x && x !in Preorder(f)
    requires Standing(stack, x, row, t, p) && forall n :: n in Tops(f) ==> n in row
    ensures exists q :: Stands(q, x, row, t, p) && t.accepts(q, m)
    decreases f
  {
    var open := Closed(stack, f.id, t);
    var home := Home(f.id, Innermost(open, up), t);
    assert forall o :: o in open ==> o in stack;
    if m == f.id {
      var last := open[|open| - 1];
      assert last in open && Stands(last.id, x, row, t, p) && t.accepts(last.id, m);
    } else {
      assert f.id in Tops(f) && f.id in Preorder(f);
      AcceptedFrom(f.rest, Pushed(open, f, home, t), up, t, p, x, m, row);
    }
  }

  /** Every item of its list that is now a child of a prompted symbol was accepted by it, or by
      a promptless symbol of the list that is also its child. */
  lemma ChildrenAccepted(f: Forest, root: Node, t: Traits, p: Field, g: Forest, m: Node)
    requires Follows(f, [], root, t, p) && Distinct(Preorder(f)) && root !in Preorder(f) && Within(g, f)
    requires g.Cons? && g.kids == Nil && g.id in t.symbols && g.id in t.prompted
    requires m in Tops(g.rest) && Get(p, m) == Some(g.id)
    ensures exists q :: Stands(q, g.id, Tops(g.rest), t, p) && t.accepts(q, m)
  {
    hide Distinct, Within;
    var x := g.id;
    var stack, up := FollowsWithin(f, [], root, t, p, g);
    var open := Closed(stack, x, t);
    assert x in Preorder(g);
    assert forall o :: o in open ==> o in stack;
    DistinctParts([x] + Preorder(g.kids), Preorder(g.rest));
    assert x in [x] + Preorder(g.kids);
    AcceptedFrom(g.rest, open + [Open(x, x)], up, t, p, x, m, Tops(g.rest));
  }

  /** The second case does occur: the child 2 is not accepted by its parent 0, but by 1. */
  lemma MovedUp()
    ensures var list := Cons(0, Nil, Cons(1, Nil, Cons(2, Nil, Nil)));
            var t := Traits({0, 1}, {0, 2}, (p: Node, m: Node) => m == p + 1);
            !t.accepts(0, 2) && Finalize(list, t) == Cons(0, Cons(1, Nil, Cons(2, Nil, Nil)), Nil)
  {
    var two, t := Cons(2, Nil, Nil), Traits({0, 1}, {0, 2}, (p: Node, m: Node) => m == p + 1);
    assert Absorb(1, two, t) == (two, Nil);
    assert Finalize(Cons(1, Nil, two), t) == Cons(1, two, Nil);
    assert Absorb(0, Cons(1, Nil, two), t) == (Cons(1, two, Nil), Nil);
    assert Append(two, Nil) == two;
  }

  // ----- what stands behind a symbol -----

  /** x is a prompted symbol without children, m of the same parsed list, and x refuses m. */
  ghost predicate Refuses(x: Node, m: Node, t: Traits, o: Field) {
    x in t.prompted && x in t.symbols && (forall n :: Get(o, n) != Some(x)) && Get(o, x) == Get(o, m) ==>
      !t.accepts(x, m)
  }

  /** So it is for every node and the one behind it. */
  ghost predicate Neighbours(f: Forest, t: Traits, o: Field) {
    f.Cons? ==>
      (f.rest.Cons? ==> Refuses(f.id, f.rest.id, t, o)) && Neighbours(f.kids, t, o) && Neighbours(f.rest, t, o)
  }

  ghost predicate LastRefuses(f: Forest, m: Node, t: Traits, o: Field) {
    f.Cons? ==> if f.rest == Nil then Refuses(f.id, m, t, o) else LastRefuses(f.rest, m, t, o)
  }

  /** The last node of an item and its children, if they are to move up, refuses m. */
  ghost predicate ItemRefuses(f: Forest, m: Node, t: Traits, o: Field)
    requires f.Cons?
  {
    Refuses(f.id, m, t, o) && (f.id !in t.prompted ==> LastRefuses(f.kids, m, t, o))
  }

  /** A list of finalised items, `end` behind it, before promptless nodes give up their children. */
  ghost predicate Row(f: Forest, end: Option<Node>, t: Traits, o: Field) {
    f.Cons? ==>
      && (if f.rest.Cons? then ItemRefuses(f, f.rest.id, t, o) else end.Some? ==> ItemRefuses(f, end.value, t, o))
      && Neighbours(f.kids, t, o)
      && Row(f.rest, end, t, o)
  }

  lemma {:induction false} RowAppend(f: Forest, g: Forest, end: Option<Node>, t: Traits, o: Field)
    requires Clean(f, t.prompted) && Neighbours(f, t, o) && Row(g, end, t, o)
    requires if g.Cons? then LastRefuses(f, g.id, t, o) else end.Some? ==> LastRefuses(f, end.value, t, o)
    ensures Row(Append(f, g), end, t, o)
    decreases f
  {
    if f.Cons? {
      RowAppend(f.rest, g, end, t, o);
    }
  }

  lemma {:induction false} FlattenRow(f: Forest, end: Option<Node>, t: Traits, o: Field)
    requires CleanBelow(f, t.prompted) && Row(f, end, t, o)
    ensures var r := Flatten(f, t.prompted);
            Neighbours(r, t, o) && (end.Some? ==> LastRefuses(r, end.value, t, o)) && (r == Nil <==> f == Nil)
            && (r.Cons? ==> r.id == f.id)
    decreases |Preorder(f)|
  {
    hide Refuses;
    if f.Cons? {
      if f.kids != Nil && f.id !in t.prompted {
        var all := Append(f.kids, f.rest);
        CleanAppend(f.kids, f.rest, t.prompted);
        assert |Preorder(all)| < |Preorder(f)|;
        RowAppend(f.kids, f.rest, end, t, o);
        FlattenRow(all, end, t, o);
        Promptless(f.id, all.id, t, o);
      } else {
        FlattenRow(f.rest, end, t, o);
      }
    }
  }

  lemma Promptless(x: Node, m: Node, t: Traits, o: Field)
    requires x !in t.prompted
    ensures Refuses(x, m, t, o)
  {}

  lemma {:induction false} OtherList(f: Forest, m: Node, t: Traits, o: Field)
    requires forall n :: n in Preorder(f) ==> Get(o, n) != Get(o, m)
    ensures LastRefuses(f, m, t, o)
    decreases f
  {
    if f.Cons? {
      assert f.id in Preorder(f);
      OtherList(f.rest, m, t, o);
    }
  }

  lemma {:induction false} FinalizeRow(f: Forest, up: Node, t: Traits, o: Field)
    requires f.Cons? && Placed(f, up, o) && up !in Preorder(f) && Distinct(Preorder(f))
    ensures var g := Finalize(f, t); Neighbours(g.kids, t, o) && (g.rest.Cons? ==> ItemRefuses(g, g.rest.id, t, o))
    decreases |Preorder(f)|, 1
  {
    hide Distinct, Placed, Neighbours, LastRefuses, Row;
    var g := Finalize(f, t);
    DistinctParts([f.id] + Preorder(f.kids), Preorder(f.rest));
    DistinctParts([f.id], Preorder(f.kids));
    assert f.id in [f.id];
    PlacedParts(f, up, o);
    if f.kids != Nil {
      AllRow(f.kids, f.id, t, o);
      AllClean(f.kids, t);
      FlattenRow(FinalizeAll(f.kids, t), None, t, o);
      if g.rest.Cons? {
        ParentRefuses(f, t, o);
        forall n | n in Preorder(g.kids)
          ensures Get(o, n) != Get(o, g.rest.id)
        {
          PlacedInside(f.kids, f.id, o, n);
        }
        OtherList(g.kids, g.rest.id, t, o);
      }
    } else if f.id in t.symbols {
      var (taken, left) := Absorb(f.id, f.rest, t);
      AbsorbRow(f.id, f.rest, up, t, o);
      AbsorbClean(f.id, f.rest, t);
      AbsorbMaximal(f.id, f.rest, t);
      FlattenRow(taken, if left.Cons? then Some(left.id) else None, t, o);
    } else {
      NothingBelow(t, o);
    }
  }

  lemma NothingBelow(t: Traits, o: Field)
    ensures Neighbours(Nil, t, o) && forall m :: LastRefuses(Nil, m, t, o)
  {}

  lemma PlacedParts(f: Forest, up: Node, o: Field)
    requires f.Cons? && Placed(f, up, o)
    ensures Get(o, f.id) == Some(up) && Placed(f.kids, f.id, o) && Placed(f.rest, up, o)
    ensures f.rest.Cons? ==> Get(o, f.rest.id) == Some(up)
  {}

  lemma ParentRefuses(f: Forest, t: Traits, o: Field)
    requires f.Cons? && f.kids.Cons? && Placed(f.kids, f.id, o)
    ensures forall m :: Refuses(f.id, m, t, o)
  {
    assert Get(o, f.kids.id) == Some(f.id);
  }

  lemma {:induction false} AllRow(f: Forest, up: Node, t: Traits, o: Field)
    requires Placed(f, up, o) && up !in Preorder(f) && Distinct(Preorder(f))
    ensures Row(FinalizeAll(f, t), None, t, o)
    decreases |Preorder(f)|, 2
  {
    hide Distinct, Placed, Neighbours, Refuses, LastRefuses;
    if f != Nil {
      var g := Finalize(f, t);
      FinalizeRow(f, up, t, o);
      RestPlaced(f, up, t, o);
      AllRow(g.rest, up, t, o);
      HeadKept(g.rest, t);
    }
  }

  lemma HeadKept(f: Forest, t: Traits)
    ensures f.Cons? == FinalizeAll(f, t).Cons? && (f.Cons? ==> FinalizeAll(f, t).id == f.id)
  {}

  lemma RestPlaced(f: Forest, up: Node, t: Traits, o: Field)
    requires f.Cons? && Placed(f, up, o) && up !in Preorder(f) && Distinct(Preorder(f))
    ensures var r := Finalize(f, t).rest;
            Placed(r, up, o) && up !in Preorder(r) && Distinct(Preorder(r)) && |Preorder(r)| < |Preorder(f)|
  {
    hide Distinct;
    var g := Finalize(f, t);
    FinalizeTail(f, t);
    PlacedTail(g.rest, f.rest, up, o);
    assert Preorder(f) == [g.id] + Preorder(g.kids) + Preorder(g.rest);
    DistinctParts([g.id] + Preorder(g.kids), Preorder(g.rest));
  }

  lemma {:induction false} AbsorbRow(id: Node, f: Forest, up: Node, t: Traits, o: Field)
    requires Placed(f, up, o) && up !in Preorder(f) && Distinct(Preorder(f))
    ensures var (taken, left) := Absorb(id, f, t);
            Row(taken, if left.Cons? then Some(left.id) else None, t, o)
    decreases |Preorder(f)|, 2
  {
    hide Distinct, Placed, Neighbours, Refuses, LastRefuses;
    if f != Nil && t.accepts(id, f.id) {
      var g := Finalize(f, t);
      FinalizeRow(f, up, t, o);
      RestPlaced(f, up, t, o);
      AbsorbRow(id, g.rest, up, t, o);
      AbsorbHead(id, g.rest, t);
    }
  }

  lemma AbsorbHead(id: Node, f: Forest, t: Traits)
    ensures var (taken, left) := Absorb(id, f, t);
            if taken.Cons? then f.Cons? && taken.id == f.id else left == f
  {}

  lemma {:induction false} NeighbourLinks(k: Links, start: Option<Node>, up: Option<Node>, f: Forest,
                                          end: Option<Node>, t: Traits, o: Field, x: Node)
    requires Segment(k, start, up, f, end) && Neighbours(f, t, o) && end == None
    requires x in Preorder(f) && Get(k.next, x).Some?
    ensures Refuses(x, Get(k.next, x).value, t, o)
    decreases f
  {
    hide Refuses;
    HeadOf(k, Get(k.next, f.id), up, f.rest, end);
    if x != f.id {
      if x in Preorder(f.kids) {
        NeighbourLinks(k, Get(k.list, f.id), Some(f.id), f.kids, None, t, o, x);
      } else {
        NeighbourLinks(k, Get(k.next, f.id), up, f.rest, end, t, o, x);
      }
    }
  }

  /** In the finalised tree a prompted symbol without parsed children refuses the node right
      behind it, if both were in the same parsed list. */
  lemma TreeNeighbours(root: Node, kids: Forest, t: Traits, o: Field, k: Links, x: Node)
    requires Placed(kids, root, o) && Distinct(Preorder(kids)) && root !in Preorder(kids)
    requires Segment(k, Some(root), None, Finalize(Cons(root, kids, Nil), t), None)
    requires x in Preorder(kids) && Get(k.next, x).Some?
    ensures Refuses(x, Get(k.next, x).value, t, o)
  {
    hide Refuses, Distinct, Placed;
    var r := Finalize(Cons(root, kids, Nil), t);
    FinalizeTail(Cons(root, kids, Nil), t);
    OnlyKids(root, kids, r);
    assert kids != Nil;
    AllRow(kids, root, t, o);
    AllClean(kids, t);
    FlattenRow(FinalizeAll(kids, t), None, t, o);
    NeighbourLinks(k, Get(k.list, root), Some(root), r.kids, None, t, o, x);
  }
}
