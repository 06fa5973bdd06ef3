/** Where finalisation puts each node, told from the parsed lists alone: a symbol without
    children stays open, below the symbols already open, until an item of its list comes that
    it does not accept; each item goes to the innermost symbol still open. */
module MenuPlaces {
  import opened Tristate
  import opened MenuForest
  import opened MenuLinks

  /** An open symbol, and the node its items end up below: itself, or if it has no prompt the
      node it is below. */
  datatype Open = Open(id: Node, home: Node)

  function Closed(stack: seq<Open>, m: Node, t: Traits): (r: seq<Open>)
    ensures r <= stack && (r != [] ==> t.accepts(r[|r| - 1].id, m))
  {
    if stack == [] || t.accepts(stack[|stack| - 1].id, m) then stack else Closed(stack[..|stack| - 1], m, t)
  }

  function Innermost(stack: seq<Open>, up: Node): Node { if stack == [] then up else stack[|stack| - 1].home }

  function Home(id: Node, up: Node, t: Traits): Node { if id in t.prompted then id else up }

  function Pushed(stack: seq<Open>, f: Forest, home: Node, t: Traits): seq<Open>
    requires f.Cons?
  {
    if f.kids == Nil && f.id in t.symbols then stack + [Open(f.id, home)] else stack
  }

  /** The parents `p` are those of the parsed list f once finalised, if `stack` is open before
      it and the list belongs to `up`. */
  ghost predicate Follows(f: Forest, stack: seq<Open>, up: Node, t: Traits, p: Field)
    decreases f
  {
    f.Cons? ==>
      var open := Closed(stack, f.id, t);
      var home := Home(f.id, Innermost(open, up), t);
      && Get(p, f.id) == Some(Innermost(open, up))
      && Follows(f.kids, [], home, t, p)
      && Follows(f.rest, Pushed(open, f, home, t), up, t, p)
  }

  // ----- parents in a forest -----

  ghost predicate Placed(f: Forest, up: Node, p: Field) {
    f.Cons? ==> Get(p, f.id) == Some(up) && Placed(f.kids, f.id, p) && Placed(f.rest, up, p)
  }

  lemma {:induction false} SegmentPlaced(k: Links, start: Option<Node>, up: Node, f: Forest, end: Option<Node>)
    requires Segment(k, start, Some(up), f, end)
    ensures Placed(f, up, k.parent)
    decreases f
  {
    if f.Cons? {
      SegmentPlaced(k, Get(k.list, f.id), f.id, f.kids, None);
      SegmentPlaced(k, Get(k.next, f.id), up, f.rest, end);
    }
  }

  lemma {:induction false} PlacedTail(f: Forest, g: Forest, up: Node, p: Field)
    requires Placed(g, up, p) && Tail(f, g)
    ensures Placed(f, up, p) && forall n :: n in Preorder(f) ==> n in Preorder(g)
    decreases g
  {
    if f != g {
      PlacedTail(f, g.rest, up, p);
    }
  }

  /** As `Placed`, except that the children of promptless nodes have moved up. */
  ghost predicate Lifted(f: Forest, up: Node, t: Traits, p: Field) {
    f.Cons? ==> Get(p, f.id) == Some(up) && Placed(f.kids, Home(f.id, up, t), p) && Lifted(f.rest, up, t, p)
  }

  lemma {:induction false} LiftedAppend(f: Forest, g: Forest, up: Node, t: Traits, p: Field)
    requires Lifted(Append(f, g), up, t, p) && Clean(f, t.prompted)
    ensures Placed(f, up, p) && Lifted(g, up, t, p)
    decreases f
  {
    if f.Cons? {
      LiftedAppend(f.rest, g, up, t, p);
    }
  }

  lemma {:induction false} FlattenLifted(f: Forest, up: Node, t: Traits, p: Field)
    requires Placed(Flatten(f, t.prompted), up, p) && CleanBelow(f, t.prompted)
    ensures Lifted(f, up, t, p)
    decreases |Preorder(f)|
  {
    if f.Cons? {
      if f.kids != Nil && f.id !in t.prompted {
        CleanAppend(f.kids, f.rest, t.prompted);
        assert |Preorder(Append(f.kids, f.rest))| < |Preorder(f)|;
        FlattenLifted(Append(f.kids, f.rest), up, t, p);
        LiftedAppend(f.kids, f.rest, up, t, p);
      } else {
        FlattenLifted(f.rest, up, t, p);
      }
    }
  }

  // ----- finalisation follows the open symbols -----

  lemma {:induction false} FinalizeFollows(f: Forest, stack: seq<Open>, up: Node, t: Traits, p: Field)
    requires f.Cons? && Closed(stack, f.id, t) == stack
    requires Get(p, f.id) == Some(Innermost(stack, up))
    requires Placed(Finalize(f, t).kids, Home(f.id, Innermost(stack, up), t), p)
    requires Follows(Finalize(f, t).rest, stack, up, t, p)
    ensures Follows(f, stack, up, t, p)
    decreases |Preorder(f)|, 1
  {
    var home := Home(f.id, Innermost(stack, up), t);
    if f.kids != Nil {
      AllClean(f.kids, t);
      FlattenLifted(FinalizeAll(f.kids, t), home, t, p);
      AllFollow(f.kids, home, t, p);
    } else if f.id in t.symbols {
      var (taken, left) := Absorb(f.id, f.rest, t);
      AbsorbClean(f.id, f.rest, t);
      AbsorbMaximal(f.id, f.rest, t);
      FlattenLifted(taken, home, t, p);
      StillFollows(left, stack, Open(f.id, home), up, t, p);
      AbsorbFollows(f.rest, stack, Open(f.id, home), up, t, p);
    }
  }

  lemma StillFollows(f: Forest, stack: seq<Open>, last: Open, up: Node, t: Traits, p: Field)
    requires Follows(f, stack, up, t, p) && (f.Cons? ==> !t.accepts(last.id, f.id))
    ensures Follows(f, stack + [last], up, t, p)
  {
    assert (stack + [last])[..|stack|] == stack;
  }

  lemma {:induction false} AbsorbFollows(f: Forest, stack: seq<Open>, last: Open, up: Node, t: Traits, p: Field)
    requires Lifted(Absorb(last.id, f, t).0, last.home, t, p)
    requires Follows(Absorb(last.id, f, t).1, stack + [last], up, t, p)
    ensures Follows(f, stack + [last], up, t, p)
    decreases |Preorder(f)|, 2
  {
    if f != Nil && t.accepts(last.id, f.id) {
      assert |Preorder(Finalize(f, t).rest)| < |Preorder(f)|;
      AbsorbFollows(Finalize(f, t).rest, stack, last, up, t, p);
      FinalizeFollows(f, stack + [last], up, t, p);
    }
  }

  lemma {:induction false} AllFollow(f: Forest, up: Node, t: Traits, p: Field)
    requires Lifted(FinalizeAll(f, t), up, t, p)
    ensures Follows(f, [], up, t, p)
    decreases |Preorder(f)|, 2
  {
    if f != Nil {
      assert |Preorder(Finalize(f, t).rest)| < |Preorder(f)|;
      AllFollow(Finalize(f, t).rest, up, t, p);
      FinalizeFollows(f, [], up, t, p);
    }
  }

  /** The finalised tree has the parents the open symbols tell. */
  lemma TreeFollows(root: Node, kids: Forest, t: Traits, p: Field)
    requires Placed(Finalize(Cons(root, kids, Nil), t).kids, root, p)
    ensures Follows(kids, [], root, t, p)
  {
    if kids != Nil {
      AllClean(kids, t);
      FlattenLifted(FinalizeAll(kids, t), root, t, p);
      AllFollow(kids, root, t, p);
    }
  }

  // ----- and no other tree does -----

  lemma {:induction false} FollowsUnique(f: Forest, stack: seq<Open>, up: Node, t: Traits, p: Field, q: Field, n: Node)
    requires Follows(f, stack, up, t, p) && Follows(f, stack, up, t, q) && n in Preorder(f)
    ensures Get(p, n) == Get(q, n)
    decreases f
  {
    if n != f.id {
      var open := Closed(stack, f.id, t);
      var home := Home(f.id, Innermost(open, up), t);
      if n in Preorder(f.kids) {
        FollowsUnique(f.kids, [], home, t, p, q, n);
      } else {
        FollowsUnique(f.rest, Pushed(open, f, home, t), up, t, p, q, n);
      }
    }
  }

  lemma {:induction false} PlacedSame(f: Forest, up: Node, p: Field, q: Field)
    requires Placed(f, up, p) && forall n :: n in Preorder(f) ==> Get(p, n) == Get(q, n)
    ensures Placed(f, up, q)
  {
    if f.Cons? {
      assert f.id in Preorder(f);
      PlacedSame(f.kids, f.id, p, q);
      PlacedSame(f.rest, up, p, q);
    }
  }

  function ParentsOf(f: Forest, up: Node): Field {
    if f == Nil then map[] else (ParentsOf(f.rest, up) + ParentsOf(f.kids, f.id))[f.id := Some(up)]
  }

  lemma {:induction false} ParentsListed(f: Forest, up: Node)
    ensures forall n :: n in ParentsOf(f, up) <==> n in Preorder(f)
    decreases f
  {
    if f.Cons? {
      ParentsListed(f.kids, f.id);
      ParentsListed(f.rest, up);
    }
  }

  lemma {:induction false} ParentsPlaced(f: Forest, up: Node)
    requires Distinct(Preorder(f))
    ensures Placed(f, up, ParentsOf(f, up))
    decreases f
  {
    hide Distinct;
    if f.Cons? {
      DistinctParts([f.id] + Preorder(f.kids), Preorder(f.rest));
      DistinctParts([f.id], Preorder(f.kids));
      ParentsPlaced(f.kids, f.id);
      ParentsPlaced(f.rest, up);
      ParentsListed(f.kids, f.id);
      ParentsListed(f.rest, up);
      ParentsAbove(f, up);
    }
  }

  lemma ParentsAbove(f: Forest, up: Node)
    requires f.Cons? && Apart([f.id] + Preorder(f.kids), Preorder(f.rest)) && Apart([f.id], Preorder(f.kids))
    requires Placed(f.kids, f.id, ParentsOf(f.kids, f.id)) && Placed(f.rest, up, ParentsOf(f.rest, up))
    requires forall n :: n in ParentsOf(f.kids, f.id) <==> n in Preorder(f.kids)
    requires forall n :: n in ParentsOf(f.rest, up) <==> n in Preorder(f.rest)
    ensures Placed(f, up, ParentsOf(f, up))
  {
    var p, inner, after := ParentsOf(f, up), ParentsOf(f.kids, f.id), ParentsOf(f.rest, up);
    var both: Field := after + inner;
    assert p == both[f.id := Some(up)];
    hide ParentsOf, Placed;
    assert f.id in [f.id] && f.id in [f.id] + Preorder(f.kids);
    assert forall n :: n in Preorder(f.kids) ==> n in [f.id] + Preorder(f.kids);
    assert forall n :: n in Preorder(f.kids) ==> Get(p, n) == Get(inner, n);
    assert forall n :: n in Preorder(f.rest) ==> Get(p, n) == Get(after, n);
    PlacedSame(f.kids, f.id, inner, p);
    PlacedSame(f.rest, up, after, p);
    PlacedOne(f, up, p);
  }

  lemma PlacedOne(f: Forest, up: Node, p: Field)
    requires f.Cons? && Get(p, f.id) == Some(up) && Placed(f.kids, f.id, p) && Placed(f.rest, up, p)
    ensures Placed(f, up, p)
  {}

  lemma {:induction false} PlacedInside(f: Forest, up: Node, p: Field, n: Node)
    requires Placed(f, up, p) && n in Preorder(f)
    ensures Get(p, n).Some? && (Get(p, n).value == up || Get(p, n).value in Preorder(f))
    decreases f
  {
    if n != f.id {
      if n in Preorder(f.kids) {
        PlacedInside(f.kids, f.id, p, n);
      } else {
        PlacedInside(f.rest, up, p, n);
      }
    }
  }

  lemma ShorterKids(f: Forest, g: Forest, up: Node, p: Field)
    requires f.Cons? && g.Cons? && Placed(f, up, p) && Placed(g, up, p) && Preorder(f) == Preorder(g)
    requires up !in Preorder(f)
    ensures |Preorder(f.kids)| >= |Preorder(g.kids)|
  {
    var fk, gk := Preorder(f.kids), Preorder(g.kids);
    if |fk| < |gk| {
      assert Preorder(f)[|fk| + 1] == gk[|fk|];
      assert Preorder(f)[|fk| + 1] == Preorder(f.rest)[0];
      assert f.rest.Cons? && Get(p, f.rest.id) == Some(up);
      PlacedInside(g.kids, g.id, p, gk[|fk|]);
    }
  }

  /** Order and parents determine a tree. */
  lemma {:induction false} TreeUnique(f: Forest, g: Forest, up: Node, p: Field)
    requires Placed(f, up, p) && Placed(g, up, p) && Preorder(f) == Preorder(g)
    requires up !in Preorder(f) && Distinct(Preorder(f))
    ensures f == g
    decreases f
  {
    hide Distinct;
    if f.Cons? && g.Cons? {
      ShorterKids(f, g, up, p);
      ShorterKids(g, f, up, p);
      SplitEqual(f, g);
      DistinctParts([f.id] + Preorder(f.kids), Preorder(f.rest));
      DistinctParts([f.id], Preorder(f.kids));
      assert f.id in [f.id];
      TreeUnique(f.kids, g.kids, f.id, p);
      TreeUnique(f.rest, g.rest, up, p);
    }
  }

  lemma SplitEqual(f: Forest, g: Forest)
    requires f.Cons? && g.Cons? && Preorder(f) == Preorder(g) && |Preorder(f.kids)| == |Preorder(g.kids)|
    ensures f.id == g.id && Preorder(f.kids) == Preorder(g.kids) && Preorder(f.rest) == Preorder(g.rest)
  {
    var n := |Preorder(f.kids)| + 1;
    assert Preorder(f)[0] == f.id && Preorder(g)[0] == g.id;
    assert Preorder(f)[1..n] == Preorder(f.kids) && Preorder(g)[1..n] == Preorder(g.kids);
    assert Preorder(f)[n..] == Preorder(f.rest) && Preorder(g)[n..] == Preorder(g.rest);
  }

  /** A tree over the same nodes in source order is the finalised one if and only if its
      parents are those the open symbols tell. */
  lemma FinalizeExact(root: Node, kids: Forest, d: Forest, t: Traits, p: Field)
    requires Distinct([root] + Preorder(kids)) && Preorder(d) == Preorder(kids) && Placed(d, root, p)
    ensures d == Finalize(Cons(root, kids, Nil), t).kids <==> Follows(kids, [], root, t, p)
  {
    hide Finalize, Distinct, Follows, Placed;
    var r := Finalize(Cons(root, kids, Nil), t);
    FinalizeTail(Cons(root, kids, Nil), t);
    OnlyKids(root, kids, r);
    DistinctParts([root], Preorder(kids));
    assert root in [root];
    if d == r.kids {
      TreeFollows(root, kids, t, p);
    }
    if Follows(kids, [], root, t, p) {
      var q := ParentsOf(r.kids, root);
      ParentsPlaced(r.kids, root);
      TreeFollows(root, kids, t, q);
      forall n | n in Preorder(kids)
        ensures Get(p, n) == Get(q, n)
      {
        FollowsUnique(kids, [], root, t, p, q, n);
      }
      PlacedSame(d, root, p, q);
      TreeUnique(d, r.kids, root, q);
    }
  }

  lemma OnlyKids(root: Node, kids: Forest, r: Forest)
    requires r.Cons? && Preorder(r) == Preorder(Cons(root, kids, Nil)) && Tail(r.rest, Nil)
    ensures Preorder(r.kids) == Preorder(kids)
  {
    OneList(root, kids);
    OneList(r.id, r.kids);
    assert r == Cons(r.id, r.kids, Nil);
  }

  lemma OneList(id: Node, kids: Forest)
    ensures Preorder(Cons(id, kids, Nil))[1..] == Preorder(kids)
  {
    assert Preorder(Cons(id, kids, Nil)) == [id] + Preorder(kids) + [];
  }
}
