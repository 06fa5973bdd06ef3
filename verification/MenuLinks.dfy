/** Menu trees in memory: first child, next sibling and parent of each node. */
module MenuLinks {
  import opened Tristate
  import opened MenuForest

  type Field = map<Node, Option<Node>>

  /** A field never written is null. */
  function Get(field: Field, n: Node): Option<Node> { if n in field then field[n] else None }

  datatype Links = Links(list: Field, next: Field, parent: Field)

  /** From `start` up to `end` the links hold the siblings f with all below them, and
      every parent link agrees with the list the node is in. */
  ghost predicate Segment(k: Links, start: Option<Node>, up: Option<Node>, f: Forest, end: Option<Node>)
    decreases f
  {
    match f
    case Nil => start == end
    case Cons(id, kids, rest) =>
      && start == Some(id)
      && Get(k.parent, id) == up
      && Segment(k, Get(k.list, id), Some(id), kids, None)
      && Segment(k, Get(k.next, id), up, rest, end)
  }

  lemma HeadOf(k: Links, start: Option<Node>, up: Option<Node>, f: Forest, end: Option<Node>)
    requires Segment(k, start, up, f, end)
    ensures start == if f.Cons? then Some(f.id) else end
  {}

  ghost predicate SameAt(k1: Links, k2: Links, n: Node) {
    Get(k1.list, n) == Get(k2.list, n) && Get(k1.next, n) == Get(k2.next, n) && Get(k1.parent, n) == Get(k2.parent, n)
  }

  /** Only links of the given nodes differ. */
  ghost predicate OnlyAt(k1: Links, k2: Links, nodes: seq<Node>) {
    forall n :: n !in nodes ==> SameAt(k1, k2, n)
  }

  lemma {:induction false} SegmentSame(k1: Links, k2: Links, start: Option<Node>, up: Option<Node>, f: Forest,
                                       end: Option<Node>)
    requires Segment(k1, start, up, f, end) && forall n :: n in Preorder(f) ==> SameAt(k1, k2, n)
    ensures Segment(k2, start, up, f, end)
    decreases f
  {
    if f.Cons? {
      assert f.id in Preorder(f);
      SegmentSame(k1, k2, Get(k1.list, f.id), Some(f.id), f.kids, None);
      SegmentSame(k1, k2, Get(k1.next, f.id), up, f.rest, end);
    }
  }

  lemma SegmentFrame(k1: Links, k2: Links, start: Option<Node>, up: Option<Node>, f: Forest, end: Option<Node>,
                     nodes: seq<Node>)
    requires Segment(k1, start, up, f, end) && OnlyAt(k1, k2, nodes) && Apart(Preorder(f), nodes)
    ensures Segment(k2, start, up, f, end)
  {
    SegmentSame(k1, k2, start, up, f, end);
  }

  lemma {:induction false} SegmentAppend(k: Links, start: Option<Node>, up: Option<Node>, f: Forest,
                                         mid: Option<Node>, g: Forest, end: Option<Node>)
    requires Segment(k, start, up, f, mid) && Segment(k, mid, up, g, end)
    ensures Segment(k, start, up, Append(f, g), end)
    decreases f
  {
    if f.Cons? {
      SegmentAppend(k, Get(k.next, f.id), up, f.rest, mid, g, end);
    }
  }

  lemma {:induction false} AppendAssoc(f: Forest, g: Forest, h: Forest)
    ensures Append(Append(f, g), h) == Append(f, Append(g, h))
  {
    if f.Cons? {
      AppendAssoc(f.rest, g, h);
    }
  }

  lemma {:induction false} AppendTops(f: Forest, g: Forest)
    ensures Tops(Append(f, g)) == Tops(f) + Tops(g)
  {
    if f.Cons? {
      AppendTops(f.rest, g);
    }
  }

  lemma {:induction false} TopsInPreorder(f: Forest)
    ensures forall n :: n in Tops(f) ==> n in Preorder(f)
  {
    if f.Cons? {
      TopsInPreorder(f.rest);
    }
  }
}
