/** Menu trees as values: children and following siblings of each node, and what
    finalisation makes of them. */
module MenuForest {
  type Node = nat

  /** A list of siblings, each with its children. */
  datatype Forest = Nil | Cons(id: Node, kids: Forest, rest: Forest)

  /** All nodes in source order. */
  function Preorder(f: Forest): seq<Node> {
    match f
    case Nil => []
    case Cons(id, kids, rest) => [id] + Preorder(kids) + Preorder(rest)
  }

  function Append(f: Forest, g: Forest): (r: Forest)
    ensures Preorder(r) == Preorder(f) + Preorder(g)
  {
    match f
    case Nil => g
    case Cons(id, kids, rest) => Cons(id, kids, Append(rest, g))
  }

  /** The siblings themselves, without their children. */
  function Tops(f: Forest): seq<Node> {
    match f
    case Nil => []
    case Cons(id, _, rest) => [id] + Tops(rest)
  }

  predicate Distinct(s: seq<Node>) { forall i, j :: 0 <= i < j < |s| ==> s[i] != s[j] }

  ghost predicate Apart(s1: seq<Node>, s2: seq<Node>) { forall n :: n in s1 ==> n !in s2 }

  lemma DistinctParts(a: seq<Node>, b: seq<Node>)
    requires Distinct(a + b)
    ensures Distinct(a) && Distinct(b) && Apart(a, b) && Apart(b, a)
  {
    assert forall i :: 0 <= i < |a| ==> (a + b)[i] == a[i];
    assert forall j :: 0 <= j < |b| ==> (a + b)[|a| + j] == b[j];
  }

  /** What finalisation depends on: the nodes that represent a symbol, the nodes
      with a prompt text, and the answers of the submenu test. */
  datatype Traits = Traits(symbols: set<Node>, prompted: set<Node>, accepts: (Node, Node) -> bool)

  /** Children of nodes without a prompt move up, behind their parent. */
  function Flatten(f: Forest, prompted: set<Node>): (r: Forest)
    ensures Preorder(r) == Preorder(f)
    decreases |Preorder(f)|
  {
    match f
    case Nil => Nil
    case Cons(id, kids, rest) =>
      if kids != Nil && id !in prompted then
        assert |Preorder(Append(kids, rest))| < |Preorder(f)|;
        Cons(id, Nil, Flatten(Append(kids, rest), prompted))
      else
        Cons(id, kids, Flatten(rest, prompted))
  }

  /** Finalises the first node of a list. A node with children has them finalised; a
      symbol without children takes the items that follow it and depend on it. */
  function Finalize(f: Forest, t: Traits): (r: Forest)
    requires f.Cons?
    ensures r.Cons? && r.id == f.id
    ensures Preorder(r) == Preorder(f)
    decreases |Preorder(f)|, 1
  {
    if f.kids != Nil then Cons(f.id, Flatten(FinalizeAll(f.kids, t), t.prompted), f.rest)
    else if f.id in t.symbols then
      var (taken, left) := Absorb(f.id, f.rest, t);
      Cons(f.id, Flatten(taken, t.prompted), left)
    else f
  }

  function FinalizeAll(f: Forest, t: Traits): (r: Forest)
    ensures Preorder(r) == Preorder(f)
    decreases |Preorder(f)|, 2
  {
    if f == Nil then Nil
    else
      var g := Finalize(f, t);
      assert |Preorder(g.rest)| < |Preorder(f)|;
      Cons(g.id, g.kids, FinalizeAll(g.rest, t))
  }

  /** Items finalised and taken from the front of a list while the test accepts, and
      the list that is left. */
  function Absorb(id: Node, f: Forest, t: Traits): (r: (Forest, Forest))
    ensures Preorder(r.0) + Preorder(r.1) == Preorder(f)
    decreases |Preorder(f)|, 2
  {
    if f != Nil && t.accepts(id, f.id) then
      var g := Finalize(f, t);
      assert |Preorder(g.rest)| < |Preorder(f)|;
      var a := Absorb(id, g.rest, t);
      SplitRest(g, a.0, a.1);
      (Cons(g.id, g.kids, a.0), a.1)
    else
      (Nil, f)
  }

  lemma SplitRest(g: Forest, taken: Forest, left: Forest)
    requires g.Cons? && Preorder(taken) + Preorder(left) == Preorder(g.rest)
    ensures Preorder(Cons(g.id, g.kids, taken)) + Preorder(left) == Preorder(g)
  {
    var head := [g.id] + Preorder(g.kids);
    assert head + Preorder(taken) + Preorder(left) == head + (Preorder(taken) + Preorder(left));
  }

  // ----- no promptless node keeps children -----

  predicate Clean(f: Forest, prompted: set<Node>) {
    f.Cons? ==> (f.id !in prompted ==> f.kids == Nil) && Clean(f.kids, prompted) && Clean(f.rest, prompted)
  }

  predicate CleanBelow(f: Forest, prompted: set<Node>) {
    f.Cons? ==> Clean(f.kids, prompted) && CleanBelow(f.rest, prompted)
  }

  lemma CleanAppend(f: Forest, g: Forest, prompted: set<Node>)
    requires Clean(f, prompted) && CleanBelow(g, prompted)
    ensures CleanBelow(Append(f, g), prompted)
  {}

  lemma {:induction false} FlattenClean(f: Forest, prompted: set<Node>)
    requires CleanBelow(f, prompted)
    ensures Clean(Flatten(f, prompted), prompted)
    decreases |Preorder(f)|
  {
    if f.Cons? {
      if f.kids != Nil && f.id !in prompted {
        CleanAppend(f.kids, f.rest, prompted);
        assert |Preorder(Append(f.kids, f.rest))| < |Preorder(f)|;
        FlattenClean(Append(f.kids, f.rest), prompted);
      } else {
        FlattenClean(f.rest, prompted);
      }
    }
  }

  /** After finalisation no promptless node below the finalised one has children. */
  lemma {:induction false} FinalizeClean(f: Forest, t: Traits)
    requires f.Cons?
    ensures Clean(Finalize(f, t).kids, t.prompted)
    decreases |Preorder(f)|, 1
  {
    if f.kids != Nil {
      AllClean(f.kids, t);
      FlattenClean(FinalizeAll(f.kids, t), t.prompted);
    } else if f.id in t.symbols {
      AbsorbClean(f.id, f.rest, t);
      FlattenClean(Absorb(f.id, f.rest, t).0, t.prompted);
    }
  }

  lemma {:induction false} AllClean(f: Forest, t: Traits)
    ensures CleanBelow(FinalizeAll(f, t), t.prompted)
    decreases |Preorder(f)|, 2
  {
    if f != Nil {
      FinalizeClean(f, t);
      assert |Preorder(Finalize(f, t).rest)| < |Preorder(f)|;
      AllClean(Finalize(f, t).rest, t);
    }
  }

  lemma {:induction false} AbsorbClean(id: Node, f: Forest, t: Traits)
    ensures CleanBelow(Absorb(id, f, t).0, t.prompted)
    decreases |Preorder(f)|, 2
  {
    if f != Nil && t.accepts(id, f.id) {
      FinalizeClean(f, t);
      assert |Preorder(Finalize(f, t).rest)| < |Preorder(f)|;
      AbsorbClean(id, Finalize(f, t).rest, t);
    }
  }

  /** A symbol takes every item up to the first one the test refuses, and no other. */
  lemma {:induction false} AbsorbMaximal(id: Node, f: Forest, t: Traits)
    ensures var (taken, left) := Absorb(id, f, t);
            && (forall m :: m in Tops(taken) ==> t.accepts(id, m))
            && (left.Cons? ==> !t.accepts(id, left.id))
    decreases |Preorder(f)|
  {
    if f != Nil && t.accepts(id, f.id) {
      assert |Preorder(Finalize(f, t).rest)| < |Preorder(f)|;
      AbsorbMaximal(id, Finalize(f, t).rest, t);
    }
  }

  /** What is left of a list is a tail of it, untouched. */
  predicate Tail(f: Forest, g: Forest) { f == g || (g.Cons? && Tail(f, g.rest)) }

  lemma TailTrans(f: Forest, g: Forest, h: Forest)
    requires Tail(f, g) && Tail(g, h)
    ensures Tail(f, h)
  {}

  lemma {:induction false} FinalizeTail(f: Forest, t: Traits)
    requires f.Cons?
    ensures Tail(Finalize(f, t).rest, f.rest)
    decreases |Preorder(f)|, 1
  {
    if f.kids == Nil && f.id in t.symbols {
      AbsorbTail(f.id, f.rest, t);
    }
  }

  lemma {:induction false} AbsorbTail(id: Node, f: Forest, t: Traits)
    ensures Tail(Absorb(id, f, t).1, f)
    decreases |Preorder(f)|, 2
  {
    if f != Nil && t.accepts(id, f.id) {
      FinalizeTail(f, t);
      assert |Preorder(Finalize(f, t).rest)| < |Preorder(f)|;
      AbsorbTail(id, Finalize(f, t).rest, t);
      TailTrans(Absorb(id, Finalize(f, t).rest, t).1, Finalize(f, t).rest, f.rest);
    }
  }

  // ----- items finalised one after the other -----

  ghost predicate Agree(t1: Traits, t2: Traits, nodes: seq<Node>) {
    && t1.symbols == t2.symbols && t1.prompted == t2.prompted
    && forall p, m :: p in nodes ==> t1.accepts(p, m) == t2.accepts(p, m)
  }

  /** Only the answers about the submenus of finalised nodes matter. */
  lemma {:induction false} FinalizeFrame(f: Forest, t1: Traits, t2: Traits)
    requires f.Cons? && Agree(t1, t2, [f.id] + Preorder(Finalize(f, t1).kids))
    ensures Finalize(f, t1) == Finalize(f, t2)
    decreases |Preorder(f)|, 1
  {
    if f.kids != Nil {
      AllFrame(f.kids, t1, t2);
    } else if f.id in t1.symbols {
      AbsorbFrame(f.id, f.rest, t1, t2);
    }
  }

  lemma {:induction false} AllFrame(f: Forest, t1: Traits, t2: Traits)
    requires Agree(t1, t2, Preorder(f))
    ensures FinalizeAll(f, t1) == FinalizeAll(f, t2)
    decreases |Preorder(f)|, 2
  {
    if f != Nil {
      var g := Finalize(f, t1);
      assert Preorder(f) == [g.id] + Preorder(g.kids) + Preorder(g.rest);
      FinalizeFrame(f, t1, t2);
      AllFrame(g.rest, t1, t2);
    }
  }

  lemma {:induction false} AbsorbFrame(id: Node, f: Forest, t1: Traits, t2: Traits)
    requires Agree(t1, t2, [id] + Preorder(Absorb(id, f, t1).0))
    ensures Absorb(id, f, t1) == Absorb(id, f, t2)
    decreases |Preorder(f)|, 2
  {
    assert id in [id] + Preorder(Absorb(id, f, t1).0);
    if f != Nil && t1.accepts(id, f.id) {
      var g := Finalize(f, t1);
      assert |Preorder(g.rest)| < |Preorder(f)|;
      assert Preorder(Absorb(id, f, t1).0) == [g.id] + Preorder(g.kids) + Preorder(Absorb(id, g.rest, t1).0);
      FinalizeFrame(f, t1, t2);
      AbsorbFrame(id, g.rest, t1, t2);
    }
  }

  /** Finalising f item by item has given `done` so far and has `todo` ahead. */
  ghost predicate Done(f: Forest, done: Forest, todo: Forest, t: Traits)
    decreases done
  {
    if done == Nil then f == todo
    else f.Cons? && var g := Finalize(f, t); g.id == done.id && g.kids == done.kids && Done(g.rest, done.rest, todo, t)
  }

  lemma {:induction false} DonePreorder(f: Forest, done: Forest, todo: Forest, t: Traits)
    requires Done(f, done, todo, t)
    ensures Preorder(done) + Preorder(todo) == Preorder(f) && Tail(todo, f)
    decreases done
  {
    if done != Nil {
      var g := Finalize(f, t);
      DonePreorder(g.rest, done.rest, todo, t);
      SplitRest(g, done.rest, todo);
      FinalizeTail(f, t);
      TailTrans(todo, g.rest, f.rest);
    }
  }

  lemma {:induction false} DoneStep(f: Forest, done: Forest, todo: Forest, t: Traits)
    requires Done(f, done, todo, t) && todo.Cons?
    ensures var g := Finalize(todo, t); Done(f, Append(done, Cons(g.id, g.kids, Nil)), g.rest, t)
    decreases done
  {
    if done != Nil {
      DoneStep(Finalize(f, t).rest, done.rest, todo, t);
    }
  }

  lemma {:induction false} DoneAll(f: Forest, done: Forest, t: Traits)
    requires Done(f, done, Nil, t)
    ensures FinalizeAll(f, t) == done
    decreases done
  {
    if done != Nil {
      DoneAll(Finalize(f, t).rest, done.rest, t);
    }
  }

  lemma {:induction false} DoneAbsorb(id: Node, f: Forest, done: Forest, todo: Forest, t: Traits)
    requires Done(f, done, todo, t) && (todo.Cons? ==> !t.accepts(id, todo.id))
    requires forall m :: m in Tops(done) ==> t.accepts(id, m)
    ensures Absorb(id, f, t) == (done, todo)
    decreases done
  {
    if done != Nil {
      assert done.id in Tops(done);
      DoneAbsorb(id, Finalize(f, t).rest, done.rest, todo, t);
    }
  }
}
