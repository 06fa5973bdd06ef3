/** Writing a configuration: a walk over the menu tree without a stack, and the file it
    produces. */
module ConfWriter {
  import opened Tristate
  import opened MenuForest
  import opened MenuLinks
  import opened ConfText

  // ----- the walk -----

  /** A node is entered once, and left again if it has children. */
  datatype Event = Enter(node: Node) | Leave(node: Node)

  function Trace(f: Forest): seq<Event> {
    match f
    case Nil => []
    case Cons(id, kids, rest) => [Enter(id)] + Trace(kids) + (if kids.Cons? then [Leave(id)] else []) + Trace(rest)
  }

  function Entered(t: seq<Event>): seq<Node> {
    if t == [] then [] else (if t[0].Enter? then [t[0].node] else []) + Entered(t[1..])
  }

  lemma {:induction false} EnteredAppend(a: seq<Event>, b: seq<Event>)
    ensures Entered(a + b) == Entered(a) + Entered(b)
  {
    if a == [] {
      assert a + b == b;
    } else {
      assert (a + b)[1..] == a[1..] + b;
      EnteredAppend(a[1..], b);
    }
  }

  /** The nodes are entered in source order, each as often as it occurs in the tree. */
  lemma {:induction false} TracePreorder(f: Forest)
    ensures Entered(Trace(f)) == Preorder(f)
  {
    if f.Cons? {
      var kids, rest, leave := Trace(f.kids), Trace(f.rest), if f.kids.Cons? then [Leave(f.id)] else [];
      TracePreorder(f.kids);
      TracePreorder(f.rest);
      assert Entered([Enter(f.id)]) == [f.id] && Entered(leave) == [];
      EnteredAppend([Enter(f.id)], kids);
      EnteredAppend([Enter(f.id)] + kids, leave);
      EnteredAppend([Enter(f.id)] + kids + leave, rest);
    }
  }

  /** Where the walk is: below the root, or below a node p that still has siblings. */
  datatype Place = Top(root: Node) | In(p: Node, rest: Forest, up: Place)

  function ParentOf(z: Place): Node { if z.Top? then z.root else z.p }

  /** What remains once the present list of siblings is done. */
  function After(z: Place): seq<Event> {
    match z
    case Top(root) => [Leave(root)]
    case In(p, rest, up) => [Leave(p)] + Trace(rest) + After(up)
  }

  ghost predicate PlaceOk(k: Links, z: Place) {
    match z
    case Top(root) => Get(k.parent, root) == None && Get(k.next, root) == None
    case In(p, rest, up) =>
      Get(k.parent, p) == Some(ParentOf(up)) && Segment(k, Get(k.next, p), Some(ParentOf(up)), rest, None)
          && PlaceOk(k, up)
  }

  ghost predicate At(k: Links, menu: Option<Node>, todo: Forest, z: Place) {
    Segment(k, menu, Some(ParentOf(z)), todo, None) && PlaceOk(k, z)
  }

  lemma Down(k: Links, todo: Forest, z: Place)
    requires todo.Cons? && At(k, Some(todo.id), todo, z)
    ensures Get(k.list, todo.id).Some? == todo.kids.Cons? && Get(k.next, todo.id).Some? == todo.rest.Cons?
    ensures At(k, Get(k.list, todo.id), todo.kids, In(todo.id, todo.rest, z))
              && At(k, Get(k.next, todo.id), todo.rest, z)
    ensures todo.kids.Cons? ==>
              Trace(todo) + After(z) == [Enter(todo.id)] + (Trace(todo.kids) + After(In(todo.id, todo.rest, z)))
    ensures !todo.kids.Cons? ==> Trace(todo) + After(z) == [Enter(todo.id)] + (Trace(todo.rest) + After(z))
    ensures todo.kids.Cons? ==> Get(k.list, todo.id) == Some(todo.kids.id)
    ensures todo.rest.Cons? ==> Get(k.next, todo.id) == Some(todo.rest.id)
    ensures Get(k.parent, todo.id) == Some(ParentOf(z))
  {
    var id, kids, rest := todo.id, todo.kids, todo.rest;
    assert Segment(k, Get(k.list, id), Some(id), kids, None)
        && Segment(k, Get(k.next, id), Some(ParentOf(z)), rest, None);
    HeadOf(k, Get(k.list, id), Some(id), kids, None);
    HeadOf(k, Get(k.next, id), Some(ParentOf(z)), rest, None);
    hide Segment;
    TraceDown(todo, z);
  }

  lemma TraceDown(todo: Forest, z: Place)
    requires todo.Cons?
    ensures todo.kids.Cons? ==>
              Trace(todo) + After(z) == [Enter(todo.id)] + (Trace(todo.kids) + After(In(todo.id, todo.rest, z)))
    ensures !todo.kids.Cons? ==> Trace(todo) + After(z) == [Enter(todo.id)] + (Trace(todo.rest) + After(z))
  {
    var a, b, c := Trace(todo.kids), Trace(todo.rest), After(z);
    assert [Enter(todo.id)] + a + [Leave(todo.id)] + b + c == [Enter(todo.id)] + (a + ([Leave(todo.id)] + b + c));
    assert [Enter(todo.id)] + [] + [] + b + c == [Enter(todo.id)] + (b + c);
  }

  lemma Up(k: Links, z: Place)
    requires PlaceOk(k, z)
    ensures z.Top? ==> Get(k.next, ParentOf(z)) == None == Get(k.parent, ParentOf(z))
    ensures z.In? ==> At(k, Get(k.next, z.p), z.rest, z.up) && After(z) == [Leave(z.p)] + (Trace(z.rest) + After(z.up))
    ensures z.In? ==> Get(k.next, z.p).Some? == z.rest.Cons? && Get(k.parent, z.p) == Some(ParentOf(z.up))
    ensures z.In? && z.rest.Cons? ==> Get(k.next, z.p) == Some(z.rest.id)
  {
    if z.In? {
      assert Segment(k, Get(k.next, z.p), Some(ParentOf(z.up)), z.rest, None);
      HeadOf(k, Get(k.next, z.p), Some(ParentOf(z.up)), z.rest, None);
      hide Segment;
      assert [Leave(z.p)] + Trace(z.rest) + After(z.up) == [Leave(z.p)] + (Trace(z.rest) + After(z.up));
    }
  }

  // ----- what is written -----

  datatype Menu = Menu(sym: Option<string>, prompt: string, visible: bool)

  datatype SymState = SymState(choice: bool, write: bool, value: Value)

  datatype Contents = Contents(root: Node, menu: Node -> Menu, state: string -> SymState)

  datatype Output = Output(items: seq<Item>, written: set<string>, needNewline: bool)

  predicate Writable(x: Contents, name: string) { !x.state(name).choice && x.state(name).write }

  function OnEnter(x: Contents, o: Output, n: Node): Output {
    var m := x.menu(n);
    if m.sym.None? then
      if m.visible then o.(items := o.items + [Blank, Bare, Remark(m.prompt), Bare], needNewline := false) else o
    else
      var name := m.sym.value;
      if name !in o.written && Writable(x, name) then
        Output(o.items + (if o.needNewline then [Blank] else []) + [Setting(name, x.state(name).value)],
            o.written + {name}, false)
      else o
  }

  function OnLeave(x: Contents, o: Output, n: Node): Output {
    var m := x.menu(n);
    if m.sym.None? && m.visible && n != x.root then
      o.(items := o.items + [Remark("end of " + m.prompt)], needNewline := true)
    else o
  }

  function OnEvent(x: Contents, o: Output, e: Event): Output {
    if e.Enter? then OnEnter(x, o, e.node) else OnLeave(x, o, e.node)
  }

  function Run(x: Contents, o: Output, t: seq<Event>): Output
    decreases |t|
  {
    if t == [] then o else Run(x, OnEvent(x, o, t[0]), t[1..])
  }

  const NOTE := "Automatically generated file; DO NOT EDIT."

  function Heading(prompt: string): seq<Item> {
    [Bare, Remark(NOTE), Remark(prompt), Bare]
  }

  lemma RunStep(x: Contents, o: Output, e: Event, t: seq<Event>)
    ensures Run(x, o, [e] + t) == Run(x, OnEvent(x, o, e), t)
  {
    assert ([e] + t)[1..] == t;
  }

  /** Walks the menu tree without a stack and collects what is written. */
  class Writer {
    const x: Contents
    const k: Links
    var items: seq<Item>
    var written: set<string>
    var needNewline: bool

    constructor (x: Contents, k: Links)
      ensures this.x == x && this.k == k && Now() == Output([], {}, false)
    {
      this.x, this.k, items, written, needNewline := x, k, [], {}, false;
    }

    ghost function Now(): Output
      reads this
    {
      Output(items, written, needNewline)
    }

    method Visit(n: Node)
      modifies this
      ensures Now() == OnEnter(x, old(Now()), n)
    {
      var m := x.menu(n);
      if m.sym.None? {
        if m.visible {
          items := items + [Blank, Bare, Remark(m.prompt), Bare];
          needNewline := false;
        }
      } else if !x.state(m.sym.value).choice && m.sym.value !in written {
        if x.state(m.sym.value).write {
          if needNewline {
            items := items + [Blank];
            needNewline := false;
          }
          written := written + {m.sym.value};
          items := items + [Setting(m.sym.value, x.state(m.sym.value).value)];
        }
      }
    }

    method Depart(n: Node)
      modifies this
      ensures Now() == OnLeave(x, old(Now()), n)
    {
      var m := x.menu(n);
      if m.sym.None? && m.visible && n != x.root {
        items := items + [Remark("end of " + m.prompt)];
        needNewline := true;
      }
    }

    /** From the last of some siblings up to the next node that has a sibling. */
    method Climb(from: Node, ghost z0: Place, ghost goal: Output)
      returns (menu: Option<Node>, ghost todo: Forest, ghost z: Place)
      requires PlaceOk(k, z0) && Get(k.parent, from) == Some(ParentOf(z0)) && Run(x, Now(), After(z0)) == goal
      modifies this
      ensures menu.None? ==> Now() == goal
      ensures menu.Some? ==>
                At(k, menu, todo, z) && todo.Cons? && Some(todo.id) == menu && |Trace(todo) + After(z)| < |After(z0)|
      ensures menu.Some? ==> Run(x, Now(), Trace(todo) + After(z)) == goal
    {
      hide Segment, PlaceOk, Trace, After;
      menu, todo, z := Get(k.parent, from), Nil, z0;
      while menu.Some?
        invariant menu.Some? ==> PlaceOk(k, z) && menu.value == ParentOf(z) && |After(z)| <= |After(z0)|
        invariant if menu.Some? then Run(x, Now(), After(z)) == goal else Now() == goal
        decreases if menu.Some? then |After(z)| else 0, menu
      {
        var n := menu.value;
        Up(k, z);
        LastUp(z);
        RunStep(x, Now(), Leave(n), if z.Top? then [] else Trace(z.rest) + After(z.up));
        Depart(n);
        if Get(k.next, n).Some? {
          menu, todo, z := Get(k.next, n), z.rest, z.up;
          return;
        }
        menu := Get(k.parent, n);
        if z.In? {
          NothingLeft(z.rest, z.up);
          z := z.up;
        }
      }
    }

    /** Walks the tree; every node is entered in source order, and nothing else happens. */
    method Walk(ghost kids: Forest)
      requires Segment(k, Get(k.list, x.root), Some(x.root), kids, None)
      requires Get(k.parent, x.root) == None && Get(k.next, x.root) == None
      modifies this
      ensures Now() == Run(x, old(Now()), if kids.Cons? then Trace(kids) + [Leave(x.root)] else [])
    {
      hide Segment, PlaceOk, Trace, After, Run;
      ghost var todo, z := kids, Top(x.root);
      ghost var goal := Run(x, Now(), if kids.Cons? then Trace(kids) + [Leave(x.root)] else []);
      Begin(k, x, kids);
      RunNothing(x, Now());
      var menu := Get(k.list, x.root);
      while menu.Some?
        invariant menu.Some? ==> At(k, menu, todo, z) && todo.Cons? && menu.value == todo.id
        invariant menu.Some? ==> Run(x, Now(), Trace(todo) + After(z)) == goal
        invariant menu.None? ==> Now() == goal
        decreases if menu.Some? then 1 + |Trace(todo) + After(z)| else 0
      {
        var n := menu.value;
        Down(k, todo, z);
        if Get(k.list, n).Some? {
          RunStep(x, Now(), Enter(n), Trace(todo.kids) + After(In(n, todo.rest, z)));
          Visit(n);
          menu, z, todo := Get(k.list, n), In(n, todo.rest, z), todo.kids;
        } else {
          RunStep(x, Now(), Enter(n), Trace(todo.rest) + After(z));
          Visit(n);
          if Get(k.next, n).Some? {
            menu, todo := Get(k.next, n), todo.rest;
          } else {
            NothingLeft(todo.rest, z);
            menu, todo, z := Climb(n, z, goal);
          }
        }
      }
    }
  }

  lemma NothingLeft(rest: Forest, z: Place)
    requires rest == Nil
    ensures Trace(rest) + After(z) == After(z)
  {}

  lemma LastUp(z: Place)
    ensures z.Top? ==> After(z) == [Leave(z.root)] + []
    ensures z.In? ==> |After(z)| == 1 + |Trace(z.rest) + After(z.up)|
  {}

  lemma RunNothing(x: Contents, o: Output)
    ensures Run(x, o, []) == o
  {}

  lemma Begin(k: Links, x: Contents, kids: Forest)
    requires Segment(k, Get(k.list, x.root), Some(x.root), kids, None)
    requires Get(k.parent, x.root) == None && Get(k.next, x.root) == None
    ensures At(k, Get(k.list, x.root), kids, Top(x.root)) && After(Top(x.root)) == [Leave(x.root)]
    ensures Get(k.list, x.root) == if kids.Cons? then Some(kids.id) else None
  {}

  // ----- the file -----

  /** The symbols whose values the events write. */
  function Wanted(x: Contents, t: seq<Event>): set<string> {
    set e | e in t && e.Enter? && x.menu(e.node).sym.Some?
        && Writable(x, x.menu(e.node).sym.value) :: x.menu(e.node).sym.value
  }

  /** Each symbol is written once, and what is written are the wanted ones. */
  ghost predicate Once(items: seq<Item>, written: set<string>) {
    && (forall i, j :: 0 <= i < j < |items| && items[i].Setting? && items[j].Setting? ==>
        items[i].name != items[j].name)
    && (forall it :: it in items && it.Setting? ==> it.name in written)
    && (forall name :: name in written ==> exists it :: it in items && it.Setting? && it.name == name)
  }

  lemma OnceMore(items: seq<Item>, written: set<string>, more: seq<Item>)
    requires Once(items, written) && forall it :: it in more ==> !it.Setting?
    ensures Once(items + more, written)
  {
    forall name | name in written
      ensures exists it :: it in items + more && it.Setting? && it.name == name
    {
      var it :| it in items && it.Setting? && it.name == name;
      assert it in items + more;
    }
  }

  lemma OnceSetting(items: seq<Item>, written: set<string>, name: string, v: Value)
    requires Once(items, written) && name !in written
    ensures Once(items + [Setting(name, v)], written + {name})
  {
    var items' := items + [Setting(name, v)];
    forall n | n in written + {name}
      ensures exists it :: it in items' && it.Setting? && it.name == n
    {
      if n == name {
        assert Setting(name, v) in items';
      } else {
        var it :| it in items && it.Setting? && it.name == n;
        assert it in items';
      }
    }
    forall i, j | 0 <= i < j < |items'| && items'[i].Setting? && items'[j].Setting?
      ensures items'[i].name != items'[j].name
    {
      if j == |items| {
        assert items[i] in items;
      }
    }
  }

  lemma EventOnce(x: Contents, o: Output, e: Event)
    requires Once(o.items, o.written)
    ensures var o' := OnEvent(x, o, e); Once(o'.items, o'.written) && o'.written == o.written + Wanted(x, [e])
  {
    hide Once;
    var m := x.menu(e.node);
    if e.Leave? {
      OnceMore(o.items, o.written, [Remark("end of " + m.prompt)]);
    } else if m.sym.None? {
      OnceMore(o.items, o.written, [Blank, Bare, Remark(m.prompt), Bare]);
    } else {
      assert Writable(x, m.sym.value) ==> Wanted(x, [e]) == {m.sym.value} by { assert e in [e]; }
      if m.sym.value !in o.written && Writable(x, m.sym.value) {
        var more := if o.needNewline then [Blank] else [];
        OnceMore(o.items, o.written, more);
        OnceSetting(o.items + more, o.written, m.sym.value, x.state(m.sym.value).value);
      }
    }
  }

  lemma {:induction false} RunOnce(x: Contents, o: Output, t: seq<Event>)
    requires Once(o.items, o.written)
    ensures var r := Run(x, o, t); Once(r.items, r.written) && r.written == o.written + Wanted(x, t)
    decreases |t|
  {
    hide Once, OnEvent;
    if t != [] {
      EventOnce(x, o, t[0]);
      RunOnce(x, OnEvent(x, o, t[0]), t[1..]);
      WantedSplit(x, t);
    }
  }

  lemma WantedSplit(x: Contents, t: seq<Event>)
    requires t != []
    ensures Wanted(x, t) == Wanted(x, [t[0]]) + Wanted(x, t[1..])
  {
    assert t == [t[0]] + t[1..];
    forall name | name in Wanted(x, t)
      ensures name in Wanted(x, [t[0]]) + Wanted(x, t[1..])
    {
      var e :| e in t && e.Enter? && x.menu(e.node).sym == Some(name) && Writable(x, name);
      assert e in [t[0]] || e in t[1..];
    }
    forall name | name in Wanted(x, [t[0]]) + Wanted(x, t[1..])
      ensures name in Wanted(x, t)
    {
      if name in Wanted(x, [t[0]]) {
        assert t[0] in t;
      } else {
        var e :| e in t[1..] && e.Enter? && x.menu(e.node).sym == Some(name) && Writable(x, name);
        assert e in t;
      }
    }
  }

  /** Names are words, values storable, and no title reads as a switched-off symbol. */
  ghost predicate GoodContents(decls: Decls, x: Contents) {
    && (forall name :: Writable(x, name) ==> GoodName(name) && Storable(TypeOf(decls, name), x.state(name).value))
    && (forall n :: x.menu(n).sym.None? && x.menu(n).visible ==>
        OneLine(x.menu(n).prompt) && !Misleads(decls, x.menu(n).prompt))
    && OneLine(x.menu(x.root).prompt) && !Misleads(decls, x.menu(x.root).prompt)
  }

  /** Every item can be read back, and settings carry the symbol's value. */
  ghost predicate Faithful(decls: Decls, x: Contents, items: seq<Item>) {
    forall it :: it in items ==> GoodItem(decls, it) && (it.Setting? ==> it.value == x.state(it.name).value)
  }

  lemma EventFaithful(decls: Decls, x: Contents, o: Output, e: Event)
    requires GoodContents(decls, x) && Faithful(decls, x, o.items)
    ensures Faithful(decls, x, OnEvent(x, o, e).items)
  {
    hide OneLine, Misleads, Storable, GoodName;
    EndHarmless(decls, x.menu(e.node).prompt);
  }

  lemma EndHarmless(decls: Decls, prompt: string)
    ensures !Misleads(decls, "end of " + prompt) && (OneLine(prompt) ==> OneLine("end of " + prompt))
  {
    hide Misleads;
    OtherStart(decls, "end of " + prompt);
    assert '\n' !in "end of " && '\0' !in "end of ";
  }

  lemma {:induction false} RunFaithful(decls: Decls, x: Contents, o: Output, t: seq<Event>)
    requires GoodContents(decls, x) && Faithful(decls, x, o.items)
    ensures Faithful(decls, x, Run(x, o, t).items)
    decreases |t|
  {
    hide Faithful, GoodContents, OnEvent;
    if t != [] {
      EventFaithful(decls, x, o, t[0]);
      RunFaithful(decls, x, OnEvent(x, o, t[0]), t[1..]);
    }
  }

  lemma HeadingFaithful(decls: Decls, x: Contents)
    requires GoodContents(decls, x)
    ensures Faithful(decls, x, Heading(x.menu(x.root).prompt))
    ensures forall it :: it in Heading(x.menu(x.root).prompt) ==> !it.Setting?
  {
    hide Storable, GoodName, Misleads, OneLine;
    NoteHarmless(decls);
  }

  lemma NoteHarmless(decls: Decls)
    ensures OneLine(NOTE) && !Misleads(decls, NOTE)
  {
    hide Misleads, OneLine;
    NoteStart();
    OtherStart(decls, NOTE);
    NoteWords();
    NoteParts();
    OneLineParts("Automatically", " generated");
    OneLineParts("Automatically" + " generated", " file;");
    OneLineParts("Automatically" + " generated" + " file;", " DO NOT EDIT.");
  }

  lemma NoteStart()
    ensures NOTE != "" && NOTE[0] != 'C'
  {}

  lemma NoteWords()
    ensures NOTE == "Automatically" + " generated" + " file;" + " DO NOT EDIT."
  {}

  lemma NoteParts()
    ensures OneLine("Automatically") && OneLine(" generated") && OneLine(" file;") && OneLine(" DO NOT EDIT.")
  {}

  lemma OneLineParts(a: string, b: string)
    requires OneLine(a) && OneLine(b)
    ensures OneLine(a + b)
  {}

  lemma OtherStart(decls: Decls, text: string)
    requires text != "" && text[0] != 'C'
    ensures !Misleads(decls, text)
  {
    assert PREFIX[0] == 'C';
  }

  /** The values that settings in a list leave behind. */
  lemma {:induction false} Applied(x: Contents, st: Settings, items: seq<Item>)
    requires forall it :: it in items && it.Setting? ==> it.value == x.state(it.name).value
    ensures var r := ApplyItems(st, items);
            forall name :: (exists it :: it in items && it.Setting? && it.name == name) ==>
                name in r && r[name] == x.state(name).value
    ensures var r := ApplyItems(st, items);
            forall name :: !(exists it :: it in items && it.Setting? && it.name == name) ==>
                (name in r <==> name in st) && (name in r ==> r[name] == st[name])
    decreases |items|
  {
    if items != [] {
      var rest := items[1..];
      assert items == [items[0]] + rest;
      Applied(x, ApplyItem(st, items[0]), rest);
      assert forall it :: it in items <==> it == items[0] || it in rest;
    }
  }

  /** Writing the tree and reading the file gives exactly the symbols that are to be
      written, each with its value, whatever the shape of the tree. */
  lemma WriteRead(decls: Decls, x: Contents, t: seq<Event>)
    requires GoodContents(decls, x)
    ensures var items := Heading(x.menu(x.root).prompt) + Run(x, Output([], {}, false), t).items;
            Read(decls, map[], FileText(decls, items)) == map name | name in Wanted(x, t) :: x.state(name).value
  {
    hide GoodContents, GoodItem, Read, Wanted, Run, Heading;
    var head, r := Heading(x.menu(x.root).prompt), Run(x, Output([], {}, false), t);
    var items := head + r.items;
    HeadingFaithful(decls, x);
    RunFaithful(decls, x, Output([], {}, false), t);
    RunOnce(x, Output([], {}, false), t);
    FileRead(decls, map[], items);
    Applied(x, map[], items);
    var result, wanted := ApplyItems(map[], items), map name | name in Wanted(x, t) :: x.state(name).value;
    forall name
      ensures name in result <==> name in wanted
      ensures name in wanted ==> result[name] == wanted[name]
    {
      if name in wanted {
        var it :| it in r.items && it.Setting? && it.name == name;
        assert it in items;
      }
      assert forall it :: it in items && it.Setting? ==> it in r.items;
    }
    assert result.Keys == wanted.Keys;
  }

  /** What is wanted are the writable symbols of the nodes below the root. */
  lemma WantedNodes(x: Contents, f: Forest)
    ensures forall name :: name in Wanted(x, Trace(f) + [Leave(x.root)]) <==>
              Writable(x, name) && exists n :: n in Preorder(f) && x.menu(n).sym == Some(name)
  {
    var t := Trace(f) + [Leave(x.root)];
    TracePreorder(f);
    EnteredAppend(Trace(f), [Leave(x.root)]);
    assert Entered([Leave(x.root)]) == [] && Entered(t) == Preorder(f);
    forall n ensures n in Entered(t) <==> Enter(n) in t { EnteredIn(t, n); }
    forall name | Writable(x, name) && exists n :: n in Preorder(f) && x.menu(n).sym == Some(name)
      ensures name in Wanted(x, t)
    {
      var n :| n in Preorder(f) && x.menu(n).sym == Some(name);
      assert Enter(n) in t;
    }
    forall name | name in Wanted(x, t)
      ensures Writable(x, name) && exists n :: n in Preorder(f) && x.menu(n).sym == Some(name)
    {
      var e :| e in t && e.Enter? && x.menu(e.node).sym == Some(name) && Writable(x, name);
      assert e == Enter(e.node) && e.node in Preorder(f);
    }
  }

  lemma {:induction false} EnteredIn(t: seq<Event>, n: Node)
    ensures n in Entered(t) <==> Enter(n) in t
  {
    if t != [] {
      EnteredIn(t[1..], n);
      assert t == [t[0]] + t[1..];
    }
  }
}
