/** The order of what is written to a configuration file. */
module ConfLayout {
  import opened Tristate
  import opened MenuForest
  import opened ConfText
  import opened ConfWriter

  // ----- settings -----

  function Names(items: seq<Item>): seq<string> {
    if items == [] then [] else (if items[0].Setting? then [items[0].name] else []) + Names(items[1..])
  }

  lemma {:induction false} NamesAppend(a: seq<Item>, b: seq<Item>)
    ensures Names(a + b) == Names(a) + Names(b)
  {
    if a == [] {
      assert a + b == b;
    } else {
      assert (a + b)[1..] == a[1..] + b;
      NamesAppend(a[1..], b);
    }
  }

  /** The writable symbols of some nodes, each where it first occurs. */
  function Firsts(x: Contents, nodes: seq<Node>, seen: set<string>): seq<string>
    decreases |nodes|
  {
    if nodes == [] then []
    else
      var sym := x.menu(nodes[0]).sym;
      if sym.Some? && Writable(x, sym.value) && sym.value !in seen then
        [sym.value] + Firsts(x, nodes[1..], seen + {sym.value})
      else Firsts(x, nodes[1..], seen)
  }

  /** They are the symbols of these nodes that are no choices and to be written, each once. */
  lemma {:induction false} FirstsExact(x: Contents, nodes: seq<Node>, seen: set<string>, name: string)
    ensures name in Firsts(x, nodes, seen) <==>
              && name !in seen && !x.state(name).choice && x.state(name).write
              && exists n :: n in nodes && x.menu(n).sym == Some(name)
    ensures var s := Firsts(x, nodes, seen); forall i, j :: 0 <= i < j < |s| ==> s[i] != s[j]
    decreases |nodes|
  {
    if nodes != [] {
      var sym, rest := x.menu(nodes[0]).sym, nodes[1..];
      assert forall n :: n in nodes <==> n == nodes[0] || n in rest;
      FirstsExact(x, rest, seen, name);
      if sym.Some? && Writable(x, sym.value) && sym.value !in seen {
        FirstsExact(x, rest, seen + {sym.value}, name);
        FirstsExact(x, rest, seen + {sym.value}, sym.value);
      }
    }
  }

  lemma EventNames(x: Contents, o: Output, e: Event, rest: seq<Node>)
    ensures var r := OnEvent(x, o, e);
            Names(r.items) + Firsts(x, rest, r.written)
            == Names(o.items) + Firsts(x, if e.Enter? then [e.node] + rest else rest, o.written)
  {
    var m := x.menu(e.node);
    assert e.Enter? ==> ([e.node] + rest)[0] == e.node && ([e.node] + rest)[1..] == rest;
    if e.Leave? {
      NamesAppend(o.items, [Remark("end of " + m.prompt)]);
    } else if m.sym.None? {
      MenuItems(m.prompt);
      NamesAppend(o.items, [Blank, Bare, Remark(m.prompt), Bare]);
    } else {
      var gap: seq<Item> := if o.needNewline then [Blank] else [];
      var line := [Setting(m.sym.value, x.state(m.sym.value).value)];
      assert Names(gap) == [] && Names(line) == [m.sym.value];
      NamesAppend(o.items, gap);
      NamesAppend(o.items + gap, line);
    }
  }

  lemma MenuItems(prompt: string)
    ensures var items := [Blank, Bare, Remark(prompt), Bare]; Names(items) == [] && Titles(items) == [prompt]
  {
    var end: seq<Item> := [Bare];
    var title, edge := [Remark(prompt)], [Blank, Bare];
    assert edge[1..] == end && Names(end) == [] && Titles(end) == [] && Names(edge) == [] && Titles(edge) == [];
    assert title + end == [Remark(prompt), Bare] && (title + end)[1..] == end;
    assert edge + (title + end) == [Blank, Bare, Remark(prompt), Bare];
    NamesAppend(edge, title + end);
    TitlesAppend(edge, title + end);
  }

  lemma {:induction false} RunNames(x: Contents, o: Output, t: seq<Event>)
    ensures Names(Run(x, o, t).items) == Names(o.items) + Firsts(x, Entered(t), o.written)
    decreases |t|
  {
    hide OnEvent;
    if t != [] {
      RunNames(x, OnEvent(x, o, t[0]), t[1..]);
      EventNames(x, o, t[0], Entered(t[1..]));
      assert t[0].Leave? ==> Entered(t) == Entered(t[1..]);
    }
  }

  // ----- menus -----

  function Titles(items: seq<Item>): seq<string> {
    if items == [] then [] else (if items[0].Remark? then [items[0].text] else []) + Titles(items[1..])
  }

  lemma {:induction false} TitlesAppend(a: seq<Item>, b: seq<Item>)
    ensures Titles(a + b) == Titles(a) + Titles(b)
  {
    if a == [] {
      assert a + b == b;
    } else {
      assert (a + b)[1..] == a[1..] + b;
      TitlesAppend(a[1..], b);
    }
  }

  predicate Announced(x: Contents, n: Node) { x.menu(n).sym.None? && x.menu(n).visible }

  /** The prompts of visible menus around what they hold. */
  function Announcements(x: Contents, f: Forest): seq<string> {
    match f
    case Nil => []
    case Cons(id, kids, rest) =>
      var prompt := x.menu(id).prompt;
      (if Announced(x, id) then [prompt] else [])
      + Announcements(x, kids)
      + (if Announced(x, id) && kids.Cons? then ["end of " + prompt] else [])
      + Announcements(x, rest)
  }

  lemma EventTitles(x: Contents, o: Output, e: Event)
    ensures Titles(OnEvent(x, o, e).items)
         == Titles(o.items) + if !Announced(x, e.node) then [] else if e.Enter? then [x.menu(e.node).prompt]
                              else if e.node == x.root then [] else ["end of " + x.menu(e.node).prompt]
  {
    var m := x.menu(e.node);
    if e.Leave? {
      TitlesAppend(o.items, [Remark("end of " + m.prompt)]);
    } else if m.sym.None? {
      MenuItems(m.prompt);
      TitlesAppend(o.items, [Blank, Bare, Remark(m.prompt), Bare]);
    } else {
      var gap: seq<Item> := if o.needNewline then [Blank] else [];
      var line := [Setting(m.sym.value, x.state(m.sym.value).value)];
      TitlesAppend(o.items, gap);
      TitlesAppend(o.items + gap, line);
    }
  }

  lemma {:induction false} RunAppend(x: Contents, o: Output, a: seq<Event>, b: seq<Event>)
    ensures Run(x, o, a + b) == Run(x, Run(x, o, a), b)
    decreases |a|
  {
    if a == [] {
      assert a + b == b;
    } else {
      assert (a + b)[1..] == a[1..] + b;
      RunAppend(x, OnEvent(x, o, a[0]), a[1..], b);
    }
  }

  lemma RunOne(x: Contents, o: Output, e: Event)
    ensures Run(x, o, [e]) == OnEvent(x, o, e)
  {
    assert [e][1..] == [];
  }

  lemma {:induction false} RunTitles(x: Contents, o: Output, f: Forest)
    requires x.root !in Preorder(f)
    ensures Titles(Run(x, o, Trace(f)).items) == Titles(o.items) + Announcements(x, f)
    decreases f
  {
    hide OnEvent, Run, Titles;
    if f.Cons? {
      var enter, leave: seq<Event> := [Enter(f.id)], if f.kids.Cons? then [Leave(f.id)] else [];
      var kids, rest := Trace(f.kids), Trace(f.rest);
      RunAppend(x, o, enter + kids + leave, rest);
      RunAppend(x, o, enter + kids, leave);
      RunAppend(x, o, enter, kids);
      RunOne(x, o, Enter(f.id));
      EventTitles(x, o, Enter(f.id));
      var o1 := OnEvent(x, o, Enter(f.id));
      RunTitles(x, o1, f.kids);
      var o2 := Run(x, o1, kids);
      RunNothing(x, o2);
      RunOne(x, o2, Leave(f.id));
      EventTitles(x, o2, Leave(f.id));
      assert f.id in Preorder(f);
      RunTitles(x, Run(x, o2, leave), f.rest);
    } else {
      RunNothing(x, o);
    }
  }

  // ----- blank lines -----

  /** A setting never follows the end of a menu directly, and a blank line in front of one is
      there only for that. */
  predicate Spaced(items: seq<Item>) {
    forall i :: 0 < i < |items| && items[i].Setting? ==> SpacedAt(items, i)
  }

  predicate SpacedAt(items: seq<Item>, i: nat)
    requires 0 < i <= |items|
  {
    !items[i - 1].Remark? && (items[i - 1].Blank? ==> i > 1 && items[i - 2].Remark?)
  }

  predicate NewlineDue(o: Output) { o.needNewline <==> o.items != [] && o.items[|o.items| - 1].Remark? }

  predicate EndsBlank(items: seq<Item>) { items != [] && items[|items| - 1].Blank? }

  lemma EventSpaced(x: Contents, o: Output, e: Event)
    requires Spaced(o.items) && NewlineDue(o) && !EndsBlank(o.items)
    ensures var r := OnEvent(x, o, e); Spaced(r.items) && NewlineDue(r) && !EndsBlank(r.items)
  {
    hide Spaced;
    var m, a := x.menu(e.node), o.items;
    if e.Leave? {
      SpacedOther(a, Remark("end of " + m.prompt));
    } else if m.sym.None? {
      SpacedOther(a, Blank);
      SpacedOther(a + [Blank], Bare);
      SpacedOther(a + [Blank] + [Bare], Remark(m.prompt));
      SpacedOther(a + [Blank] + [Bare] + [Remark(m.prompt)], Bare);
      assert a + [Blank] + [Bare] + [Remark(m.prompt)] + [Bare] == a + [Blank, Bare, Remark(m.prompt), Bare];
    } else {
      var line := Setting(m.sym.value, x.state(m.sym.value).value);
      if o.needNewline {
        SpacedOther(a, Blank);
        SpacedSetting(a + [Blank], line);
      } else {
        SpacedSetting(a, line);
        assert a + [] == a;
      }
    }
  }

  lemma SpacedOther(items: seq<Item>, it: Item)
    requires Spaced(items) && !it.Setting?
    ensures Spaced(items + [it])
  {
    forall i | 0 < i < |items| && items[i].Setting?
      ensures SpacedAt(items + [it], i)
    {
      assert SpacedAt(items, i);
    }
  }

  lemma SpacedSetting(items: seq<Item>, it: Item)
    requires Spaced(items) && (items != [] ==> SpacedAt(items, |items|))
    ensures Spaced(items + [it])
  {
    forall i | 0 < i <= |items| && (items + [it])[i].Setting?
      ensures SpacedAt(items + [it], i)
    {
      assert SpacedAt(items, i);
    }
  }

  lemma {:induction false} RunSpaced(x: Contents, o: Output, t: seq<Event>)
    requires Spaced(o.items) && NewlineDue(o) && !EndsBlank(o.items)
    ensures Spaced(Run(x, o, t).items)
    decreases |t|
  {
    hide OnEvent, Spaced, NewlineDue, EndsBlank;
    if t != [] {
      EventSpaced(x, o, t[0]);
      RunSpaced(x, OnEvent(x, o, t[0]), t[1..]);
    }
  }

  /** A walk writes each writable symbol where it first occurs in source order, announces every
      visible menu around what it holds, and separates what follows the end of one. */
  lemma Layout(x: Contents, kids: Forest)
    requires x.root !in Preorder(kids)
    ensures var items := Run(x, Output([], {}, false), if kids.Cons? then Trace(kids) + [Leave(x.root)] else []).items;
            Names(items) == Firsts(x, Preorder(kids), {}) && Titles(items) == Announcements(x, kids) && Spaced(items)
  {
    hide Run, OnEvent, Spaced, Names, Titles, Firsts, Entered, Trace;
    var o, leave := Output([], {}, false), [Leave(x.root)];
    Nothing(x, o);
    if kids.Cons? {
      var t := Trace(kids) + leave;
      RunNames(x, o, t);
      EnteredAppend(Trace(kids), leave);
      TracePreorder(kids);
      assert Entered(t) == Preorder(kids);
      RunAppend(x, o, Trace(kids), leave);
      RunTitles(x, o, kids);
      RunOne(x, Run(x, o, Trace(kids)), Leave(x.root));
      EventTitles(x, Run(x, o, Trace(kids)), Leave(x.root));
      RunSpaced(x, o, t);
    }
  }

  lemma Nothing(x: Contents, o: Output)
    requires o.items == []
    ensures Names(o.items) == [] && Titles(o.items) == [] && Run(x, o, []) == o && Spaced([])
    ensures Firsts(x, [], {}) == [] && Entered([Leave(x.root)]) == []
  {
    assert [Leave(x.root)][1..] == [];
  }
}
