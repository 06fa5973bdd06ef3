/** Saving a configuration and loading it again. */
module ConfFile {
  import opened Tristate
  import opened Expressions
  import opened MenuForest
  import opened MenuLinks
  import opened ConfText
  import opened ConfReader
  import opened ConfWriter
  import opened ConfLayout

  method PrintSymbol(typ: SymType, name: string, v: Value) returns (line: string)
    ensures line == SettingLine(typ, name, v)
  {
    match v
    case TriValue(t) =>
      if t == NO {
        line := "# " + PREFIX + name + " " + NOT_SET + "\n";
      } else {
        line := PREFIX + name + "=" + TriName(t) + "\n";
      }
    case TextValue(s) =>
      var str := s;
      if typ == String {
        str := EscapeValue(s);
      }
      line := PREFIX + name + "=" + str + "\n";
  }

  method PrintItem(decls: Decls, it: Item) returns (line: string)
    ensures line == ItemText(decls, it)
  {
    hide SettingLine;
    match it
    case Setting(name, v) => line := PrintSymbol(TypeOf(decls, name), name, v);
    case Remark(t) => line := "# " + t + "\n";
    case Bare => line := "#\n";
    case Blank => line := "\n";
  }

  /** Prints the items one after the other. */
  method Print(decls: Decls, items: seq<Item>) returns (text: string)
    ensures text == FileText(decls, items)
  {
    hide ItemText;
    text := "";
    for i := 0 to |items|
      invariant text + FileText(decls, items[i..]) == FileText(decls, items)
    {
      var line := PrintItem(decls, items[i]);
      ghost var rest := FileText(decls, items[i + 1..]);
      assert items[i..][1..] == items[i + 1..];
      assert text + (line + rest) == (text + line) + rest;
      text := text + line;
    }
    assert text + "" == text;
  }

  lemma {:induction false} Below(k: Links, start: Option<Node>, up: Node, f: Forest, end: Option<Node>, n: Node)
    requires Segment(k, start, Some(up), f, end) && n in Preorder(f)
    ensures Get(k.parent, n).Some?
    decreases f
  {
    if n != f.id {
      if n in Preorder(f.kids) {
        Below(k, Get(k.list, f.id), f.id, f.kids, None, n);
      } else {
        Below(k, Get(k.next, f.id), up, f.rest, end, n);
      }
    }
  }

  /** Walking the tree, printing, and reading the text back: the file holds the writable
      symbols in the order of the tree and announces its visible menus; the values loaded are
      those of the writable symbols that have a node below the root, and no others. */
  method SaveAndLoad(decls: Decls, x: Contents, k: Links, ghost kids: Forest)
    returns (text: string, values: Settings, ghost items: seq<Item>)
    requires GoodContents(decls, x)
    requires Segment(k, Get(k.list, x.root), Some(x.root), kids, None)
    requires Get(k.parent, x.root) == None && Get(k.next, x.root) == None
    ensures forall name :: name in values <==>
              Writable(x, name) && exists n :: n in Preorder(kids) && x.menu(n).sym == Some(name)
    ensures forall name :: name in values ==> values[name] == x.state(name).value
    ensures text == FileText(decls, Heading(x.menu(x.root).prompt) + items)
    ensures Names(items) == Firsts(x, Preorder(kids), {}) && Titles(items) == Announcements(x, kids) && Spaced(items)
  {
    hide GoodContents, Segment, Run, Read, Wanted, Writable, Heading, Trace, Spaced, FileText;
    var writer := new Writer(x, k);
    ghost var t := if kids.Cons? then Trace(kids) + [Leave(x.root)] else [];
    writer.Walk(kids);
    text := Print(decls, Heading(x.menu(x.root).prompt) + writer.items);
    items := writer.items;
    if x.root in Preorder(kids) {
      Below(k, Get(k.list, x.root), x.root, kids, None, x.root);
    }
    Layout(x, kids);
    var reader := new Reader(decls);
    reader.ReadSimple(text);
    values := reader.defs;
    WriteRead(decls, x, t);
    WantedNodes(x, kids);
    WantedNothing(x);
    assert kids == Nil ==> Trace(kids) + [Leave(x.root)] == [Leave(x.root)] by { TraceNil(); }
  }

  lemma TraceNil()
    ensures Trace(Nil) == []
  {}

  lemma WantedNothing(x: Contents)
    ensures Wanted(x, []) == {} == Wanted(x, [Leave(x.root)])
  {}
}
