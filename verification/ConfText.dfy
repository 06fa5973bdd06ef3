/** The text of configuration files: how a value is written, and what reading any text
    makes of it. */
module ConfText {
  import opened Tristate
  import opened Expressions

  datatype Value = TriValue(tri: Tri) | TextValue(text: string)

  /** The types of the declared symbols by name, and the values read so far. */
  type Decls = map<string, SymType>
  type Settings = map<string, Value>

  const PREFIX := "CONFIG_"
  const NOT_SET := "is not set"

  // ----- strings -----

  /** The position of a character, or the length if there is none. */
  function IndexOf(s: string, c: char): (i: nat)
    ensures i <= |s| && (i < |s| ==> s[i] == c) && c !in s[..i]
  {
    if s == "" || s[0] == c then 0 else 1 + IndexOf(s[1..], c)
  }

  function Upto(s: string, c: char): string { s[..IndexOf(s, c)] }

  lemma {:induction false} IndexAt(a: string, c: char, b: string)
    requires c !in a
    ensures IndexOf(a + [c] + b, c) == |a| && Upto(a + [c] + b, c) == a
  {
    var s := a + [c] + b;
    if a != "" {
      assert s[1..] == a[1..] + [c] + b;
      IndexAt(a[1..], c, b);
    }
  }

  lemma {:induction false} IndexNone(a: string, c: char)
    requires c !in a
    ensures IndexOf(a, c) == |a| && Upto(a, c) == a
  {
    if a != "" {
      IndexNone(a[1..], c);
    }
  }

  /** Quotes and backslashes are preceded by a backslash. */
  function EscapeBody(s: string): string {
    if s == "" then ""
    else (if s[0] == '"' || s[0] == '\\' then ['\\', s[0]] else [s[0]]) + EscapeBody(s[1..])
  }

  function Escape(s: string): string { "\"" + EscapeBody(s) + "\"" }

  function Prepend(c: char, s: Option<string>): Option<string> { if s.None? then None else Some([c] + s.value) }

  /** The text behind an opening quote up to the closing one, if there is one. */
  function Unescape(t: string): Option<string> {
    if t == "" then None
    else if t[0] == '"' then Some("")
    else if t[0] != '\\' then Prepend(t[0], Unescape(t[1..]))
    else if |t| == 1 then None
    else Prepend(t[1], Unescape(t[2..]))
  }

  lemma {:induction false} UnescapeEscape(s: string, rest: string)
    ensures Unescape(EscapeBody(s) + "\"" + rest) == Some(s)
  {
    var t := EscapeBody(s) + "\"" + rest;
    if s != "" {
      var u := EscapeBody(s[1..]) + "\"" + rest;
      UnescapeEscape(s[1..], rest);
      assert s == [s[0]] + s[1..];
      if s[0] == '"' || s[0] == '\\' {
        assert t[0] == '\\' && t[1] == s[0] && t[2..] == u;
      } else {
        assert t[0] == s[0] && t[1..] == u;
      }
    }
  }

  lemma {:induction false} EscapeKeeps(s: string, c: char)
    requires c != '\\'
    ensures c in EscapeBody(s) <==> c in s
  {
    if s != "" {
      EscapeKeeps(s[1..], c);
    }
  }

  lemma {:induction false} UnescapeChars(t: string, c: char)
    requires c !in t
    ensures Unescape(t).Some? ==> c !in Unescape(t).value
  {
    if t != "" && t[0] != '"' {
      if t[0] != '\\' {
        UnescapeChars(t[1..], c);
      } else if |t| > 1 {
        UnescapeChars(t[2..], c);
      }
    }
  }

  // ----- values -----

  predicate Digits(s: string, hex: bool) {
    forall i :: 0 <= i < |s| ==> '0' <= s[i] <= '9' || (hex && ('a' <= s[i] <= 'f' || 'A' <= s[i] <= 'F'))
  }

  predicate IntValid(s: string) {
    var d := if s != "" && s[0] == '-' then s[1..] else s;
    d != "" && Digits(d, false) && (d[0] == '0' ==> |d| == 1)
  }

  predicate HexValid(s: string) {
    var d := if |s| >= 2 && s[0] == '0' && (s[1] == 'x' || s[1] == 'X') then s[2..] else s;
    d != "" && Digits(d, true)
  }

  predicate StringValid(typ: SymType, s: string) {
    typ == String || (typ == Int && IntValid(s)) || (typ == Hex && HexValid(s))
  }

  predicate OneLine(s: string) { '\n' !in s && '\0' !in s }

  lemma NumbersAreOneLine(s: string)
    requires IntValid(s) || HexValid(s)
    ensures OneLine(s) && s != "" && '\r' !in s
  {}

  /** What a configuration file can hold for a symbol of a type. */
  predicate Storable(typ: SymType, v: Value) {
    match typ
    case Boolean => v.TriValue? && v.tri != MOD
    case TristateType => v.TriValue?
    case Unknown => false
    case _ => v.TextValue? && OneLine(v.text) && StringValid(typ, v.text)
  }

  /** Reads the text of a value; nothing is stored for an invalid one. */
  function ParseValue(typ: SymType, p: string): Option<Value> {
    match typ
    case Boolean | TristateType =>
      if p == "" then None
      else if typ == TristateType && p[0] == 'm' then Some(TriValue(MOD))
      else if p[0] == 'y' then Some(TriValue(YES))
      else if p[0] == 'n' then Some(TriValue(NO))
      else None
    case String =>
      if p == "" || p[0] != '"' then None
      else (match Unescape(p[1..]) case None => None case Some(s) => Some(TextValue(s)))
    case Int | Hex => if StringValid(typ, p) then Some(TextValue(p)) else None
    case Unknown => None
  }

  // ----- reading -----

  /** The names y, m and n belong to the built-in constants. */
  function TypeOf(decls: Decls, name: string): SymType {
    if name in decls && name != "y" && name != "m" && name != "n" then decls[name] else Unknown
  }

  function Store(st: Settings, name: string, v: Option<Value>): Settings { if v.None? then st else st[name := v.value] }

  /** A comment line switches a bool or tristate symbol off if it says so. */
  function ReadComment(decls: Decls, st: Settings, body: string): Settings {
    if !(PREFIX <= body) then st
    else
      var q := body[|PREFIX|..];
      var i := IndexOf(q, ' ');
      if i == |q| || !(NOT_SET <= q[i + 1..]) then st
      else
        var typ := TypeOf(decls, q[..i]);
        if typ == Boolean || typ == TristateType then st[q[..i] := TriValue(NO)] else st
  }

  /** The value text of an assignment, without the end of the line. */
  function ValueText(p: string): string {
    var v := Upto(p, '\n');
    if |v| < |p| && v != "" && v[|v| - 1] == '\r' then v[..|v| - 1] else v
  }

  function ReadAssignment(decls: Decls, st: Settings, q: string): Settings {
    var i := IndexOf(q, '=');
    if i == |q| then st else Store(st, q[..i], ParseValue(TypeOf(decls, q[..i]), ValueText(q[i + 1..])))
  }

  /** Reads one line; a line of C text ends at the first NUL. */
  function ReadLine(decls: Decls, st: Settings, raw: string): Settings {
    var line := Upto(raw, '\0');
    if line == "" then st
    else if line[0] == '#' then (if |line| < 2 then st else ReadComment(decls, st, line[2..]))
    else if PREFIX <= line then ReadAssignment(decls, st, line[|PREFIX|..])
    else st
  }

  function FirstLine(text: string): (n: nat)
    requires text != ""
    ensures 1 <= n <= |text|
  {
    var i := IndexOf(text, '\n');
    if i < |text| then i + 1 else i
  }

  function Read(decls: Decls, st: Settings, text: string): Settings
    decreases |text|
  {
    if text == "" then st
    else Read(decls, ReadLine(decls, st, text[..FirstLine(text)]), text[FirstLine(text)..])
  }

  // ----- whatever is read is storable -----

  ghost predicate AllStorable(decls: Decls, st: Settings) {
    forall name :: name in st ==> Storable(TypeOf(decls, name), st[name])
  }

  lemma UptoSubset(s: string, c: char, d: char)
    requires d !in s
    ensures d !in Upto(s, c) && d !in ValueText(s)
  {}

  lemma ParsedStorable(typ: SymType, p: string)
    requires OneLine(p) && ParseValue(typ, p).Some?
    ensures Storable(typ, ParseValue(typ, p).value)
  {
    if typ == String {
      UnescapeChars(p[1..], '\n');
      UnescapeChars(p[1..], '\0');
    }
  }

  lemma ReadLineStorable(decls: Decls, st: Settings, raw: string)
    requires AllStorable(decls, st)
    ensures AllStorable(decls, ReadLine(decls, st, raw))
  {
    hide ParseValue, Storable;
    var line := Upto(raw, '\0');
    if line != "" && line[0] == '#' && |line| >= 2 {
      CommentStorable(decls, st, line[2..]);
    } else if line != "" && line[0] != '#' && PREFIX <= line {
      var q := line[|PREFIX|..];
      var i := IndexOf(q, '=');
      if i < |q| {
        var p := q[i + 1..];
        assert '\0' !in line && '\0' !in p;
        UptoSubset(p, '\n', '\0');
        assert OneLine(ValueText(p));
        if ParseValue(TypeOf(decls, q[..i]), ValueText(p)).Some? {
          ParsedStorable(TypeOf(decls, q[..i]), ValueText(p));
        }
      }
    }
  }

  lemma CommentStorable(decls: Decls, st: Settings, body: string)
    requires AllStorable(decls, st)
    ensures AllStorable(decls, ReadComment(decls, st, body))
  {}

  /** No text whatsoever makes the reader store a value its type does not allow. */
  lemma {:induction false} ReadStorable(decls: Decls, st: Settings, text: string)
    requires AllStorable(decls, st)
    ensures AllStorable(decls, Read(decls, st, text))
    decreases |text|
  {
    hide AllStorable, ReadLine;
    if text != "" {
      ReadLineStorable(decls, st, text[..FirstLine(text)]);
      ReadStorable(decls, ReadLine(decls, st, text[..FirstLine(text)]), text[FirstLine(text)..]);
    }
  }

  // ----- writing -----

  /** The line for a symbol: switched-off bool and tristate symbols are comments. */
  function SettingLine(typ: SymType, name: string, v: Value): string {
    match v
    case TriValue(t) =>
      if t == NO then "# " + PREFIX + name + " " + NOT_SET + "\n" else PREFIX + name + "=" + TriName(t) + "\n"
    case TextValue(s) => PREFIX + name + "=" + (if typ == String then Escape(s) else s) + "\n"
  }

  /** A word of the configuration language that is not a built-in constant. */
  predicate GoodName(name: string) {
    && (forall c :: c in name ==> 'a' <= c <= 'z' || 'A' <= c <= 'Z' || '0' <= c <= '9' || c == '_')
    && name != "y" && name != "m" && name != "n"
  }

  lemma NotSetLine(decls: Decls, st: Settings, name: string)
    requires GoodName(name) && (TypeOf(decls, name) == Boolean || TypeOf(decls, name) == TristateType)
    ensures ReadLine(decls, st, "# " + PREFIX + name + " " + NOT_SET + "\n") == st[name := TriValue(NO)]
  {
    hide IndexOf;
    var line := "# " + PREFIX + name + " " + NOT_SET + "\n";
    assert '\0' !in line;
    IndexNone(line, '\0');
    var q := name + [' '] + (NOT_SET + "\n");
    assert line[2..] == PREFIX + q && (PREFIX + q)[|PREFIX|..] == q;
    IndexAt(name, ' ', NOT_SET + "\n");
    assert q[..|name|] == name && q[|name| + 1..] == NOT_SET + "\n";
  }

  lemma ValueTextOf(v: string)
    requires OneLine(v) && (v == "" || v[|v| - 1] != '\r')
    ensures ValueText(v + "\n") == v
  {
    assert v + ['\n'] + "" == v + "\n";
    IndexAt(v, '\n', "");
  }

  lemma ReadAssigned(decls: Decls, st: Settings, q: string)
    requires '\0' !in q
    ensures ReadLine(decls, st, PREFIX + q) == ReadAssignment(decls, st, q)
  {
    hide ReadAssignment;
    var line := PREFIX + q;
    assert '\0' !in PREFIX && '\0' !in line;
    IndexNone(line, '\0');
    assert line[|PREFIX|..] == q && line[0] == 'C';
  }

  lemma AssignmentLine(decls: Decls, st: Settings, name: string, v: string)
    requires GoodName(name) && OneLine(v) && (v == "" || v[|v| - 1] != '\r')
    ensures ReadLine(decls, st, PREFIX + name + "=" + v + "\n") == Store(st, name, ParseValue(TypeOf(decls, name), v))
  {
    hide ParseValue, ReadLine, ValueText, IndexOf;
    var q := name + ['='] + (v + "\n");
    assert '\0' !in name && '=' !in name;
    ReadAssigned(decls, st, q);
    assert PREFIX + q == PREFIX + name + "=" + v + "\n";
    IndexAt(name, '=', v + "\n");
    assert q[..|name|] == name && q[|name| + 1..] == v + "\n";
    ValueTextOf(v);
  }

  lemma ParseWritten(typ: SymType, v: Value)
    requires Storable(typ, v)
    ensures v.TriValue? ==> ParseValue(typ, TriName(v.tri)) == Some(v)
    ensures v.TextValue? ==> ParseValue(typ, if typ == String then Escape(v.text) else v.text) == Some(v)
  {
    if typ == String {
      UnescapeEscape(v.text, "");
      assert EscapeBody(v.text) + "\"" + "" == EscapeBody(v.text) + "\"";
      assert Escape(v.text)[1..] == EscapeBody(v.text) + "\"";
    }
  }

  /** Reading the line of a storable value stores exactly that value. */
  lemma SettingRead(decls: Decls, st: Settings, name: string, v: Value)
    requires GoodName(name) && Storable(TypeOf(decls, name), v)
    ensures ReadLine(decls, st, SettingLine(TypeOf(decls, name), name, v)) == st[name := v]
  {
    hide ReadLine, ParseValue;
    var typ := TypeOf(decls, name);
    ParseWritten(typ, v);
    match v
    case TriValue(t) =>
      if t == NO {
        NotSetLine(decls, st, name);
      } else {
        AssignmentLine(decls, st, name, TriName(t));
      }
    case TextValue(s) =>
      if typ == String {
        EscapeKeeps(s, '\n');
        EscapeKeeps(s, '\0');
        AssignmentLine(decls, st, name, Escape(s));
      } else {
        NumbersAreOneLine(s);
        AssignmentLine(decls, st, name, s);
      }
  }

  lemma SettingOneLine(typ: SymType, name: string, v: Value)
    requires GoodName(name) && Storable(typ, v)
    ensures var line := SettingLine(typ, name, v); line != "" && '\n' !in line[..|line| - 1] && line[|line| - 1] == '\n'
  {
    if typ == String {
      EscapeKeeps(v.text, '\n');
    }
  }

  lemma ReadNextLine(decls: Decls, st: Settings, line: string, rest: string)
    requires line != "" && '\n' !in line[..|line| - 1] && line[|line| - 1] == '\n'
    ensures Read(decls, st, line + rest) == Read(decls, ReadLine(decls, st, line), rest)
  {
    var text, body := line + rest, line[..|line| - 1];
    assert text == body + ['\n'] + rest;
    IndexAt(body, '\n', rest);
    assert FirstLine(text) == |line| && text[..|line|] == line && text[|line|..] == rest;
  }

  /** A value written alone is read back if and only if it is storable: a bool symbol
      cannot be m, numbers have to be valid, and text cannot span lines. */
  lemma WriteReadExact(decls: Decls, name: string, v: Value)
    requires GoodName(name) && TypeOf(decls, name) != Unknown
    requires v.TriValue? <==> TypeOf(decls, name) == Boolean || TypeOf(decls, name) == TristateType
    ensures (var r := Read(decls, map[], SettingLine(TypeOf(decls, name), name, v)); name in r && r[name] == v)
            <==> Storable(TypeOf(decls, name), v)
  {
    hide ReadLine, SettingLine, Storable;
    var typ := TypeOf(decls, name);
    var line := SettingLine(typ, name, v);
    if Storable(typ, v) {
      SettingRead(decls, map[], name, v);
      SettingOneLine(typ, name, v);
      ReadNextLine(decls, map[], line, "");
      assert line + "" == line;
    }
    ReadStorable(decls, map[], line);
  }

  // ----- whole files -----

  datatype Item = Setting(name: string, value: Value) | Remark(text: string) | Bare | Blank

  function ItemText(decls: Decls, it: Item): string {
    match it
    case Setting(name, v) => SettingLine(TypeOf(decls, name), name, v)
    case Remark(text) => "# " + text + "\n"
    case Bare => "#\n"
    case Blank => "\n"
  }

  function FileText(decls: Decls, items: seq<Item>): string {
    if items == [] then "" else ItemText(decls, items[0]) + FileText(decls, items[1..])
  }

  /** A remark that reads as a switched-off symbol, and the name it mentions. */
  function Named(text: string): string {
    if PREFIX <= text then Upto(text[|PREFIX|..], ' ') else ""
  }

  predicate Misleads(decls: Decls, text: string) {
    && PREFIX <= text
    && (var q := text[|PREFIX|..];
        var i := IndexOf(q, ' ');
        i < |q| && NOT_SET <= q[i + 1..])
    && (TypeOf(decls, Named(text)) == Boolean || TypeOf(decls, Named(text)) == TristateType)
  }

  lemma PrefixNewline(a: string, b: string)
    requires '\n' !in b
    ensures b <= a + "\n" <==> b <= a
  {
    assert b <= a + "\n" && |b| > |a| ==> b == a + "\n";
  }

  lemma {:induction false} IndexAppend(a: string, c: char, b: string)
    ensures IndexOf(a, c) < |a| ==> IndexOf(a + b, c) == IndexOf(a, c)
    ensures IndexOf(a, c) == |a| ==> IndexOf(a + b, c) == |a| + IndexOf(b, c)
  {
    if a == "" {
      assert a + b == b;
    } else {
      assert (a + b)[1..] == a[1..] + b;
      IndexAppend(a[1..], c, b);
    }
  }

  lemma RemarkRead(decls: Decls, st: Settings, text: string)
    requires OneLine(text)
    ensures ReadComment(decls, st, text + "\n") == if Misleads(decls, text) then st[Named(text) := TriValue(NO)] else st
  {
    hide IndexOf;
    assert '\n' !in PREFIX && '\n' !in NOT_SET;
    PrefixNewline(text, PREFIX);
    if PREFIX <= text {
      var q := text[|PREFIX|..];
      assert (text + "\n")[|PREFIX|..] == q + "\n";
      IndexAppend(q, ' ', "\n");
      IndexNone("\n", ' ');
      var i := IndexOf(q, ' ');
      if i < |q| {
        assert (q + "\n")[i + 1..] == q[i + 1..] + "\n" && (q + "\n")[..i] == q[..i];
        PrefixNewline(q[i + 1..], NOT_SET);
      }
    }
  }

  /** A remark leaves all values alone if and only if it does not read as switching off
      a declared symbol that is not off already. */
  lemma RemarkExact(decls: Decls, st: Settings, text: string)
    requires OneLine(text)
    ensures ReadLine(decls, st, "# " + text + "\n") == st
            <==> !Misleads(decls, text) || (Named(text) in st && st[Named(text)] == TriValue(NO))
  {
    hide ReadComment, Misleads, Named;
    var line := "# " + text + "\n";
    IndexNone(line, '\0');
    assert line[2..] == text + "\n";
    RemarkRead(decls, st, text);
    var st' := st[Named(text) := TriValue(NO)];
    assert Named(text) in st' && st'[Named(text)] == TriValue(NO);
    if Named(text) in st && st[Named(text)] == TriValue(NO) {
      assert st' == st;
    }
  }

  ghost predicate GoodItem(decls: Decls, it: Item) {
    match it
    case Setting(name, v) => GoodName(name) && Storable(TypeOf(decls, name), v)
    case Remark(text) => OneLine(text) && !Misleads(decls, text)
    case _ => true
  }

  function ApplyItem(st: Settings, it: Item): Settings { if it.Setting? then st[it.name := it.value] else st }

  function ApplyItems(st: Settings, items: seq<Item>): Settings
    decreases |items|
  {
    if items == [] then st else ApplyItems(ApplyItem(st, items[0]), items[1..])
  }

  lemma ItemRead(decls: Decls, st: Settings, it: Item, rest: string)
    requires GoodItem(decls, it)
    ensures Read(decls, st, ItemText(decls, it) + rest) == Read(decls, ApplyItem(st, it), rest)
  {
    hide ReadLine, SettingLine, Storable, Misleads;
    var line := ItemText(decls, it);
    PlainLine(decls, st);
    if it.Setting? {
      SettingRead(decls, st, it.name, it.value);
      SettingOneLine(TypeOf(decls, it.name), it.name, it.value);
    } else if it.Remark? {
      RemarkExact(decls, st, it.text);
    }
    ReadNextLine(decls, st, line, rest);
  }

  lemma PlainLine(decls: Decls, st: Settings)
    ensures ReadLine(decls, st, "#\n") == st && ReadLine(decls, st, "\n") == st
  {
    IndexNone("#\n", '\0');
    IndexNone("\n", '\0');
  }

  /** Reading a written file gives every symbol the last value written for it. */
  lemma {:induction false} FileRead(decls: Decls, st: Settings, items: seq<Item>)
    requires forall it :: it in items ==> GoodItem(decls, it)
    ensures Read(decls, st, FileText(decls, items)) == ApplyItems(st, items)
    decreases |items|
  {
    hide ItemText, GoodItem, ReadLine;
    if items != [] {
      assert items[0] in items;
      ItemRead(decls, st, items[0], FileText(decls, items[1..]));
      FileRead(decls, ApplyItem(st, items[0]), items[1..]);
    }
  }

  /** A menu titled "CONFIG_FOO is not set" switches FOO off when the file is read. */
  lemma TitleMisleads(decls: Decls, name: string, v: Value)
    requires GoodName(name) && (TypeOf(decls, name) == Boolean || TypeOf(decls, name) == TristateType)
    requires Storable(TypeOf(decls, name), v)
    ensures Read(decls, map[], FileText(decls, [Setting(name, v), Remark(PREFIX + name + " " + NOT_SET)]))
              == map[name := TriValue(NO)]
  {
    hide ReadLine, SettingLine, Storable, Read, GoodName, TypeOf;
    var title, st := PREFIX + name + " " + NOT_SET, map[name := v];
    var items, line := [Setting(name, v), Remark(title)], "# " + title + "\n";
    assert line == "# " + PREFIX + name + " " + NOT_SET + "\n";
    NotSetLine(decls, st, name);
    TitleOneLine(name);
    assert items[1..] == [Remark(title)] && items[1..][1..] == [] && FileText(decls, []) == "";
    assert FileText(decls, items[1..]) == line + "";
    ItemRead(decls, map[], items[0], line + "");
    assert line[..|line| - 1] == "# " + title;
    ReadNextLine(decls, st, line, "");
    ReadNothing(decls, ReadLine(decls, st, line));
  }

  lemma ReadNothing(decls: Decls, st: Settings)
    ensures Read(decls, st, "") == st
  {}

  lemma TitleOneLine(name: string)
    requires GoodName(name)
    ensures '\n' !in "# " + (PREFIX + name + " " + NOT_SET)
  {}
}
