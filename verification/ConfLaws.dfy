/** The format of configuration files, line by line. */
module ConfLaws {
  import opened Tristate
  import opened Expressions
  import opened Numbers
  import opened Spelling
  import opened ConfText
  import opened ConfReader

  // ----- what is written -----

  /** Text without quotes and backslashes is written as it is; each of these gets a backslash
      in front. */
  lemma Escaped(a: string, c: char, b: string)
    requires '"' !in a && '\\' !in a
    ensures EscapeBody(a + b) == a + EscapeBody(b)
    ensures EscapeBody([c] + b) == (if c == '"' || c == '\\' then ['\\', c] else [c]) + EscapeBody(b)
  {
    EscapeAppend(a, b);
    EscapePlain(a);
    assert ([c] + b)[1..] == b;
  }

  /** A symbol that is n is written as a comment and read back from it. */
  lemma SwitchedOff(decls: Decls, st: Settings, name: string)
    requires GoodName(name) && (TypeOf(decls, name) == Boolean || TypeOf(decls, name) == TristateType)
    ensures var line := "# CONFIG_" + name + " is not set\n";
            SettingLine(TypeOf(decls, name), name, TriValue(NO)) == line
            && ReadLine(decls, st, line) == st[name := TriValue(NO)]
  {
    hide ReadLine;
    NotSetLine(decls, st, name);
    assert "# " + PREFIX + name + " " + NOT_SET + "\n" == "# CONFIG_" + name + " is not set\n";
  }

  // ----- lines that are read -----

  /** The line of an assignment may end in a carriage return. */
  lemma ReturnDropped(decls: Decls, st: Settings, name: string, v: string)
    requires GoodName(name) && OneLine(v)
    ensures ReadLine(decls, st, PREFIX + name + "=" + v + "\r\n") == Store(st, name, ParseValue(TypeOf(decls, name), v))
  {
    hide ParseValue, ReadLine, ValueText, IndexOf;
    var q := name + ['='] + (v + "\r\n");
    assert '\0' !in name && '=' !in name;
    ReadAssigned(decls, st, q);
    assert PREFIX + q == PREFIX + name + "=" + v + "\r\n";
    IndexAt(name, '=', v + "\r\n");
    assert q[..|name|] == name && q[|name| + 1..] == v + "\r\n";
    ReturnText(v);
  }

  lemma ReturnText(v: string)
    requires OneLine(v)
    ensures ValueText(v + "\r\n") == v
  {
    var w := v + "\r";
    assert w + ['\n'] + "" == v + "\r\n";
    IndexAt(w, '\n', "");
    assert w[..|w| - 1] == v;
  }

  /** A line that is neither an assignment nor a comment is ignored, and so is an assignment to
      an unknown symbol. */
  lemma OtherLines(decls: Decls, st: Settings, line: string, name: string, v: string)
    requires '\0' !in line && (line == "" || line[0] != '#') && !("CONFIG_" <= line && '=' in line)
    requires GoodName(name) && TypeOf(decls, name) == Unknown && OneLine(v) && (v == "" || v[|v| - 1] != '\r')
    ensures ReadLine(decls, st, line) == st
    ensures ReadLine(decls, st, "CONFIG_" + name + "=" + v + "\n") == st
  {
    AssignmentLine(decls, st, name, v);
    IndexNone(line, '\0');
    if PREFIX <= line {
      assert '=' !in line[|PREFIX|..];
      IndexNone(line[|PREFIX|..], '=');
    }
  }

  /** The built-in constants cannot be assigned, even if symbols are declared by these names. */
  lemma ConstantsIgnored(decls: Decls, st: Settings, name: string, v: string)
    requires (name == "y" || name == "m" || name == "n") && OneLine(v)
    ensures ReadLine(decls, st, "CONFIG_" + name + "=" + v + "\n") == st
  {
    hide ReadLine, IndexOf, ValueText;
    var q := name + ['='] + (v + "\n");
    ReadAssigned(decls, st, q);
    assert PREFIX + q == "CONFIG_" + name + "=" + v + "\n";
    IndexAt(name, '=', v + "\n");
    assert q[..|name|] == name;
  }

  /** Of a bool or tristate value only the first letter counts; m is no value of a bool. */
  lemma LogicalRead(typ: SymType, v: string)
    requires typ == Boolean || typ == TristateType
    ensures ParseValue(typ, v) ==
            if "y" <= v then Some(TriValue(YES)) else if "n" <= v then Some(TriValue(NO))
            else if "m" <= v && typ == TristateType then Some(TriValue(MOD)) else None
  {
    assert v != "" ==> forall c: char :: [c] <= v <==> v[0] == c;
  }

  /** A string value stands between quotes; what follows the second one is ignored. Without
      either quote there is no value, and a backslash stands for the character behind it. */
  lemma StringRead(a: string, c: char, rest: string)
    requires '"' !in a && '\\' !in a
    ensures ParseValue(String, "\"" + (a + ("\"" + rest))) == Some(TextValue(a))
    ensures ParseValue(String, "\"" + a) == None
    ensures !("\"" <= rest) ==> ParseValue(String, rest) == None
    ensures var v, w := ParseValue(String, "\"" + (a + ("\\" + [c] + rest))), ParseValue(String, "\"" + rest);
            if w.None? then v == None else w.value.TextValue? && v == Some(TextValue(a + ([c] + w.value.text)))
  {
    UnescapePlain(a, "\"" + rest);
    UnescapePlain(a, "");
    UnescapePlain(a, "\\" + [c] + rest);
    assert a + "" == a && ("\"" + a)[1..] == a && ("\"" + rest)[1..] == rest;
    assert ("\"" + (a + ("\"" + rest)))[1..] == a + ("\"" + rest);
    assert ("\"" + (a + ("\\" + [c] + rest)))[1..] == a + ("\\" + [c] + rest);
    assert ("\\" + [c] + rest)[2..] == rest && ("\\" + [c] + rest)[1] == c;
    assert rest != "" ==> ("\"" <= rest <==> rest[0] == '"');
  }

  // ----- numbers -----

  lemma DigitWritten(c: char)
    requires '0' <= c <= '9'
    ensures DigitValue(c) < 10 && Digit(DigitValue(c)) == c
  {}

  lemma {:induction false} Respelled(d: string)
    requires d != "" && AllDigits(d, 10) && (d[0] == '0' ==> |d| == 1)
    ensures Spelling.Digits(Magnitude(d, 10), 10) == d
    decreases |d|
  {
    var n := |d| - 1;
    DigitWritten(d[n]);
    if n > 0 {
      var m := Magnitude(d[..n], 10);
      Respelled(d[..n]);
      DigitsRead(m, 10);
      assert Magnitude(d, 10) == 10 * m + DigitValue(d[n]);
      assert d == d[..n] + [d[n]];
    }
  }

  lemma NumberSpelled(d: string) returns (m: nat)
    requires d != "" && AllDigits(d, 10) && (d[0] == '0' ==> |d| == 1)
    ensures Spelling.Digits(m, 10) == d && (m == 0 ==> d == "0")
  {
    m := Magnitude(d, 10);
    Respelled(d);
    hide Magnitude, Spelling.Digits, AllDigits;
    DigitsRead(m, 10);
  }

  lemma IntSpelled(s: string) returns (n: int)
    requires IntValid(s) && s != "-0"
    ensures s == Decimal(n)
  {
    var d := if s[0] == '-' then s[1..] else s;
    var m: int := NumberSpelled(d);
    n := if s[0] == '-' then -m else m;
    hide AllDigits, Spelling.Digits, ConfText.Digits;
    assert s[0] == '-' ==> s == "-" + d;
  }

  lemma DecimalValid(n: int)
    ensures IntValid(Decimal(n))
  {
    hide Magnitude, Spelling.Digits;
    var s := Decimal(n);
    DigitsRead(if n < 0 then -n else n, 10);
    assert n < 0 ==> s[0] == '-' && s[1..] == Spelling.Digits(-n, 10);
  }

  /** An int value is a decimal number as printed, or -0. */
  lemma IntExact(s: string)
    ensures IntValid(s) <==> s == "-0" || exists n :: s == Decimal(n)
  {
    hide IntValid, Decimal;
    if IntValid(s) && s != "-0" {
      var n := IntSpelled(s);
    }
    if n :| s == Decimal(n) {
      DecimalValid(n);
    }
    MinusNought();
  }

  lemma MinusNought()
    ensures IntValid("-0")
  {
    assert "-0"[1..] == "0";
  }

  predicate HexSpelling(s: string, d: string) {
    d != "" && AllDigits(d, 16) && (s == d || s == "0x" + d || s == "0X" + d)
  }

  /** A hex value is any number of hexadecimal digits, at least one, with or without 0x. */
  lemma HexExact(s: string)
    ensures HexValid(s) <==> exists d :: HexSpelling(s, d)
  {
    var d := if |s| >= 2 && s[0] == '0' && (s[1] == 'x' || s[1] == 'X') then s[2..] else s;
    if d != s {
      assert s == ['0', s[1]] + d;
      assert ['0', 'x'] == "0x" && ['0', 'X'] == "0X";
    }
    assert HexValid(s) ==> HexSpelling(s, d);
    forall e | HexSpelling(s, e)
      ensures HexValid(s)
    {
      assert s == e ==> d == s;
      assert s != e ==> s[2..] == e;
    }
  }
}
