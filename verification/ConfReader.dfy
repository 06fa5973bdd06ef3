/** Reading and escaping with character buffers that are cut and shifted in place. */
module ConfReader {
  import opened Tristate
  import opened Expressions
  import opened ConfText

  // ----- strings in buffers -----

  /** The string that starts at a position and ends before the first NUL. */
  function CString(buf: seq<char>, at: nat): string { if at <= |buf| then Upto(buf[at..], '\0') else "" }

  ghost predicate Terminated(buf: seq<char>, at: nat) { at < |buf| && '\0' in buf[at..] }

  lemma CStringIs(buf: seq<char>, at: nat, s: string)
    requires at + |s| < |buf| && buf[at..at + |s|] == s && '\0' !in s && buf[at + |s|] == '\0'
    ensures Terminated(buf, at) && CString(buf, at) == s
  {
    assert buf[at..] == s + ['\0'] + buf[at + |s| + 1..];
    IndexAt(s, '\0', buf[at + |s| + 1..]);
  }

  lemma CStringLayout(buf: seq<char>, at: nat)
    requires Terminated(buf, at)
    ensures var s := CString(buf, at);
            && at + |s| < |buf| && buf[at..at + |s|] == s && '\0' !in s && buf[at + |s|] == '\0'
            && forall i :: 0 <= i < |s| ==> s[i] == buf[at + i]
  {
    var n := IndexOf(buf[at..], '\0');
    assert buf[at..at + n] == buf[at..][..n];
    assert buf[at..][..|buf[at..]|] == buf[at..];
  }

  /** The string behind the first k characters. */
  lemma CStringTail(buf: seq<char>, at: nat, k: nat)
    requires Terminated(buf, at) && k <= |CString(buf, at)|
    ensures at + k < |buf| && Terminated(buf, at + k) && CString(buf, at + k) == CString(buf, at)[k..]
  {
    CStringLayout(buf, at);
    var s := CString(buf, at);
    assert buf[at + k..at + |s|] == buf[at..at + |s|][k..];
    CStringIs(buf, at + k, s[k..]);
  }

  /** Writing a NUL cuts a string in two. */
  lemma Cut(buf: seq<char>, at: nat, k: nat)
    requires Terminated(buf, at) && k < |CString(buf, at)|
    ensures at + k + 1 < |buf|
    ensures var cut, s := buf[at + k := '\0'], CString(buf, at);
            && Terminated(cut, at) && CString(cut, at) == s[..k]
            && Terminated(cut, at + k + 1) && CString(cut, at + k + 1) == s[k + 1..]
  {
    CStringLayout(buf, at);
    var cut, s := buf[at + k := '\0'], CString(buf, at);
    assert cut[at..at + k] == buf[at..at + |s|][..k];
    CStringIs(cut, at, s[..k]);
    assert cut[at + k + 1..at + |s|] == buf[at..at + |s|][k + 1..];
    CStringIs(cut, at + k + 1, s[k + 1..]);
  }

  method StrChr(buf: array<char>, at: nat, c: char) returns (found: bool, k: nat)
    requires Terminated(buf[..], at) && c != '\0'
    ensures k == IndexOf(CString(buf[..], at), c)
    ensures found <==> k < |CString(buf[..], at)|
  {
    ghost var s := CString(buf[..], at);
    CStringLayout(buf[..], at);
    k := 0;
    while buf[at + k] != '\0' && buf[at + k] != c
      invariant 0 <= k <= |s| && c !in s[..k]
      decreases |s| - k
    {
      assert s[..k + 1] == s[..k] + [s[k]];
      k := k + 1;
    }
    found := buf[at + k] != '\0';
    if found {
      assert s == s[..k] + [c] + s[k + 1..];
      IndexAt(s[..k], c, s[k + 1..]);
    } else {
      assert s[..k] == s;
      IndexNone(s, c);
    }
  }

  /** Whether the string at a position starts with a text. */
  method StartsAt(buf: array<char>, at: nat, text: string) returns (yes: bool)
    requires Terminated(buf[..], at) && '\0' !in text
    ensures yes <==> text <= CString(buf[..], at)
  {
    ghost var s := CString(buf[..], at);
    CStringLayout(buf[..], at);
    for k := 0 to |text|
      invariant k <= |s| && text[..k] == s[..k]
    {
      if buf[at + k] != text[k] {
        assert k < |s| ==> s[k] != text[k];
        return false;
      }
      assert k < |s|;
      assert text[..k + 1] == text[..k] + [text[k]] && s[..k + 1] == s[..k] + [s[k]];
    }
    assert text[..|text|] == text;
    return true;
  }

  // ----- unescaping in place -----

  function Glue(a: string, s: Option<string>): Option<string> { if s.None? then None else Some(a + s.value) }

  lemma {:induction false} UnescapePlain(a: string, t: string)
    requires '"' !in a && '\\' !in a
    ensures Unescape(a + t) == Glue(a, Unescape(t))
  {
    if a == "" {
      assert a + t == t;
      assert Unescape(t).Some? ==> "" + Unescape(t).value == Unescape(t).value;
    } else {
      assert (a + t)[1..] == a[1..] + t;
      UnescapePlain(a[1..], t);
      assert Unescape(t).Some? ==> a + Unescape(t).value == [a[0]] + (a[1..] + Unescape(t).value);
    }
  }

  lemma GlueMore(a: string, b: string, s: Option<string>)
    ensures Glue(a, Glue(b, s)) == Glue(a + b, s)
  {
    assert s.Some? ==> a + (b + s.value) == (a + b) + s.value;
  }

  /** The next quote or backslash. */
  method NextSpecial(buf: array<char>, at: nat) returns (found: bool, k: nat)
    requires Terminated(buf[..], at)
    ensures var s := CString(buf[..], at);
            && k <= |s| && '"' !in s[..k] && '\\' !in s[..k]
            && (found <==> k < |s|)
            && (found ==> at + k < buf.Length && s[k] == buf[at + k] && (s[k] == '"' || s[k] == '\\'))
  {
    ghost var s := CString(buf[..], at);
    CStringLayout(buf[..], at);
    k := 0;
    while buf[at + k] != '\0' && buf[at + k] != '"' && buf[at + k] != '\\'
      invariant 0 <= k <= |s| && '"' !in s[..k] && '\\' !in s[..k]
      decreases |s| - k
    {
      assert s[..k + 1] == s[..k] + [s[k]];
      k := k + 1;
    }
    found := buf[at + k] != '\0';
  }

  /** Moves the rest of a string, with its NUL, over its first character. */
  method DropChar(buf: array<char>, at: nat)
    requires Terminated(buf[..], at) && CString(buf[..], at) != ""
    modifies buf
    ensures buf[..at] == old(buf[..at])
    ensures Terminated(buf[..], at) && CString(buf[..], at) == old(CString(buf[..], at))[1..]
  {
    ghost var s, b0 := CString(buf[..], at), buf[..];
    CStringLayout(b0, at);
    var i := at;
    while buf[i] != '\0'
      invariant at <= i <= at + |s| && buf[..at] == b0[..at]
      invariant forall j :: at <= j < i ==> buf[j] == b0[j + 1]
      invariant forall j :: i <= j < |b0| ==> buf[j] == b0[j]
      decreases |b0| - i
    {
      assert i < at + |s|;
      buf[i] := buf[i + 1];
      i := i + 1;
      if buf[i - 1] == '\0' {
        break;
      }
    }
    assert i == at + |s|;
    assert buf[..][at..at + |s| - 1] == s[1..];
    CStringIs(buf[..], at, s[1..]);
  }

  lemma UnescapeAtSpecial(t: string)
    requires t != "" && (t[0] == '"' || t[0] == '\\')
    ensures t[0] == '"' ==> Unescape(t) == Some("")
    ensures t[0] == '\\' && |t| == 1 ==> Unescape(t) == None
    ensures t[0] == '\\' && |t| > 1 ==> Unescape(t) == Glue([t[1]], Unescape(t[2..]))
  {}

  /** The part of a quoted string before p2 is done, the rest is as written. */
  ghost predicate Unescaping(buf: seq<char>, p: nat, p2: nat, done: string, target: Option<string>) {
    && p <= p2 && Terminated(buf, p2) && '\0' !in done
    && p + |done| == p2 && buf[p..p2] == done
    && target == Glue(done, Unescape(CString(buf, p2)))
  }

  lemma SkipPlain(buf: seq<char>, p: nat, p2: nat, done: string, target: Option<string>, k: nat)
    requires Unescaping(buf, p, p2, done, target) && k <= |CString(buf, p2)|
    requires var s := CString(buf, p2); '"' !in s[..k] && '\\' !in s[..k]
    ensures Unescaping(buf, p, p2 + k, done + CString(buf, p2)[..k], target)
    ensures CString(buf, p2 + k) == CString(buf, p2)[k..]
  {
    hide IndexOf, Unescape, CString, Terminated;
    var s := CString(buf, p2);
    CStringLayout(buf, p2);
    CStringTail(buf, p2, k);
    assert s == s[..k] + s[k..];
    UnescapePlain(s[..k], s[k..]);
    GlueMore(done, s[..k], Unescape(s[k..]));
    assert buf[p..p2 + k] == buf[p..p2] + buf[p2..p2 + |s|][..k];
  }

  lemma SkipEscaped(b0: seq<char>, b1: seq<char>, p: nat, p2: nat, done: string, target: Option<string>)
    requires Unescaping(b0, p, p2, done, target) && |CString(b0, p2)| > 1 && CString(b0, p2)[0] == '\\'
    requires p2 <= |b1| && b1[..p2] == b0[..p2] && Terminated(b1, p2) && CString(b1, p2) == CString(b0, p2)[1..]
    ensures p2 < |b1| && Unescaping(b1, p, p2 + 1, done + [b1[p2]], target)
  {
    hide IndexOf, Unescape, CString, Terminated;
    var t := CString(b0, p2);
    CStringLayout(b0, p2);
    CStringLayout(b1, p2);
    CStringTail(b1, p2, 1);
    UnescapeAtSpecial(t);
    GlueMore(done, [t[1]], Unescape(t[2..]));
    assert b1[p..p2] == b1[..p2][p..] == b0[..p2][p..] == b0[p..p2];
    assert b1[p..p2 + 1] == b1[p..p2] + [b1[p2]];
  }

  lemma Closed(b0: seq<char>, b1: seq<char>, p: nat, p2: nat, done: string, target: Option<string>)
    requires Unescaping(b0, p, p2, done, target) && p2 < |b0| && b0[p2] == '"' && b1 == b0[p2 := '\0']
    ensures target == Some(done) && Terminated(b1, p) && CString(b1, p) == done
  {
    hide IndexOf, Unescape, CString, Terminated;
    CStringLayout(b0, p2);
    UnescapeAtSpecial(CString(b0, p2));
    assert done + "" == done;
    assert b1[p..p2] == done;
    CStringIs(b1, p, done);
  }

  /** Removes the escapes of a quoted string and ends it at the closing quote. */
  method UnescapeInPlace(buf: array<char>, p: nat) returns (ok: bool)
    requires Terminated(buf[..], p)
    modifies buf
    ensures ok <==> Unescape(old(CString(buf[..], p))).Some?
    ensures ok ==> Terminated(buf[..], p) && CString(buf[..], p) == Unescape(old(CString(buf[..], p))).value
  {
    hide IndexOf, Unescape, CString, Terminated;
    ghost var target, done := Unescape(CString(buf[..], p)), "";
    var p2: nat := p;
    GlueNothing(target);
    CStringLayout(buf[..], p);
    while true
      invariant Unescaping(buf[..], p, p2, done, target)
      decreases |CString(buf[..], p2)|
    {
      CStringLayout(buf[..], p2);
      var found, k := NextSpecial(buf, p2);
      ghost var s := CString(buf[..], p2);
      SkipPlain(buf[..], p, p2, done, target, k);
      done, p2 := done + s[..k], p2 + k;
      ghost var b0, t := buf[..], CString(buf[..], p2);
      if !found {
        NoText();
        return false;
      }
      UnescapeAtSpecial(t);
      if buf[p2] == '"' {
        buf[p2] := '\0';
        Closed(b0, buf[..], p, p2, done, target);
        return true;
      }
      DropChar(buf, p2);
      CStringLayout(buf[..], p2);
      if buf[p2] == '\0' {
        // a backslash ends the text: there is no closing quote within it
        return false;
      }
      SkipEscaped(b0, buf[..], p, p2, done, target);
      CStringTail(buf[..], p2, 1);
      done, p2 := done + [buf[p2]], p2 + 1;
    }
  }

  lemma NoText()
    ensures Unescape("") == None
  {}

  lemma GlueNothing(s: Option<string>)
    ensures Glue("", s) == s
  {
    assert s.Some? ==> "" + s.value == s.value;
  }

  // ----- escaping -----

  lemma {:induction false} EscapeAppend(a: string, b: string)
    ensures EscapeBody(a + b) == EscapeBody(a) + EscapeBody(b)
  {
    if a == "" {
      assert a + b == b;
    } else {
      assert (a + b)[1..] == a[1..] + b;
      EscapeAppend(a[1..], b);
    }
  }

  lemma {:induction false} EscapePlain(a: string)
    requires '"' !in a && '\\' !in a
    ensures EscapeBody(a) == a
  {
    if a != "" {
      EscapePlain(a[1..]);
    }
  }

  /** The length of the stretch without special characters. */
  method Span(s: string, p: nat) returns (l: nat)
    requires p <= |s|
    ensures p + l <= |s| && '"' !in s[p..p + l] && '\\' !in s[p..p + l]
    ensures p + l < |s| ==> s[p + l] == '"' || s[p + l] == '\\'
  {
    l := 0;
    while p + l < |s| && s[p + l] != '"' && s[p + l] != '\\'
      invariant p + l <= |s| && '"' !in s[p..p + l] && '\\' !in s[p..p + l]
    {
      assert s[p..p + l + 1] == s[p..p + l] + [s[p + l]];
      l := l + 1;
    }
  }

  lemma EscapeStep(s: string, p: nat, l: nat)
    requires p + l <= |s| && '"' !in s[p..p + l] && '\\' !in s[p..p + l]
    ensures EscapeBody(s[..p + l]) == EscapeBody(s[..p]) + s[p..p + l]
    ensures p + l < |s| && (s[p + l] == '"' || s[p + l] == '\\') ==>
              EscapeBody(s[..p + l + 1]) == EscapeBody(s[..p + l]) + ['\\', s[p + l]]
  {
    EscapePlain(s[p..p + l]);
    EscapeAppend(s[..p], s[p..p + l]);
    assert s[..p] + s[p..p + l] == s[..p + l];
    if p + l < |s| {
      EscapeAppend(s[..p + l], [s[p + l]]);
      assert s[..p + l] + [s[p + l]] == s[..p + l + 1];
    }
  }

  /** Quotes a string, copying the stretches between special characters at once. */
  method EscapeValue(s: string) returns (res: string)
    ensures res == Escape(s)
  {
    hide EscapeBody;
    res := "\"";
    var p := 0;
    EscapeNothing();
    while true
      invariant 0 <= p <= |s| && res == "\"" + EscapeBody(s[..p])
      decreases |s| - p
    {
      var l := Span(s, p);
      EscapeStep(s, p, l);
      res := res + s[p..p + l];
      p := p + l;
      if p == |s| {
        break;
      }
      res := res + ['\\', s[p]];
      p := p + 1;
    }
    assert s[..p] == s;
    res := res + "\"";
  }

  lemma EscapeNothing()
    ensures EscapeBody("") == ""
  {}

  // ----- the reader -----

  class Reader {
    const decls: Decls
    var defs: Settings

    /** All values are reset before a file is read. */
    constructor (decls: Decls)
      ensures this.decls == decls && defs == map[]
    {
      this.decls, defs := decls, map[];
    }

    /** Stores the value at a position of the line, if it is valid for the type. */
    method SetSymVal(name: string, buf: array<char>, p: nat)
      requires Terminated(buf[..], p)
      modifies this`defs, buf
      ensures defs == Store(old(defs), name, ParseValue(TypeOf(decls, name), old(CString(buf[..], p))))
    {
      CStringLayout(buf[..], p);
      var typ := TypeOf(decls, name);
      if typ == TristateType && buf[p] == 'm' {
        defs := defs[name := TriValue(MOD)];
      } else if typ == TristateType || typ == Boolean {
        if buf[p] == 'y' {
          defs := defs[name := TriValue(YES)];
        } else if buf[p] == 'n' {
          defs := defs[name := TriValue(NO)];
        }
      } else if typ == String {
        if buf[p] == '"' {
          CStringTail(buf[..], p, 1);
          var ok := UnescapeInPlace(buf, p + 1);
          if ok {
            defs := defs[name := TextValue(CString(buf[..], p + 1))];
          }
        }
      } else if StringValid(typ, CString(buf[..], p)) {
        defs := defs[name := TextValue(CString(buf[..], p))];
      }
    }

    /** A comment line: the name is cut off at the blank behind it. */
    method ReadCommentAt(line: array<char>, at: nat)
      requires Terminated(line[..], at)
      modifies this`defs, line
      ensures defs == ReadComment(decls, old(defs), old(CString(line[..], at)))
    {
      hide IndexOf, CString, Terminated, TypeOf;
      ghost var body := CString(line[..], at);
      var starts := StartsAt(line, at, PREFIX);
      if !starts {
        return;
      }
      var from := at + |PREFIX|;
      CStringTail(line[..], at, |PREFIX|);
      ghost var q := CString(line[..], from);
      var found, i := StrChr(line, from, ' ');
      if !found {
        return;
      }
      Cut(line[..], from, i);
      ghost var before := line[..];
      line[from + i] := '\0';
      assert line[..] == before[from + i := '\0'];
      starts := StartsAt(line, from + i + 1, NOT_SET);
      if starts {
        var name := CString(line[..], from);
        var typ := TypeOf(decls, name);
        if typ == Boolean || typ == TristateType {
          defs := defs[name := TriValue(NO)];
        }
      }
    }

    /** Cuts a value off at the end of its line. */
    method CutValue(line: array<char>, p: nat)
      requires Terminated(line[..], p) && 0 < p && line[p - 1] == '\0'
      modifies line
      ensures line[..p] == old(line[..p]) && Terminated(line[..], p)
      ensures CString(line[..], p) == ValueText(old(CString(line[..], p)))
    {
      hide IndexOf, CString, Terminated;
      ghost var v0, before := CString(line[..], p), line[..];
      CStringLayout(before, p);
      var found, k := StrChr(line, p, '\n');
      if !found {
        return;
      }
      Cut(before, p, k);
      line[p + k] := '\0';
      ghost var v, mid := v0[..k], line[..];
      assert mid == before[p + k := '\0'];
      CStringLayout(mid, p);
      assert |v| == k && (k > 0 ==> v[k - 1] == mid[p + (k - 1)]);
      if line[p + k - 1] == '\r' {
        CutReturn(line, p, k);
      }
    }

    /** Cuts off a carriage return at the end of the text. */
    method CutReturn(line: array<char>, p: nat, k: nat)
      requires Terminated(line[..], p) && 0 < p && line[p - 1] == '\0' && |CString(line[..], p)| == k
      requires p + k - 1 < line.Length && line[p + k - 1] == '\r'
      modifies line
      ensures line[..p] == old(line[..p]) && Terminated(line[..], p)
      ensures 0 < k && CString(line[..], p) == old(CString(line[..], p))[..k - 1]
    {
      hide IndexOf, CString, Terminated;
      ghost var mid := line[..];
      CStringLayout(mid, p);
      Cut(mid, p, k - 1);
      line[p + k - 1] := '\0';
      assert line[..] == mid[p + k - 1 := '\0'];
    }

    method ReadAssignmentAt(line: array<char>, from: nat)
      requires Terminated(line[..], from)
      modifies this`defs, line
      ensures defs == ReadAssignment(decls, old(defs), old(CString(line[..], from)))
    {
      hide IndexOf, CString, Terminated, TypeOf, ParseValue, ValueText;
      ghost var q := CString(line[..], from);
      var found, i := StrChr(line, from, '=');
      if !found {
        return;
      }
      Cut(line[..], from, i);
      ghost var before := line[..];
      line[from + i] := '\0';
      ghost var cut := line[..];
      assert cut == before[from + i := '\0'];
      var p := from + i + 1;
      CutValue(line, p);
      CStringLayout(cut, from);
      assert line[..][from..from + i] == line[..p][from..from + i] == cut[..p][from..from + i] == q[..i];
      assert line[..][from + i] == line[..p][from + i] == cut[..p][from + i];
      CStringIs(line[..], from, q[..i]);
      SetSymVal(CString(line[..], from), line, p);
    }

    method ReadLineInPlace(line: array<char>)
      requires Terminated(line[..], 0)
      modifies this`defs, line
      ensures defs == ReadLine(decls, old(defs), old(line[..]))
    {
      hide ReadComment, ReadAssignment;
      ghost var raw := line[..];
      assert raw[0..] == raw;
      CStringLayout(raw, 0);
      if line[0] == '#' {
        if line[1] == '\0' {
          // the comparison would start behind the end of the line
          assert |CString(raw, 0)| == 1;
          return;
        }
        CStringTail(raw, 0, 2);
        ReadCommentAt(line, 2);
      } else {
        var starts := StartsAt(line, 0, PREFIX);
        if starts {
          CStringTail(raw, 0, |PREFIX|);
          ReadAssignmentAt(line, |PREFIX|);
        }
      }
    }

    /** Reads a file line by line. */
    method ReadSimple(text: string)
      modifies this`defs
      ensures defs == Read(decls, old(defs), text)
    {
      hide ReadLine, Read, FirstLine, Terminated;
      assert text[0..] == text;
      var pos := 0;
      while pos < |text|
        invariant 0 <= pos <= |text|
        invariant Read(decls, defs, text[pos..]) == Read(decls, old(defs), text)
      {
        ReadStep(decls, defs, text[pos..]);
        var line, n := GetLine(text[pos..]);
        ReadLineTerminated(decls, defs, text[pos..][..n]);
        ReadLineInPlace(line);
        assert text[pos..][n..] == text[pos + n..];
        pos := pos + n;
      }
      assert text[pos..] == "";
      ReadNothing(decls, defs);
    }
  }

  lemma ReadStep(decls: Decls, st: Settings, text: string)
    requires text != ""
    ensures var n := FirstLine(text); Read(decls, st, text) == Read(decls, ReadLine(decls, st, text[..n]), text[n..])
  {
    hide ReadLine;
  }

  lemma ReadLineTerminated(decls: Decls, st: Settings, line: string)
    ensures ReadLine(decls, st, line + ['\0']) == ReadLine(decls, st, line)
  {
    IndexAppend(line, '\0', ['\0']);
    assert Upto(line + ['\0'], '\0') == Upto(line, '\0');
  }

  /** The next line with its line end, and a NUL behind it. */
  method GetLine(text: string) returns (line: array<char>, n: nat)
    requires text != ""
    ensures n == FirstLine(text) && line[..] == text[..n] + ['\0'] && fresh(line)
    ensures Terminated(line[..], 0)
  {
    n := 0;
    while n < |text|
      invariant 0 <= n <= |text| && '\n' !in text[..n]
    {
      assert text[..n + 1] == text[..n] + [text[n]];
      n := n + 1;
      if text[n - 1] == '\n' {
        assert text == text[..n - 1] + ['\n'] + text[n..];
        IndexAt(text[..n - 1], '\n', text[n..]);
        break;
      }
    }
    if '\n' !in text[..n] {
      assert text[..n] == text;
      IndexNone(text, '\n');
    }
    var s := text[..n] + ['\0'];
    line := new char[n + 1](i requires 0 <= i < n + 1 => s[i]);
    assert line[..] == s && line[..][0..] == s && s[n] == '\0';
  }
}
