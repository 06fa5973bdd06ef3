/** Expansion of variables and functions in the text of the configuration language. */
module Macros {
  import opened Tristate
  import opened Numbers

  datatype Flavor = Simple | Recursive

  datatype Variable = Variable(name: string, value: string, flavor: Flavor)

  datatype Error = Unterminated | SelfReference | TooDeep | TooManyArguments | TooFewArguments | Raised(message: string)

  /** The expanded text and what follows it, or an error that ends the program. */
  datatype Result = Ok(text: string, rest: string) | Err(error: Error)

  /** The variables in the order of their definition; the position in the file; what
      commands print and what the environment holds. */
  datatype World = World(vars: seq<Variable>, filename: string, lineno: string, shell: string -> string,
                         env: string -> Option<string>)

  const MAX_DEPTH := 1000
  const MAX_ARGS := 16

  // ----- the remaining depth -----

  ghost predicate Depths(w: World, n: seq<nat>) {
    |n| == |w.vars| && forall i :: 0 <= i < |n| ==> n[i] <= MAX_DEPTH + 1
  }

  /** How often variables can still be entered, all together. */
  function Budget(n: seq<nat>): nat {
    if n == [] then 0 else (if n[0] <= MAX_DEPTH then MAX_DEPTH + 1 - n[0] else 0) + Budget(n[1..])
  }

  lemma {:induction false} BudgetSpent(n: seq<nat>, i: nat)
    requires i < |n| && n[i] <= MAX_DEPTH
    ensures Budget(n[i := n[i] + 1]) < Budget(n)
  {
    var n' := n[i := n[i] + 1];
    if i == 0 {
      assert n'[1..] == n[1..];
    } else {
      assert n'[1..] == n[1..][i - 1 := n[1..][i - 1] + 1];
      BudgetSpent(n[1..], i - 1);
    }
  }

  // ----- scanning -----

  /** Where the parenthesis that closes `nest` + 1 open ones is, or the end. */
  function FindClose(s: string, nest: nat): (q: nat)
    ensures q <= |s| && (q < |s| ==> s[q] == ')')
  {
    if s == "" then 0
    else if s[0] == ')' && nest == 0 then 0
    else 1 + FindClose(s[1..], if s[0] == '(' then nest + 1 else if s[0] == ')' then nest - 1 else nest)
  }

  /** The text of a clause cut at its outermost commas. */
  function Split(s: string, nest: int): (fields: seq<string>)
    ensures |fields| >= 1 && forall f :: f in fields ==> |f| <= |s|
  {
    if s == "" then [""]
    else if s[0] == ',' && nest == 0 then [""] + Split(s[1..], 0)
    else
      var rest := Split(s[1..], if s[0] == '(' then nest + 1 else if s[0] == ')' then nest - 1 else nest);
      [[s[0]] + rest[0]] + rest[1..]
  }

  predicate TokenChar(c: char) {
    'a' <= c <= 'z' || 'A' <= c <= 'Z' || '0' <= c <= '9' || c == '_' || c == '-' || c == '.' || c == '/'
  }

  predicate Stops(token: bool, c: char) { token && !TokenChar(c) }

  function Lookup(vars: seq<Variable>, name: string): (i: nat)
    ensures i <= |vars| && (i < |vars| ==> vars[i].name == name) && forall j :: 0 <= j < i ==> vars[j].name != name
  {
    if vars == [] || vars[0].name == name then 0 else 1 + Lookup(vars[1..], name)
  }

  /** Arguments of the surrounding call are referred to by number. */
  function ArgNumber(s: string, args: seq<string>): (i: nat)
    ensures i <= |args|
  {
    match Unsigned(s, 10)
    case None => 0
    case Some(u) => if 1 <= u <= |args| then u else 0
  }

  // ----- built-in functions -----

  /** The output of a command: at most 255 characters, on one line. */
  function ShellText(raw: string): (r: string)
    ensures |r| <= 255 && '\n' !in r
  {
    OneLineOf(TrimEnd(if |raw| > 255 then raw[..255] else raw))
  }

  function TrimEnd(s: string): (r: string)
    ensures r <= s && (r != "" ==> r[|r| - 1] != '\n')
  {
    if s != "" && s[|s| - 1] == '\n' then TrimEnd(s[..|s| - 1]) else s
  }

  function OneLineOf(s: string): (r: string)
    ensures |r| == |s| && forall i :: 0 <= i < |s| ==> r[i] == if s[i] == '\n' then ' ' else s[i]
  {
    if s == "" then "" else [if s[0] == '\n' then ' ' else s[0]] + OneLineOf(s[1..])
  }

  function Arity(name: string): Option<nat> {
    if name == "error-if" || name == "warning-if" then Some(2)
    else if name == "info" || name == "shell" then Some(1)
    else if name == "filename" || name == "lineno" then Some(0)
    else None
  }

  function Builtin(w: World, name: string, args: seq<string>): Option<Result> {
    if Arity(name).None? then None
    else if |args| < Arity(name).value then Some(Err(TooFewArguments))
    else if |args| > Arity(name).value then Some(Err(TooManyArguments))
    else if name == "error-if" && args[0] == "y" then Some(Err(Raised(args[1])))
    else if name == "filename" then Some(Ok(w.filename, ""))
    else if name == "lineno" then Some(Ok(w.lineno, ""))
    else if name == "shell" then Some(Ok(ShellText(w.shell(args[0])), ""))
    else Some(Ok("", ""))
  }

  // ----- expansion -----

  function Attach(prefix: string, r: Result): Result { if r.Ok? then Ok(prefix + r.text, r.rest) else r }

  datatype Fields = Texts(texts: seq<string>) | Failed(error: Error)

  /** The text up to the end, or the end of the token, with all references expanded. */
  function Expand(w: World, n: seq<nat>, token: bool, s: string, args: seq<string>): (r: Result)
    requires Depths(w, n)
    ensures r.Ok? && !token ==> r.rest == ""
    decreases Budget(n), |s|, 1, 0
  {
    if s == "" then Ok("", "")
    else if s[0] != '$' then
      if Stops(token, s[0]) then Ok("", s) else Attach([s[0]], Expand(w, n, token, s[1..], args))
    else if |s| == 1 || s[1] != '(' then Attach("$", Expand(w, n, token, s[1..], args))
    else
      var q := FindClose(s[2..], 0);
      if q == |s[2..]| then Err(Unterminated)
      else
        var e := EvalClause(w, n, s[2..2 + q], args);
        if e.Err? then e else Attach(e.text, Expand(w, n, token, s[2 + q + 1..], args))
  }

  function EvalClause(w: World, n: seq<nat>, s: string, args: seq<string>): (r: Result)
    requires Depths(w, n)
    decreases Budget(n), |s|, 3, 0
  {
    if ArgNumber(s, args) > 0 then Ok(args[ArgNumber(s, args) - 1], "")
    else
      var fields := Split(s, 0);
      if |fields| > MAX_ARGS then Err(TooManyArguments)
      else
        var texts := ExpandFields(w, n, fields, args, |s|);
        if texts.Failed? then Err(texts.error) else Call(w, n, texts.texts[0], texts.texts[1..])
  }

  function ExpandFields(w: World, n: seq<nat>, fields: seq<string>, args: seq<string>, max: nat): (r: Fields)
    requires Depths(w, n) && forall f :: f in fields ==> |f| <= max
    ensures r.Texts? ==> |r.texts| == |fields|
    decreases Budget(n), max, 2, |fields|
  {
    if fields == [] then Texts([])
    else
      var e := Expand(w, n, false, fields[0], args);
      if e.Err? then Failed(e.error)
      else
        var rest := ExpandFields(w, n, fields[1..], args, max);
        if rest.Failed? then rest else Texts([e.text] + rest.texts)
  }

  /** A variable, else a built-in function, else the environment, else nothing. */
  function Call(w: World, n: seq<nat>, name: string, args: seq<string>): (r: Result)
    requires Depths(w, n)
    decreases Budget(n), 0, 0, 0
  {
    var i := Lookup(w.vars, name);
    if i < |w.vars| then
      if args == [] && n[i] > 0 then Err(SelfReference)
      else if n[i] > MAX_DEPTH then Err(TooDeep)
      else if w.vars[i].flavor == Simple then Ok(w.vars[i].value, "")
      else
        BudgetSpent(n, i);
        Expand(w, n[i := n[i] + 1], false, w.vars[i].value, args)
    else if Builtin(w, name, args).Some? then Builtin(w, name, args).value
    else if args == [] && name != "" && w.env(name).Some? then Ok(w.env(name).value, "")
    else Ok("", "")
  }

  // ----- laws -----

  /** Text without references is left alone. */
  lemma {:induction false} PlainText(w: World, n: seq<nat>, s: string, args: seq<string>)
    requires Depths(w, n) && '$' !in s
    ensures Expand(w, n, false, s, args) == Ok(s, "")
    decreases |s|
  {
    if s != "" {
      PlainText(w, n, s[1..], args);
      assert s == [s[0]] + s[1..];
    }
  }

  /** Text in front of a reference does not change what the reference stands for. */
  lemma {:induction false} PlainPrefix(w: World, n: seq<nat>, a: string, s: string, args: seq<string>)
    requires Depths(w, n) && '$' !in a
    ensures Expand(w, n, false, a + s, args) == Attach(a, Expand(w, n, false, s, args))
    decreases |a|
  {
    if a == "" {
      assert a + s == s;
      AttachNothing(Expand(w, n, false, s, args));
    } else {
      assert (a + s)[1..] == a[1..] + s && (a + s)[0] == a[0];
      PlainPrefix(w, n, a[1..], s, args);
      AttachMore([a[0]], a[1..], Expand(w, n, false, s, args));
      assert [a[0]] + a[1..] == a;
    }
  }

  lemma AttachNothing(r: Result)
    ensures Attach("", r) == r
  {
    assert r.Ok? ==> "" + r.text == r.text;
  }

  lemma AttachMore(a: string, b: string, r: Result)
    ensures Attach(a, Attach(b, r)) == Attach(a + b, r)
  {
    assert r.Ok? ==> a + (b + r.text) == (a + b) + r.text;
  }

  /** Every parenthesis in s is closed in s, with `nest` more closed than opened. */
  predicate Balanced(s: string, nest: nat) {
    if s == "" then nest == 0
    else if s[0] == ')' then nest > 0 && Balanced(s[1..], nest - 1)
    else Balanced(s[1..], if s[0] == '(' then nest + 1 else nest)
  }

  lemma {:induction false} CloseAfterBalanced(c: string, nest: nat, rest: string)
    requires Balanced(c, nest)
    ensures FindClose(c + ")" + rest, nest) == |c|
    decreases |c|
  {
    var s := c + ")" + rest;
    if c != "" {
      assert s[0] == c[0] && s[1..] == c[1..] + ")" + rest;
      CloseAfterBalanced(c[1..], if c[0] == '(' then nest + 1 else if c[0] == ')' then nest - 1 else nest, rest);
    }
  }

  /** A reference followed by any text is the value of its clause followed by the
      expansion of that text. */
  lemma ReferenceLaw(w: World, n: seq<nat>, clause: string, rest: string, args: seq<string>)
    requires Depths(w, n) && Balanced(clause, 0)
    ensures var e := EvalClause(w, n, clause, args);
            Expand(w, n, false, "$(" + clause + ")" + rest, args)
            == if e.Err? then e else Attach(e.text, Expand(w, n, false, rest, args))
  {
    var s := "$(" + clause + ")" + rest;
    CloseAfterBalanced(clause, 0, rest);
    assert s[2..] == clause + ")" + rest;
    assert s[2..2 + |clause|] == clause && s[2 + |clause| + 1..] == rest;
  }

  ghost predicate NoDeeper(n1: seq<nat>, n2: seq<nat>) { |n1| == |n2| && forall i :: 0 <= i < |n1| ==> n1[i] <= n2[i] }

  /** The depth counters only decide whether an expansion is given up: where it
      succeeds, it succeeds with the same text at any smaller depth. */
  lemma {:induction false} ExpandSame(w: World, n1: seq<nat>, n2: seq<nat>, token: bool, s: string, args: seq<string>)
    requires Depths(w, n1) && Depths(w, n2) && NoDeeper(n1, n2) && Expand(w, n2, token, s, args).Ok?
    ensures Expand(w, n1, token, s, args) == Expand(w, n2, token, s, args)
    decreases Budget(n2), |s|, 1, 0
  {
    hide Depths, NoDeeper, FindClose;
    if s != "" {
      if s[0] != '$' {
        if !Stops(token, s[0]) {
          ExpandSame(w, n1, n2, token, s[1..], args);
        }
      } else if |s| == 1 || s[1] != '(' {
        ExpandSame(w, n1, n2, token, s[1..], args);
      } else {
        var q := FindClose(s[2..], 0);
        EvalSame(w, n1, n2, s[2..2 + q], args);
        ExpandSame(w, n1, n2, token, s[2 + q + 1..], args);
      }
    }
  }

  lemma {:induction false} EvalSame(w: World, n1: seq<nat>, n2: seq<nat>, s: string, args: seq<string>)
    requires Depths(w, n1) && Depths(w, n2) && NoDeeper(n1, n2) && EvalClause(w, n2, s, args).Ok?
    ensures EvalClause(w, n1, s, args) == EvalClause(w, n2, s, args)
    decreases Budget(n2), |s|, 3, 0
  {
    hide Depths, NoDeeper, Split;
    if ArgNumber(s, args) == 0 {
      FieldsSame(w, n1, n2, Split(s, 0), args, |s|);
      var texts := ExpandFields(w, n2, Split(s, 0), args, |s|);
      CallSame(w, n1, n2, texts.texts[0], texts.texts[1..]);
    }
  }

  lemma {:induction false} FieldsSame(w: World, n1: seq<nat>, n2: seq<nat>, fields: seq<string>, args: seq<string>,
                                      max: nat)
    requires Depths(w, n1) && Depths(w, n2) && NoDeeper(n1, n2) && forall f :: f in fields ==> |f| <= max
    requires ExpandFields(w, n2, fields, args, max).Texts?
    ensures ExpandFields(w, n1, fields, args, max) == ExpandFields(w, n2, fields, args, max)
    decreases Budget(n2), max, 2, |fields|
  {
    hide Depths, NoDeeper;
    if fields != [] {
      assert fields[0] in fields;
      ExpandSame(w, n1, n2, false, fields[0], args);
      FieldsSame(w, n1, n2, fields[1..], args, max);
    }
  }

  lemma {:induction false} CallSame(w: World, n1: seq<nat>, n2: seq<nat>, name: string, args: seq<string>)
    requires Depths(w, n1) && Depths(w, n2) && NoDeeper(n1, n2) && Call(w, n2, name, args).Ok?
    ensures Call(w, n1, name, args) == Call(w, n2, name, args)
    decreases Budget(n2), 0, 0, 0
  {
    hide Expand, Budget, Builtin, Lookup;
    var i := Lookup(w.vars, name);
    if i < |w.vars| && w.vars[i].flavor == Recursive {
      BudgetSpent(n2, i);
      ExpandSame(w, n1[i := n1[i] + 1], n2[i := n2[i] + 1], false, w.vars[i].value, args);
    }
  }

  /** A name that is neither an argument number nor a call, and can be referred to. */
  predicate PlainName(name: string) {
    Balanced(name, 0) && '$' !in name && ',' !in name && Unsigned(name, 10).None?
  }

  /** A variable whose text refers to another without arguments, before any other reference. */
  ghost predicate RefersTo(w: World, name: string, target: string) {
    var i := Lookup(w.vars, name);
    && i < |w.vars| && w.vars[i].flavor == Recursive
    && exists a, b :: '$' !in a && w.vars[i].value == a + ("$(" + target + ")" + b)
  }

  /** Variables each of which refers to one of them, as on a cycle. */
  ghost predicate Tangled(w: World, names: set<string>) {
    forall x :: x in names ==> PlainName(x) && exists y :: y in names && RefersTo(w, x, y)
  }

  /** A variable that refers to itself, directly or through others, is always reported and
      never expanded. */
  lemma {:induction false} SelfReferenceReported(w: World, n: seq<nat>, names: set<string>, name: string)
    requires Depths(w, n) && Tangled(w, names) && name in names
    ensures Call(w, n, name, []) == Err(SelfReference)
    decreases Budget(n)
  {
    hide Expand, EvalClause, Budget, PlainName, Tangled;
    var target := TangledNext(w, names, name);
    var i := Lookup(w.vars, name);
    if n[i] == 0 {
      var a, b :| '$' !in a && w.vars[i].value == a + ("$(" + target + ")" + b);
      BudgetSpent(n, i);
      var n1 := n[i := 1];
      SelfReferenceReported(w, n1, names, target);
      PlainPrefix(w, n1, a, "$(" + target + ")" + b, []);
      NameEvaluated(w, n1, target);
      ReferenceLaw(w, n1, target, b, []);
    }
  }

  lemma TangledNext(w: World, names: set<string>, name: string) returns (target: string)
    requires Tangled(w, names) && name in names
    ensures target in names && RefersTo(w, name, target) && PlainName(target) && Balanced(target, 0)
  {
    hide RefersTo;
    target :| target in names && RefersTo(w, name, target);
  }

  lemma NameEvaluated(w: World, n: seq<nat>, name: string)
    requires Depths(w, n) && PlainName(name)
    ensures EvalClause(w, n, name, []) == Call(w, n, name, [])
  {
    SplitPlain(name, 0);
    PlainText(w, n, name, []);
    assert ExpandFields(w, n, [name][1..], [], |name|) == Texts([]);
    assert ExpandFields(w, n, [name], [], |name|) == Texts([name]);
    assert [name][1..] == [];
  }

  lemma {:induction false} SplitPlain(s: string, nest: int)
    requires ',' !in s
    ensures Split(s, nest) == [s]
    decreases |s|
  {
    if s != "" {
      SplitPlain(s[1..], if s[0] == '(' then nest + 1 else if s[0] == ')' then nest - 1 else nest);
      assert [s[0]] + s[1..] == s;
    }
  }
}
