/** The expander: scanning loops, and a counter per variable that is raised while the
    variable is being expanded. */
module MacroExpander {
  import opened Macros

  lemma {:induction false} CloseStep(s: string, q: nat, nest: nat, start: nat)
    requires q <= |s| && start == FindClose(s[q..], nest)
    ensures q < |s| && !(s[q] == ')' && nest == 0) ==>
              start == 1 + FindClose(s[q + 1..], if s[q] == '(' then nest + 1 else if s[q] == ')' then nest - 1
                  else nest)
  {
    if q < |s| {
      assert s[q..][1..] == s[q + 1..];
    }
  }

  /** The closing parenthesis of a reference. */
  method ScanClose(s: string) returns (q: nat)
    ensures q == FindClose(s, 0)
  {
    hide FindClose;
    q := 0;
    var nest: nat := 0;
    assert s[0..] == s;
    while q < |s|
      invariant q <= |s| && FindClose(s, 0) == q + FindClose(s[q..], nest)
    {
      CloseStep(s, q, nest, FindClose(s[q..], nest));
      if s[q] == '(' {
        nest := nest + 1;
      } else if s[q] == ')' {
        if nest == 0 {
          CloseHere(s[q..]);
          return;
        }
        nest := nest - 1;
      }
      q := q + 1;
    }
  }

  lemma CloseHere(s: string)
    requires s != "" && s[0] == ')'
    ensures FindClose(s, 0) == 0
  {}

  /** Fields found so far, the one being scanned, and those of the remaining text. */
  function Joined(done: seq<string>, open: string, rest: seq<string>): seq<string>
    requires |rest| >= 1
  {
    done + [open + rest[0]] + rest[1..]
  }

  lemma SplitStep(done: seq<string>, open: string, s: string, nest: int)
    requires s != ""
    ensures s[0] == ',' && nest == 0 ==>
              Joined(done, open, Split(s, nest)) == Joined(done + [open], "", Split(s[1..], 0))
    ensures !(s[0] == ',' && nest == 0) ==>
              Joined(done, open, Split(s, nest))
              == Joined(done, open + [s[0]],
                  Split(s[1..], if s[0] == '(' then nest + 1 else if s[0] == ')' then nest - 1 else nest))
  {
    if s[0] == ',' && nest == 0 {
      var rest := Split(s[1..], 0);
      assert "" + rest[0] == rest[0] && open + "" == open;
      assert rest == [rest[0]] + rest[1..];
    } else {
      var rest := Split(s[1..], if s[0] == '(' then nest + 1 else if s[0] == ')' then nest - 1 else nest);
      assert open + ([s[0]] + rest[0]) == (open + [s[0]]) + rest[0];
    }
  }

  /** Cuts a clause at its outermost commas. */
  method ScanFields(s: string) returns (fields: seq<string>)
    ensures fields == Split(s, 0)
  {
    hide Split, Joined;
    fields := [];
    var prev, p, nest := 0, 0, 0;
    assert s[0..] == s;
    JoinedNothing(Split(s, 0));
    while p < |s|
      invariant 0 <= prev <= p <= |s|
      invariant Joined(fields, s[prev..p], Split(s[p..], nest)) == Split(s, 0)
    {
      SplitStep(fields, s[prev..p], s[p..], nest);
      assert s[p..][1..] == s[p + 1..] && s[p..][0] == s[p];
      if nest == 0 && s[p] == ',' {
        fields := fields + [s[prev..p]];
        prev := p + 1;
        assert s[prev..p + 1] == "";
      } else {
        assert s[prev..p] + [s[p]] == s[prev..p + 1];
        if s[p] == '(' {
          nest := nest + 1;
        } else if s[p] == ')' {
          nest := nest - 1;
        }
      }
      p := p + 1;
    }
    JoinedEnd(fields, s[prev..p], nest);
    assert s[p..] == "";
    fields := fields + [s[prev..p]];
  }

  lemma JoinedNothing(rest: seq<string>)
    requires |rest| >= 1
    ensures Joined([], "", rest) == rest
  {
    assert "" + rest[0] == rest[0] && rest == [rest[0]] + rest[1..];
  }

  lemma JoinedEnd(done: seq<string>, open: string, nest: int)
    ensures Joined(done, open, Split("", nest)) == done + [open]
  {
    assert open + "" == open;
  }

  method ScanVariable(vars: seq<Variable>, name: string) returns (i: nat)
    ensures i == Lookup(vars, name)
  {
    i := 0;
    while i < |vars| && vars[i].name != name
      invariant i <= |vars| && Lookup(vars, name) == i + Lookup(vars[i..], name)
    {
      assert vars[i..][1..] == vars[i + 1..];
      i := i + 1;
    }
  }

  class Expander {
    const w: World
    var expCount: seq<nat>

    constructor (w: World)
      ensures this.w == w && Depths(w, expCount) && forall i :: 0 <= i < |expCount| ==> expCount[i] == 0
    {
      this.w, expCount := w, seq(|w.vars|, _ => 0);
    }

    /** Expands a text or a token. The counters are as before, unless the program ends
        with an error. */
    method ExpandString(token: bool, s: string, args: seq<string>) returns (r: Result)
      requires Depths(w, expCount)
      modifies this
      ensures r == Expand(w, old(expCount), token, s, args)
      ensures r.Ok? ==> expCount == old(expCount)
      decreases Budget(expCount), |s|, 1, 0
    {
      hide Depths, Attach, EvalClause, Stops;
      ghost var n := expCount;
      var out, start, p := "", 0, 0;
      assert s[0..] == s;
      assert out + s[start..p] == "";
      AttachNothing(Expand(w, n, token, s, args));
      while p < |s|
        invariant 0 <= start <= p <= |s| && expCount == n
        invariant Expand(w, n, token, s, args) == Attach(out + s[start..p], Expand(w, n, token, s[p..], args))
      {
        ghost var sofar := out + s[start..p];
        ExpandStep(w, n, token, s, p, args);
        if s[p] == '$' {
          var e, next := ExpandDollar(s, p + 1, args);
          if e.Err? {
            AttachError(sofar, e);
            return e;
          }
          AttachMore(sofar, e.text, Expand(w, n, token, s[next..], args));
          out := out + s[start..p] + e.text;
          start, p := next, next;
          assert out + s[start..p] == sofar + e.text;
          continue;
        }
        if Stops(token, s[p]) {
          break;
        }
        AttachMore(sofar, [s[p]], Expand(w, n, token, s[p + 1..], args));
        assert sofar + [s[p]] == out + s[start..p + 1];
        p := p + 1;
      }
      ExpandEnd(w, n, token, s, p, args, out + s[start..p]);
      return Ok(out + s[start..p], s[p..]);
    }

    /** What follows a dollar sign, and the position behind it. */
    method ExpandDollar(s: string, p: nat, args: seq<string>) returns (r: Result, next: nat)
      requires Depths(w, expCount) && 1 <= p <= |s| && s[p - 1] == '$'
      modifies this
      ensures (r, next) == Dollar(w, old(expCount), s, p, args)
      ensures r.Ok? ==> expCount == old(expCount)
      decreases Budget(expCount), |s|, 0, 0
    {
      hide Depths, EvalClause, FindClose;
      if p == |s| || s[p] != '(' {
        return Ok("$", ""), p;
      }
      var q := ScanClose(s[p + 1..]);
      if q == |s[p + 1..]| {
        return Err(Unterminated), p;
      }
      next := p + 1 + q + 1;
      r := EvalClauseAt(s[p + 1..p + 1 + q], args);
    }

    method EvalClauseAt(s: string, args: seq<string>) returns (r: Result)
      requires Depths(w, expCount)
      modifies this
      ensures r == EvalClause(w, old(expCount), s, args)
      ensures r.Ok? ==> expCount == old(expCount)
      decreases Budget(expCount), |s|, 3, 0
    {
      hide Depths, Split, Call;
      var i := ArgNumber(s, args);
      if i > 0 {
        return Ok(args[i - 1], "");
      }
      var fields := ScanFields(s);
      if |fields| > MAX_ARGS {
        return Err(TooManyArguments);
      }
      var texts := ExpandAll(fields, args, |s|);
      if texts.Failed? {
        return Err(texts.error);
      }
      r := CallName(texts.texts[0], texts.texts[1..]);
    }

    method ExpandAll(fields: seq<string>, args: seq<string>, max: nat) returns (r: Fields)
      requires Depths(w, expCount) && forall f :: f in fields ==> |f| <= max
      modifies this
      ensures r == ExpandFields(w, old(expCount), fields, args, max)
      ensures r.Texts? ==> expCount == old(expCount)
      decreases Budget(expCount), max, 2, 0
    {
      hide Depths, Expand;
      ghost var n := expCount;
      var texts: seq<string> := [];
      for i := 0 to |fields|
        invariant expCount == n && |texts| == i
        invariant ExpandFields(w, n, fields, args, max) == Extend(texts, ExpandFields(w, n, fields[i..], args, max))
      {
        assert fields[i] in fields;
        assert fields[i..][1..] == fields[i + 1..] && fields[i..][0] == fields[i];
        var e := ExpandString(false, fields[i], args);
        if e.Err? {
          return Failed(e.error);
        }
        ExtendMore(texts, e.text, ExpandFields(w, n, fields[i + 1..], args, max));
        texts := texts + [e.text];
      }
      assert fields[|fields|..] == [] && texts + [] == texts;
      return Texts(texts);
    }

    /** A variable, else a built-in function, else the environment. */
    method CallName(name: string, args: seq<string>) returns (r: Result)
      requires Depths(w, expCount)
      modifies this
      ensures r == Call(w, old(expCount), name, args)
      ensures r.Ok? ==> expCount == old(expCount)
      decreases Budget(expCount), 0, 0, 0
    {
      hide Expand, Builtin;
      ghost var n := expCount;
      var i := ScanVariable(w.vars, name);
      if i < |w.vars| {
        if args == [] && expCount[i] > 0 {
          return Err(SelfReference);
        }
        if expCount[i] > MAX_DEPTH {
          return Err(TooDeep);
        }
        BudgetSpent(expCount, i);
        expCount := expCount[i := expCount[i] + 1];
        if w.vars[i].flavor == Recursive {
          r := ExpandString(false, w.vars[i].value, args);
          if r.Err? {
            return;
          }
        } else {
          r := Ok(w.vars[i].value, "");
        }
        expCount := expCount[i := expCount[i] - 1];
        assert expCount == n;
        return;
      }
      if Builtin(w, name, args).Some? {
        return Builtin(w, name, args).value;
      }
      if args == [] && name != "" && w.env(name).Some? {
        return Ok(w.env(name).value, "");
      }
      return Ok("", "");
    }
  }

  /** The value of what follows a dollar sign, and the position behind it. */
  ghost function Dollar(w: World, n: seq<nat>, s: string, p: nat, args: seq<string>): (r: (Result, nat))
    requires Depths(w, n) && 1 <= p <= |s|
    ensures p <= r.1 <= |s|
  {
    if p == |s| || s[p] != '(' then (Ok("$", ""), p)
    else
      var q := FindClose(s[p + 1..], 0);
      if q == |s[p + 1..]| then (Err(Unterminated), p)
      else (EvalClause(w, n, s[p + 1..p + 1 + q], args), p + 1 + q + 1)
  }

  /** One step of the expansion at position p. */
  lemma ExpandStep(w: World, n: seq<nat>, token: bool, s: string, p: nat, args: seq<string>)
    requires Depths(w, n) && p < |s|
    ensures s[p] == '$' ==>
              var (e, next) := Dollar(w, n, s, p + 1, args);
              Expand(w, n, token, s[p..], args) == if e.Err? then e
                  else Attach(e.text, Expand(w, n, token, s[next..], args))
    ensures s[p] != '$' && !Stops(token, s[p]) ==>
              Expand(w, n, token, s[p..], args) == Attach([s[p]], Expand(w, n, token, s[p + 1..], args))
    ensures s[p] != '$' && Stops(token, s[p]) ==> Expand(w, n, token, s[p..], args) == Ok("", s[p..])
  {
    hide Depths, FindClose, EvalClause, Stops;
    var t := s[p..];
    assert t[1..] == s[p + 1..];
    if s[p] == '$' && p + 1 < |s| && s[p + 1] == '(' {
      var u := s[p + 2..];
      assert t[2..] == u;
      var q := FindClose(u, 0);
      if q < |u| {
        assert t[2..2 + q] == s[p + 2..p + 2 + q] && t[2 + q + 1..] == s[p + 2 + q + 1..];
      }
    }
  }

  lemma ExpandEnd(w: World, n: seq<nat>, token: bool, s: string, p: nat, args: seq<string>, out: string)
    requires Depths(w, n) && p <= |s| && (p < |s| ==> s[p] != '$' && Stops(token, s[p]))
    ensures Attach(out, Expand(w, n, token, s[p..], args)) == Ok(out, s[p..])
  {
    assert out + "" == out;
  }

  lemma AttachError(prefix: string, r: Result)
    requires r.Err?
    ensures Attach(prefix, r) == r
  {}

  function Extend(texts: seq<string>, r: Fields): Fields { if r.Texts? then Texts(texts + r.texts) else r }

  lemma ExtendMore(texts: seq<string>, t: string, r: Fields)
    ensures Extend(texts, if r.Texts? then Texts([t] + r.texts) else r) == Extend(texts + [t], r)
  {
    assert r.Texts? ==> texts + ([t] + r.texts) == (texts + [t]) + r.texts;
  }
}
