/** What references mean: arguments by position, calls by substitution, and which of several
    things of one name is meant. */
module MacroLaws {
  import opened Tristate
  import opened Numbers
  import opened Spelling
  import opened Macros

  // ----- arguments by number -----

  /** The decimal spelling of a position stands for the argument at that position. */
  lemma ArgumentByPosition(w: World, n: seq<nat>, k: nat, args: seq<string>)
    requires Depths(w, n) && 1 <= k <= |args| && k < TWO64
    ensures EvalClause(w, n, Decimal(k), args) == Ok(args[k - 1], "")
  {
    hide Split, ExpandFields, Call, ArgNumber;
    PositionRead(k, args);
  }

  lemma PositionRead(k: nat, args: seq<string>)
    requires 1 <= k <= |args| && k < TWO64
    ensures ArgNumber(Decimal(k), args) == k
  {
    hide Decimal, WholeNumber;
    DecimalRead(k, 10);
  }

  lemma {:induction false} DigitsBalanced(s: string)
    requires AllDigits(s, 10)
    ensures Balanced(s, 0) && '$' !in s && ',' !in s
  {
    if s != "" {
      assert DigitValue(s[0]) < 10;
      assert s == [s[0]] + s[1..];
      DigitsBalanced(s[1..]);
    }
  }

  /** Text, the argument, and the expansion of what follows. */
  lemma ArgumentSubstituted(w: World, n: seq<nat>, a: string, k: nat, b: string, args: seq<string>)
    requires Depths(w, n) && '$' !in a && 1 <= k <= |args| && k < TWO64
    ensures Expand(w, n, false, a + ("$(" + Decimal(k) + ")" + b), args)
            == Attach(a + args[k - 1], Expand(w, n, false, b, args))
  {
    hide Digits, Expand, EvalClause;
    DigitsRead(k, 10);
    DigitsBalanced(Decimal(k));
    PlainPrefix(w, n, a, "$(" + Decimal(k) + ")" + b, args);
    ReferenceLaw(w, n, Decimal(k), b, args);
    ArgumentByPosition(w, n, k, args);
    AttachMore(a, args[k - 1], Expand(w, n, false, b, args));
  }

  /** A text with numbered references: pieces of text, each followed by a position. */
  datatype Template = End(text: string) | Then(text: string, position: nat, rest: Template)

  function Written(t: Template): string {
    match t
    case End(a) => a
    case Then(a, k, rest) => a + ("$(" + Decimal(k) + ")" + Written(rest))
  }

  predicate Fits(t: Template, count: nat) {
    match t
    case End(a) => '$' !in a
    case Then(a, k, rest) => '$' !in a && 1 <= k <= count && Fits(rest, count)
  }

  /** The text with the arguments put in. */
  function Filled(t: Template, args: seq<string>): string
    requires Fits(t, |args|)
  {
    match t
    case End(a) => a
    case Then(a, k, rest) => a + args[k - 1] + Filled(rest, args)
  }

  lemma {:induction false} TemplateFilled(w: World, n: seq<nat>, t: Template, args: seq<string>)
    requires Depths(w, n) && Fits(t, |args|) && |args| < TWO64
    ensures Expand(w, n, false, Written(t), args) == Ok(Filled(t, args), "")
    decreases t
  {
    hide Expand, Decimal;
    match t {
      case End(a) => PlainText(w, n, a, args);
      case Then(a, k, rest) =>
        TemplateFilled(w, n, rest, args);
        ArgumentSubstituted(w, n, a, k, Written(rest), args);
    }
  }

  // ----- clauses -----

  /** Every parenthesis opened is closed, with `nest` more closed than opened, and commas
      stand only between parentheses. */
  predicate Guarded(s: string, nest: nat) {
    if s == "" then nest == 0
    else if s[0] == ')' then nest > 0 && Guarded(s[1..], nest - 1)
    else if s[0] == ',' then nest > 0 && Guarded(s[1..], nest)
    else Guarded(s[1..], if s[0] == '(' then nest + 1 else nest)
  }

  function Listing(fields: seq<string>): string
    requires fields != []
  {
    if |fields| == 1 then fields[0] else fields[0] + ("," + Listing(fields[1..]))
  }

  lemma {:induction false} SplitOne(s: string, nest: nat)
    requires Guarded(s, nest)
    ensures Split(s, nest) == [s]
    decreases |s|
  {
    if s != "" {
      SplitOne(s[1..], if s[0] == '(' then nest + 1 else if s[0] == ')' then nest - 1 else nest);
      assert [s[0]] + s[1..] == s;
    }
  }

  function Nested(c: char, nest: int): int {
    if c == '(' then nest + 1 else if c == ')' then nest - 1 else nest
  }

  lemma SplitStep(c: char, s: string, nest: int)
    requires !(c == ',' && nest == 0)
    ensures var rest := Split(s, Nested(c, nest)); Split([c] + s, nest) == [[c] + rest[0]] + rest[1..]
  {
    assert ([c] + s)[1..] == s;
  }

  lemma GuardedStep(s: string, nest: nat)
    requires Guarded(s, nest) && s != ""
    ensures Nested(s[0], nest) >= 0 && Guarded(s[1..], Nested(s[0], nest)) && !(s[0] == ',' && nest == 0)
  {}

  lemma {:induction false} SplitFirst(s: string, nest: nat, rest: string)
    requires Guarded(s, nest)
    ensures Split(s + ("," + rest), nest) == [s] + Split(rest, 0)
    decreases |s|
  {
    assert s == "" ==> nest == 0;
    hide *;
    if s == "" {
      SplitComma(rest);
    } else {
      GuardedStep(s, nest);
      SplitFirst(s[1..], Nested(s[0], nest), rest);
      SplitMore(s, nest, rest);
    }
  }

  lemma SplitMore(s: string, nest: nat, rest: string)
    requires s != "" && !(s[0] == ',' && nest == 0)
    requires Split(s[1..] + ("," + rest), Nested(s[0], nest)) == [s[1..]] + Split(rest, 0)
    ensures Split(s + ("," + rest), nest) == [s] + Split(rest, 0)
  {
    hide *;
    SplitStep(s[0], s[1..] + ("," + rest), nest);
    assert [s[0]] + (s[1..] + ("," + rest)) == s + ("," + rest);
    PutInFront(s, Split(rest, 0));
  }

  lemma SplitComma(rest: string)
    ensures Split("" + ("," + rest), 0) == [""] + Split(rest, 0)
  {
    assert "" + ("," + rest) == "," + rest && ("," + rest)[1..] == rest;
  }

  lemma PutInFront(s: string, more: seq<string>)
    requires s != ""
    ensures var fields := [s[1..]] + more; [[s[0]] + fields[0]] + fields[1..] == [s] + more
  {
    assert [s[0]] + s[1..] == s;
    assert ([s[1..]] + more)[1..] == more;
  }

  /** Commas between parentheses do not separate; all others do. */
  lemma {:induction false} SplitListing(fields: seq<string>)
    requires fields != [] && forall f :: f in fields ==> Guarded(f, 0)
    ensures Split(Listing(fields), 0) == fields
    decreases |fields|
  {
    hide Split, Guarded;
    assert fields[0] in fields;
    if |fields| == 1 {
      SplitOne(fields[0], 0);
    } else {
      assert forall f :: f in fields[1..] ==> f in fields;
      SplitListing(fields[1..]);
      SplitFirst(fields[0], 0, Listing(fields[1..]));
      assert fields == [fields[0]] + fields[1..];
    }
  }

  lemma {:induction false} GuardedBalanced(s: string, nest: nat)
    requires Guarded(s, nest)
    ensures Balanced(s, nest)
  {
    if s != "" {
      GuardedBalanced(s[1..], if s[0] == '(' then nest + 1 else if s[0] == ')' then nest - 1 else nest);
    }
  }

  lemma {:induction false} BalancedAppend(s: string, nest: nat, t: string)
    requires Balanced(s, nest) && Balanced(t, 0)
    ensures Balanced(s + t, nest)
    decreases |s|
  {
    if s == "" {
      assert s + t == t;
    } else {
      assert (s + t)[0] == s[0] && (s + t)[1..] == s[1..] + t;
      BalancedAppend(s[1..], if s[0] == '(' then nest + 1 else if s[0] == ')' then nest - 1 else nest, t);
    }
  }

  lemma {:induction false} ListingBalanced(fields: seq<string>)
    requires fields != [] && forall f :: f in fields ==> Guarded(f, 0)
    ensures Balanced(Listing(fields), 0)
    decreases |fields|
  {
    hide Guarded;
    assert fields[0] in fields;
    GuardedBalanced(fields[0], 0);
    if |fields| > 1 {
      assert forall f :: f in fields[1..] ==> f in fields;
      ListingBalanced(fields[1..]);
      assert ("," + Listing(fields[1..]))[1..] == Listing(fields[1..]);
      BalancedAppend(fields[0], 0, "," + Listing(fields[1..]));
    }
  }

  lemma {:induction false} PlainFields(w: World, n: seq<nat>, fields: seq<string>, args: seq<string>, max: nat)
    requires Depths(w, n) && forall f :: f in fields ==> |f| <= max && '$' !in f
    ensures ExpandFields(w, n, fields, args, max) == Texts(fields)
    decreases |fields|
  {
    hide Expand;
    if fields != [] {
      assert fields[0] in fields && forall f :: f in fields[1..] ==> f in fields;
      PlainText(w, n, fields[0], args);
      PlainFields(w, n, fields[1..], args, max);
      assert [fields[0]] + fields[1..] == fields;
    }
  }

  /** A plain text for a name or an argument. */
  predicate Plain(s: string) { Guarded(s, 0) && '$' !in s }

  /** A clause of plain texts is the call of the first with the others. */
  lemma ClauseCalls(w: World, n: seq<nat>, name: string, args: seq<string>, outer: seq<string>)
    requires Depths(w, n) && Plain(name) && (forall a :: a in args ==> Plain(a)) && |args| < MAX_ARGS
    requires ArgNumber(Listing([name] + args), outer) == 0
    ensures EvalClause(w, n, Listing([name] + args), outer) == Call(w, n, name, args)
  {
    hide Listing, Split, Guarded, Call, ArgNumber, Expand;
    var fields := [name] + args;
    var s := Listing(fields);
    forall f | f in fields
      ensures Plain(f)
    {
      assert f == name || f in args;
    }
    SplitListing(fields);
    forall f | f in fields
      ensures |f| <= |s|
    {
      assert f in Split(s, 0);
    }
    PlainFields(w, n, fields, outer, |s|);
    assert fields[1..] == args;
  }

  lemma ClauseTooLong(w: World, n: seq<nat>, fields: seq<string>, outer: seq<string>)
    requires Depths(w, n) && |fields| > MAX_ARGS && (forall f :: f in fields ==> Guarded(f, 0))
    requires ArgNumber(Listing(fields), outer) == 0
    ensures EvalClause(w, n, Listing(fields), outer) == Err(TooManyArguments)
  {
    hide Listing, Split, Guarded, Call, ArgNumber, Expand;
    SplitListing(fields);
  }

  /** A call with arguments puts them into the variable's text; what follows the call is
      expanded as it would be alone. */
  lemma Substitution(w: World, n: seq<nat>, name: string, args: seq<string>, t: Template, rest: string,
                     outer: seq<string>)
    requires Depths(w, n) && Plain(name) && (forall a :: a in args ==> Plain(a)) && |args| < MAX_ARGS
    requires ArgNumber(Listing([name] + args), outer) == 0 && Fits(t, |args|)
    requires var i := Lookup(w.vars, name);
             && i < |w.vars| && w.vars[i] == Variable(name, Written(t), Recursive)
             && if args == [] then n[i] == 0 else n[i] <= MAX_DEPTH
    ensures Expand(w, n, false, "$(" + Listing([name] + args) + ")" + rest, outer)
            == Attach(Filled(t, args), Expand(w, n, false, rest, outer))
  {
    hide Listing, Plain, Expand, EvalClause, Written, Filled, ArgNumber, Budget;
    var fields, i := [name] + args, Lookup(w.vars, name);
    forall f | f in fields
      ensures Guarded(f, 0)
    {
      PlainGuarded(if f == name then name else f);
    }
    ListingBalanced(fields);
    ReferenceLaw(w, n, Listing(fields), rest, outer);
    ClauseCalls(w, n, name, args, outer);
    BudgetSpent(n, i);
    TemplateFilled(w, n[i := n[i] + 1], t, args);
  }

  lemma PlainGuarded(s: string)
    requires Plain(s)
    ensures Guarded(s, 0)
  {}

  // ----- names -----

  /** A variable hides a function of its name, the first of several hides the others; a
      simple one stands for its text. */
  lemma VariableFirst(w: World, n: seq<nat>, name: string, args: seq<string>, i: nat)
    requires Depths(w, n) && i < |w.vars| && w.vars[i].name == name
    requires forall j :: 0 <= j < i ==> w.vars[j].name != name
    ensures args == [] && n[i] > 0 ==> Call(w, n, name, args) == Err(SelfReference)
    ensures args != [] && n[i] > 1000 ==> Call(w, n, name, args) == Err(TooDeep)
    ensures w.vars[i].flavor == Simple && (if args == [] then n[i] == 0 else n[i] <= 1000) ==>
              Call(w, n, name, args) == Ok(w.vars[i].value, "")
  {
    hide Expand;
    assert Lookup(w.vars, name) == i;
  }

  predicate NoVariable(w: World, name: string) { forall v :: v in w.vars ==> v.name != name }

  lemma NotFound(w: World, name: string)
    requires NoVariable(w, name)
    ensures Lookup(w.vars, name) == |w.vars|
  {
    assert forall i :: 0 <= i < |w.vars| ==> w.vars[i] in w.vars;
  }

  /** A function hides the environment; that is asked only without arguments, and anything
      else unknown stands for nothing. */
  lemma FunctionThenEnvironment(w: World, n: seq<nat>, name: string, args: seq<string>)
    requires Depths(w, n) && NoVariable(w, name)
    ensures name in FUNCTIONS ==> Builtin(w, name, args) == Some(Call(w, n, name, args))
    ensures name !in FUNCTIONS && args == [] && name != "" && w.env(name).Some? ==>
              Call(w, n, name, args) == Ok(w.env(name).value, "")
    ensures name !in FUNCTIONS && (args != [] || name == "" || w.env(name).None?) ==>
              Call(w, n, name, args) == Ok("", "")
  {
    NotFound(w, name);
  }

  const FUNCTIONS: set<string> := {"error-if", "filename", "info", "lineno", "shell", "warning-if"}

  /** The functions, each with exactly its own number of arguments. */
  lemma Functions(w: World, a: string, b: string)
    ensures Builtin(w, "error-if", [a, b]) == Some(if a == "y" then Err(Raised(b)) else Ok("", ""))
    ensures Builtin(w, "warning-if", [a, b]) == Some(Ok("", "")) && Builtin(w, "info", [a]) == Some(Ok("", ""))
    ensures Builtin(w, "filename", []) == Some(Ok(w.filename, "")) && Builtin(w, "lineno", []) == Some(Ok(w.lineno, ""))
    ensures Builtin(w, "shell", [a]) == Some(Ok(ShellText(w.shell(a)), ""))
  {}

  lemma FunctionArguments(w: World, name: string, args: seq<string>)
    requires name in FUNCTIONS
    ensures var arity := if name == "error-if" || name == "warning-if" then 2
                         else if name == "info" || name == "shell" then 1 else 0;
            && (|args| < arity ==> Builtin(w, name, args) == Some(Err(TooFewArguments)))
            && (|args| > arity ==> Builtin(w, name, args) == Some(Err(TooManyArguments)))
  {}

  // ----- command output -----

  function NewLines(k: nat): string { if k == 0 then "" else NewLines(k - 1) + "\n" }

  lemma {:induction false} TrimNewLines(s: string, k: nat)
    requires s == "" || s[|s| - 1] != '\n'
    ensures TrimEnd(s + NewLines(k)) == s
    decreases k
  {
    if k == 0 {
      assert s + NewLines(k) == s;
    } else {
      var t := NewLines(k - 1);
      assert NewLines(k) == t + "\n";
      hide *;
      TrimNewLines(s, k - 1);
      TrimOne(s + t);
      assert s + (t + "\n") == (s + t) + "\n";
    }
  }

  lemma TrimOne(s: string)
    ensures TrimEnd(s + "\n") == TrimEnd(s)
  {
    assert (s + "\n")[..|s|] == s;
  }

  /** The first 255 characters of the output, without the line ends at their end and with
      blanks for those within. */
  lemma ShellOutput(raw: string, s: string, k: nat)
    requires (s == "" || s[|s| - 1] != '\n') && s + NewLines(k) == if |raw| > 255 then raw[..255] else raw
    ensures var r := ShellText(raw);
            |r| == |s| && forall i :: 0 <= i < |s| ==> r[i] == if s[i] == '\n' then ' ' else s[i]
  {
    TrimNewLines(s, k);
  }

  // ----- scanning -----

  /** A dollar sign without a parenthesis behind it is an ordinary character. */
  lemma LoneDollar(w: World, n: seq<nat>, token: bool, rest: string, args: seq<string>)
    requires Depths(w, n) && (rest == "" || rest[0] != '(')
    ensures Expand(w, n, token, "$" + rest, args) == Attach("$", Expand(w, n, token, rest, args))
  {
    assert ("$" + rest)[1..] == rest;
  }

  /** A reference that is not closed is an error. */
  lemma {:induction false} NeverClosed(s: string, nest: nat)
    requires ')' !in s
    ensures FindClose(s, nest) == |s|
    decreases |s|
  {
    if s != "" {
      assert s == [s[0]] + s[1..];
      NeverClosed(s[1..], if s[0] == '(' then nest + 1 else nest);
    }
  }

  lemma UnterminatedReported(w: World, n: seq<nat>, token: bool, rest: string, args: seq<string>)
    requires Depths(w, n) && ')' !in rest
    ensures Expand(w, n, token, "$(" + rest, args) == Err(Unterminated)
  {
    assert ("$(" + rest)[2..] == rest;
    NeverClosed(rest, 0);
  }

  predicate WordChar(c: char) { 'a' <= c <= 'z' || 'A' <= c <= 'Z' || '0' <= c <= '9' || c in "_-./" }

  /** A token is the longest stretch of letters, digits and _ - . / and the references in it;
      the rest is left for the scanner. */
  lemma {:induction false} TokenEnds(w: World, n: seq<nat>, word: string, rest: string, args: seq<string>)
    requires Depths(w, n) && (forall c :: c in word ==> WordChar(c))
    requires rest == "" || (!WordChar(rest[0]) && rest[0] != '$')
    ensures Expand(w, n, true, word + rest, args) == Ok(word, rest)
    decreases |word|
  {
    if word == "" {
      TokenStop(w, n, rest, args);
    } else {
      hide *;
      var c, tail := word[0], word[1..];
      assert word == [c] + tail;
      TokenEnds(w, n, tail, rest, args);
      TokenStep(w, n, c, tail + rest, args);
      TokenAttached(w, n, c, tail, rest, args);
    }
  }

  lemma TokenStop(w: World, n: seq<nat>, rest: string, args: seq<string>)
    requires Depths(w, n) && (rest == "" || (!WordChar(rest[0]) && rest[0] != '$'))
    ensures Expand(w, n, true, "" + rest, args) == Ok("", rest)
  {
    assert "" + rest == rest;
  }

  lemma TokenAttached(w: World, n: seq<nat>, c: char, tail: string, rest: string, args: seq<string>)
    requires Depths(w, n) && Expand(w, n, true, [c] + (tail + rest), args) == Attach([c], Ok(tail, rest))
    ensures Expand(w, n, true, [c] + tail + rest, args) == Ok([c] + tail, rest)
  {
    hide Expand;
    assert [c] + (tail + rest) == [c] + tail + rest;
  }

  lemma TokenStep(w: World, n: seq<nat>, c: char, rest: string, args: seq<string>)
    requires Depths(w, n) && WordChar(c)
    ensures Expand(w, n, true, [c] + rest, args) == Attach([c], Expand(w, n, true, rest, args))
  {
    assert ([c] + rest)[1..] == rest;
  }
}
