/** The six relations: numbers compare as numbers, texts as texts. */
module Relations {
  import opened Tristate
  import opened Numbers
  import opened Spelling
  import opened Expressions

  predicate Related(rel: Relation, a: int, b: int) {
    match rel
    case Equal => a == b
    case Unequal => a != b
    case Less => a < b
    case LessEq => a <= b
    case Greater => a > b
    case GreaterEq => a >= b
  }

  /** The symbol's text is a spelling of n that its type provides for: decimal for int
      symbols, hexadecimal digits for hex symbols, either for constants and strings. */
  predicate Spells(s: Symbol, n: int, env: Env) {
    var t := StringValue(s, env);
    match s.Type()
    case Int => t == Decimal(n) && -TWO63 <= n < TWO63
    case Hex => 0 <= n < TWO64 && (t == Hexadecimal(n) || t == "0x" + Hexadecimal(n))
    case Unknown | String => -TWO63 <= n < TWO63 && (t == Decimal(n) || (n >= 0 && t == "0x" + Hexadecimal(n)))
    case _ => false
  }

  lemma SpelledParsed(s: Symbol, n: int, env: Env)
    requires Spells(s, n, env)
    ensures ParseString(StringValue(s, env), s.Type()) == if s.Type() == Hex then UnsignedNum(n) else SignedNum(n)
  {
    hide Decimal, Hexadecimal, WholeNumber;
    DecimalRead(n, 10);
    DecimalRead(n, 0);
    if n >= 0 {
      HexadecimalRead(n);
    }
  }

  /** Numbers are compared by value; beside a hex symbol modulo 2^64. */
  lemma NumbersCompared(rel: Relation, s1: Symbol, s2: Symbol, a: int, b: int, env: Env)
    requires Spells(s1, a, env) && Spells(s2, b, env) && !(s1.Type() == String && s2.Type() == String)
    ensures var hex := s1.Type() == Hex || s2.Type() == Hex;
            Eval(Compare(rel, s1, s2), env)
            == FromBool(if hex then Related(rel, a % TWO64, b % TWO64) else Related(rel, a, b))
    ensures a >= 0 && b >= 0 ==> Eval(Compare(rel, s1, s2), env) == FromBool(Related(rel, a, b))
  {
    hide ParseString, Spells, StringValue;
    SpelledParsed(s1, a, env);
    SpelledParsed(s2, b, env);
    SpelledRange(s1, a, env);
    SpelledRange(s2, b, env);
  }

  lemma SpelledRange(s: Symbol, n: int, env: Env)
    requires Spells(s, n, env)
    ensures n < TWO64 && (s.Type() == Hex ==> 0 <= n) && (n >= 0 ==> n % TWO64 == n)
  {
    hide StringValue, Decimal, Hexadecimal;
  }

  // ----- texts -----

  /** a comes before b: at the first difference it has the smaller character, or it ends. */
  ghost predicate Precedes(a: string, b: string) {
    exists i :: FirstDifference(a, b, i)
  }

  predicate FirstDifference(a: string, b: string, i: nat) {
    i <= |a| && i < |b| && a[..i] == b[..i] && (i == |a| || a[i] < b[i])
  }

  lemma {:induction false} StrCmpLess(a: string, b: string)
    ensures StrCmp(a, b) < 0 <==> Precedes(a, b)
  {
    if a == "" || b == "" || a[0] != b[0] {
      StrCmpFirst(a, b);
    } else {
      var a', b' := a[1..], b[1..];
      StrCmpLess(a', b');
      if i: nat :| FirstDifference(a', b', i) {
        assert a[..i + 1] == [a[0]] + a'[..i] && b[..i + 1] == [b[0]] + b'[..i];
        assert FirstDifference(a, b, i + 1);
      }
      if i: nat :| FirstDifference(a, b, i) {
        assert i > 0;
        assert a'[..i - 1] == a[..i][1..] && b'[..i - 1] == b[..i][1..];
        assert FirstDifference(a', b', i - 1);
      }
    }
  }

  lemma StrCmpFirst(a: string, b: string)
    requires a == "" || b == "" || a[0] != b[0]
    ensures StrCmp(a, b) < 0 <==> Precedes(a, b)
  {
    if StrCmp(a, b) < 0 {
      assert FirstDifference(a, b, 0);
    }
    assert forall i: nat :: FirstDifference(a, b, i) ==> i == 0;
  }

  lemma {:induction false} StrCmpReverse(a: string, b: string)
    ensures StrCmp(a, b) == -StrCmp(b, a)
  {
    if a != "" && b != "" && a[0] == b[0] {
      StrCmpReverse(a[1..], b[1..]);
    }
  }

  ghost predicate TextRelated(rel: Relation, a: string, b: string) {
    match rel
    case Equal => a == b
    case Unequal => a != b
    case Less => Precedes(a, b)
    case LessEq => a == b || Precedes(a, b)
    case Greater => Precedes(b, a)
    case GreaterEq => a == b || Precedes(b, a)
  }

  lemma TextOrder(rel: Relation, a: string, b: string)
    ensures Holds(rel, StrCmp(a, b)) <==> TextRelated(rel, a, b)
  {
    hide StrCmp, Precedes;
    StrCmpZero(a, b);
    StrCmpLess(a, b);
    StrCmpLess(b, a);
    StrCmpReverse(a, b);
  }

  /** Two string symbols are compared as texts, even if they look like numbers; and so is
      anything if one side is no number. */
  lemma TextsCompared(rel: Relation, s1: Symbol, s2: Symbol, env: Env)
    requires (s1.Type() == String && s2.Type() == String)
             || ParseString(StringValue(s1, env), s1.Type()).Text? || ParseString(StringValue(s2, env), s2.Type()).Text?
    ensures Eval(Compare(rel, s1, s2), env)
            == FromBool(TextRelated(rel, StringValue(s1, env), StringValue(s2, env)))
  {
    hide ParseString, StringValue, StrCmp, TextRelated, Holds;
    TextOrder(rel, StringValue(s1, env), StringValue(s2, env));
  }

  // ----- bool and tristate symbols -----

  predicate Logic(s: Symbol) { s.Type() == Boolean || s.Type() == TristateType }

  /** Two such symbols are compared by level. */
  lemma LevelsCompared(rel: Relation, s1: Symbol, s2: Symbol, env: Env)
    requires WellTyped(env) && Logic(s1) && Logic(s2)
    ensures Eval(Compare(rel, s1, s2), env) == FromBool(Related(rel, Value(s1, env), Value(s2, env)))
  {}

  /** A letter as the other side is no number, so y, m and n are then ordered as letters:
      a tristate symbol that is m counts as less than n. */
  lemma LettersCompared(a: Symbol, env: Env)
    requires WellTyped(env) && Logic(a)
    ensures Eval(Compare(Less, a, No), env) == FromBool(Value(a, env) == MOD)
    ensures Eval(Compare(Greater, a, No), env) == FromBool(Value(a, env) == YES)
    ensures Eval(Compare(Less, a, Yes), env) == FromBool(Value(a, env) != YES)
    ensures Eval(Compare(Greater, a, Mod), env) == FromBool(Value(a, env) != MOD)
    ensures forall c :: c == Yes || c == Mod || c == No ==>
              && Eval(Compare(LessEq, a, c), env) == TriNot(Eval(Compare(Greater, a, c), env))
              && Eval(Compare(GreaterEq, a, c), env) == TriNot(Eval(Compare(Less, a, c), env))
  {
    LettersAreNoNumbers(0);
    LettersAreNoNumbers(1);
    LettersAreNoNumbers(2);
    assert [TriName(Value(a, env))[0]] == StringValue(a, env);
    LetterOrder(StringValue(a, env)[0], 'n');
    LetterOrder(StringValue(a, env)[0], 'm');
    LetterOrder(StringValue(a, env)[0], 'y');
  }

  lemma LetterOrder(c: char, d: char)
    ensures StrCmp([c], [d]) == if c < d then -1 else if c > d then 1 else 0
  {
    assert [c][1..] == "" && [d][1..] == "";
  }
}
