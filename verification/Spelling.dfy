/** Numbers as they are written, and that reading gives them back. */
module Spelling {
  import opened Tristate
  import opened Numbers

  function Digit(d: nat): char
    requires d < 16
  {
    if d < 10 then ('0' as int + d) as char else ('a' as int + (d - 10)) as char
  }

  /** The digits of a number, most significant first, without leading zeros. */
  function Digits(n: nat, base: nat): (s: string)
    requires 2 <= base <= 16
    ensures s != ""
    decreases n
  {
    if n < base then [Digit(n)] else Shorter(n, base); Digits(n / base, base) + [Digit(n % base)]
  }

  lemma Shorter(n: nat, base: nat)
    requires 2 <= base <= n
    ensures 0 < n / base < n && n == n / base * base + n % base
  {}

  function Decimal(n: int): string { if n < 0 then "-" + Digits(-n, 10) else Digits(n, 10) }

  function Hexadecimal(n: nat): string { Digits(n, 16) }

  lemma DigitRead(d: nat)
    requires d < 16
    ensures DigitValue(Digit(d)) == d && !IsSpace(Digit(d)) && Digit(d) != '-' && Digit(d) != '+'
    ensures (Digit(d) == '0' <==> d == 0) && Digit(d) != 'x' && Digit(d) != 'X'
  {}

  /** All characters are digits, the first is 0 only for 0, and they denote the number. */
  lemma {:induction false} DigitsRead(n: nat, base: nat)
    requires 2 <= base <= 16
    ensures var s := Digits(n, base);
            && AllDigits(s, base) && Magnitude(s, base) == n
            && !IsSpace(s[0]) && s[0] != '-' && s[0] != '+' && (s[0] == '0' <==> n == 0)
            && (n == 0 ==> |s| == 1) && (|s| >= 2 ==> s[1] != 'x' && s[1] != 'X')
    decreases n
  {
    var s := Digits(n, base);
    if n < base {
      DigitRead(n);
      assert s[..0] == "" && Magnitude("", base) == 0;
    } else {
      Shorter(n, base);
      DigitsRead(n / base, base);
      DigitRead(n % base);
      assert s[..|s| - 1] == Digits(n / base, base);
    }
  }

  lemma SkipNothing(s: string)
    requires s != "" && !IsSpace(s[0])
    ensures SkipSpace(s) == s
  {}

  /** Reading a decimal spelling, with base 10 or with the base left open. */
  lemma DecimalRead(n: int, base: nat)
    requires base == 10 || base == 0
    ensures WholeNumber(Decimal(n), base) == Some(n)
  {
    hide Digits, Magnitude, AllDigits;
    var s, m: nat := Decimal(n), if n < 0 then -n else n;
    var t := Digits(m, 10);
    DigitsRead(m, 10);
    ZeroRead();
    assert s[0] != '-' || s[1..] == t;
    SkipNothing(s);
  }

  lemma ZeroRead()
    ensures Digits(0, 10) == "0" && AllDigits("0", 8) && Magnitude("0", 8) == 0
  {
    assert "0"[..0] == "";
  }

  /** Reading hexadecimal digits in base 16, with or without the prefix, and with the prefix
      in any base but 10. */
  lemma HexadecimalRead(n: nat)
    ensures WholeNumber(Hexadecimal(n), 16) == Some(n)
    ensures WholeNumber("0x" + Hexadecimal(n), 16) == Some(n)
    ensures WholeNumber("0x" + Hexadecimal(n), 0) == Some(n)
  {
    hide Digits, Magnitude, AllDigits;
    var t := Digits(n, 16);
    DigitsRead(n, 16);
    SkipNothing(t);
    SkipNothing("0x" + t);
    assert ("0x" + t)[2..] == t;
  }

  lemma {:induction false} SpaceSkipped(w: string, s: string)
    requires forall c :: c in w ==> IsSpace(c)
    ensures SkipSpace(w + s) == SkipSpace(s)
    decreases |w|
  {
    if w == "" {
      assert w + s == s;
    } else {
      assert w[0] in w && (w + s)[0] == w[0] && (w + s)[1..] == w[1..] + s;
      SpaceSkipped(w[1..], s);
    }
  }

  /** White space in front is skipped, a plus sign may stand there, and with the base left open a
      leading 0 means octal. */
  lemma OtherSpellings(w: string, s: string, base: nat, n: nat)
    requires forall c :: c in w ==> IsSpace(c)
    ensures WholeNumber(w + s, base) == WholeNumber(s, base)
    ensures WholeNumber("+" + Digits(n, 10), 10) == Some(n)
    ensures WholeNumber("0" + Digits(n, 8), 0) == Some(n)
  {
    hide *;
    SpaceRead(w, s, base);
    PlusRead(n);
    OctalRead(n);
  }

  lemma SpaceRead(w: string, s: string, base: nat)
    requires forall c :: c in w ==> IsSpace(c)
    ensures WholeNumber(w + s, base) == WholeNumber(s, base)
  {
    hide SkipSpace, AllDigits, Magnitude;
    SpaceSkipped(w, s);
  }

  lemma PlusRead(n: nat)
    ensures WholeNumber("+" + Digits(n, 10), 10) == Some(n)
  {
    hide Digits, Magnitude, AllDigits;
    DigitsRead(n, 10);
    SkipNothing("+" + Digits(n, 10));
    assert ("+" + Digits(n, 10))[1..] == Digits(n, 10);
  }

  lemma OctalRead(n: nat)
    ensures WholeNumber("0" + Digits(n, 8), 0) == Some(n)
  {
    hide Digits, Magnitude, AllDigits;
    var s := "0" + Digits(n, 8);
    DigitsRead(n, 8);
    LeadingZero(Digits(n, 8), 8);
    SkipNothing(s);
    assert s[1] == Digits(n, 8)[0];
    OctalPlain(Digits(n, 8));
  }

  lemma OctalPlain(s: string)
    requires s != "" && AllDigits(s, 8)
    ensures s[0] != 'x' && s[0] != 'X'
  {
    assert DigitValue(s[0]) < 8;
  }

  lemma {:induction false} LeadingZero(s: string, base: nat)
    requires AllDigits(s, base) && base > 0
    ensures AllDigits("0" + s, base) && Magnitude("0" + s, base) == Magnitude(s, base)
    decreases |s|
  {
    var t := "0" + s;
    assert forall i :: 1 <= i < |t| ==> t[i] == s[i - 1];
    if s == "" {
      assert t == "0" && t[..0] == "";
    } else {
      var n := |s| - 1;
      LeadingZero(s[..n], base);
      assert t[..|t| - 1] == "0" + s[..n];
    }
  }

  /** Digits followed by anything else are no number. */
  lemma NotANumber(n: nat, c: char, rest: string)
    requires DigitValue(c) >= 10
    ensures WholeNumber(Digits(n, 10) + [c] + rest, 10) == None
  {
    hide Digits, Magnitude;
    var d := Digits(n, 10);
    var s := d + [c] + rest;
    DigitsRead(n, 10);
    assert s[0] == d[0] && s[|d|] == c;
    SkipNothing(s);
    assert !AllDigits(s, 10);
  }

  /** A number counts only within the range of its type. */
  lemma RangeRead(n: int)
    ensures Signed(Decimal(n), 10) == if -TWO63 <= n < TWO63 then Some(n) else None
    ensures n >= 0 ==> Unsigned(Hexadecimal(n), 16) == if n < TWO64 then Some(n) else None
  {
    hide Decimal, WholeNumber, Hexadecimal;
    DecimalRead(n, 10);
    if n >= 0 {
      HexadecimalRead(n);
    }
  }
}
