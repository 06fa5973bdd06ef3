/** Whole-string number conversion and string order, as the comparisons of
    expression values use them. */
module Numbers {
  import opened Tristate

  predicate IsSpace(c: char) { c == ' ' || '\t' <= c <= '\r' }

  function SkipSpace(s: string): string {
    if s != "" && IsSpace(s[0]) then SkipSpace(s[1..]) else s
  }

  /** The value of a digit, or 99 for a character that is none. */
  function DigitValue(c: char): nat {
    if '0' <= c <= '9' then c as int - '0' as int
    else if 'a' <= c <= 'f' then c as int - 'a' as int + 10
    else if 'A' <= c <= 'F' then c as int - 'A' as int + 10
    else 99
  }

  predicate AllDigits(s: string, base: nat) {
    forall i :: 0 <= i < |s| ==> DigitValue(s[i]) < base
  }

  function Magnitude(s: string, base: nat): nat
    requires AllDigits(s, base)
  {
    if s == "" then 0 else Magnitude(s[..|s| - 1], base) * base + DigitValue(s[|s| - 1])
  }

  /** The number a string denotes when the conversion (base 0, 10 or 16) consumes
      all of it and meets at least one digit; range is not yet checked. */
  function WholeNumber(str: string, base: nat): Option<int>
  {
    var s := SkipSpace(str);
    var negative := s != "" && s[0] == '-';
    var t := if s != "" && (s[0] == '-' || s[0] == '+') then s[1..] else s;
    var hex := base != 10 && |t| >= 2 && t[0] == '0' && (t[1] == 'x' || t[1] == 'X');
    var digits := if hex then t[2..] else t;
    var radix := if hex then 16
                 else if base == 0 then (if digits != "" && digits[0] == '0' then 8 else 10)
                 else base;
    if digits == "" || !AllDigits(digits, radix) then None
    else
      var v: int := Magnitude(digits, radix);
      Some(if negative then -v else v)
  }

  const TWO63 := 0x8000_0000_0000_0000
  const TWO64 := 0x1_0000_0000_0000_0000

  /** The signed 64-bit conversion; out of range counts as no number. */
  function Signed(str: string, base: nat): Option<int> {
    match WholeNumber(str, base)
    case None => None
    case Some(v) => if -TWO63 <= v < TWO63 then Some(v) else None
  }

  /** The unsigned 64-bit conversion, in which a minus sign wraps around. */
  function Unsigned(str: string, base: nat): Option<int> {
    match WholeNumber(str, base)
    case None => None
    case Some(v) => if -TWO64 < v < TWO64 then Some(v % TWO64) else None
  }

  /** Byte order of strings: negative, zero or positive. */
  function StrCmp(a: string, b: string): int {
    if a == "" && b == "" then 0
    else if a == "" then -1
    else if b == "" then 1
    else if a[0] < b[0] then -1
    else if a[0] > b[0] then 1
    else StrCmp(a[1..], b[1..])
  }

  lemma {:induction false} StrCmpZero(a: string, b: string)
    ensures StrCmp(a, b) == 0 <==> a == b
  {
    if a != "" && b != "" && a[0] == b[0] {
      StrCmpZero(a[1..], b[1..]);
      assert a == [a[0]] + a[1..] && b == [b[0]] + b[1..];
    }
  }
}
