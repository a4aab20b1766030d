/**
 * The parts of Python's `str` that the configuration code relies on, restricted to ASCII:
 * `lower()`, `islower()`, `strip()`, `split(sep)`, `sep.join(...)`, `int(s)` in base 10,
 * `str(n)` for an integer and `repr(s)` for a string.
 */
module Text {
  import opened Wrappers

  /** Python's whitespace among the ASCII characters: space, `\t \n \v \f \r` and `\x1c`..`\x1f`. */
  predicate IsSpace(c: char) {
    c == ' ' || (9 <= c as int <= 13) || (28 <= c as int <= 31)
  }

  predicate IsUpper(c: char) { 'A' <= c <= 'Z' }

  predicate IsLowerLetter(c: char) { 'a' <= c <= 'z' }

  predicate IsDigit(c: char) { '0' <= c <= '9' }

  function LowerChar(c: char): char {
    if IsUpper(c) then (c as int + 32) as char else c
  }

  /** `s.lower()` */
  function Lower(s: string): string {
    seq(|s|, i requires 0 <= i < |s| => LowerChar(s[i]))
  }

  /** `s.islower()`: some character is cased and no cased character is upper case. */
  predicate IsLower(s: string) {
    (exists i :: 0 <= i < |s| && IsLowerLetter(s[i])) && (forall i :: 0 <= i < |s| ==> !IsUpper(s[i]))
  }

  lemma LowerIdempotent(s: string)
    ensures Lower(Lower(s)) == Lower(s)
  {
  }

  /** A string for which `islower()` holds is already its own lower-case form. */
  lemma LowerOfIsLower(s: string)
    requires IsLower(s)
    ensures Lower(s) == s
  {
  }

  function TrimStart(s: string): string {
    if |s| > 0 && IsSpace(s[0]) then TrimStart(s[1..]) else s
  }

  function TrimEnd(s: string): string {
    if |s| > 0 && IsSpace(s[|s| - 1]) then TrimEnd(s[..|s| - 1]) else s
  }

  /** `s.strip()` */
  function Strip(s: string): string {
    TrimEnd(TrimStart(s))
  }

  /** Neither end of `s` is whitespace. */
  predicate IsTrimmed(s: string) {
    |s| == 0 || (!IsSpace(s[0]) && !IsSpace(s[|s| - 1]))
  }

  lemma StripTrimmed(s: string)
    requires IsTrimmed(s)
    ensures Strip(s) == s
  {
  }

  /** The number of occurrences of `c` in `s`. */
  function Count(s: string, c: char): nat {
    if |s| == 0 then 0 else (if s[0] == c then 1 else 0) + Count(s[1..], c)
  }

  /** `s.split(sep)` for a one-character separator: always one more piece than separators. */
  function Split(s: string, sep: char): (r: seq<string>)
    ensures |r| == Count(s, sep) + 1
    ensures forall i :: 0 <= i < |r| ==> sep !in r[i]
  {
    if |s| == 0 then [""]
    else
      var rest := Split(s[1..], sep);
      if s[0] == sep then [""] + rest else [[s[0]] + rest[0]] + rest[1..]
  }

  /** `sep.join(xs)` */
  function Join(xs: seq<string>, sep: string): string {
    if |xs| == 0 then ""
    else if |xs| == 1 then xs[0]
    else xs[0] + sep + Join(xs[1..], sep)
  }

  /** A piece free of the separator glues onto the first piece of what follows it. */
  lemma {:induction false} SplitPrefix(a: string, t: string, sep: char)
    requires sep !in a
    ensures Split(a + t, sep) == [a + Split(t, sep)[0]] + Split(t, sep)[1..]
  {
    if |a| == 0 {
      var r := Split(t, sep);
      assert a + t == t && a + r[0] == r[0];
      assert [r[0]] + r[1..] == r;
    } else {
      assert (a + t)[1..] == a[1..] + t;
      SplitPrefix(a[1..], t, sep);
      assert [a[0]] + (a[1..] + Split(t, sep)[0]) == a + Split(t, sep)[0];
    }
  }

  /** Splitting a join of separator-free pieces gives back the pieces. */
  lemma {:induction false} SplitJoin(xs: seq<string>, sep: char)
    requires |xs| > 0
    requires forall i :: 0 <= i < |xs| ==> sep !in xs[i]
    ensures Split(Join(xs, [sep]), sep) == xs
  {
    if |xs| == 1 {
      SplitPrefix(xs[0], "", sep);
      assert xs[0] + "" == xs[0];
    } else {
      var j := Join(xs[1..], [sep]);
      assert Join(xs, [sep]) == xs[0] + ([sep] + j);
      SplitPrefix(xs[0], [sep] + j, sep);
      assert ([sep] + j)[1..] == j;
      SplitJoin(xs[1..], sep);
      assert Split([sep] + j, sep) == [""] + xs[1..];
      assert xs[0] + "" == xs[0];
    }
  }

  function DigitChar(d: nat): char
    requires d < 10
  {
    ('0' as int + d) as char
  }

  function NatToStr(n: nat): string {
    if n < 10 then [DigitChar(n)] else NatToStr(n / 10) + [DigitChar(n % 10)]
  }

  /** `str(n)` for a Python integer. */
  function IntToStr(n: int): string {
    if n < 0 then "-" + NatToStr(-n) else NatToStr(n)
  }

  predicate AllDigits(s: string) {
    forall i :: 0 <= i < |s| ==> IsDigit(s[i])
  }

  function DigitsValue(ds: string): nat
    requires AllDigits(ds)
  {
    if |ds| == 0 then 0
    else DigitsValue(ds[..|ds| - 1]) * 10 + (ds[|ds| - 1] as int - '0' as int)
  }

  function ParseDigits(ds: string): Option<nat> {
    if |ds| > 0 && AllDigits(ds) then Some(DigitsValue(ds)) else None
  }

  /** The whitespace `int()` skips around an ASCII literal: space and `\t \n \v \f \r` only. */
  predicate IsIntSpace(c: char) {
    c == ' ' || (9 <= c as int <= 13)
  }

  function IntTrimStart(s: string): string {
    if |s| > 0 && IsIntSpace(s[0]) then IntTrimStart(s[1..]) else s
  }

  function IntTrimEnd(s: string): string {
    if |s| > 0 && IsIntSpace(s[|s| - 1]) then IntTrimEnd(s[..|s| - 1]) else s
  }

  /** `s` without the whitespace `int()` skips at either end. */
  function IntStrip(s: string): string {
    IntTrimEnd(IntTrimStart(s))
  }

  /** `t` without one leading sign. */
  function Unsigned(t: string): string {
    if |t| > 0 && (t[0] == '-' || t[0] == '+') then t[1..] else t
  }

  /** The number of decimal digits at the start of `s`. */
  function DigitRun(s: string): nat {
    if |s| > 0 && IsDigit(s[0]) then 1 + DigitRun(s[1..]) else 0
  }

  /** The default of `sys.get_int_max_str_digits()`: the most digits `int()` and `str()` convert. */
  const MaxStrDigits := 4300

  /** The digits `int(s)` reads before it stops; above `MaxStrDigits` it raises at once. */
  function LiteralDigits(s: string): nat {
    DigitRun(Unsigned(IntStrip(s)))
  }

  /** `str(n)` stays within the digit limit. */
  predicate WithinDigitLimit(n: int) {
    |NatToStr(if n < 0 then -n else n)| <= MaxStrDigits
  }

  /**
   * `int(s)` in base 10: surrounding whitespace, an optional sign, then at least one decimal digit,
   * and no more digits than the limit. `None` stands for the `ValueError` Python raises.
   */
  function ParseInt(s: string): Option<int> {
    var t := IntStrip(s);
    if LiteralDigits(s) > MaxStrDigits then None
    else if |t| > 0 && (t[0] == '-' || t[0] == '+') then
      match ParseDigits(t[1..])
      case None => None
      case Some(n) => var k: int := n; Some(if t[0] == '-' then -k else k)
    else
      match ParseDigits(t)
      case None => None
      case Some(n) => Some(n)
  }

  /** A literal with more digits than the limit is refused, whatever follows them. */
  lemma ParseIntLimit(s: string)
    requires LiteralDigits(s) > MaxStrDigits
    ensures ParseInt(s).None?
  {
  }

  /** `int()` skips less whitespace than `strip()`: the separator `\x1c` is not skipped. */
  lemma ParseIntKeepsSeparator()
    ensures IsSpace(28 as char) && !IsIntSpace(28 as char)
    ensures ParseInt([28 as char] + "5").None?
  {
    var s := [28 as char] + "5";
    assert IntTrimStart(s) == s;
    assert IntTrimEnd(s) == s;
    assert !IsDigit(s[0]);
  }

  lemma {:induction false} DigitRunAll(s: string)
    requires AllDigits(s)
    ensures DigitRun(s) == |s|
  {
    if |s| > 0 {
      DigitRunAll(s[1..]);
    }
  }

  lemma {:induction false} NatToStrDigits(n: nat)
    ensures |NatToStr(n)| > 0 && AllDigits(NatToStr(n))
    ensures DigitsValue(NatToStr(n)) == n
  {
    if n >= 10 {
      NatToStrDigits(n / 10);
      var s := NatToStr(n);
      assert s[..|s| - 1] == NatToStr(n / 10);
    }
  }

  /** `str(n)` is digits with an optional leading minus sign: no space, no comma. */
  lemma IntToStrShape(n: int)
    ensures |IntToStr(n)| > 0 && IsTrimmed(IntToStr(n))
    ensures forall i :: 0 <= i < |IntToStr(n)| ==> IntToStr(n)[i] == '-' || IsDigit(IntToStr(n)[i])
  {
    NatToStrDigits(if n < 0 then -n else n);
  }

  /** `int(str(n)) == n` for every `n` within the digit limit; beyond it `int()` refuses the text. */
  lemma ParseIntToStr(n: int)
    ensures WithinDigitLimit(n) ==> ParseInt(IntToStr(n)) == Some(n)
    ensures !WithinDigitLimit(n) ==> ParseInt(IntToStr(n)).None?
  {
    var m: nat := if n < 0 then -n else n;
    NatToStrDigits(m);
    IntToStrShape(n);
    var s := IntToStr(n);
    assert IntTrimStart(s) == s;
    assert IntTrimEnd(s) == s;
    if n < 0 {
      assert s[1..] == NatToStr(m);
    }
    assert Unsigned(s) == NatToStr(m);
    DigitRunAll(NatToStr(m));
  }


  function HexDigit(d: nat): char
    requires d < 16
  {
    if d < 10 then DigitChar(d) else ('a' as int + d - 10) as char
  }

  /** One character of `repr(s)` for quote character `q`. */
  function EscapeChar(c: char, q: char): string {
    if c == q || c == '\\' then ['\\', c]
    else if c == '\t' then "\\t"
    else if c == '\n' then "\\n"
    else if c == '\r' then "\\r"
    else if c as int < 32 || c as int == 127 then "\\x" + [HexDigit(c as int / 16), HexDigit(c as int % 16)]
    else [c]
  }

  function Escape(s: string, q: char): string {
    if |s| == 0 then "" else EscapeChar(s[0], q) + Escape(s[1..], q)
  }

  /** `repr(s)`: double quotes only when `s` holds a single quote and no double quote. */
  function ReprStr(s: string): string {
    var q := if '\'' in s && '"' !in s then '"' else '\'';
    [q] + Escape(s, q) + [q]
  }
}
