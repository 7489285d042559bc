/**
 * The pieces of the C++ standard library that the configuration reader leans on,
 * written out so that their edge cases are part of the model:
 * `std::size_t` arithmetic (64 bits, wrapping), `std::string::find`,
 * `std::string::substr`, the `isspace` erase, and `std::stoi`.
 */
module CppText {
  import opened Wrappers

  /** The exceptions the library calls throw. */
  datatype CppError =
    | StoiInvalidArgument   // std::stoi found no digits
    | StoiOutOfRange        // std::stoi value does not fit an int
    | SubstrOutOfRange      // std::string::substr with pos > size()
    | StodInvalidArgument   // std::stod could not convert

  /** `std::size_t` is 64 bits wide; its arithmetic wraps modulo 2^64. */
  const SIZE_MOD: nat := 0x1_0000_0000_0000_0000
  /** `std::string::npos`, i.e. `(size_t)-1`. */
  const NPOS: nat := SIZE_MOD - 1

  /** `unsigned int` is 32 bits wide; its arithmetic wraps modulo 2^32. */
  const UINT_MOD: nat := 0x1_0000_0000

  /** `a + b` on `size_t` operands: exact below 2^64, otherwise wrapped once (`npos + 1 == 0`). */
  function SizeAdd(a: nat, b: nat): (r: nat)
    ensures r < SIZE_MOD
    ensures a + b < SIZE_MOD ==> r == a + b
    ensures a < SIZE_MOD && b < SIZE_MOD && a + b >= SIZE_MOD ==> r == a + b - SIZE_MOD
  {
    (a + b) % SIZE_MOD
  }

  /** `a - b` on `size_t` operands: exact when `b <= a`, otherwise wrapped to `2^64 - (b - a)`. */
  function SizeSub(a: nat, b: nat): (r: nat)
    ensures r < SIZE_MOD
    ensures b <= a < SIZE_MOD ==> r == a - b
    ensures a < b < SIZE_MOD ==> r == SIZE_MOD - (b - a)
  {
    (a - b) % SIZE_MOD
  }

  /** Every std::string is shorter than npos. */
  predicate StdString(s: string) {
    |s| < NPOS
  }

  /** `s.find(c, from)`: the first index at or after `from` holding `c`, or npos. */
  function Find(s: string, c: char, from: nat): (r: nat)
    ensures (from <= r < |s| && s[r] == c && forall k :: from <= k < r ==> s[k] != c)
         || (r == NPOS && forall k :: from <= k < |s| ==> s[k] != c)
    decreases |s| - from
  {
    if from >= |s| then NPOS
    else if s[from] == c then from
    else Find(s, c, from + 1)
  }

  /** When `c` first occurs at `at` (from `from` on), that is what find reports. */
  lemma FindFirst(s: string, c: char, from: nat, at: nat)
    requires StdString(s)
    requires from <= at < |s| && s[at] == c
    requires forall k :: from <= k < at ==> s[k] != c
    ensures Find(s, c, from) == at
  {
  }

  /**
   * `s.substr(pos, count)`: throws when `pos > size()`, else the `min(count, size() - pos)`
   * characters from `pos`.
   */
  function Substr(s: string, pos: nat, count: nat): (r: Result<string, CppError>)
    ensures r.Err? <==> pos > |s|
    ensures r.Ok? ==> r.value <= s[pos..]
    ensures r.Ok? ==> |r.value| == if count < |s| - pos then count else |s| - pos
  {
    if pos > |s| then Err(SubstrOutOfRange)
    else if count <= |s| - pos then Ok(s[pos..pos + count])
    else Ok(s[pos..])
  }

  /** The characters `isspace` accepts in the "C" locale. */
  predicate IsSpace(c: char) {
    c == ' ' || c == '\t' || c == '\n' || c == '\U{000B}' || c == '\U{000C}' || c == '\r'
  }

  predicate NoSpaces(s: string) {
    forall k :: 0 <= k < |s| ==> !IsSpace(s[k])
  }

  /** `s.erase(std::remove_if(s.begin(), s.end(), isspace), s.end())`. */
  function EraseSpaces(s: string): (r: string)
    ensures NoSpaces(r)
    ensures |r| <= |s|
    ensures forall k :: 0 <= k < |s| && !IsSpace(s[k]) ==> s[k] in r
    ensures forall c :: c in r ==> c in s
    ensures s == [] ==> r == []
    ensures |s| == 1 ==> r == if IsSpace(s[0]) then [] else s
  {
    if s == [] then []
    else (if IsSpace(s[0]) then [] else [s[0]]) + EraseSpaces(s[1..])
  }

  /** Erasing keeps the order of what is kept: it distributes over concatenation. */
  lemma {:induction false} EraseSpacesAppend(a: string, b: string)
    ensures EraseSpaces(a + b) == EraseSpaces(a) + EraseSpaces(b)
  {
    if a == [] {
      assert a + b == b;
    } else {
      var head := if IsSpace(a[0]) then [] else [a[0]];
      assert (a + b)[0] == a[0];
      assert (a + b)[1..] == a[1..] + b;
      EraseSpacesAppend(a[1..], b);
      calc {
        EraseSpaces(a + b);
        head + EraseSpaces(a[1..] + b);
        head + (EraseSpaces(a[1..]) + EraseSpaces(b));
        (head + EraseSpaces(a[1..])) + EraseSpaces(b);
        EraseSpaces(a) + EraseSpaces(b);
      }
    }
  }

  /** A line without whitespace comes out of the erase unchanged. */
  lemma {:induction false} EraseSpacesKeepsSpaceless(s: string)
    requires NoSpaces(s)
    ensures EraseSpaces(s) == s
  {
    if s != [] {
      EraseSpacesKeepsSpaceless(s[1..]);
    }
  }

  predicate IsDigit(c: char) {
    '0' <= c <= '9'
  }

  predicate AllDigits(s: string) {
    forall k :: 0 <= k < |s| ==> IsDigit(s[k])
  }

  /** The length of the run of decimal digits that starts at index `i` of `s`. */
  function DigitRun(s: string, i: nat): (n: nat)
    requires i <= |s|
    ensures i + n <= |s|
    ensures forall k :: i <= k < i + n ==> IsDigit(s[k])
    ensures i + n < |s| ==> !IsDigit(s[i + n])
    decreases |s| - i
  {
    if i == |s| || !IsDigit(s[i]) then 0 else 1 + DigitRun(s, i + 1)
  }

  /** The value of the decimal digits `s[i..j]`, most significant digit first. */
  function DigitsValue(s: string, i: nat, j: nat): nat
    requires i <= j <= |s|
    requires forall k :: i <= k < j ==> IsDigit(s[k])
    decreases j
  {
    if j == i then 0
    else
      assert IsDigit(s[j - 1]);
      DigitsValue(s, i, j - 1) * 10 + (s[j - 1] as int - '0' as int)
  }

  const INT_MIN: int := -0x8000_0000
  const INT_MAX: int := 0x7FFF_FFFF

  /** The length of the optional leading sign of `s`: 1 for `+` or `-`, else 0. */
  function SignLength(s: string): (n: nat)
    ensures n <= 1 && n <= |s|
    ensures n == 1 <==> |s| > 0 && (s[0] == '-' || s[0] == '+')
  {
    if |s| > 0 && (s[0] == '-' || s[0] == '+') then 1 else 0
  }

  /** There is a digit right after the optional sign. */
  predicate HasDigits(s: string) {
    SignLength(s) < |s| && IsDigit(s[SignLength(s)])
  }

  /** The value of the optional sign and the maximal digit run after it (0 when there is no digit). */
  function SignedValue(s: string): int {
    var start := SignLength(s);
    var magnitude: int := DigitsValue(s, start, start + DigitRun(s, start));
    if start == 1 && s[0] == '-' then -magnitude else magnitude
  }

  /**
   * `std::stoi(s)`: an optional sign and the longest run of digits after it; trailing
   * text is ignored. No digits throws invalid_argument; a value outside the 32-bit
   * `int` range throws out_of_range. (Leading whitespace, which strtol would skip,
   * never reaches it here: the reader has erased it already.)
   */
  function Stoi(s: string): (r: Result<int, CppError>)
    ensures r.Ok? ==> INT_MIN <= r.value <= INT_MAX && r.value == SignedValue(s)
    ensures r == Err(StoiInvalidArgument) <==> !HasDigits(s)
    ensures r == Err(StoiOutOfRange) <==> HasDigits(s) && !(INT_MIN <= SignedValue(s) <= INT_MAX)
  {
    var start := SignLength(s);
    var n := DigitRun(s, start);
    if n == 0 then Err(StoiInvalidArgument)
    else
      var magnitude: int := DigitsValue(s, start, start + n);
      var v: int := if start == 1 && s[0] == '-' then -magnitude else magnitude;
      if v < INT_MIN || v > INT_MAX then Err(StoiOutOfRange) else Ok(v)
  }

  /** Only one sign is read: a second sign where the digits should start is invalid. */
  lemma StoiRejectsDoubleSign(s: string)
    requires |s| >= 2 && (s[0] == '-' || s[0] == '+') && (s[1] == '-' || s[1] == '+')
    ensures Stoi(s) == Err(StoiInvalidArgument)
  {
  }

  /**
   * A C++ `double` as `std::stod` may return it: besides finite values, the texts
   * `inf`/`infinity` and `nan` give an infinity and NaN.
   */
  datatype Double = Finite(value: real) | Infinity(negative: bool) | NaN

  /** `d <= x`: never true for NaN, always true for minus infinity. */
  predicate AtMost(d: Double, x: real) {
    match d
    case Finite(v) => v <= x
    case Infinity(negative) => negative
    case NaN => false
  }

  /** `d >= x`: never true for NaN, always true for plus infinity. */
  predicate AtLeast(d: Double, x: real) {
    match d
    case Finite(v) => v >= x
    case Infinity(negative) => !negative
    case NaN => false
  }

  /**
   * The two comparisons against a real: NaN satisfies neither, every other value
   * satisfies at least one, and both only when it equals the real.
   */
  lemma DoubleComparisons(d: Double, x: real)
    ensures !AtMost(d, x) && !AtLeast(d, x) <==> d.NaN?
    ensures AtMost(d, x) && AtLeast(d, x) <==> d == Finite(x)
    ensures d.Infinity? ==> (AtMost(d, x) <==> d.negative) && (AtLeast(d, x) <==> !d.negative)
  {
  }

  /** The decimal text of a natural number (the inverse of `DigitsValue`). */
  function NatText(n: nat): (d: string)
    ensures |d| > 0 && AllDigits(d)
    ensures |d| <= n + 1
  {
    var last := ('0' as int + n % 10) as char;
    if n < 10 then [last] else NatText(n / 10) + [last]
  }

  /** The decimal text of an integer, with a leading `-` when negative. */
  function IntText(x: int): (t: string)
    ensures |t| > 0 && (x < 0 ==> t[0] == '-') && (x >= 0 ==> t[0] != '-')
    ensures forall k :: 0 < k < |t| ==> IsDigit(t[k])
    ensures forall k :: 0 <= k < |t| ==> IsDigit(t[k]) || t[k] == '-'
    ensures IsDigit(t[|t| - 1])
    ensures |t| <= if x < 0 then 2 - x else x + 1
  {
    if x < 0 then "-" + NatText(-x) else NatText(x)
  }

  /** Reading the digits of `NatText(n)`, wherever they sit in `s`, gives back `n`. */
  lemma {:induction false} NatTextValue(n: nat, s: string, i: nat)
    requires i + |NatText(n)| <= |s| && s[i..i + |NatText(n)|] == NatText(n)
    ensures forall k :: i <= k < i + |NatText(n)| ==> IsDigit(s[k])
    ensures DigitsValue(s, i, i + |NatText(n)|) == n
  {
    var d := NatText(n);
    var j := i + |d|;
    forall k | i <= k < j ensures IsDigit(s[k]) {
      assert s[k] == s[i..j][k - i];
    }
    assert s[j - 1] == s[i..j][|d| - 1];
    if n >= 10 {
      var e := NatText(n / 10);
      assert d == e + [d[|d| - 1]];
      assert s[i..i + |e|] == s[i..j][..|e|];
      NatTextValue(n / 10, s, i);
      assert DigitsValue(s, i, j) == (n / 10) * 10 + n % 10;
    }
  }

  lemma StoiIntText(x: int)
    requires INT_MIN <= x <= INT_MAX
    ensures Stoi(IntText(x)) == Ok(x)
  {
    var t := IntText(x);
    var start := if x < 0 then 1 else 0;
    var m := if x < 0 then -x else x;
    assert SignLength(t) == start;
    assert t[start..start + |NatText(m)|] == NatText(m);
    NatTextValue(m, t, start);
    assert DigitRun(t, start) == |NatText(m)|;
  }
}
