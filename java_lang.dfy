/**
 * The pieces of java.lang behaviour the library leans on, written out so that
 * the rest of the model can use them: 32-bit int arithmetic, Integer.parseInt,
 * int-to-text rendering, String.trim, String.split on a one-character
 * separator, String.indexOf, ASCII lower-casing and String.hashCode.
 */
module JavaLang {
  import opened Wrappers

  const MinInt: int := -0x8000_0000
  const MaxInt: int := 0x7fff_ffff
  const TwoTo32: int := 0x1_0000_0000

  predicate IsInt32(n: int) { MinInt <= n <= MaxInt }

  /** The value a Java `int` holds when an arithmetic result `n` is stored in it. */
  function Wrap32(n: int): (r: int)
    ensures IsInt32(r)
    ensures IsInt32(n) ==> r == n
    ensures (n - r) % TwoTo32 == 0
  {
    (n - MinInt) % TwoTo32 + MinInt
  }

  function Max(a: int, b: int): int { if a >= b then a else b }

  // ---------------------------------------------------------------- digits

  predicate IsDigit(c: char) { '0' <= c <= '9' }

  predicate AllDigits(s: string) { forall i | 0 <= i < |s| :: IsDigit(s[i]) }

  function DigitValue(c: char): (d: nat)
    requires IsDigit(c)
    ensures d < 10
  {
    c as int - '0' as int
  }

  function DigitChar(d: nat): (c: char)
    requires d < 10
    ensures IsDigit(c) && DigitValue(c) == d
  {
    ('0' as int + d) as char
  }

  /** The number a run of decimal digits denotes, most significant digit first. */
  function DigitsValue(s: string): nat
    requires AllDigits(s)
    decreases |s|
  {
    if s == [] then 0 else DigitsValue(s[..|s| - 1]) * 10 + DigitValue(s[|s| - 1])
  }

  /** Decimal text of a natural number, without leading zeros. */
  function NatToString(n: nat): (s: string)
    ensures |s| > 0 && AllDigits(s)
    decreases n
  {
    if n < 10 then [DigitChar(n)] else NatToString(n / 10) + [DigitChar(n % 10)]
  }

  /** Java's text for an int, as string concatenation and "%d" produce it. */
  function IntToString(n: int): string
  {
    if n < 0 then "-" + NatToString(-n) else NatToString(n)
  }

  /**
   * Integer.parseInt / Integer.valueOf on ASCII text: an optional '+' or '-',
   * then at least one decimal digit, denoting a value in the int range.
   * None stands for the NumberFormatException thrown otherwise.
   */
  function ParseInt(s: string): (r: Option<int>)
    ensures r.Some? ==> IsInt32(r.value) && |s| > 0
    ensures r.Some? && AllDigits(s) ==> r.value == DigitsValue(s)
  {
    if |s| == 0 then None
    else
      var digits := if s[0] == '-' || s[0] == '+' then s[1..] else s;
      if |digits| == 0 || !AllDigits(digits) then None
      else
        var v: int := if s[0] == '-' then -(DigitsValue(digits) as int) else DigitsValue(digits);
        if IsInt32(v) then Some(v) else None
  }

  lemma {:induction false} DigitsValueOfNatToString(n: nat)
    ensures DigitsValue(NatToString(n)) == n
    decreases n
  {
    if n >= 10 {
      var s := NatToString(n);
      assert s[..|s| - 1] == NatToString(n / 10);
      DigitsValueOfNatToString(n / 10);
    }
  }

  /** Parsing the text Java renders for an int gives the int back. */
  lemma ParseIntOfIntToString(n: int)
    requires IsInt32(n)
    ensures ParseInt(IntToString(n)) == Some(n)
  {
    if n < 0 {
      DigitsValueOfNatToString(-n);
      ParseIntNegative(NatToString(-n));
    } else {
      DigitsValueOfNatToString(n);
      ParseIntDigits(NatToString(n));
    }
  }

  lemma ParseIntDigits(d: string)
    requires |d| > 0 && AllDigits(d) && DigitsValue(d) <= MaxInt
    ensures ParseInt(d) == Some(DigitsValue(d))
  {
    assert IsDigit(d[0]);
  }

  lemma ParseIntNegative(d: string)
    requires |d| > 0 && AllDigits(d) && DigitsValue(d) <= -MinInt
    ensures ParseInt("-" + d) == Some(-(DigitsValue(d) as int))
  {
    var s := "-" + d;
    assert s[0] == '-' && s[1..] == d;
  }

  lemma {:induction false} DigitsValueLeadingZero(s: string)
    requires AllDigits(s)
    ensures AllDigits("0" + s) && DigitsValue("0" + s) == DigitsValue(s)
    decreases |s|
  {
    var t := "0" + s;
    if s != [] {
      assert t[..|t| - 1] == "0" + s[..|s| - 1];
      DigitsValueLeadingZero(s[..|s| - 1]);
    }
  }

  /** Leading zeros do not change what Integer.parseInt reads from a digit run. */
  lemma ParseIntIgnoresLeadingZero(s: string)
    requires |s| > 0 && AllDigits(s)
    ensures ParseInt("0" + s) == ParseInt(s)
  {
    DigitsValueLeadingZero(s);
  }

  // ---------------------------------------------------------------- searching

  /** String.indexOf(char): the first position of `c`, or -1. */
  function IndexOf(s: string, c: char): (r: int)
    ensures -1 <= r < |s|
    ensures r == -1 <==> c !in s
    ensures r >= 0 ==> s[r] == c && c !in s[..r]
    decreases |s|
  {
    if |s| == 0 then -1
    else if s[0] == c then 0
    else
      var k := IndexOf(s[1..], c);
      if k == -1 then -1
      else
        assert s[..k + 1] == [s[0]] + s[1..][..k];
        k + 1
  }

  lemma IndexOfAfterPrefix(a: string, c: char, b: string)
    requires c !in a
    ensures IndexOf(a + [c] + b, c) == |a|
  {
    var s := a + [c] + b;
    assert s[|a|] == c;
    assert s[..|a|] == a;
  }

  // ---------------------------------------------------------------- trim

  /** String.trim treats every char up to and including ' ' as removable. */
  predicate IsSpace(c: char) { c <= ' ' }

  function TrimStart(s: string): (r: string)
    ensures |r| <= |s|
    ensures r == [] || !IsSpace(r[0])
    decreases |s|
  {
    if |s| > 0 && IsSpace(s[0]) then TrimStart(s[1..]) else s
  }

  function TrimEnd(s: string): (r: string)
    ensures |r| <= |s|
    ensures r == [] || !IsSpace(r[|r| - 1])
    decreases |s|
  {
    if |s| > 0 && IsSpace(s[|s| - 1]) then TrimEnd(s[..|s| - 1]) else s
  }

  /** String.trim: the text without its leading and trailing spaces and control characters. */
  function Trim(s: string): (r: string)
    ensures |r| <= |s|
    ensures r == [] || (!IsSpace(r[0]) && !IsSpace(r[|r| - 1]))
    ensures (s == [] || (!IsSpace(s[0]) && !IsSpace(s[|s| - 1]))) ==> r == s
  {
    TrimEndDropsSpaces(TrimStart(s));
    TrimEnd(TrimStart(s))
  }

  /** TrimStart removes a prefix made only of spaces. */
  lemma {:induction false} TrimStartDropsSpaces(s: string)
    ensures var r := TrimStart(s); r == s[|s| - |r|..] && forall i | 0 <= i < |s| - |r| :: IsSpace(s[i])
    decreases |s|
  {
    if |s| > 0 && IsSpace(s[0]) {
      TrimStartDropsSpaces(s[1..]);
    }
  }

  /** TrimEnd removes a suffix made only of spaces. */
  lemma {:induction false} TrimEndDropsSpaces(s: string)
    ensures var r := TrimEnd(s); r == s[..|r|] && forall i | |r| <= i < |s| :: IsSpace(s[i])
    decreases |s|
  {
    if |s| > 0 && IsSpace(s[|s| - 1]) {
      TrimEndDropsSpaces(s[..|s| - 1]);
    }
  }

  /** trim keeps a middle part of the text and drops only spaces around it. */
  lemma TrimDropsOnlySpaces(s: string)
    ensures exists b, e | 0 <= b <= e <= |s| :: Trim(s) == s[b..e]
                          && (forall i | 0 <= i < b :: IsSpace(s[i])) && (forall i | e <= i < |s| :: IsSpace(s[i]))
  {
    TrimStartDropsSpaces(s);
    var t := TrimStart(s);
    var b := |s| - |t|;
    TrimEndDropsSpaces(t);
    var e := b + |TrimEnd(t)|;
    assert Trim(s) == s[b..e];
    assert forall i | e <= i < |s| :: s[i] == t[i - b];
  }

  // ---------------------------------------------------------------- lower-casing

  function ToLowerChar(c: char): char
  {
    if 'A' <= c <= 'Z' then (c as int + 32) as char else c
  }

  /** String.toLowerCase, restricted to the ASCII letters. */
  function ToLower(s: string): (r: string)
  {
    seq(|s|, i requires 0 <= i < |s| => ToLowerChar(s[i]))
  }

  lemma ToLowerIdempotent(s: string)
    ensures ToLower(ToLower(s)) == ToLower(s)
  {
  }

  // ---------------------------------------------------------------- split

  /** The pieces joined back with the separator between them. */
  function Join(xs: seq<string>, sep: char): string
    requires |xs| >= 1
    decreases |xs|
  {
    if |xs| == 1 then xs[0] else xs[0] + [sep] + Join(xs[1..], sep)
  }

  /** Every piece of `s` between separators, empty pieces included. */
  function Fields(s: string, sep: char): (r: seq<string>)
    ensures |r| >= 1
    ensures forall k | 0 <= k < |r| :: sep !in r[k]
    ensures Join(r, sep) == s
    decreases |s|
  {
    var i := IndexOf(s, sep);
    if i == -1 then [s]
    else
      var rest := Fields(s[i + 1..], sep);
      JoinCons(s[..i], rest, sep);
      assert s == s[..i] + [sep] + s[i + 1..];
      [s[..i]] + rest
  }

  lemma JoinCons(x: string, rest: seq<string>, sep: char)
    requires |rest| >= 1
    ensures Join([x] + rest, sep) == x + [sep] + Join(rest, sep)
  {
    assert ([x] + rest)[0] == x;
    assert ([x] + rest)[1..] == rest;
  }

  /** Removes the empty strings at the end, as String.split does. */
  function DropTrailingEmpty(xs: seq<string>): (r: seq<string>)
    ensures |r| <= |xs| && r == xs[..|r|]
    ensures r == [] || r[|r| - 1] != []
    ensures forall k | |r| <= k < |xs| :: xs[k] == []
    decreases |xs|
  {
    if |xs| > 0 && xs[|xs| - 1] == [] then DropTrailingEmpty(xs[..|xs| - 1]) else xs
  }

  /**
   * String.split with a one-character separator: text without the separator
   * gives itself as the one piece (even when it is empty); otherwise every
   * piece except the empty ones at the end.
   */
  function Split(s: string, sep: char): (r: seq<string>)
    ensures forall k | 0 <= k < |r| :: sep !in r[k]
    ensures sep !in s ==> r == [s]
    ensures sep in s ==> r == [] || r[|r| - 1] != []
  {
    if sep !in s then [s] else DropTrailingEmpty(Fields(s, sep))
  }

  lemma {:induction false} FieldsOfJoin(xs: seq<string>, sep: char)
    requires |xs| >= 1
    requires forall k | 0 <= k < |xs| :: sep !in xs[k]
    ensures Fields(Join(xs, sep), sep) == xs
    decreases |xs|
  {
    if |xs| > 1 {
      var rest := Join(xs[1..], sep);
      IndexOfAfterPrefix(xs[0], sep, rest);
      var s := Join(xs, sep);
      assert s[..|xs[0]|] == xs[0];
      assert s[|xs[0]| + 1..] == rest;
      FieldsOfJoin(xs[1..], sep);
    }
  }

  /** Splitting pieces joined with the separator gives the pieces back when the last one is not empty. */
  lemma SplitOfJoin(xs: seq<string>, sep: char)
    requires |xs| >= 2
    requires forall k | 0 <= k < |xs| :: sep !in xs[k]
    requires xs[|xs| - 1] != []
    ensures Split(Join(xs, sep), sep) == xs
  {
    FieldsOfJoin(xs, sep);
    var s := Join(xs, sep);
    assert s == xs[0] + [sep] + Join(xs[1..], sep);
    assert s[|xs[0]|] == sep;
  }

  // ---------------------------------------------------------------- hashing

  /** String.hashCode: the chars as a base-31 number, in int arithmetic. */
  function StringHash(s: string): (h: int)
    ensures IsInt32(h)
    decreases |s|
  {
    if s == [] then 0 else Wrap32(31 * StringHash(s[..|s| - 1]) + s[|s| - 1] as int)
  }
}
