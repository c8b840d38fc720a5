/**
 * The Python string built-ins that the league scripts rely on, on `string`
 * (a `seq<char>`): `str(int)`, `int(str)`, `' ' * k`, `str.split(sep)` with an
 * explicit separator, and `sep.join(parts)`.
 */
module PyText {
  import opened Wrappers

  predicate IsDigit(c: char) {
    '0' <= c <= '9'
  }

  predicate AllDigits(s: string) {
    forall i :: 0 <= i < |s| ==> IsDigit(s[i])
  }

  /** Python `c * k` for a one-character string `c`: empty when `k <= 0`. */
  function Repeat(c: char, k: int): (s: string)
    ensures |s| == if k <= 0 then 0 else k
    ensures forall i :: 0 <= i < |s| ==> s[i] == c
    decreases k
  {
    if k <= 0 then [] else [c] + Repeat(c, k - 1)
  }

  function DigitChar(d: nat): (c: char)
    requires d < 10
    ensures IsDigit(c)
  {
    (48 + d) as char
  }

  function DigitValue(c: char): nat
    requires IsDigit(c)
  {
    c as int - 48
  }

  /** Decimal digits of `n`, most significant first, without leading zeros. */
  function NatToString(n: nat): (s: string)
    ensures s != [] && AllDigits(s)
  {
    if n < 10 then [DigitChar(n)] else NatToString(n / 10) + [DigitChar(n % 10)]
  }

  /** Python `str(x)` for an `int`. */
  function IntToString(x: int): string {
    if x < 0 then "-" + NatToString(-x) else NatToString(x)
  }

  /** The value of a string of decimal digits (leading zeros allowed). */
  function DigitsValue(s: string): nat
    requires AllDigits(s)
  {
    if s == [] then 0 else DigitsValue(s[..|s| - 1]) * 10 + DigitValue(s[|s| - 1])
  }

  /**
   * Python `int(s)` on a string without white space or underscores: an optional
   * sign followed by at least one decimal digit; anything else is a ValueError.
   */
  function ParseInt(s: string): Option<int> {
    if |s| >= 2 && (s[0] == '-' || s[0] == '+') && AllDigits(s[1..]) then
      var v: int := DigitsValue(s[1..]);
      Some(if s[0] == '-' then -v else v)
    else if s != [] && AllDigits(s) then
      Some(DigitsValue(s))
    else
      None
  }

  lemma {:induction false} NatToStringValue(n: nat)
    ensures DigitsValue(NatToString(n)) == n
  {
    var s := NatToString(n);
    if n >= 10 {
      NatToStringValue(n / 10);
      assert s[..|s| - 1] == NatToString(n / 10);
    }
  }

  /** `int(str(x)) == x` for every integer. */
  lemma ParseIntOfIntToString(x: int)
    ensures ParseInt(IntToString(x)) == Some(x)
  {
    if x < 0 {
      ParseIntOfNegative(-x);
    } else {
      NatToStringValue(x);
    }
  }

  lemma ParseIntOfNegative(n: nat)
    requires n > 0
    ensures ParseInt("-" + NatToString(n)) == Some(0 - n)
  {
    var s := "-" + NatToString(n);
    assert s[1..] == NatToString(n);
    NatToStringValue(n);
    var v: int := DigitsValue(s[1..]);
    assert v == n;
  }

  /** Every `'-'` in `str(x)` is followed by a digit, and `str(x)` holds no space. */
  lemma IntToStringShape(x: int)
    ensures IntToString(x) != []
    ensures forall i :: 0 <= i < |IntToString(x)| && IntToString(x)[i] == '-' ==>
      i + 1 < |IntToString(x)| && IsDigit(IntToString(x)[i + 1])
    ensures forall i :: 0 <= i < |IntToString(x)| ==> IntToString(x)[i] != ' ' && IntToString(x)[i] != '\n'
  {
  }

  // ---------------------------------------------------------------------------
  // str.split(sep) and sep.join(parts)
  // ---------------------------------------------------------------------------

  predicate OccursAt(s: string, sep: string, j: int) {
    0 <= j && j + |sep| <= |s| && s[j..j + |sep|] == sep
  }

  /** The first index at or after `k` where `sep` occurs in `s`, as `str.find`. */
  function FindFrom(s: string, sep: string, k: nat): (r: Option<nat>)
    requires k <= |s|
    ensures r.Some? ==> k <= r.value && OccursAt(s, sep, r.value)
    ensures forall j :: k <= j && (r.None? || j < r.value) ==> !OccursAt(s, sep, j)
    decreases |s| - k
  {
    if OccursAt(s, sep, k) then Some(k)
    else if k == |s| then None
    else FindFrom(s, sep, k + 1)
  }

  /**
   * Python `s.split(sep)` for a non-empty separator: the pieces between
   * successive, non-overlapping occurrences of `sep`, scanned left to right.
   */
  function Split(s: string, sep: string): (parts: seq<string>)
    requires sep != []
    ensures |parts| >= 1
    decreases |s|
  {
    match FindFrom(s, sep, 0)
    case None => [s]
    case Some(i) => [s[..i]] + Split(s[i + |sep|..], sep)
  }

  /** Python `sep.join(parts)`. */
  function Join(sep: string, parts: seq<string>): string
  {
    if |parts| == 0 then ""
    else if |parts| == 1 then parts[0]
    else parts[0] + sep + Join(sep, parts[1..])
  }

  /** Joining the pieces of a split with the same separator gives the string back. */
  lemma {:induction false} JoinSplit(s: string, sep: string)
    requires sep != []
    ensures Join(sep, Split(s, sep)) == s
    decreases |s|
  {
    match FindFrom(s, sep, 0)
    case None =>
    case Some(i) =>
      var rest := Split(s[i + |sep|..], sep);
      JoinSplit(s[i + |sep|..], sep);
      assert ([s[..i]] + rest)[1..] == rest;
      assert s == s[..i] + sep + s[i + |sep|..] by {
        assert s[i..i + |sep|] == sep;
      }
  }

  lemma SplitWithoutSeparator(s: string, sep: string)
    requires sep != []
    requires forall j :: !OccursAt(s, sep, j)
    ensures Split(s, sep) == [s]
  {
  }

  /**
   * When the first occurrence of `sep` in `x + sep + y` is the one after `x`,
   * splitting yields `x` and then the split of `y`.
   */
  lemma SplitAtFirst(x: string, sep: string, y: string)
    requires sep != []
    requires forall j :: 0 <= j < |x| ==> !OccursAt(x + sep + y, sep, j)
    ensures Split(x + sep + y, sep) == [x] + Split(y, sep)
  {
    var s := x + sep + y;
    assert s[|x|..|x| + |sep|] == sep;
    assert OccursAt(s, sep, |x|);
    var f := FindFrom(s, sep, 0);
    assert f == Some(|x|);
    assert s[..|x|] == x;
    assert s[|x| + |sep|..] == y;
  }

  lemma OccursAtSingle(s: string, c: char, j: int)
    ensures OccursAt(s, [c], j) <==> 0 <= j < |s| && s[j] == c
  {
    if 0 <= j < |s| {
      assert s[j..j + 1] == [s[j]];
    }
  }

  /** Splitting on a character that does not occur in `y`: `y` is the last piece. */
  lemma {:induction false} SplitAppendSingle(x: string, c: char, y: string)
    requires c !in y
    ensures Split(x + [c] + y, [c]) == Split(x, [c]) + [y]
    decreases |x|
  {
    var s := x + [c] + y;
    forall j | 0 <= j ensures OccursAt(y, [c], j) <==> false {
      OccursAtSingle(y, c, j);
    }
    SplitWithoutSeparator(y, [c]);
    var f := FindFrom(x, [c], 0);
    if f.None? {
      forall j | 0 <= j < |x| ensures !OccursAt(s, [c], j) {
        OccursAtSingle(s, c, j);
        OccursAtSingle(x, c, j);
      }
      SplitAtFirst(x, [c], y);
    } else {
      var i := f.value;
      OccursAtSingle(x, c, i);
      var x1, x2 := x[..i], x[i + 1..];
      assert x == x1 + [c] + x2;
      assert s == x1 + [c] + (x2 + [c] + y);
      forall j | 0 <= j < |x1| ensures !OccursAt(x, [c], j) && !OccursAt(s, [c], j) {
        OccursAtSingle(s, c, j);
        OccursAtSingle(x, c, j);
      }
      SplitAtFirst(x1, [c], x2 + [c] + y);
      SplitAtFirst(x1, [c], x2);
      SplitAppendSingle(x2, c, y);
    }
  }

  /** Splitting a join on a one-character separator that no part contains gives the parts back. */
  lemma {:induction false} SplitJoinSingle(c: char, parts: seq<string>)
    requires |parts| >= 1
    requires forall k :: 0 <= k < |parts| ==> c !in parts[k]
    ensures Split(Join([c], parts), [c]) == parts
    decreases |parts|
  {
    if |parts| == 1 {
      forall j | 0 <= j ensures !OccursAt(parts[0], [c], j) {
        OccursAtSingle(parts[0], c, j);
      }
      SplitWithoutSeparator(parts[0], [c]);
    } else {
      var rest := Join([c], parts[1..]);
      forall j | 0 <= j < |parts[0]| ensures !OccursAt(parts[0] + [c] + rest, [c], j) {
        OccursAtSingle(parts[0] + [c] + rest, c, j);
      }
      SplitAtFirst(parts[0], [c], rest);
      SplitJoinSingle(c, parts[1..]);
    }
  }
}
