/**
 Strings as the partition code uses them: decimal integers as Rust prints and
 parses them, splitting at a separator, and joining segments with '/'.
 */
module Text {

  datatype Option<+T> = None | Some(value: T)

  // ---------- Decimal integers ----------

  const MIN_I64: int := -0x8000_0000_0000_0000
  const MAX_I64: int := 0x7FFF_FFFF_FFFF_FFFF

  predicate IsI64(n: int) {
    MIN_I64 <= n <= MAX_I64
  }

  predicate IsDigit(c: char) {
    '0' <= c <= '9'
  }

  predicate AllDigits(s: string) {
    forall i :: 0 <= i < |s| ==> IsDigit(s[i])
  }

  /** The number a string of digits denotes; the empty string denotes zero. */
  function DigitsValue(s: string): nat
    requires AllDigits(s)
  {
    if s == "" then 0
    else 10 * DigitsValue(s[..|s| - 1]) + (s[|s| - 1] as int - '0' as int)
  }

  function ShowNat(n: nat): (s: string)
    ensures |s| > 0 && AllDigits(s) && DigitsValue(s) == n
    decreases n
  {
    var last := (n % 10 + '0' as int) as char;
    if n < 10 then [last] else ShowNat(n / 10) + [last]
  }

  /** `i64::to_string`. */
  function ShowInt(n: int): string {
    if n < 0 then "-" + ShowNat(-n) else ShowNat(n)
  }

  /** `str::parse::<i64>`: an optional sign, then at least one digit, within range. */
  function ParseI64(s: string): Option<int> {
    var digits := if s != "" && s[0] in "+-" then s[1..] else s;
    if digits == "" || !AllDigits(digits) then None
    else
      var magnitude := DigitsValue(digits);
      var n: int := if s[0] == '-' then -(magnitude as int) else magnitude;
      if IsI64(n) then Some(n) else None
  }

  /** Exactly the printed form of a 64-bit integer is canonical: no sign '+', no padding, no "-0". */
  function CanonicalInteger(value: string): (r: Option<int>)
    ensures r.Some? ==> value == ShowInt(r.value) && IsI64(r.value)
    ensures forall n :: IsI64(n) && value == ShowInt(n) ==> r == Some(n)
  {
    assert forall n :: IsI64(n) && value == ShowInt(n) ==> ParseI64(value) == Some(n) by {
      forall n | IsI64(n) && value == ShowInt(n) ensures ParseI64(value) == Some(n) {
        ParseShow(n);
      }
    }
    var parsed := ParseI64(value);
    if parsed.Some? && ShowInt(parsed.value) == value then parsed else None
  }

  lemma ParseShow(n: int)
    requires IsI64(n)
    ensures ParseI64(ShowInt(n)) == Some(n)
  {
    var s := ShowInt(n);
    if n < 0 {
      assert s[1..] == ShowNat(-n);
    } else {
      assert IsDigit(s[0]);
    }
  }

  lemma ShowIntInjective(m: int, n: int)
    requires ShowInt(m) == ShowInt(n)
    ensures m == n
  {
    assert m < 0 ==> ShowInt(m)[1..] == ShowNat(-m);
    assert n < 0 ==> ShowInt(n)[1..] == ShowNat(-n);
    assert m >= 0 ==> IsDigit(ShowInt(m)[0]);
    assert n >= 0 ==> IsDigit(ShowInt(n)[0]);
  }

  lemma ShowIntLacks(n: int, c: char)
    requires !IsDigit(c) && c != '-'
    ensures c !in ShowInt(n)
  {
  }

  // ---------- Splitting and joining ----------

  /** `str::split(separator)`: always at least one piece. */
  function Split(s: string, separator: char): (pieces: seq<string>)
    ensures |pieces| >= 1
  {
    if separator !in s then [s]
    else
      var i := IndexOf(s, separator);
      [s[..i]] + Split(s[i + 1..], separator)
  }

  function IndexOf(s: string, c: char): (i: nat)
    requires c in s
    ensures i < |s| && s[i] == c && c !in s[..i]
  {
    if s[0] == c then 0
    else
      assert s == [s[0]] + s[1..];
      1 + IndexOf(s[1..], c)
  }

  /** `str::split_once(separator)`. */
  function SplitOnce(s: string, separator: char): Option<(string, string)> {
    if separator !in s then None
    else
      var i := IndexOf(s, separator);
      Some((s[..i], s[i + 1..]))
  }

  function Join(pieces: seq<string>, separator: char): string
    requires |pieces| >= 1
  {
    if |pieces| == 1 then pieces[0]
    else pieces[0] + [separator] + Join(pieces[1..], separator)
  }

  lemma IndexOfUnique(a: string, c: char, b: string)
    requires c !in a
    ensures c in a + [c] + b
    ensures IndexOf(a + [c] + b, c) == |a|
  {
    var s := a + [c] + b;
    assert s[|a|] == c;
    var i := IndexOf(s, c);
    assert forall k :: 0 <= k < i ==> s[k] == s[..i][k] != c;
  }

  lemma SplitOnceAt(a: string, c: char, b: string)
    requires c !in a
    ensures SplitOnce(a + [c] + b, c) == Some((a, b))
  {
    IndexOfUnique(a, c, b);
    assert (a + [c] + b)[..|a|] == a && (a + [c] + b)[|a| + 1..] == b;
  }

  lemma {:induction false} SplitJoin(pieces: seq<string>, separator: char)
    requires |pieces| >= 1
    requires forall i :: 0 <= i < |pieces| ==> separator !in pieces[i]
    ensures Split(Join(pieces, separator), separator) == pieces
  {
    if |pieces| == 1 {
      assert pieces == [pieces[0]];
    } else {
      var rest := Join(pieces[1..], separator);
      IndexOfUnique(pieces[0], separator, rest);
      var s := pieces[0] + [separator] + rest;
      assert s[..|pieces[0]|] == pieces[0] && s[|pieces[0]| + 1..] == rest;
      SplitJoin(pieces[1..], separator);
    }
  }

  /** Splitting loses nothing: joining the pieces gives the string back. */
  lemma {:induction false} JoinSplit(s: string, separator: char)
    ensures Join(Split(s, separator), separator) == s
    ensures forall piece :: piece in Split(s, separator) ==> separator !in piece
    decreases |s|
  {
    if separator in s {
      var i := IndexOf(s, separator);
      JoinSplit(s[i + 1..], separator);
      assert s == s[..i] + [separator] + s[i + 1..];
    }
  }

  // ---------- Counting a character ----------

  function Count(s: string, c: char): nat {
    if s == "" then 0 else (if s[0] == c then 1 else 0) + Count(s[1..], c)
  }

  lemma {:induction false} CountAppend(a: string, b: string, c: char)
    ensures Count(a + b, c) == Count(a, c) + Count(b, c)
  {
    if a == "" {
      assert a + b == b;
    } else {
      assert (a + b)[1..] == a[1..] + b;
      CountAppend(a[1..], b, c);
    }
  }

  lemma {:induction false} CountZero(s: string, c: char)
    ensures Count(s, c) == 0 <==> c !in s
  {
    if s != "" {
      assert s == [s[0]] + s[1..];
      CountZero(s[1..], c);
    }
  }

  lemma {:induction false} CountJoin(pieces: seq<string>, separator: char)
    requires |pieces| >= 1
    requires forall i :: 0 <= i < |pieces| ==> separator !in pieces[i]
    ensures Count(Join(pieces, separator), separator) == |pieces| - 1
  {
    CountZero(pieces[0], separator);
    if |pieces| > 1 {
      CountJoin(pieces[1..], separator);
      var rest := Join(pieces[1..], separator);
      CountAppend(pieces[0] + [separator], rest, separator);
      CountAppend(pieces[0], [separator], separator);
      assert Count([separator], separator) == 1 + Count("", separator) by {
        assert [separator][1..] == "";
      }
    }
  }

  /** Equally many separators before and the tail ends in none: one directory cannot lie inside the other. */
  lemma SameDepthPrefix(a: string, b: string, tail: string, rest: string, separator: char)
    requires Count(a, separator) == Count(b, separator)
    requires separator !in tail
    requires a + [separator] + rest == b + [separator] + tail
    ensures a == b
  {
    var s := a + [separator] + rest;
    if |a| <= |b| {
      ShorterHasFewer(a, b, s, separator);
    } else {
      ShorterHasFewer(b, a, s, separator);
    }
  }

  lemma SameDirectory(prefix: string, a: string, b: string, name: string, separator: char)
    requires Count(a, separator) == Count(b, separator)
    requires separator !in name
    requires prefix + a + [separator] <= prefix + b + [separator] + name
    ensures a == b
  {
    var long := prefix + b + [separator] + name;
    var inner := b + [separator] + name;
    var end := |prefix| + |a| + 1;
    assert prefix + a + [separator] == long[..end];
    assert a + [separator] == long[..end][|prefix|..] == long[|prefix|..end];
    assert inner == long[|prefix|..];
    assert inner == a + [separator] + long[end..];
    SameDepthPrefix(a, b, name, long[end..], separator);
  }

  lemma ShorterHasFewer(a: string, b: string, s: string, separator: char)
    requires a + [separator] <= s && b <= s && |a| <= |b|
    ensures a == b || Count(a, separator) < Count(b, separator)
  {
    var more := b[|a|..];
    assert b == a + more;
    CountAppend(a, more, separator);
    CountZero(more, separator);
    assert more == "" || more[0] == s[|a|] == separator;
  }

  /** The text after the last separator is determined. */
  lemma LastSegment(a: string, m: string, b: string, n: string, separator: char)
    requires separator !in m && separator !in n
    requires a + [separator] + m == b + [separator] + n
    ensures a == b && m == n
  {
    var s := a + [separator] + m;
    assert s[|a|] == separator && s[|b|] == separator;
    assert forall i :: |a| < i < |s| ==> s[i] == m[i - |a| - 1];
    assert forall i :: |b| < i < |s| ==> s[i] == n[i - |b| - 1];
    assert |a| == |b|;
    assert a == s[..|a|] == b;
    assert m == s[|a| + 1..] == n;
  }

  predicate EndsWith(s: string, suffix: string) {
    |suffix| <= |s| && s[|s| - |suffix|..] == suffix
  }
}
