/** The parts of Kotlin's (and the JVM's) semantics that the modelled snippets rely on:
    fixed-width integers with wrap-around, the truncating `%`, exceptions as values,
    and the handful of standard-library operations on strings and lists they call
    (`filter`, `reversed`, `substring`, `trim`, `toUpperCase`, decimal `toString`). */
module KotlinBase {

  const INT_MIN: int := -0x8000_0000
  const INT_MAX: int := 0x7fff_ffff
  const LONG_MIN: int := -0x8000_0000_0000_0000
  const LONG_MAX: int := 0x7fff_ffff_ffff_ffff

  /** Kotlin `Int` / Java `int`: 32-bit two's complement. */
  type Int32 = x: int | INT_MIN <= x <= INT_MAX
  /** Kotlin `Long` / Java `long`: 64-bit two's complement. */
  type Int64 = x: int | LONG_MIN <= x <= LONG_MAX

  /** Reduces a mathematical integer to the `Int` it wraps around to. */
  function WrapInt(x: int): (r: Int32)
    ensures (r - x) % 0x1_0000_0000 == 0
    ensures INT_MIN <= x <= INT_MAX ==> r == x
  {
    var m := x % 0x1_0000_0000;
    if m <= INT_MAX then m else m - 0x1_0000_0000
  }

  /** Reduces a mathematical integer to the `Long` it wraps around to. */
  function WrapLong(x: int): (r: Int64)
    ensures (r - x) % 0x1_0000_0000_0000_0000 == 0
    ensures LONG_MIN <= x <= LONG_MAX ==> r == x
  {
    var m := x % 0x1_0000_0000_0000_0000;
    if m <= LONG_MAX then m else m - 0x1_0000_0000_0000_0000
  }

  /** Two integers that differ by a multiple of 2^32 wrap to the same `Int`. */
  lemma WrapIntCongruent(x: int, y: int)
    requires (x - y) % 0x1_0000_0000 == 0
    ensures WrapInt(x) == WrapInt(y)
  {
    var k := (x - y) / 0x1_0000_0000;
    assert x == y + k * 0x1_0000_0000;
    assert x % 0x1_0000_0000 == y % 0x1_0000_0000;
  }

  /** Two integers that differ by a multiple of 2^64 wrap to the same `Long`. */
  lemma WrapLongCongruent(x: int, y: int)
    requires (x - y) % 0x1_0000_0000_0000_0000 == 0
    ensures WrapLong(x) == WrapLong(y)
  {
    var k := (x - y) / 0x1_0000_0000_0000_0000;
    assert x == y + k * 0x1_0000_0000_0000_0000;
    assert x % 0x1_0000_0000_0000_0000 == y % 0x1_0000_0000_0000_0000;
  }

  function Abs(x: int): (r: int)
    ensures r >= 0 && (r == x || r == -x)
  {
    if x < 0 then -x else x
  }

  /** Euclidean division is unique: a decomposition `a == k * d + r` with `0 <= r < d` gives `a % d`. */
  lemma ModUnique(a: int, d: int, k: int, r: int)
    requires d > 0 && 0 <= r < d && a == k * d + r
    ensures a % d == r && a / d == k
  {
    var q := a / d;
    assert a == q * d + a % d;
    assert (k - q) * d == a % d - r;
    assert k - q >= 1 ==> (k - q) * d >= d;
    assert k - q <= -1 ==> (k - q) * d <= -d;
  }

  /** Kotlin's `%` on integers: the remainder of the division truncated toward zero,
      so it has the sign of the dividend (`-3 % 2 == -1`), unlike Dafny's `%`. */
  function Rem(a: int, b: int): (r: int)
    requires b != 0
    ensures (a - r) % Abs(b) == 0
    ensures a >= 0 ==> 0 <= r < Abs(b)
    ensures a < 0 ==> -Abs(b) < r <= 0
  {
    var d := Abs(b);
    if a >= 0 then
      ModUnique(a - a % d, d, a / d, 0);
      a % d
    else
      ModUnique(a + (-a) % d, d, -((-a) / d), 0);
      -((-a) % d)
  }

  /** The truncated remainder is zero exactly when the divisor divides the dividend. */
  lemma RemZeroIffDivides(a: int, b: int)
    requires b != 0
    ensures Rem(a, b) == 0 <==> a % Abs(b) == 0
  {
    var d := Abs(b);
    if a < 0 {
      var q := (-a) / d;
      var m := (-a) % d;
      assert -a == q * d + m;
      if m == 0 {
        ModUnique(a, d, -q, 0);
      } else {
        ModUnique(a, d, -q - 1, d - m);
      }
    }
  }

  datatype Option<+T> = None | Some(value: T)

  /** The exceptions the snippets throw; `message` is Kotlin's nullable `message`. */
  datatype Exception =
    | IllegalArgumentException(message: Option<string>)
    | IllegalStateException(message: Option<string>)
    | ArithmeticException(message: Option<string>)
    | StringIndexOutOfBoundsException
    | PlainException(message: Option<string>)

  /** The outcome of a Kotlin call that may throw. */
  datatype Result<+T> = Ok(value: T) | Throw(exception: Exception)

  /** Kotlin's `Any`, restricted to the run-time types the snippets test with `is`. */
  datatype AnyValue = KBool(b: bool) | KInt(i: Int32) | KString(s: string) | KOther

  // ---------------------------------------------------------------- lists

  /** `s.filter(p)`: the elements satisfying `p`, in their original order. */
  function Filter<T(!new)>(s: seq<T>, p: T -> bool): (r: seq<T>)
    ensures |r| <= |s|
    ensures forall x {:trigger x in r} :: x in r <==> x in s && p(x)
  {
    if s == [] then []
    else
      var n := |s| - 1;
      assert s == s[..n] + [s[n]];
      Filter(s[..n], p) + (if p(s[n]) then [s[n]] else [])
  }

  /** Filtering keeps every occurrence of a selected element and drops every other. */
  lemma {:induction false} FilterCount<T(!new)>(s: seq<T>, p: T -> bool)
    ensures forall x :: multiset(Filter(s, p))[x] == if p(x) then multiset(s)[x] else 0
  {
    if s != [] {
      var n := |s| - 1;
      assert s == s[..n] + [s[n]];
      FilterCount(s[..n], p);
    }
  }

  /** Filtering distributes over concatenation: it keeps the relative order. */
  lemma {:induction false} FilterAppend<T(!new)>(a: seq<T>, b: seq<T>, p: T -> bool)
    ensures Filter(a + b, p) == Filter(a, p) + Filter(b, p)
  {
    if b == [] {
      assert a + b == a;
    } else {
      var n := |b| - 1;
      var last := if p(b[n]) then [b[n]] else [];
      assert (a + b)[..|a + b| - 1] == a + b[..n];
      assert (a + b)[|a + b| - 1] == b[n];
      assert Filter(a + b, p) == Filter(a + b[..n], p) + last;
      assert Filter(b, p) == Filter(b[..n], p) + last;
      FilterAppend(a, b[..n], p);
    }
  }

  /** Filtering a list extended by one element. */
  lemma FilterSnoc<T(!new)>(s: seq<T>, x: T, p: T -> bool)
    ensures Filter(s + [x], p) == Filter(s, p) + (if p(x) then [x] else [])
  {
    assert (s + [x])[..|s|] == s;
  }

  /** Filtering a three-element list, element by element. */
  lemma FilterThree<T(!new)>(a: T, b: T, c: T, p: T -> bool)
    ensures Filter([a, b, c], p)
      == (if p(a) then [a] else []) + (if p(b) then [b] else []) + (if p(c) then [c] else [])
  {
    assert Filter([a], p) == (if p(a) then [a] else []) by {
      FilterSnoc([], a, p);
      assert [] + [a] == [a];
    }
    assert Filter([a, b], p) == (if p(a) then [a] else []) + (if p(b) then [b] else []) by {
      FilterSnoc([a], b, p);
      assert [a] + [b] == [a, b];
    }
    FilterSnoc([a, b], c, p);
    assert [a, b] + [c] == [a, b, c];
  }

  /** A filter that every element satisfies keeps the whole list. */
  lemma {:induction false} FilterAll<T(!new)>(s: seq<T>, p: T -> bool)
    requires forall i :: 0 <= i < |s| ==> p(s[i])
    ensures Filter(s, p) == s
  {
    if s != [] {
      var n := |s| - 1;
      assert s == s[..n] + [s[n]];
      FilterAll(s[..n], p);
    }
  }

  /** Nothing passes a filter that no element satisfies. */
  lemma FilterNone<T(!new)>(s: seq<T>, p: T -> bool)
    requires forall x :: x in s ==> !p(x)
    ensures Filter(s, p) == []
  {
    var f := Filter(s, p);
    assert forall i :: 0 <= i < |f| ==> f[i] in f;
  }

  /** A filter and the filter by the negated predicate split a list between them. */
  lemma FilterComplement<T(!new)>(s: seq<T>, p: T -> bool, q: T -> bool)
    requires forall x :: q(x) == !p(x)
    ensures multiset(Filter(s, p)) + multiset(Filter(s, q)) == multiset(s)
    ensures |Filter(s, p)| + |Filter(s, q)| == |s|
  {
    var a, b := Filter(s, p), Filter(s, q);
    FilterCount(s, p);
    FilterCount(s, q);
    forall x
      ensures (multiset(a) + multiset(b))[x] == multiset(s)[x]
    {
      assert multiset(a)[x] == if p(x) then multiset(s)[x] else 0;
      assert multiset(b)[x] == if q(x) then multiset(s)[x] else 0;
    }
    assert multiset(a) + multiset(b) == multiset(s);
    assert |multiset(a)| == |a| && |multiset(b)| == |b| && |multiset(s)| == |s|;
  }

  /** `s.map(f)`. */
  function MapList<A, B>(s: seq<A>, f: A -> B): (r: seq<B>)
    ensures |r| == |s| && forall i :: 0 <= i < |s| ==> r[i] == f(s[i])
  {
    seq(|s|, i requires 0 <= i < |s| => f(s[i]))
  }

  /** The predicate "`key` sends the element to `k`" that `groupBy` sorts by. */
  function HasKey<K(==), V>(key: V -> K, k: K): V -> bool
  {
    x => key(x) == k
  }

  /** `s.groupBy(key)`: one list per key that occurs, holding the elements with that key
      in their original order. */
  function GroupBy<K(!new,==), V(!new)>(s: seq<V>, key: V -> K): (r: map<K, seq<V>>)
    ensures forall k :: k in r <==> exists x :: x in s && key(x) == k
    ensures forall k :: k in r ==> r[k] == Filter(s, HasKey(key, k))
  {
    if s == [] then map[]
    else
      var n := |s| - 1;
      var m := GroupBy(s[..n], key);
      GroupByStep(s, key, m);
      m[key(s[n]) := (if key(s[n]) in m then m[key(s[n])] else []) + [s[n]]]
  }

  /** One step of `GroupBy`: appending an element to its key's group keeps the
      grouping of the longer list. */
  lemma GroupByStep<K(!new), V(!new)>(s: seq<V>, key: V -> K, m: map<K, seq<V>>)
    requires |s| > 0
    requires forall k :: k in m <==> exists x :: x in s[..|s| - 1] && key(x) == k
    requires forall k :: k in m ==> m[k] == Filter(s[..|s| - 1], HasKey(key, k))
    ensures var n := |s| - 1; var k := key(s[n]);
      var r := m[k := (if k in m then m[k] else []) + [s[n]]];
      (forall k :: k in r <==> exists x :: x in s && key(x) == k) &&
      (forall k :: k in r ==> r[k] == Filter(s, HasKey(key, k)))
  {
    var n := |s| - 1;
    var k := key(s[n]);
    var r := m[k := (if k in m then m[k] else []) + [s[n]]];
    forall j
      ensures j in r <==> exists x :: x in s && key(x) == j
    {
      GroupByKeyStep(s, key, m, j);
    }
    forall j | j in r
      ensures r[j] == Filter(s, HasKey(key, j))
    {
      GroupByGroupStep(s, key, m, j);
    }
  }

  lemma GroupByKeyStep<K(!new), V(!new)>(s: seq<V>, key: V -> K, m: map<K, seq<V>>, j: K)
    requires |s| > 0
    requires forall k :: k in m <==> exists x :: x in s[..|s| - 1] && key(x) == k
    ensures j in m || j == key(s[|s| - 1]) <==> exists x :: x in s && key(x) == j
  {
    var n := |s| - 1;
    assert s == s[..n] + [s[n]];
    if j in m {
      var x :| x in s[..n] && key(x) == j;
      assert x in s;
    }
    if exists x :: x in s && key(x) == j {
      var x :| x in s && key(x) == j;
      if j != key(s[n]) {
        assert x in s[..n];
      }
    }
  }

  lemma GroupByGroupStep<K(!new), V(!new)>(s: seq<V>, key: V -> K, m: map<K, seq<V>>, j: K)
    requires |s| > 0
    requires forall k :: k in m <==> exists x :: x in s[..|s| - 1] && key(x) == k
    requires forall k :: k in m ==> m[k] == Filter(s[..|s| - 1], HasKey(key, k))
    requires j in m || j == key(s[|s| - 1])
    ensures var n := |s| - 1; var k := key(s[n]);
      var r := m[k := (if k in m then m[k] else []) + [s[n]]];
      r[j] == Filter(s, HasKey(key, j))
  {
    var n := |s| - 1;
    var p := HasKey(key, j);
    assert Filter(s, p) == Filter(s[..n], p) + (if p(s[n]) then [s[n]] else []);
    if j != key(s[n]) {
      assert !p(s[n]);
    } else if j !in m {
      forall x | x in s[..n]
        ensures !p(x)
      {
      }
      FilterNone(s[..n], p);
    }
  }

  /** `lo..hi` as a list. */
  function Range(lo: int, hi: int): (r: seq<int>)
    ensures |r| == if lo <= hi then hi - lo + 1 else 0
    ensures forall i :: 0 <= i < |r| ==> r[i] == lo + i
  {
    seq(if lo <= hi then hi - lo + 1 else 0, i => lo + i)
  }

  /** `reversed()` on a string or a list. */
  function Reversed<T>(s: seq<T>): (r: seq<T>)
    ensures |r| == |s|
  {
    if s == [] then [] else Reversed(s[1..]) + [s[0]]
  }

  lemma {:induction false} ReversedAt<T>(s: seq<T>, k: nat)
    requires k < |s|
    ensures Reversed(s)[k] == s[|s| - 1 - k]
  {
    if k < |s| - 1 {
      ReversedAt(s[1..], k);
    }
  }

  /** Reversing twice gives back the original. */
  lemma ReversedInvolution<T>(s: seq<T>)
    ensures Reversed(Reversed(s)) == s
  {
    var r := Reversed(s);
    forall k | 0 <= k < |s|
      ensures Reversed(r)[k] == s[k]
    {
      ReversedAt(r, k);
      ReversedAt(s, |s| - 1 - k);
    }
  }

  // ---------------------------------------------------------------- strings

  /** `substring(begin, end)`: throws when the bounds are not `0 <= begin <= end <= length`. */
  function Substring(s: string, begin: int, end: int): (r: Result<string>)
    ensures r.Ok? <==> 0 <= begin <= end <= |s|
    ensures r.Ok? ==> |r.value| == end - begin && forall i :: 0 <= i < |r.value| ==> r.value[i] == s[begin + i]
    ensures r.Throw? ==> r.exception == StringIndexOutOfBoundsException
  {
    if 0 <= begin <= end <= |s| then Ok(s[begin..end]) else Throw(StringIndexOutOfBoundsException)
  }

  /** `substring(begin)`, i.e. `substring(begin, length)`. */
  function SubstringFrom(s: string, begin: int): (r: Result<string>)
    ensures r.Ok? <==> 0 <= begin <= |s|
    ensures r.Ok? ==> r.value == s[begin..]
  {
    Substring(s, begin, |s|)
  }

  predicate IsAsciiLower(c: char) { 'a' <= c <= 'z' }
  predicate IsAscii(s: string) { forall i :: 0 <= i < |s| ==> s[i] as int < 128 }

  /** `Char.toUpperCase()` on the ASCII range; every other character is kept. */
  function UpperChar(c: char): (r: char)
    ensures !IsAsciiLower(r)
    ensures !IsAsciiLower(c) ==> r == c
    ensures IsAsciiLower(c) ==> r as int == c as int - 32
  {
    if IsAsciiLower(c) then (c as int - 32) as char else c
  }

  /** `String.toUpperCase()`, character by character over ASCII. */
  function UpperCase(s: string): (r: string)
    ensures |r| == |s|
    ensures forall i :: 0 <= i < |s| ==> r[i] == UpperChar(s[i])
  {
    seq(|s|, i requires 0 <= i < |s| => UpperChar(s[i]))
  }

  /** `Char.isWhitespace()` on the JVM: `Character.isWhitespace` or `Character.isSpaceChar`. */
  function IsWhitespace(c: char): (r: bool)
    ensures c == ' ' || c == '\t' || c == '\n' || c == '\r' ==> r
    ensures '0' <= c <= '9' || 'A' <= c <= 'Z' || 'a' <= c <= 'z' ==> !r
    ensures c < ' ' ==> (r <==> '\t' <= c <= '\r' || '\U{001C}' <= c)
  {
    || c == '\t' || c == '\n' || c == '\U{000B}' || c == '\U{000C}' || c == '\r'
    || ('\U{001C}' <= c <= '\U{001F}')
    // the space separators (Zs), the line separator (Zl) and the paragraph separator (Zp)
    || c == ' ' || c == '\U{00A0}' || c == '\U{1680}' || ('\U{2000}' <= c <= '\U{200A}')
    || c == '\U{2028}' || c == '\U{2029}' || c == '\U{202F}' || c == '\U{205F}' || c == '\U{3000}'
  }

  /** `isBlank()`: every character is whitespace (the empty string included). */
  predicate IsBlank(s: string) { forall i :: 0 <= i < |s| ==> IsWhitespace(s[i]) }

  function TrimStart(s: string): (r: string)
    ensures |r| <= |s| && r == s[|s| - |r|..]
    ensures r != [] ==> !IsWhitespace(r[0])
    ensures forall i :: 0 <= i < |s| - |r| ==> IsWhitespace(s[i])
  {
    if s != [] && IsWhitespace(s[0]) then TrimStart(s[1..]) else s
  }

  function TrimEnd(s: string): (r: string)
    ensures |r| <= |s| && r == s[..|r|]
    ensures r != [] ==> !IsWhitespace(r[|r| - 1])
    ensures forall i :: |r| <= i < |s| ==> IsWhitespace(s[i])
  {
    if s != [] && IsWhitespace(s[|s| - 1]) then TrimEnd(s[..|s| - 1]) else s
  }

  /** `trim()`: drops leading and trailing whitespace. */
  function Trim(s: string): (r: string)
    ensures exists i ::
      0 <= i <= |s| - |r| && s[i..][..|r|] == r && IsBlank(s[..i]) && IsBlank(s[i + |r|..])
    ensures r != [] ==> !IsWhitespace(r[0]) && !IsWhitespace(r[|r| - 1])
  {
    var t := TrimStart(s);
    var r := TrimEnd(t);
    var i := |s| - |t|;
    assert s[i..][..|r|] == r && IsBlank(s[..i]) && IsBlank(s[i + |r|..]);
    r
  }

  /** `s.trim().isNotEmpty()` holds exactly when `s` is not blank. */
  lemma TrimNotEmptyIffNotBlank(s: string)
    ensures |Trim(s)| > 0 <==> !IsBlank(s)
  {
    var t := TrimStart(s);
    if !IsBlank(s) {
      var i :| 0 <= i < |s| && !IsWhitespace(s[i]);
      assert t != [];
    }
  }

  // ---------------------------------------------------------------- decimal rendering

  function DigitChar(d: nat): (c: char)
    requires d < 10
    ensures '0' <= c <= '9'
  {
    ('0' as int + d) as char
  }

  predicate IsDigits(s: string) { forall i :: 0 <= i < |s| ==> '0' <= s[i] <= '9' }

  /** The decimal digits of `n`, most significant first, without leading zeros. */
  function NatToString(n: nat): (r: string)
    ensures |r| >= 1 && IsDigits(r)
    ensures r[0] == '0' ==> n == 0
  {
    if n < 10 then [DigitChar(n)] else NatToString(n / 10) + [DigitChar(n % 10)]
  }

  /** The number a string of decimal digits denotes. */
  function DigitsValue(s: string): nat
    requires IsDigits(s)
  {
    if s == [] then 0 else DigitsValue(s[..|s| - 1]) * 10 + (s[|s| - 1] as int - '0' as int)
  }

  /** Reading back the rendered digits gives the number. */
  lemma {:induction false} NatToStringRoundTrip(n: nat)
    ensures DigitsValue(NatToString(n)) == n
  {
    if n >= 10 {
      NatToStringRoundTrip(n / 10);
      var s := NatToString(n);
      assert s[..|s| - 1] == NatToString(n / 10);
    }
  }

  /** String template `"$n"` for an `Int` or a `Long`. */
  function IntToString(n: int): (r: string)
    ensures |r| >= 1
    ensures r[0] == '-' <==> n < 0
    ensures n >= 0 ==> r == NatToString(n)
    ensures n < 0 ==> r == "-" + NatToString(-n)
  {
    if n < 0 then "-" + NatToString(-n) else NatToString(n)
  }

  /** `Boolean.toString()`. */
  function BoolToString(b: bool): string { if b then "true" else "false" }
}
