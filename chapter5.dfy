/** Higher-order functions and closures: the `filter` predicates over a list of `Int`s,
    a function-returning function, a closure that accumulates into a captured `var`,
    and an anonymous function. */
module Chapter5 {
  import opened KotlinBase

  const Ints: seq<Int32> := [1, 2, 3, 4, 5, 6]

  /** The odds lambda `{ it % 2 == 1 }`: with the truncated `%` it holds only for the
      positive odd numbers. */
  function OddLiteral(k: Int32): (r: bool)
    ensures r <==> k > 0 && k % 2 == 1
  {
    Rem(k, 2) == 1
  }

  /** `isEven`, `isEven2` and the local `fun isEven(k)`: `k % 2 == 0`, exact for every sign. */
  function IsEven(k: Int32): (r: bool)
    ensures r <==> exists h: int :: -0x4000_0000 <= h < 0x4000_0000 && k == 2 * h
  {
    var m: int := k;
    var h: int := if m >= 0 then m / 2 else -((-m) / 2);
    assert Rem(k, 2) == 0 ==> k == 2 * h;
    Rem(k, 2) == 0
  }

  /** `fun Int.isOdd() = this % 2 != 0`: exact for every sign. */
  function IsOdd(k: Int32): (r: bool)
    ensures r <==> !IsEven(k)
    ensures r <==> k % 2 == 1
  {
    Rem(k, 2) != 0
  }

  /** `isOdd` is the parity of `k` for every `Int`; the `% 2 == 1` lambda agrees with it
      only on non-negative numbers, since a negative odd number leaves remainder -1. */
  lemma ParityPredicates(k: Int32)
    ensures IsOdd(k) <==> k % 2 == 1
    ensures IsEven(k) <==> k % 2 == 0
    ensures k >= 0 ==> (OddLiteral(k) <==> IsOdd(k))
    ensures k < 0 ==> !OddLiteral(k)
  {
    RemZeroIffDivides(k, 2);
  }

  /** `isEven` and `isOdd` split any list between them. */
  lemma EvenOddPartition(s: seq<Int32>)
    ensures multiset(Filter(s, IsEven)) + multiset(Filter(s, IsOdd)) == multiset(s)
    ensures |Filter(s, IsEven)| + |Filter(s, IsOdd)| == |s|
  {
    FilterComplement(s, IsEven, IsOdd);
  }

  /** `modulo(k)`: the predicate `{ it % k == 0 }`. Applying it with `k == 0` throws, so the
      predicate exists only for a non-zero `k`; `FilterModulo` models the throwing case. */
  function Modulo(k: Int32): (p: Int32 -> bool)
    requires k != 0
  {
    x => Rem(x, k) == 0
  }

  /** `modulo(k)` accepts exactly the multiples of `k`, whatever the signs. */
  lemma ModuloDivides(k: Int32, x: Int32)
    requires k != 0
    ensures Modulo(k)(x) <==> x % Abs(k) == 0
  {
    RemZeroIffDivides(x, k);
  }

  /** `modulo(2)` is `isEven`. */
  lemma ModuloTwoIsEven(x: Int32)
    ensures Modulo(2)(x) == IsEven(x)
  {
  }

  /** `xs.filter(modulo(k))`: the lambda divides by `k` once per element, so `k == 0` throws
      `ArithmeticException` on the first element and only an empty list escapes it. */
  function FilterModulo(xs: seq<Int32>, k: Int32): (r: Result<seq<Int32>>)
    ensures r.Throw? <==> k == 0 && xs != []
    ensures r.Throw? ==> r.exception == ArithmeticException(Some("/ by zero"))
    ensures r.Ok? ==> forall x :: x in r.value <==> x in xs && Rem(x, k) == 0
    ensures r.Ok? ==> |r.value| <= |xs|
  {
    if k == 0 then
      if xs == [] then Ok([]) else Throw(ArithmeticException(Some("/ by zero")))
    else
      Ok(Filter(xs, Modulo(k)))
  }

  /** `ints.filter { it % 2 == 1 }` is [1, 3, 5]. */
  lemma OddsSample()
    ensures Filter(Ints, OddLiteral) == [1, 3, 5]
  {
    var a, b, c, d, e, f: Int32 := 1, 2, 3, 4, 5, 6;
    var p := OddLiteral;
    assert p(a) && !p(b) && p(c) && !p(d) && p(e) && !p(f);
    assert Ints == [a, b, c] + [d, e, f];
    FilterThree(a, b, c, p);
    FilterThree(d, e, f, p);
    FilterAppend([a, b, c], [d, e, f], p);
  }

  /** `ints.filter(Int::isOdd)` is [1, 3, 5]. */
  lemma IsOddSample()
    ensures Filter(Ints, IsOdd) == [1, 3, 5]
  {
    var a, b, c, d, e, f: Int32 := 1, 2, 3, 4, 5, 6;
    var p := IsOdd;
    assert p(a) && !p(b) && p(c) && !p(d) && p(e) && !p(f);
    assert Ints == [a, b, c] + [d, e, f];
    FilterThree(a, b, c, p);
    FilterThree(d, e, f, p);
    FilterAppend([a, b, c], [d, e, f], p);
  }

  /** `ints.filter { it % 2 == 0 }` and `ints.filter(::isEven)` are [2, 4, 6]. */
  lemma EvensSample()
    ensures Filter(Ints, IsEven) == [2, 4, 6]
  {
    var a, b, c, d, e, f: Int32 := 1, 2, 3, 4, 5, 6;
    var p := IsEven;
    assert !p(a) && p(b) && !p(c) && p(d) && !p(e) && p(f);
    assert Ints == [a, b, c] + [d, e, f];
    FilterThree(a, b, c, p);
    FilterThree(d, e, f, p);
    FilterAppend([a, b, c], [d, e, f], p);
  }

  /** `ints.filter(modulo(2))` is [2, 4, 6]. */
  lemma ModuloSample()
    ensures Filter(Ints, Modulo(2)) == [2, 4, 6]
    ensures FilterModulo(Ints, 2) == Ok([2, 4, 6])
  {
    var a, b, c, d, e, f: Int32 := 1, 2, 3, 4, 5, 6;
    var p := Modulo(2);
    assert !p(a) && p(b) && !p(c) && p(d) && !p(e) && p(f);
    assert Ints == [a, b, c] + [d, e, f];
    FilterThree(a, b, c, p);
    FilterThree(d, e, f, p);
    FilterAppend([a, b, c], [d, e, f], p);
  }

  /** `it > 0` */
  predicate Positive(k: Int32) { k > 0 }

  /** The mathematical sum of a list. */
  function Sum(s: seq<Int32>): int
  {
    if s == [] then 0 else Sum(s[..|s| - 1]) + s[|s| - 1]
  }

  /** The closure: `var sum = 0; ints.filter { it > 0 }.forEach { sum += it }` updates the
      captured `Int` once per positive element, so it ends as the sum of the positive
      elements reduced to 32 bits. */
  method ClosureSum(ints: seq<Int32>) returns (sum: Int32)
    ensures sum == WrapInt(Sum(Filter(ints, Positive)))
  {
    var positives := Filter(ints, Positive);
    sum := 0;
    var i := 0;
    while i < |positives|
      invariant 0 <= i <= |positives|
      invariant sum == WrapInt(Sum(positives[..i]))
    {
      assert positives[..i + 1][..i] == positives[..i];
      WrapIntCongruent(sum + positives[i], Sum(positives[..i]) + positives[i]);
      sum := WrapInt(sum + positives[i]);
      i := i + 1;
    }
    assert positives[..i] == positives;
  }

  /** The sample's closure prints 21. */
  method ClosureSumSample() returns (sum: Int32)
    ensures sum == 21
  {
    FilterAll(Ints, Positive);
    sum := ClosureSum(Ints);
    assert Ints[..1][..0] == [];
    assert Ints[..2][..1] == Ints[..1];
    assert Ints[..3][..2] == Ints[..2];
    assert Ints[..4][..3] == Ints[..3];
    assert Ints[..5][..4] == Ints[..4];
    assert Sum(Ints[..1]) == 1;
    assert Sum(Ints[..2]) == 3;
    assert Sum(Ints[..3]) == 6;
    assert Sum(Ints[..4]) == 10;
    assert Sum(Ints[..5]) == 15;
  }

  /** `bar()` returns the function `{ it.reversed() }`. */
  function Bar(): (reverse: string -> string)
  {
    s => Reversed(s)
  }

  /** The returned function reverses: applied twice it is the identity. */
  lemma BarReverses(s: string)
    ensures |Bar()(s)| == |s| && forall i :: 0 <= i < |s| ==> Bar()(s)[i] == s[|s| - 1 - i]
    ensures Bar()(Bar()(s)) == s
  {
    forall i | 0 <= i < |s|
      ensures Bar()(s)[i] == s[|s| - 1 - i]
    {
      ReversedAt(s, i);
    }
    ReversedInvolution(s);
  }

  /** `reverse("Hello")` prints "olleH". */
  lemma BarSample(s: string)
    requires s == "Hello"
    ensures Bar()(s) == "olleH"
  {
    BarReverses(s);
    var r := Bar()(s);
    assert forall i :: 0 <= i < 5 ==> r[i] == s[4 - i];
  }

  /** The anonymous function `fun(a: String, b: String): String = a + b`. */
  function M(a: string, b: string): (r: string)
    ensures |r| == |a| + |b| && r[..|a|] == a && r[|a|..] == b
  {
    a + b
  }

  /** `m("Hello", "World")` prints "HelloWorld". */
  lemma MSample()
    ensures M("Hello", "World") == "HelloWorld"
  {
  }

  /** `foo(str, fn)` applies `fn` to `str`; with `{ it.reversed() }` it prints the reversal. */
  function Foo(str: string, fn: string -> string): (applied: string)
    ensures applied == fn(str)
  {
    fn(str)
  }

  /** `foo("hello", { it.reversed() })` prints "olleh". */
  lemma FooSample(s: string)
    requires s == "hello"
    ensures Foo(s, Bar()) == "olleh"
  {
    BarReverses(s);
    var r := Foo(s, Bar());
    assert forall i :: 0 <= i < 5 ==> r[i] == s[4 - i];
  }
}
