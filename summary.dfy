/** The self-contained functions and classes of the Kotlin tour in `Summary.kt`:
    smart casts, the parity helpers, `String.remove`, the validated
    `AnotherExample` class, data-class `copy`, the `with` block, the Fibonacci
    generator and the map/filter/groupBy pipeline. */
module Summary {
  import opened KotlinBase

  // ------------------------------------------------------------ smart casts

  /** `smartCastExample`: an `if`/`else if` chain over `is` checks. */
  function SmartCastExample(x: AnyValue): (r: bool)
    ensures x.KBool? ==> (r <==> x.b)
    ensures x.KInt? ==> (r <==> x.i > 0)
    ensures x.KString? ==> (r <==> |x.s| > 0)
    ensures x.KOther? ==> !r
  {
    if x.KBool? then x.b
    else if x.KInt? then x.i > 0
    else if x.KString? then |x.s| != 0
    else false
  }

  /** `smartCastWhenExample`: the same rule written as a `when` on the run-time type. */
  function SmartCastWhenExample(x: AnyValue): (r: bool)
    ensures r == SmartCastExample(x)
  {
    match x
    case KBool(b) => b
    case KInt(i) => i > 0
    case KString(s) => s != []
    case KOther => false
  }

  /** The outputs the tour prints for its five sample calls. */
  lemma SmartCastSamples()
    ensures SmartCastExample(KString("Hello, world!"))
    ensures !SmartCastExample(KString(""))
    ensures SmartCastExample(KInt(5)) && !SmartCastExample(KInt(0))
    ensures SmartCastExample(KBool(true))
  {
  }

  // ----------------------------------------------------------------- parity

  /** `odd(x) = x % 2 == 1` with Kotlin's truncated remainder. */
  function Odd(x: Int32): (r: bool)
    ensures r <==> x > 0 && x % 2 == 1
  {
    Rem(x, 2) == 1
  }

  /** `even(x) = x % 2 == 0`. */
  function Even(x: Int32): (r: bool)
    ensures r <==> x % 2 == 0
  {
    RemZeroIffDivides(x, 2);
    Rem(x, 2) == 0
  }

  /** On non-negative numbers exactly one of `odd` and `even` holds. */
  lemma OddEvenExclusive(x: Int32)
    requires x >= 0
    ensures Odd(x) != Even(x)
  {
  }

  /** A negative odd number is neither `odd` nor `even`: its remainder is -1. */
  lemma NegativeOddNeither(x: Int32)
    requires x < 0 && x % 2 == 1
    ensures !Odd(x) && !Even(x)
    ensures Rem(x, 2) == -1
  {
  }

  // ----------------------------------------------------------- String.remove

  /** The filter predicate `it != c`. */
  function NotChar(c: char): char -> bool
  {
    x => x != c
  }

  /** `s.remove(c) = s.filter { it != c }`: drops every `c` and nothing else. */
  function Remove(s: string, c: char): (r: string)
    ensures c !in r
    ensures forall x :: x != c ==> (x in r <==> x in s)
  {
    Filter(s, NotChar(c))
  }

  /** Every other character keeps its number of occurrences. */
  lemma RemoveCount(s: string, c: char)
    ensures multiset(Remove(s, c)) == multiset(s)[c := 0]
  {
    var r := Remove(s, c);
    FilterCount(s, NotChar(c));
    assert forall x :: multiset(r)[x] == multiset(s)[c := 0][x];
  }

  /** Removal works piecewise, so the kept characters stay in their order. */
  lemma RemoveAppend(a: string, b: string, c: char)
    ensures Remove(a + b, c) == Remove(a, c) + Remove(b, c)
  {
    FilterAppend(a, b, NotChar(c));
  }

  /** Removing a character that does not occur changes nothing. */
  lemma {:induction false} RemoveAbsent(s: string, c: char)
    requires c !in s
    ensures Remove(s, c) == s
  {
    if s != [] {
      var n := |s| - 1;
      assert s == s[..n] + [s[n]];
      RemoveAbsent(s[..n], c);
    }
  }

  /** Removing twice is removing once. */
  lemma RemoveIdempotent(s: string, c: char)
    ensures Remove(Remove(s, c), c) == Remove(s, c)
  {
    RemoveAbsent(Remove(s, c), c);
  }

  /** A string made only of `c` disappears entirely. */
  lemma RemoveOnly(s: string, c: char)
    requires forall i :: 0 <= i < |s| ==> s[i] == c
    ensures Remove(s, c) == []
  {
    forall x | x in s
      ensures !NotChar(c)(x)
    {
    }
    FilterNone(s, NotChar(c));
  }

  /** Removal from a string that alternates runs without `c` and runs of `c`. */
  lemma RemoveRuns(p1: string, p2: string, p3: string, p4: string, p5: string, c: char)
    requires c !in p1 && c !in p3 && c !in p5
    requires forall i :: 0 <= i < |p2| ==> p2[i] == c
    requires forall i :: 0 <= i < |p4| ==> p4[i] == c
    ensures Remove(p1 + p2 + p3 + p4 + p5, c) == p1 + p3 + p5
  {
    var q1, q2, q3 := p1 + p2, p1 + p2 + p3, p1 + p2 + p3 + p4;
    assert Remove(q1, c) == p1 by {
      RemoveAppend(p1, p2, c);
      RemoveAbsent(p1, c);
      RemoveOnly(p2, c);
    }
    assert Remove(q2, c) == p1 + p3 by {
      RemoveAppend(q1, p3, c);
      RemoveAbsent(p3, c);
    }
    assert Remove(q3, c) == p1 + p3 by {
      RemoveAppend(q2, p4, c);
      RemoveOnly(p4, c);
    }
    RemoveAppend(q3, p5, c);
    RemoveAbsent(p5, c);
  }

  lemma RemoveSample()
    ensures Remove("Hello, world!", 'l') == "Heo, word!"
  {
    assert "Hello, world!" == "He" + "ll" + "o, wor" + "l" + "d!";
    RemoveRuns("He", "ll", "o, wor", "l", "d!", 'l');
  }

  // ---------------------------------------------------------- AnotherExample

  /** An `AnotherExample` instance: `y` is a constructor parameter only, so `x` is its
      one property. */
  datatype AnotherExample = AnotherExample(x: Int32)

  /** The primary constructor and its `init` block: two `require`s in order. */
  function NewAnotherExample(x: Int32, y: Int32): (r: Result<AnotherExample>)
    ensures r.Ok? <==> x > 0 && 1 <= y <= 10
    ensures r.Ok? ==> r.value.x == x
    ensures x <= 0 ==> r == Throw(IllegalArgumentException(Some("X must be positive")))
    ensures x > 0 && !(1 <= y <= 10) ==> r == Throw(IllegalArgumentException(Some("Y is out of range")))
  {
    if !(x > 0) then Throw(IllegalArgumentException(Some("X must be positive")))
    else if !(1 <= y && y <= 10) then Throw(IllegalArgumentException(Some("Y is out of range")))
    else Ok(AnotherExample(x))
  }

  /** The secondary constructor `constructor(x: Int) : this(x, 5)`. */
  function NewAnotherExampleWithX(x: Int32): (r: Result<AnotherExample>)
    ensures r.Ok? <==> x > 0
    ensures r.Ok? ==> r.value.x == x
  {
    NewAnotherExample(x, 5)
  }

  lemma AnotherExampleSamples()
    ensures NewAnotherExample(10, 12).Throw?
    ensures NewAnotherExample(10, 4) == Ok(AnotherExample(10))
    ensures NewAnotherExampleWithX(10) == Ok(AnotherExample(10))
  {
  }

  // ------------------------------------------------------------- data class

  datatype DataClassExample = DataClassExample(x: Int32, y: Int32, z: Int32)

  /** The generated `copy(x = this.x, y = this.y, z = this.z)`; `None` stands for an
      omitted named argument. */
  function Copy(d: DataClassExample, x: Option<Int32>, y: Option<Int32>, z: Option<Int32>)
    : (r: DataClassExample)
    ensures x.None? ==> r.x == d.x
    ensures y.None? ==> r.y == d.y
    ensures z.None? ==> r.z == d.z
    ensures x.Some? ==> r.x == x.value
    ensures y.Some? ==> r.y == y.value
    ensures z.Some? ==> r.z == z.value
  {
    DataClassExample(
      if x.Some? then x.value else d.x,
      if y.Some? then y.value else d.y,
      if z.Some? then z.value else d.z)
  }

  /** `copy()` with no arguments is an equal object, and `copy(y = v)` differs from the
      original in `y` alone. */
  lemma CopyOnlyY(d: DataClassExample, v: Int32)
    ensures Copy(d, None, None, None) == d
    ensures Copy(d, None, Some(v), None) == d.(y := v)
  {
  }

  lemma CopySample()
    ensures Copy(DataClassExample(1, 2, 4), None, Some(100), None) == DataClassExample(1, 100, 4)
  {
  }

  // ------------------------------------------------------------- with block

  /** `data class MutableDataClassExample(var x: Int, var y: Int, var z: Int)`. */
  class MutableDataClassExample {
    var x: Int32
    var y: Int32
    var z: Int32

    constructor(x: Int32, y: Int32, z: Int32)
      ensures this.x == x && this.y == y && this.z == z
    {
      this.x, this.y, this.z := x, y, z;
    }

    /** The body of `with(fooMutableData) { x -= 2; y += 2; z-- }`, in 32-bit arithmetic. */
    method ApplyWith()
      modifies this
      ensures x == WrapInt(old(x) - 2)
      ensures y == WrapInt(old(y) + 2)
      ensures z == WrapInt(old(z) - 1)
    {
      x := WrapInt(x - 2);
      y := WrapInt(y + 2);
      z := WrapInt(z - 1);
    }
  }

  /** The tour's use of `with`: (7, 4, 9) becomes (5, 6, 8). */
  method WithSample() returns (x: Int32, y: Int32, z: Int32)
    ensures (x, y, z) == (5, 6, 8)
  {
    var data := new MutableDataClassExample(7, 4, 9);
    data.ApplyWith();
    x, y, z := data.x, data.y, data.z;
  }

  // -------------------------------------------------------------- Fibonacci

  /** The mathematical Fibonacci numbers. */
  function Fib(n: nat): nat
  {
    if n < 2 then n else Fib(n - 1) + Fib(n - 2)
  }

  /** `a + b` on `Long`: the sum wraps around past either end of the range. */
  function AddLong(a: Int64, b: Int64): Int64
  {
    WrapLong(a as int + b)
  }

  /** The Fibonacci numbers as the generator computes them: `Long` additions that wrap. */
  function FibLong(n: nat): Int64
  {
    if n < 2 then n else AddLong(FibLong(n - 2), FibLong(n - 1))
  }

  /** The recurrence of the wrapping generator. */
  lemma FibLongStep(n: nat)
    ensures FibLong(n + 2) == AddLong(FibLong(n), FibLong(n + 1))
  {
  }

  lemma {:induction false} FibMonotone(n: nat)
    ensures Fib(n) <= Fib(n + 1)
  {
    if n >= 2 {
      FibMonotone(n - 1);
    }
  }

  /** While the true value fits in a `Long`, the wrapping generator is exact. */
  lemma {:induction false} FibLongExact(n: nat)
    requires Fib(n) <= LONG_MAX
    ensures FibLong(n) == Fib(n)
  {
    if n >= 2 {
      FibMonotone(n - 1);
      FibMonotone(n - 2);
      FibLongExact(n - 1);
      FibLongExact(n - 2);
    }
  }

  /** Past that point every `Long` term is still the true Fibonacci number, wrapped into
      the `Long` range. */
  lemma {:induction false} FibLongWraps(n: nat)
    ensures FibLong(n) == WrapLong(Fib(n))
  {
    if n >= 2 {
      FibLongWraps(n - 2);
      FibLongWraps(n - 1);
      AddLongWraps(Fib(n - 2), Fib(n - 1));
    }
  }

  /** Wrapping before the addition or after it makes no difference. */
  lemma AddLongWraps(x: int, y: int)
    ensures AddLong(WrapLong(x), WrapLong(y)) == WrapLong(x + y)
  {
    var a, b := WrapLong(x), WrapLong(y);
    assert ((a + b) - (x + y)) % 0x1_0000_0000_0000_0000 == 0 by {
      var d := 0x1_0000_0000_0000_0000;
      var k1, k2 := (a - x) / d, (b - y) / d;
      assert a - x == k1 * d && b - y == k2 * d;
      ModUnique((a + b) - (x + y), d, k1 + k2, 0);
    }
    WrapLongCongruent(a + b, x + y);
  }

  /** The generator of `fibonacciSequence()`: the captured `var a` and `var b` become
      fields; `calls` counts the calls of `next()` so far. */
  class FibonacciSequence {
    var a: Int64
    var b: Int64
    ghost var calls: nat

    ghost predicate Valid()
      reads this
    {
      a == FibLong(calls) && b == FibLong(calls + 1)
    }

    constructor()
      ensures Valid() && calls == 0
      ensures a == 0 && b == 1
    {
      a, b := 0, 1;
      calls := 0;
    }

    /** `next()`: `result = a + b; a = b; b = result; return a`. */
    method Next() returns (r: Int64)
      requires Valid()
      modifies this
      ensures Valid() && calls == old(calls) + 1
      ensures r == FibLong(calls)
    {
      var result := AddLong(a, b);
      FibLongStep(calls);
      a := b;
      b := result;
      calls := calls + 1;
      r := a;
    }

    /** `take(n).toList()` on the generated sequence. */
    method Take(n: nat) returns (s: seq<Int64>)
      requires Valid()
      modifies this
      ensures Valid() && calls == old(calls) + n
      ensures |s| == n
      ensures s == FibRun(old(calls), n)
    {
      s := [];
      while |s| < n
        invariant Valid() && |s| <= n
        invariant calls == old(calls) + |s|
        invariant s == FibRun(old(calls), |s|)
      {
        var v := Next();
        s := s + [v];
      }
    }
  }

  /** The `n` values `next()` returns after `start` earlier calls. */
  function FibRun(start: nat, n: nat): (r: seq<Int64>)
    ensures |r| == n
  {
    if n == 0 then [] else FibRun(start, n - 1) + [FibLong(start + n)]
  }

  /** The `i`-th value of a run is the Fibonacci number `start + i + 1`. */
  lemma {:induction false} FibRunAt(start: nat, n: nat, i: nat)
    requires i < n
    ensures FibRun(start, n)[i] == FibLong(start + i + 1)
  {
    if i < n - 1 {
      FibRunAt(start, n - 1, i);
    }
  }

  /** Past its first two elements every element the generator yields is the sum of the
      two before it. */
  lemma FibonacciRecurrence(start: nat, n: nat)
    ensures var s := FibRun(start, n);
      forall k :: 2 <= k < n ==> s[k] == AddLong(s[k - 2], s[k - 1])
  {
    forall k | 2 <= k < n
      ensures FibRun(start, n)[k] == AddLong(FibRun(start, n)[k - 2], FibRun(start, n)[k - 1])
    {
      FibRunStep(start, n, k);
    }
  }

  /** One element of a run is the sum of the two before it. */
  lemma FibRunStep(start: nat, n: nat, k: nat)
    requires 2 <= k < n
    ensures FibRun(start, n)[k] == AddLong(FibRun(start, n)[k - 2], FibRun(start, n)[k - 1])
  {
    FibRunAt(start, n, k);
    FibRunAt(start, n, k - 1);
    FibRunAt(start, n, k - 2);
    FibLongStep(start + k - 1);
  }

  /** `fibonacciSequence().take(10).toList()`. */
  method FirstTenFibonacci() returns (s: seq<Int64>)
    ensures s == [1, 1, 2, 3, 5, 8, 13, 21, 34, 55]
  {
    var fib := new FibonacciSequence();
    ghost var start := fib.calls;
    assert FibLong(start) == 0 && FibLong(start + 1) == 1;
    s := fib.Take(10);
    FirstTenRun(start);
  }

  /** The run of ten from a fresh generator, from its first two values and the
      recurrence. */
  lemma FirstTenRun(start: nat)
    requires FibLong(start) == 0 && FibLong(start + 1) == 1
    ensures FibRun(start, 10) == [1, 1, 2, 3, 5, 8, 13, 21, 34, 55]
  {
    RunFirst(start, 1);
    RunSecond(start, 0, 1);
    FirstTenLow(start);
    FirstTenHigh(start);
    TenElements(FibRun(start, 10));
  }

  /** A run opens with the generator's second seed, ... */
  lemma RunFirst(start: nat, y: Int64)
    requires FibLong(start + 1) == y
    ensures FibRun(start, 10)[0] == y
  {
    FibRunAt(start, 10, 0);
  }

  /** ... followed by the sum of its two seeds. */
  lemma RunSecond(start: nat, x: Int64, y: Int64)
    requires FibLong(start) == x && FibLong(start + 1) == y
    ensures FibRun(start, 10)[1] == AddLong(x, y)
  {
    FibRunAt(start, 10, 1);
    FibLongStep(start);
  }

  /** The third to fifth values of the run, each the sum of the two before it. */
  lemma FirstTenLow(start: nat)
    requires FibRun(start, 10)[0] == 1 && FibRun(start, 10)[1] == 1
    ensures var s := FibRun(start, 10);
      s[2] == 2 && s[3] == 3 && s[4] == 5
  {
    var s := FibRun(start, 10);
    assert s[2] == 2 by { FibRunStep(start, 10, 2); }
    assert s[3] == 3 by { FibRunStep(start, 10, 3); }
    FibRunStep(start, 10, 4);
  }

  /** The last five values of the run, each the sum of the two before it. */
  lemma FirstTenHigh(start: nat)
    requires FibRun(start, 10)[3] == 3 && FibRun(start, 10)[4] == 5
    ensures var s := FibRun(start, 10);
      s[5] == 8 && s[6] == 13 && s[7] == 21 && s[8] == 34 && s[9] == 55
  {
    var s := FibRun(start, 10);
    assert s[5] == 8 by { FibRunStep(start, 10, 5); }
    assert s[6] == 13 by { FibRunStep(start, 10, 6); }
    assert s[7] == 21 by { FibRunStep(start, 10, 7); }
    assert s[8] == 34 by { FibRunStep(start, 10, 8); }
    FibRunStep(start, 10, 9);
  }

  /** A sequence of ten `Long`s is the display of its elements. */
  lemma TenElements(s: seq<Int64>)
    requires |s| == 10
    ensures s == [s[0], s[1], s[2], s[3], s[4], s[5], s[6], s[7], s[8], s[9]]
  {
  }

  // --------------------------------------------------------------- pipeline

  /** `it * 3` on `Int`: the product reduced to 32 bits, exact while it fits. */
  function Times3(x: Int32): (r: Int32)
    ensures (r - 3 * x) % 0x1_0000_0000 == 0
    ensures INT_MIN <= 3 * x <= INT_MAX ==> r == 3 * x
  {
    WrapInt(x * 3)
  }

  predicate Below20(x: Int32) { x < 20 }

  /** The `groupBy` key `it % 2 == 0`. */
  predicate EvenKey(x: Int32) { Rem(x, 2) == 0 }

  /** The list after `.map { it * 3 }.filter { it < 20 }`. */
  function Selected(xs: seq<Int32>): (r: seq<Int32>)
    ensures |r| <= |xs|
    ensures forall x :: x in r ==> x < 20 && exists i :: 0 <= i < |xs| && x == Times3(xs[i])
    ensures forall i :: 0 <= i < |xs| && Times3(xs[i]) < 20 ==> Times3(xs[i]) in r
  {
    var tripled := MapList(xs, Times3);
    assert forall i :: 0 <= i < |xs| ==> tripled[i] in tripled;
    Filter(tripled, Below20)
  }

  /** The group of `k` in `m`, empty when `groupBy` produced none. */
  function Group<K>(m: map<K, seq<Int32>>, k: K): seq<Int32>
  {
    if k in m then m[k] else []
  }

  /** The `mapKeys` renaming of the boolean parity key. */
  function KeyName(k: bool): string { if k then "even" else "odd" }

  /** `.mapKeys { if (it.key) "even" else "odd" }`: the renaming is one-to-one, so every
      group survives under its new name. */
  function MapKeys(groups: map<bool, seq<Int32>>): (r: map<string, seq<Int32>>)
    ensures r.Keys <= {"odd", "even"}
    ensures forall k :: k in groups <==> KeyName(k) in r
    ensures forall k :: k in groups ==> r[KeyName(k)] == groups[k]
  {
    var even := if true in groups then map[KeyName(true) := groups[true]] else map[];
    var odd := if false in groups then map[KeyName(false) := groups[false]] else map[];
    even + odd
  }

  /** `xs.map { it * 3 }.filter { it < 20 }.groupBy { it % 2 == 0 }
      .mapKeys { if (it.key) "even" else "odd" }`. */
  function Pipeline(xs: seq<Int32>): (r: map<string, seq<Int32>>)
    ensures r.Keys <= {"odd", "even"}
    ensures "even" in r <==> exists x :: x in Selected(xs) && EvenKey(x)
    ensures "odd" in r <==> exists x :: x in Selected(xs) && !EvenKey(x)
  {
    var groups := GroupBy(Selected(xs), EvenKey);
    assert KeyName(true) == "even" && KeyName(false) == "odd";
    assert true in groups <==> exists x :: x in Selected(xs) && EvenKey(x);
    assert false in groups <==> exists x :: x in Selected(xs) && !EvenKey(x);
    MapKeys(groups)
  }

  /** Each named group is the selected list filtered by its parity. */
  lemma PipelineGroups(xs: seq<Int32>)
    ensures Group(Pipeline(xs), "even") == Filter(Selected(xs), HasKey(EvenKey, true))
    ensures Group(Pipeline(xs), "odd") == Filter(Selected(xs), HasKey(EvenKey, false))
  {
    var groups := GroupBy(Selected(xs), EvenKey);
    assert KeyName(true) == "even" && KeyName(false) == "odd";
    if true !in groups {
      FilterNone(Selected(xs), HasKey(EvenKey, true));
    }
    if false !in groups {
      FilterNone(Selected(xs), HasKey(EvenKey, false));
    }
  }

  /** The two groups split the selected list: every element lands in exactly one of
      them, according to its parity, and each keeps the original order. */
  lemma PipelinePartition(xs: seq<Int32>)
    ensures multiset(Group(Pipeline(xs), "odd")) + multiset(Group(Pipeline(xs), "even"))
      == multiset(Selected(xs))
    ensures forall x :: x in Group(Pipeline(xs), "even") ==> x in Selected(xs) && Rem(x, 2) == 0
    ensures forall x :: x in Group(Pipeline(xs), "odd") ==> x in Selected(xs) && Rem(x, 2) != 0
  {
    PipelineGroups(xs);
    FilterComplement(Selected(xs), HasKey(EvenKey, false), HasKey(EvenKey, true));
  }

  /** The list `.filter { it < 20 }` leaves in the tour's sample. */
  const SampleSelection: seq<Int32> := [3, 6, 9, 12, 15, 18]

  /** 1..9 tripled and cut below 20. */
  lemma SelectedSample(xs: seq<Int32>)
    requires xs == MapList(Range(1, 9), WrapInt)
    ensures Selected(xs) == SampleSelection
  {
    var sel: seq<Int32>, rest: seq<Int32> := SampleSelection, [21, 24, 27];
    assert Filter(sel, Below20) == sel by { FilterAll(sel, Below20); }
    assert Filter(rest, Below20) == [] by { FilterNone(rest, Below20); }
    FilterAppend(sel, rest, Below20);
    TripledSample(xs);
  }

  /** 1..9 tripled: the selection followed by the three multiples not below 20. */
  lemma TripledSample(xs: seq<Int32>)
    requires xs == MapList(Range(1, 9), WrapInt)
    ensures MapList(xs, Times3) == SampleSelection + [21, 24, 27]
  {
    var tripled := MapList(xs, Times3);
    assert forall i :: 0 <= i < 9 ==> xs[i] == i + 1;
    assert forall i :: 0 <= i < 9 ==> tripled[i] == 3 * (i + 1);
  }

  /** The even filter of the selected list. */
  lemma EvenGroupSample(sel: seq<Int32>)
    requires sel == SampleSelection
    ensures Filter(sel, HasKey(EvenKey, true)) == [6, 12, 18]
  {
    var a, b, c, d, e, f: Int32 := 3, 6, 9, 12, 15, 18;
    assert sel == [a, b, c] + [d, e, f];
    var even := HasKey<bool, Int32>(EvenKey, true);
    assert !even(a) && even(b) && !even(c) && even(d) && !even(e) && even(f) by {
      assert !EvenKey(a) && EvenKey(b) && !EvenKey(c) && EvenKey(d) && !EvenKey(e) && EvenKey(f);
    }
    FilterThree(a, b, c, even);
    FilterThree(d, e, f, even);
    FilterAppend([a, b, c], [d, e, f], even);
  }

  /** The odd filter of the selected list. */
  lemma OddGroupSample(sel: seq<Int32>)
    requires sel == SampleSelection
    ensures Filter(sel, HasKey(EvenKey, false)) == [3, 9, 15]
  {
    var a, b, c, d, e, f: Int32 := 3, 6, 9, 12, 15, 18;
    assert sel == [a, b, c] + [d, e, f];
    var odd := HasKey<bool, Int32>(EvenKey, false);
    assert odd(a) && !odd(b) && odd(c) && !odd(d) && odd(e) && !odd(f) by {
      assert !EvenKey(a) && EvenKey(b) && !EvenKey(c) && EvenKey(d) && !EvenKey(e) && EvenKey(f);
    }
    FilterThree(a, b, c, odd);
    FilterThree(d, e, f, odd);
    FilterAppend([a, b, c], [d, e, f], odd);
  }

  /** When both parities occur, `mapKeys` yields exactly the two renamed groups. */
  lemma MapKeysBoth(groups: map<bool, seq<Int32>>)
    requires true in groups && false in groups
    ensures MapKeys(groups) == map["odd" := groups[false], "even" := groups[true]]
  {
    assert KeyName(true) == "even" && KeyName(false) == "odd";
  }

  /** When both parity filters are non-empty, `groupBy` keeps both groups, each the
      corresponding filter. */
  lemma GroupByBothParities(sel: seq<Int32>, evens: seq<Int32>, odds: seq<Int32>)
    requires Filter(sel, HasKey(EvenKey, true)) == evens != []
    requires Filter(sel, HasKey(EvenKey, false)) == odds != []
    ensures var groups := GroupBy(sel, EvenKey);
      true in groups && false in groups && groups[true] == evens && groups[false] == odds
  {
    assert evens[0] in Filter(sel, HasKey(EvenKey, true));
    assert odds[0] in Filter(sel, HasKey(EvenKey, false));
  }

  /** The tour's pipeline over 1..9 prints `{odd=[3, 9, 15], even=[6, 12, 18]}`. */
  lemma PipelineSample(xs: seq<Int32>)
    requires xs == MapList(Range(1, 9), WrapInt)
    ensures Pipeline(xs) == map["odd" := [3, 9, 15], "even" := [6, 12, 18]]
  {
    SelectedSample(xs);
    EvenGroupSample(Selected(xs));
    OddGroupSample(Selected(xs));
    GroupByBothParities(Selected(xs), [6, 12, 18], [3, 9, 15]);
    MapKeysBoth(GroupBy(Selected(xs), EvenKey));
  }
}
