/** The infinite sequence `generateSequence(100) { if ((it + 1) % 2 == 0) it + 1 else it + 2 }`
    and the finite prefix `takeWhile { it < 110 }` takes from it. */
module Chapter10 {
  import opened KotlinBase

  /** `a + b` on `Int`, the overflow written out: a sum past either end of the range
      wraps around by 2^32. */
  function AddInt(a: Int32, b: Int32): Int32
  {
    var sum := a + b;
    if sum > INT_MAX then sum - 0x1_0000_0000
    else if sum < INT_MIN then sum + 0x1_0000_0000
    else sum
  }

  /** The written-out overflow agrees with the general reduction to 32 bits. */
  lemma AddIntWraps(a: Int32, b: Int32)
    ensures AddInt(a, b) == WrapInt(a + b)
  {
    var sum := a + b;
    if sum > INT_MAX {
      WrapIntCongruent(sum, sum - 0x1_0000_0000);
    } else if sum < INT_MIN {
      WrapIntCongruent(sum, sum + 0x1_0000_0000);
    }
  }

  /** The step lambda, in `Int` arithmetic: the next even number after `n`. At the top
      of the range both `it + 1` and `it + 2` can wrap around to `Int.MIN_VALUE`. */
  function NextEven(n: Int32): (r: Int32)
    ensures n <= INT_MAX - 2 ==> n < r && r % 2 == 0 && (r == n + 1 || r == n + 2)
    ensures n <= INT_MAX - 2 && r == n + 2 ==> (n + 1) % 2 != 0
    ensures n >= INT_MAX - 1 ==> r == INT_MIN
  {
    var next := AddInt(n, 1);
    RemZeroIffDivides(next, 2);
    RemZeroIffDivides(n + 2, 2);
    if Rem(next, 2) == 0 then next else AddInt(n, 2)
  }

  /** Below the wrap-around the step gives the smallest even number greater than `n`,
      negative numbers included. */
  lemma NextEvenIsSmallest(n: Int32, m: int)
    requires n <= INT_MAX - 2 && n < m && m % 2 == 0
    ensures NextEven(n) <= m
  {
  }

  /** The element at index `k` of the generated sequence: the seed stepped `k` times. */
  function Iterate(seed: Int32, k: nat): (r: Int32)
    ensures k > 0 ==> r % 2 == 0
  {
    if k == 0 then seed else NextEven(Iterate(seed, k - 1))
  }

  /** Each step below the wrap-around moves up to an even number. */
  lemma IterateStep(seed: Int32, k: nat)
    requires Iterate(seed, k) <= INT_MAX - 2
    ensures Iterate(seed, k) < Iterate(seed, k + 1) && Iterate(seed, k + 1) % 2 == 0
  {
  }

  /** From an even number the step adds two. */
  lemma NextEvenOfEven(p: Int32)
    requires p % 2 == 0 && p <= INT_MAX - 2
    ensures NextEven(p) == p + 2
  {
  }

  /** From an even seed, as long as nothing wraps, the sequence counts up in steps of two. */
  lemma {:induction false} IterateFromEven(seed: Int32, k: nat)
    requires seed % 2 == 0 && seed + 2 * k <= INT_MAX
    ensures Iterate(seed, k) == seed + 2 * k
  {
    if k > 0 {
      var p := seed + 2 * (k - 1);
      IterateFromEven(seed, k - 1);
      NextEvenOfEven(p);
      assert Iterate(seed, k) == NextEven(p);
    }
  }

  /** `s` is the start of the sequence from `seed`, all of it below `limit`. */
  predicate PrefixBelow(seed: Int32, limit: Int32, s: seq<Int32>)
  {
    forall i :: 0 <= i < |s| ==> s[i] == Iterate(seed, i) && s[i] < limit
  }

  /** Taking one more element below the limit keeps `s` a prefix, and the step moves up. */
  lemma PrefixBelowExtend(seed: Int32, limit: Int32, s: seq<Int32>, x: Int32)
    requires limit < INT_MAX && PrefixBelow(seed, limit, s)
    requires x == Iterate(seed, |s|) && x < limit
    ensures PrefixBelow(seed, limit, s + [x])
    ensures NextEven(x) == Iterate(seed, |s| + 1) && x < NextEven(x)
  {
  }

  /** Below the limit the prefix climbs strictly, through even numbers only. */
  lemma PrefixBelowIncreasing(seed: Int32, limit: Int32, s: seq<Int32>)
    requires (limit < INT_MAX || s == []) && PrefixBelow(seed, limit, s)
    ensures forall i :: 0 < i < |s| ==> s[i - 1] < s[i] && s[i] % 2 == 0
  {
    forall i | 0 < i < |s|
      ensures s[i - 1] < s[i] && s[i] % 2 == 0
    {
      IterateStep(seed, i - 1);
    }
  }

  /** `takeWhile { it < limit }.toList()`: the elements of the sequence up to the first one
      that reaches `limit`. They are the sequence's own elements in order, all below the limit,
      strictly increasing, and every one after the seed is even. A limit of `Int.MAX_VALUE`
      is excluded unless the seed already reaches it: otherwise the source's sequence would
      wrap to `Int.MIN_VALUE` and never stop. */
  method TakeWhileBelow(seed: Int32, limit: Int32) returns (s: seq<Int32>)
    requires limit < INT_MAX || seed >= limit
    ensures forall i :: 0 <= i < |s| ==> s[i] == Iterate(seed, i) && s[i] < limit
    ensures Iterate(seed, |s|) >= limit
    ensures forall i :: 0 < i < |s| ==> s[i - 1] < s[i] && s[i] % 2 == 0
  {
    s := [];
    var x := seed;
    while x < limit
      invariant x == Iterate(seed, |s|)
      invariant PrefixBelow(seed, limit, s)
      invariant limit < INT_MAX || (s == [] && x >= limit)
      decreases limit - x
    {
      PrefixBelowExtend(seed, limit, s, x);
      s := s + [x];
      x := NextEven(x);
    }
    PrefixBelowIncreasing(seed, limit, s);
  }

  /** `generateSequence(100) { … }.takeWhile { it < 110 }` is [100, 102, 104, 106, 108]. */
  method EvenNumbersSample() returns (s: seq<Int32>)
    ensures s == [100, 102, 104, 106, 108]
  {
    s := TakeWhileBelow(100, 110);
    if |s| < 5 {
      IterateFromEven(100, |s|);
      assert false;
    }
    if |s| > 5 {
      IterateFromEven(100, 5);
      assert false;
    }
    forall i | 0 <= i < 5
      ensures s[i] == 100 + 2 * i
    {
      IterateFromEven(100, i);
    }
  }
}
