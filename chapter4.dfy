/** The local functions of `Chapter4.kt` (and of its verbatim copy in the
    ProgrammingKotlinBook directory): fizzbuzz, default parameters, the `reverse`
    extension, the `roots` guard and the require/check/error chain. */
module Chapter4 {
  import opened KotlinBase

  // ---------------------------------------------------------------- fizzbuzz

  /** The line `fizzbuzz` prints for `k`; the `when` tests the combined case first. */
  function FizzBuzzLine(k: Int32): (r: string)
    ensures r == "Fizz Buzz" <==> k % 3 == 0 && k % 5 == 0
    ensures r == "Fizz" <==> k % 3 == 0 && k % 5 != 0
    ensures r == "Buzz" <==> k % 3 != 0 && k % 5 == 0
    ensures k % 3 != 0 && k % 5 != 0 ==> r == IntToString(k)
  {
    RemZeroIffDivides(k, 3);
    RemZeroIffDivides(k, 5);
    var isFizz := Rem(k, 3) == 0;
    var isBuzz := Rem(k, 5) == 0;
    if isFizz && isBuzz then "Fizz Buzz"
    else if isFizz then "Fizz"
    else if isBuzz then "Buzz"
    else
      var r := IntToString(k);
      assert r[0] == '-' || '0' <= r[0] <= '9';
      r
  }

  /** A multiple of 15 never prints a bare "Fizz" or "Buzz". */
  lemma MultipleOf15(k: Int32)
    requires k % 15 == 0
    ensures FizzBuzzLine(k) == "Fizz Buzz"
  {
    assert k == (k / 15) * 15;
    assert k % 3 == 0 by { ModUnique(k, 3, (k / 15) * 5, 0); }
    assert k % 5 == 0 by { ModUnique(k, 5, (k / 15) * 3, 0); }
  }

  /** `fizzbuzz(start, end)`: one line per `k` in `start..end`, in ascending order; the
      printed lines are returned instead of written to standard output. */
  method FizzBuzz(start: Int32, end: Int32) returns (lines: seq<string>)
    ensures |lines| == if start <= end then end - start + 1 else 0
    ensures forall i :: 0 <= i < |lines| ==> lines[i] == FizzBuzzLine(start + i)
  {
    lines := [];
    var k: int := start;
    while k <= end
      invariant start <= k && (k <= end + 1 || k == start)
      invariant |lines| == k - start
      invariant forall i :: 0 <= i < |lines| ==> lines[i] == FizzBuzzLine(start + i)
    {
      lines := lines + [FizzBuzzLine(k)];
      k := k + 1;
    }
  }

  // ------------------------------------------------------- default parameters

  /** `bar(k, m = 1L, j = true)`: the line `"$k - $m - $j"`; `None` is an omitted argument. */
  function Bar(k: Int32, m: Option<Int64>, j: Option<bool>): (r: string)
    ensures TemplateOf(r, IntToString(k), IntToString(if m.Some? then m.value else 1),
                       BoolToString(j != Some(false)))
    ensures |r| >= 4 && (r[|r| - 4..] == "true" <==> j != Some(false))
  {
    var a, b := IntToString(k), IntToString(if m.Some? then m.value else 1);
    var c := BoolToString(j != Some(false));
    TemplateShape(a, b, c);
    assert c[|c| - 4..] == "true" <==> j != Some(false);
    a + " - " + b + " - " + c
  }

  /** `r` is the template `"$a - $b - $c"`: `a`, " - ", `b`, " - ", then `c`. */
  predicate TemplateOf(r: string, a: string, b: string, c: string)
  {
    |r| == |a| + 3 + |b| + 3 + |c| && r[..|a|] == a && r[|a|..|a| + 3] == " - " &&
    r[|a| + 3..|a| + 3 + |b|] == b && r[|a| + 3 + |b|..|a| + 6 + |b|] == " - " &&
    r[|a| + 6 + |b|..] == c
  }

  /** Where the parts of the template `"$a - $b - $c"` end up. */
  lemma TemplateShape(a: string, b: string, c: string)
    requires |c| >= 4
    ensures var r := a + " - " + b + " - " + c;
      TemplateOf(r, a, b, c) && r[|r| - 4..] == c[|c| - 4..]
  {
    var r := a + " - " + b + " - " + c;
    assert r == (a + " - ") + (b + " - " + c);
    assert r[|r| - 4..] == (b + " - " + c)[|b + " - " + c| - 4..];
  }

  /** Omitting `m` and `j` is passing `1L` and `true`. */
  lemma BarDefaults(k: Int32, m: Option<Int64>, j: Option<bool>)
    ensures Bar(k, None, j) == Bar(k, Some(1), j)
    ensures Bar(k, m, None) == Bar(k, m, Some(true))
  {
  }

  /** `bar(10)` prints `10 - 1 - true`. */
  lemma BarSample()
    ensures Bar(10, None, None) == "10 - 1 - true"
  {
    assert IntToString(10) == "10" by {
      assert NatToString(10) == NatToString(1) + [DigitChar(0)];
    }
    assert IntToString(1) == "1";
    assert Bar(10, None, None) == IntToString(10) + " - " + IntToString(1) + " - " + "true";
  }

  // ------------------------------------------------------------------ reverse

  /** `fun String.reverse() = this.reversed()`. */
  function Reverse(s: string): (r: string)
    ensures |r| == |s|
    ensures forall i :: 0 <= i < |s| ==> r[i] == s[|s| - 1 - i]
  {
    forall i | 0 <= i < |s|
      ensures Reversed(s)[i] == s[|s| - 1 - i]
    {
      ReversedAt(s, i);
    }
    Reversed(s)
  }

  /** Reversing twice gives back the string. */
  lemma ReverseInvolution(s: string)
    ensures Reverse(Reverse(s)) == s
  {
    var r := Reverse(Reverse(s));
    assert forall i :: 0 <= i < |s| ==> r[i] == s[i];
  }

  /** `"Hello World".reverse()` is "dlroW olleH". */
  lemma ReverseSample(s: string)
    requires s == "Hello World"
    ensures Reverse(s) == "dlroW olleH"
  {
    var r := Reverse(s);
    assert forall i :: 0 <= i < 11 ==> r[i] == s[10 - i];
  }

  // -------------------------------------------------------------------- roots

  /** `roots(k)`: `require(k >= 0)` and then the pair of square roots. The square root
      of the `Double` is a parameter of the model. */
  function Roots(k: Int32, sqrt: real -> real): (r: Result<(real, real)>)
    ensures r.Throw? <==> k < 0
    ensures r.Throw? ==> r.exception == IllegalArgumentException(Some("Failed requirement."))
    ensures r.Ok? ==> r.value.0 == sqrt(k as real) && r.value.1 == -r.value.0
  {
    if !(k >= 0) then Throw(IllegalArgumentException(Some("Failed requirement.")))
    else
      var root := sqrt(k as real);
      Ok((root, -root))
  }

  // -------------------------------------------------------------- assertions

  /** `foo(k, value)`: `require(k > 10)`, `requireNotNull(k)` (a no-op on an `Int`),
      `check(value)` and `if (k == 20) error(...)`, in that order. */
  function Foo(k: Int32, value: bool): (r: Result<()>)
    ensures r.Throw? && r.exception.IllegalArgumentException? <==> k <= 10
    ensures k <= 10 ==> r == Throw(IllegalArgumentException(Some("k should be greater than 10")))
    ensures k > 10 && !value ==> r == Throw(IllegalStateException(Some("Check failed.")))
    ensures k > 10 && value ==> (r.Throw? <==> k == 20)
    ensures k > 10 && value && k == 20 ==> r == Throw(IllegalStateException(Some("Error: k == 20")))
  {
    if !(k > 10) then Throw(IllegalArgumentException(Some("k should be greater than 10")))
    else if !value then Throw(IllegalStateException(Some("Check failed.")))
    else if k == 20 then Throw(IllegalStateException(Some("Error: k == 20")))
    else Ok(())
  }
}
