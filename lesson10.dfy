/** Exceptions: a try/catch/finally statement, `try` used as an expression, and a function
    that rejects non-`Int` arguments. */
module Lesson10 {
  import opened KotlinBase

  /** `foo()`: the body always throws, the handler catches it, and the finally block runs
      afterwards. The returned log is what the two `println`s print, in order. */
  method Foo() returns (log: seq<string>)
    ensures log == ["Exception handled", "inside finally block"]
  {
    log := [];
    var outcome: Result<()> := Throw(PlainException(Some("Exception message")));
    if outcome.Throw? {
      log := log + ["Exception handled"];
    }
    log := log + ["inside finally block"];
  }

  /** The `try` block of `foo(number)`: throws unless `number == 1`. */
  function TryBlock(number: Int32): (r: Result<bool>)
    ensures r.Throw? <==> number != 1
    ensures r.Throw? ==> r.exception == IllegalArgumentException(None)
    ensures r.Ok? ==> r.value
  {
    if number != 1 then Throw(IllegalArgumentException(None)) else Ok(true)
  }

  /** `catch (e: IllegalArgumentException) { fallback }`: an `IllegalArgumentException`
      becomes the fallback value; any other outcome passes through. */
  function CatchIllegalArgument(r: Result<bool>, fallback: bool): (caught: Result<bool>)
    ensures r.Ok? ==> caught == r
    ensures r.Throw? && r.exception.IllegalArgumentException? ==> caught == Ok(fallback)
    ensures r.Throw? && !r.exception.IllegalArgumentException? ==> caught == r
  {
    if r.Throw? && r.exception.IllegalArgumentException? then Ok(fallback) else r
  }

  /** The value of the `try` expression in `foo(number)`: nothing escapes it, and it is
      true exactly for 1. */
  function FooNumber(number: Int32): (r: Result<bool>)
    ensures r.Ok?
    ensures r.value <==> number == 1
  {
    CatchIllegalArgument(TryBlock(number), false)
  }

  /** `foo(2)` prints false. */
  lemma FooNumberSample()
    ensures FooNumber(2) == Ok(false)
    ensures FooNumber(1) == Ok(true)
  {
  }

  /** `addNumberToTwo(a: Any)`: anything but an `Int` is rejected; an `Int` gets 2 added
      in 32-bit arithmetic. */
  function AddNumberToTwo(a: AnyValue): (r: Result<Int32>)
    ensures r.Throw? <==> !a.KInt?
    ensures r.Throw? ==> r.exception == IllegalArgumentException(Some("Number must be an integer"))
    ensures r.Ok? ==> (r.value - 2 - a.i) % 0x1_0000_0000 == 0
    ensures r.Ok? && a.i <= INT_MAX - 2 ==> r.value == a.i + 2
  {
    if !a.KInt? then Throw(IllegalArgumentException(Some("Number must be an integer")))
    else Ok(WrapInt(2 + a.i))
  }

  /** At the top of the range the addition wraps around; a `Double` such as 10.0 (or any
      other non-`Int`) throws, as the test expects. */
  lemma AddNumberToTwoSamples()
    ensures AddNumberToTwo(KInt(40)) == Ok(42)
    ensures AddNumberToTwo(KInt(INT_MAX)) == Ok(INT_MIN + 1)
    ensures AddNumberToTwo(KOther).Throw? && AddNumberToTwo(KString("2")).Throw?
  {
  }
}
