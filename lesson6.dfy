/** The higher-order functions and the closure of `KotlinFromScratch/Lesson6.kt`.
    Its local `upperCaseFirstLetter` is the same expression as
    `Lesson8.UpperCaseFirstLetter`. */
module Lesson6 {
  import opened KotlinBase
  import Lesson8

  /** `sayHello(name, fn) = fn(name).toUpperCase()`. */
  function SayHello(name: string, fn: string -> string): (r: string)
    ensures |r| == |fn(name)|
    ensures forall i :: 0 <= i < |r| ==> !IsAsciiLower(r[i])
    ensures forall i :: 0 <= i < |r| ==> r[i] == UpperChar(fn(name)[i])
  {
    UpperCase(fn(name))
  }

  const Greeting := "Hello, my name is "

  /** `hello(name) = "Hello, my name is $name"`. */
  function Hello(name: string): (r: string)
    ensures |r| == |Greeting| + |name|
    ensures r[..|Greeting|] == Greeting && r[|Greeting|..] == name
  {
    Greeting + name
  }

  /** The greeting passed as `::hello` and the lambda `{ "Hello, my name is $it" }` are
      the same function. */
  lemma SayHelloSample()
    ensures SayHello("Greg", Hello) == "HELLO, MY NAME IS GREG"
    ensures SayHello("Martin", s => "Hello, my name is " + s) == "HELLO, MY NAME IS MARTIN"
  {
    var r := SayHello("Greg", Hello);
    assert forall i :: 0 <= i < |r| ==> r[i] == "HELLO, MY NAME IS GREG"[i];
    var r2 := SayHello("Martin", s => "Hello, my name is " + s);
    assert forall i :: 0 <= i < |r2| ==> r2[i] == "HELLO, MY NAME IS MARTIN"[i];
  }

  /** The capitalised names the lesson prints. */
  lemma UpperCaseFirstLetterSample()
    ensures Lesson8.UpperCaseFirstLetter("john") == Ok("John")
    ensures Lesson8.UpperCaseFirstLetter("Williams") == Ok("Williams")
  {
    Lesson8.UpperCaseFirstLetterSamples();
  }

  const Names: seq<string> := ["Adam", "Andrew", "Chike", "Kechi"]

  /** The closure `{ it.length == length }` over the captured `length`. */
  function HasLength(length: Int32): (r: string -> bool)
    ensures forall s :: r(s) <==> |s| == length
  {
    s => |s| == length
  }

  /** `printFilteredNamesByLength(length)`: the names of that length, in list order; the
      printed list is returned. */
  function FilteredNamesByLength(length: Int32): (r: seq<string>)
    ensures forall s :: s in r <==> s in Names && |s| == length
    ensures |r| <= |Names|
  {
    Filter(Names, HasLength(length))
  }

  lemma FilteredNamesSample()
    ensures FilteredNamesByLength(5) == ["Chike", "Kechi"]
  {
    FilterTwoOfFour("Adam", "Andrew", "Chike", "Kechi", 5);
  }

  /** Of four names, where only the last two have the wanted length, the filter keeps
      those two. */
  lemma FilterTwoOfFour(a: string, b: string, c: string, d: string, length: Int32)
    requires |a| != length && |b| != length && |c| == length && |d| == length
    ensures Filter([a, b, c, d], HasLength(length)) == [c, d]
  {
    var p := HasLength(length);
    assert Filter([a, b, c], p) == [c] by {
      assert !p(a) && !p(b) && p(c);
      FilterThree(a, b, c, p);
    }
    assert p(d);
    FilterSnoc([a, b, c], d, p);
    assert [a, b, c] + [d] == [a, b, c, d];
  }
}
