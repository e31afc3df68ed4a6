/** Splitting a string at a separator character: the inverse of the
    `"$a<sep>$b"` string templates that the tutorial's name and e-mail
    builders use. */
module Text {
  import opened KotlinBase

  /** Splits `s` at the first occurrence of `sep`, as `s.split(sep, limit = 2)` would. */
  function SplitFirst(s: string, sep: char): (r: Option<(string, string)>)
    ensures r.None? <==> sep !in s
    ensures r.Some? ==> sep !in r.value.0 && s == r.value.0 + [sep] + r.value.1
  {
    if s == [] then None
    else if s[0] == sep then
      assert s == [] + [sep] + s[1..];
      Some(([], s[1..]))
    else
      match SplitFirst(s[1..], sep)
      case None => None
      case Some((a, b)) =>
        assert s == [s[0]] + (a + [sep] + b) == ([s[0]] + a) + [sep] + b;
        Some(([s[0]] + a, b))
  }

  /** A string with one separator after a separator-free prefix splits in one way only. */
  lemma SplitUnique(a: string, b: string, a2: string, b2: string, sep: char)
    requires sep !in a && sep !in a2
    requires a + [sep] + b == a2 + [sep] + b2
    ensures a == a2 && b == b2
  {
    var s := a + [sep] + b;
    SeparatorBound(a, b, a2, b2, sep);
    SeparatorBound(a2, b2, a, b, sep);
    assert a == s[..|a|] == a2;
    assert b == s[|a| + 1..] == b2;
  }

  /** The first separator of the string cannot lie inside a separator-free prefix. */
  lemma SeparatorBound(a: string, b: string, a2: string, b2: string, sep: char)
    requires sep !in a2
    requires a + [sep] + b == a2 + [sep] + b2
    ensures |a2| <= |a|
  {
    assert (a + [sep] + b)[|a|] == sep;
  }

  /** Splitting undoes joining whenever the first part holds no separator. */
  lemma SplitJoin(a: string, sep: char, b: string)
    requires sep !in a
    ensures SplitFirst(a + [sep] + b, sep) == Some((a, b))
  {
    var r := SplitFirst(a + [sep] + b, sep);
    assert sep in a + [sep] + b;
    SplitUnique(r.value.0, r.value.1, a, b, sep);
  }
}
