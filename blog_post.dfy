/** The hand-written Java class `BlogPostJava`: four final fields, null-aware `equals`,
    the 31-multiplier `hashCode`, `toString` and getters. */
module BlogPost {
  import opened KotlinBase
  import Text

  /** A `java.net.URI`, by its string form. */
  datatype Uri = Uri(text: string)

  /** A `java.util.Date`: milliseconds since the epoch, which is all `Date.equals` compares. */
  datatype Date = Date(time: Int64)

  /** The polynomial `h[0]*31^(n-1) + … + h[n-1]` over the integers, the form in which the
      Java documentation states `String.hashCode`. */
  function Pow31(k: nat): int
  {
    if k == 0 then 1 else 31 * Pow31(k - 1)
  }

  function PolySum(hs: seq<int>): int
  {
    if hs == [] then 0 else hs[0] * Pow31(|hs| - 1) + PolySum(hs[1..])
  }

  /** Appending one more term multiplies the polynomial so far by 31. */
  lemma {:induction false} PolySumSnoc(hs: seq<int>, h: int)
    ensures PolySum(hs + [h]) == 31 * PolySum(hs) + h
  {
    if hs != [] {
      assert (hs + [h])[1..] == hs[1..] + [h];
      PolySumSnoc(hs[1..], h);
      calc {
        PolySum(hs + [h]);
        hs[0] * Pow31(|hs|) + PolySum(hs[1..] + [h]);
        hs[0] * (31 * Pow31(|hs| - 1)) + 31 * PolySum(hs[1..]) + h;
        { assert hs[0] * (31 * Pow31(|hs| - 1)) == 31 * (hs[0] * Pow31(|hs| - 1)); }
        31 * (hs[0] * Pow31(|hs| - 1) + PolySum(hs[1..])) + h;
      }
    } else {
      assert hs + [h] == [h];
    }
  }

  /** The fold `result = 31 * result + h` in `int` arithmetic, starting from 0: what both
      `String.hashCode` and `BlogPostJava.hashCode` compute. */
  function HashFold(hs: seq<int>): Int32
  {
    if hs == [] then 0 else Combine(HashFold(hs[..|hs| - 1]), hs[|hs| - 1])
  }

  /** One step of the fold: `31 * result + h` in `int` arithmetic. */
  function Combine(result: Int32, h: int): Int32
  {
    WrapInt(31 * result + h)
  }

  /** Whatever the intermediate wrap-arounds, the fold is the exact polynomial reduced to
      32 bits once. */
  lemma {:induction false} HashFoldPolynomial(hs: seq<int>)
    ensures HashFold(hs) == WrapInt(PolySum(hs))
  {
    if hs != [] {
      var prefix := hs[..|hs| - 1];
      HashFoldPolynomial(prefix);
      FoldStep(PolySum(prefix), HashFold(prefix), hs[|hs| - 1]);
      PolySumSnoc(prefix, hs[|hs| - 1]);
      assert prefix + [hs[|hs| - 1]] == hs;
    }
  }

  /** Folding one more hash. */
  lemma HashFoldSnoc(hs: seq<int>, h: int)
    ensures HashFold(hs + [h]) == Combine(HashFold(hs), h)
  {
    assert (hs + [h])[..|hs|] == hs;
  }

  /** The fold over four hashes, written out the way `hashCode()` spells it. */
  lemma HashFoldFour(a: Int32, b: int, c: int, d: int)
    ensures HashFold([a, b, c, d]) == Combine(Combine(Combine(a, b), c), d)
  {
    assert HashFold([a]) == a by {
      HashFoldSnoc([], a);
      assert [] + [a] == [a];
    }
    assert HashFold([a, b]) == Combine(a, b) by {
      HashFoldSnoc([a], b);
      assert [a] + [b] == [a, b];
    }
    assert HashFold([a, b, c]) == Combine(Combine(a, b), c) by {
      HashFoldSnoc([a, b], c);
      assert [a, b] + [c] == [a, b, c];
    }
    HashFoldSnoc([a, b, c], d);
    assert [a, b, c] + [d] == [a, b, c, d];
  }

  /** One fold step commutes with the reduction to 32 bits. */
  lemma FoldStep(p: int, acc: Int32, h: int)
    requires acc == WrapInt(p)
    ensures WrapInt(31 * acc + h) == WrapInt(31 * p + h)
  {
    var d := 0x1_0000_0000;
    var k := (acc - p) / d;
    assert acc - p == d * k + (acc - p) % d;
    assert acc - p == d * k;
    assert (31 * acc + h) - (31 * p + h) == (31 * k) * d;
    ModUnique((31 * acc + h) - (31 * p + h), d, 31 * k, 0);
    WrapIntCongruent(31 * acc + h, 31 * p + h);
  }

  /** The character codes of a string, the terms `String.hashCode` folds. */
  function CharCodes(s: string): (codes: seq<int>)
    ensures |codes| == |s| && forall i :: 0 <= i < |s| ==> codes[i] == s[i] as int
  {
    seq(|s|, i requires 0 <= i < |s| => s[i] as int)
  }

  /** `String.hashCode`: the fold over the character codes, which is the documented
      `s[0]*31^(n-1) + … + s[n-1]` in `int` arithmetic. */
  function StringHashCode(s: string): (r: Int32)
    ensures r == WrapInt(PolySum(CharCodes(s)))
  {
    HashFoldPolynomial(CharCodes(s));
    HashFold(CharCodes(s))
  }

  /** `String.hashCode` on a few short strings. */
  lemma StringHashSamples()
    ensures StringHashCode("") == 0
    ensures StringHashCode("a") == 97
    ensures StringHashCode("ab") == 97 * 31 + 98
  {
    assert CharCodes("a") == [97];
    var ab := CharCodes("ab");
    assert ab == [97, 98];
    assert ab[..1] == [97];
  }

  /** Java's `a != null ? a.equals(b) : b == null` for a field: null equals only null. */
  function NullSafeEquals<T(==)>(a: Option<T>, b: Option<T>): (r: bool)
    ensures r <==> a == b
  {
    if a.Some? then b.Some? && a.value == b.value else b.None?
  }

  /** Java's `a != null ? hash(a) : 0`. */
  function NullSafeHash<T>(a: Option<T>, hash: T -> Int32): (r: Int32)
    ensures a.None? ==> r == 0
    ensures a.Some? ==> r == hash(a.value)
  {
    if a.Some? then hash(a.value) else 0
  }

  /** The argument of `equals(Object o)`: null, a `BlogPostJava`, or an object of another class. */
  datatype JavaObject = Null | Post(post: BlogPostJava) | Other

  class BlogPostJava {
    const title: Option<string>
    const url: Option<Uri>
    const description: Option<string>
    const publishDate: Option<Date>

    constructor (title: Option<string>, url: Option<Uri>, description: Option<string>,
                 publishDate: Option<Date>)
      ensures this.title == title && this.url == url
      ensures this.description == description && this.publishDate == publishDate
    {
      this.title := title;
      this.url := url;
      this.description := description;
      this.publishDate := publishDate;
    }

    /** All four fields pairwise equal, null equal only to null. */
    predicate SameFields(other: BlogPostJava) {
      title == other.title && url == other.url &&
      description == other.description && publishDate == other.publishDate
    }

    /** `equals(Object o)`: the same reference is equal; null and other classes are not;
        otherwise the fields are compared one by one, returning false at the first mismatch. */
    function Equals(o: JavaObject): (r: bool)
      ensures o == Post(this) ==> r
      ensures !o.Post? ==> !r
      ensures o.Post? ==> (r <==> SameFields(o.post))
    {
      if o == Post(this) then true
      else if !o.Post? then false
      else
        var b := o.post;
        if !NullSafeEquals(title, b.title) then false
        else if !NullSafeEquals(url, b.url) then false
        else if !NullSafeEquals(description, b.description) then false
        else NullSafeEquals(publishDate, b.publishDate)
    }

    /** The four field hashes, in the order `hashCode` folds them. */
    function FieldHashes(uriHash: Uri -> Int32, dateHash: Date -> Int32): (hs: seq<int>)
      ensures |hs| == 4
      ensures hs[0] == NullSafeHash(title, StringHashCode) && hs[1] == NullSafeHash(url, uriHash)
      ensures hs[2] == NullSafeHash(description, StringHashCode)
      ensures hs[3] == NullSafeHash(publishDate, dateHash)
    {
      [NullSafeHash(title, StringHashCode), NullSafeHash(url, uriHash),
       NullSafeHash(description, StringHashCode), NullSafeHash(publishDate, dateHash)]
    }

    /** The value `hashCode()` returns. `URI.hashCode` and `Date.hashCode` are parameters. */
    function HashValue(uriHash: Uri -> Int32, dateHash: Date -> Int32): (r: Int32)
      ensures r == WrapInt(PolySum(FieldHashes(uriHash, dateHash)))
    {
      HashFoldPolynomial(FieldHashes(uriHash, dateHash));
      HashFold(FieldHashes(uriHash, dateHash))
    }

    /** `hashCode()`, statement by statement: each line multiplies the running `int` by 31
        (wrapping) and adds the next field's hash, null counting as 0; `Combine` is that step. */
    method HashCode(uriHash: Uri -> Int32, dateHash: Date -> Int32) returns (result: Int32)
      ensures result == HashValue(uriHash, dateHash)
    {
      var t, u := NullSafeHash(title, StringHashCode), NullSafeHash(url, uriHash);
      var d, p := NullSafeHash(description, StringHashCode), NullSafeHash(publishDate, dateHash);
      result := t;
      result := Combine(result, u);
      result := Combine(result, d);
      result := Combine(result, p);
      HashFoldFour(t, u, d, p);
      assert FieldHashes(uriHash, dateHash) == [t, u, d, p];
    }

    /** `toString()`: Java's string concatenation renders a null field as "null" and a URI
        by its string form; `Date.toString` depends on the time zone and is a parameter. */
    function ToString(dateText: Date -> string): (r: string)
      ensures |r| > |TitlePrefix| && r[|r| - 1] == '}'
      ensures r[..|TitlePrefix|] == TitlePrefix
      ensures r[|TitlePrefix|..] == Show(title) + "'" + Rest(dateText)
    {
      var tail := Show(title) + "'" + Rest(dateText);
      assert tail[|tail| - 1] == '}';
      TitlePrefix + tail
    }

    /** Everything `toString()` writes after the title's closing quote. */
    function Rest(dateText: Date -> string): (r: string)
      ensures |r| > 0 && r[|r| - 1] == '}'
      ensures RestOf(r, ShowUri(url), Show(description), ShowDate(publishDate, dateText))
    {
      var u, d, p := ShowUri(url), Show(description), ShowDate(publishDate, dateText);
      RestShape(u, d, p);
      ", url=" + u + ", description='" + d + "'" + ", publishDate=" + p + "}"
    }
  }

  const TitlePrefix: string := "[JAVA] BlogPostJava{title='"

  /** A nullable string as string concatenation renders it. */
  function Show(s: Option<string>): string
  {
    if s.Some? then s.value else "null"
  }

  /** `r` is the tail of `toString()` for the rendered url `u`, description `d` and date `p`:
      ", url=", `u`, ", description='", `d`, a quote, ", publishDate=", `p`, then '}'. */
  predicate RestOf(r: string, u: string, d: string, p: string)
  {
    var i := 6 + |u|;
    var j := i + 15 + |d|;
    |r| == j + 1 + 14 + |p| + 1 &&
    r[..6] == ", url=" && r[6..i] == u &&
    r[i..i + 15] == ", description='" && r[i + 15..j] == d && r[j] == '\'' &&
    r[j + 1..j + 15] == ", publishDate=" && r[j + 15..|r| - 1] == p && r[|r| - 1] == '}'
  }

  /** Where the three fields end up in the tail of `toString()`. */
  lemma RestShape(u: string, d: string, p: string)
    ensures RestOf(", url=" + u + ", description='" + d + "'" + ", publishDate=" + p + "}", u, d, p)
  {
    var r := ", url=" + u + ", description='" + d + "'" + ", publishDate=" + p + "}";
    var i := 6 + |u|;
    assert r[6..i] == u;
  }

  /** A nullable `URI` as string concatenation renders it: by its string form. */
  function ShowUri(u: Option<Uri>): string
  {
    if u.Some? then u.value.text else "null"
  }

  /** A nullable `Date` as string concatenation renders it, `Date.toString` being given. */
  function ShowDate(d: Option<Date>, dateText: Date -> string): string
  {
    if d.Some? then dateText(d.value) else "null"
  }

  /** `equals` is reflexive. */
  lemma EqualsReflexive(a: BlogPostJava)
    ensures a.Equals(Post(a))
  {
  }

  /** `equals` is symmetric. */
  lemma EqualsSymmetric(a: BlogPostJava, b: BlogPostJava)
    ensures a.Equals(Post(b)) == b.Equals(Post(a))
  {
  }

  /** `equals` is transitive. */
  lemma EqualsTransitive(a: BlogPostJava, b: BlogPostJava, c: BlogPostJava)
    requires a.Equals(Post(b)) && b.Equals(Post(c))
    ensures a.Equals(Post(c))
  {
  }

  /** Equal objects have equal hash codes, whatever hashes `URI` and `Date` use. */
  lemma EqualsImpliesEqualHash(a: BlogPostJava, b: BlogPostJava,
                               uriHash: Uri -> Int32, dateHash: Date -> Int32)
    requires a.Equals(Post(b))
    ensures a.HashValue(uriHash, dateHash) == b.HashValue(uriHash, dateHash)
  {
    assert a.FieldHashes(uriHash, dateHash) == b.FieldHashes(uriHash, dateHash);
  }

  /** A title without a quote can be read back from `toString()`: it runs from the end of the
      fixed prefix to the first quote. */
  lemma ToStringTitle(a: BlogPostJava, dateText: Date -> string)
    requires a.title.Some? && '\'' !in a.title.value
    ensures Text.SplitFirst(a.ToString(dateText)[|TitlePrefix|..], '\'')
            == Some((a.title.value, a.Rest(dateText)))
  {
    assert Show(a.title) + "'" + a.Rest(dateText) == a.title.value + ['\''] + a.Rest(dateText);
    Text.SplitJoin(a.title.value, '\'', a.Rest(dateText));
  }

  /** The getters hand back the constructor's arguments; two posts built from the same
      arguments are distinct references yet equal, with equal hash codes. */
  method GettersSample(title: Option<string>, url: Option<Uri>, description: Option<string>,
                       publishDate: Option<Date>, uriHash: Uri -> Int32, dateHash: Date -> Int32)
    returns (gotTitle: Option<string>, gotUrl: Option<Uri>, gotDescription: Option<string>,
             gotDate: Option<Date>, equal: bool, sameHash: bool)
    ensures gotTitle == title && gotUrl == url
    ensures gotDescription == description && gotDate == publishDate
    ensures equal && sameHash
  {
    var a := new BlogPostJava(title, url, description, publishDate);
    var b := new BlogPostJava(title, url, description, publishDate);
    gotTitle, gotUrl, gotDescription, gotDate := a.title, a.url, a.description, a.publishDate;
    equal := a.Equals(Post(b));
    var ha := a.HashCode(uriHash, dateHash);
    var hb := b.HashCode(uriHash, dateHash);
    EqualsImpliesEqualHash(a, b, uriHash, dateHash);
    sameHash := ha == hb;
  }
}
