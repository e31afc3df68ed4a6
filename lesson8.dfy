/** `web/Lesson8.kt`: the `upperCaseFirstLetter` extension (declared there as an
    extension property and as an extension function with the same expression, and
    again in `web/StringUtils.kt` and as a local function in
    `KotlinFromScratch/Lesson6.kt`), and the `Color` enum with its packed `rgb()`
    and the `getMnemonic` lookup. */
module Lesson8 {
  import opened KotlinBase

  // ------------------------------------------------------ upperCaseFirstLetter

  /** `this.substring(0, 1).toUpperCase().plus(this.substring(1))`. */
  function UpperCaseFirstLetter(s: string): (r: Result<string>)
    ensures r.Throw? <==> s == []
    ensures r.Throw? ==> r.exception == StringIndexOutOfBoundsException
    ensures r.Ok? ==> |r.value| == |s| && r.value[0] == UpperChar(s[0]) && r.value[1..] == s[1..]
  {
    match Substring(s, 0, 1)
    case Throw(e) => Throw(e)
    case Ok(first) =>
      match SubstringFrom(s, 1)
      case Throw(e) => Throw(e)
      case Ok(rest) =>
        var r := UpperCase(first) + rest;
        assert r[1..] == rest;
        Ok(r)
  }

  /** Capitalising an already capitalised string changes nothing. */
  lemma UpperCaseFirstLetterIdempotent(s: string)
    requires s != []
    ensures UpperCaseFirstLetter(UpperCaseFirstLetter(s).value) == UpperCaseFirstLetter(s)
  {
    var once := UpperCaseFirstLetter(s).value;
    var twice := UpperCaseFirstLetter(once).value;
    assert twice[0] == once[0];
    HeadTailEqual(twice, once);
  }

  /** Two non-empty strings with the same first character and the same rest are equal. */
  lemma HeadTailEqual(a: string, b: string)
    requires |a| == |b| > 0 && a[0] == b[0] && a[1..] == b[1..]
    ensures a == b
  {
    assert a == [a[0]] + a[1..];
    assert b == [b[0]] + b[1..];
  }

  /** A string whose first character is no ASCII lower-case letter comes back as it is. */
  lemma UpperCaseFirstLetterKeeps(s: string)
    requires s != [] && !IsAsciiLower(s[0])
    ensures UpperCaseFirstLetter(s) == Ok(s)
  {
    HeadTailEqual(UpperCaseFirstLetter(s).value, s);
  }

  /** The outputs the lessons print: "John", "Doe", "Williams" unchanged, "john" → "John". */
  lemma UpperCaseFirstLetterSamples()
    ensures UpperCaseFirstLetter("John") == Ok("John")
    ensures UpperCaseFirstLetter("Doe") == Ok("Doe")
    ensures UpperCaseFirstLetter("Williams") == Ok("Williams")
    ensures UpperCaseFirstLetter("john") == Ok("John")
  {
    UpperCaseFirstLetterKeeps("John");
    UpperCaseFirstLetterKeeps("Doe");
    UpperCaseFirstLetterKeeps("Williams");
    var r := UpperCaseFirstLetter("john").value;
    assert r[0] == UpperChar('j') == 'J';
    assert r[1..] == "john"[1..] == "ohn";
    assert r == [r[0]] + r[1..] == ['J'] + "ohn" == "John";
  }

  // --------------------------------------------------------------------- Color

  datatype Color = RED | ORANGE | YELLOW | GREEN | BLUE | INDIGO | VIOLET

  /** The constructor arguments `(r, g, b)` of each constant. */
  function Components(c: Color): (rgb: (int, int, int))
    ensures 0 <= rgb.0 < 256 && 0 <= rgb.1 < 256 && 0 <= rgb.2 < 256
  {
    match c
    case RED => (255, 0, 0)
    case ORANGE => (255, 165, 0)
    case YELLOW => (255, 255, 0)
    case GREEN => (0, 255, 0)
    case BLUE => (0, 0, 255)
    case INDIGO => (75, 0, 130)
    case VIOLET => (238, 130, 238)
  }

  /** `(r * 256 + g) * 256 + b`. */
  function Pack(r: int, g: int, b: int): int { (r * 256 + g) * 256 + b }

  /** Three bytes pack into 24 bits and are read back with `/ 65536`, `/ 256 % 256`
      and `% 256`. */
  lemma PackRoundTrip(r: int, g: int, b: int)
    requires 0 <= r < 256 && 0 <= g < 256 && 0 <= b < 256
    ensures 0 <= Pack(r, g, b) < 0x100_0000
    ensures Pack(r, g, b) / 65536 == r
    ensures (Pack(r, g, b) / 256) % 256 == g
    ensures Pack(r, g, b) % 256 == b
  {
    var p := Pack(r, g, b);
    var hi := r * 256 + g;
    assert 0 <= hi < 65536;
    ModUnique(p, 256, hi, b);
    ModUnique(hi, 256, r, g);
    assert p == r * 65536 + (g * 256 + b);
    ModUnique(p, 65536, r, g * 256 + b);
  }

  /** `Color.rgb()`. Every product stays far inside `Int`, so no wrap-around occurs. */
  function Rgb(c: Color): (rgb: Int32)
    ensures 0 <= rgb < 0x100_0000
    ensures rgb / 65536 == Components(c).0
    ensures (rgb / 256) % 256 == Components(c).1
    ensures rgb % 256 == Components(c).2
  {
    var (r, g, b) := Components(c);
    PackRoundTrip(r, g, b);
    Pack(r, g, b)
  }

  /** Different constants have different packed colours. */
  lemma RgbInjective(c1: Color, c2: Color)
    requires Rgb(c1) == Rgb(c2)
    ensures c1 == c2
  {
    assert Components(c1) == Components(c2);
  }

  /** `getMnemonic`: one word of "Richard Of York Gave Battle In Vain" per colour. */
  function GetMnemonic(c: Color): (r: string)
    ensures |r| >= 2 && 'A' <= r[0] <= 'Z'
  {
    match c
    case RED => "Richard"
    case ORANGE => "Of"
    case YELLOW => "York"
    case GREEN => "Gave"
    case BLUE => "Battle"
    case INDIGO => "In"
    case VIOLET => "Vain"
  }

  /** The mnemonic tells the colours apart. */
  lemma GetMnemonicInjective(c1: Color, c2: Color)
    requires GetMnemonic(c1) == GetMnemonic(c2)
    ensures c1 == c2
  {
    var m1, m2 := GetMnemonic(c1), GetMnemonic(c2);
    assert |m1| == |m2| && m1[0] == m2[0] && m1[1] == m2[1];
  }

  /** INDIGO is (75, 0, 130) and its mnemonic is "In", with a capital I. */
  lemma IndigoSample()
    ensures Components(INDIGO) == (75, 0, 130)
    ensures Rgb(INDIGO) == 0x4B0082
    ensures GetMnemonic(INDIGO) == "In"
  {
  }
}
