/** The classes of `ProgrammingKotlin/Chapter3.kt` (copied verbatim in
    `book/Chapter3.kt`): a person validated in its `init` block, a person whose
    name is assembled in `init`, and the `Document` interface with default members. */
module Chapter3 {
  import opened KotlinBase
  import Text

  // ---------------------------------------------------- PersonWithValidation

  datatype PersonWithValidation = PersonWithValidation(firstName: string, lastName: string, age: Option<Int32>)

  /** The primary constructor: `require(firstName.trim().isNotEmpty())`,
      `require(lastName.trim().isNotEmpty())` and, for a non-null age,
      `require(age in 0..149)`, checked in that order. */
  function NewPersonWithValidation(firstName: string, lastName: string, age: Option<Int32>)
    : (r: Result<PersonWithValidation>)
    ensures r.Ok? <==> !IsBlank(firstName) && !IsBlank(lastName) && (age.Some? ==> 0 <= age.value <= 149)
    ensures r.Ok? ==> r.value == PersonWithValidation(firstName, lastName, age)
    ensures IsBlank(firstName) ==> r == Throw(IllegalArgumentException(Some("Invalid firstName argument.")))
    ensures !IsBlank(firstName) && IsBlank(lastName)
      ==> r == Throw(IllegalArgumentException(Some("Invalid lastName argument.")))
    ensures !IsBlank(firstName) && !IsBlank(lastName) && r.Throw?
      ==> r == Throw(IllegalArgumentException(Some("Invalid age argument.")))
  {
    TrimNotEmptyIffNotBlank(firstName);
    TrimNotEmptyIffNotBlank(lastName);
    if !(|Trim(firstName)| != 0) then Throw(IllegalArgumentException(Some("Invalid firstName argument.")))
    else if !(|Trim(lastName)| != 0) then Throw(IllegalArgumentException(Some("Invalid lastName argument.")))
    else if age.Some? && !(0 <= age.value <= 149) then Throw(IllegalArgumentException(Some("Invalid age argument.")))
    else Ok(PersonWithValidation(firstName, lastName, age))
  }

  /** The secondary constructor `constructor(firstName, lastName) : this(firstName, lastName, null)`:
      only the two name checks remain. */
  function NewPersonWithoutAge(firstName: string, lastName: string): (r: Result<PersonWithValidation>)
    ensures r.Ok? <==> !IsBlank(firstName) && !IsBlank(lastName)
    ensures r.Ok? ==> r.value.age == None
  {
    NewPersonWithValidation(firstName, lastName, None)
  }

  /** `PersonWithValidation("John", "Doe")`, through the secondary constructor, is accepted. */
  lemma PersonWithoutAgeSample()
    ensures NewPersonWithoutAge("John", "Doe") == Ok(PersonWithValidation("John", "Doe", None))
  {
    assert !IsBlank("John") by { assert !IsWhitespace("John"[0]); }
    assert !IsBlank("Doe") by { assert !IsWhitespace("Doe"[0]); }
  }

  /** `PersonWithValidation("Will", "Smith", 45)` is accepted. */
  lemma PersonWithAgeSample()
    ensures NewPersonWithValidation("Will", "Smith", Some(45)) == Ok(PersonWithValidation("Will", "Smith", Some(45)))
  {
    assert !IsBlank("Will") by { assert !IsWhitespace("Will"[0]); }
    assert !IsBlank("Smith") by { assert !IsWhitespace("Smith"[0]); }
  }

  /** A first name of blanks only fails the first check, whatever follows. */
  lemma BlankNameSample()
    ensures NewPersonWithValidation(" \t", "Smith", Some(200))
      == Throw(IllegalArgumentException(Some("Invalid firstName argument.")))
  {
    assert IsBlank(" \t");
  }

  // ------------------------------------------------------------------ Person2

  /** `Person2`: `name` and `age` are private properties set in `init`. */
  datatype Person2 = Person2(name: string, age: Option<Int32>)

  /** The constructor and its `init`: `name = "$firstName,$lastName"`, `age = howOld`. */
  function NewPerson2(firstName: string, lastName: string, howOld: Option<Int32>): (r: Person2)
    ensures r.age == howOld
    ensures |r.name| == |firstName| + 1 + |lastName|
    ensures r.name[..|firstName|] == firstName && r.name[|firstName|] == ','
    ensures r.name[|firstName| + 1..] == lastName
  {
    Person2(firstName + "," + lastName, howOld)
  }

  /** `getName()`. */
  function GetName(p: Person2): string { p.name }

  /** The name keeps both parts: a first name without a comma is recovered by splitting
      at the first comma. */
  lemma GetNameSplits(firstName: string, lastName: string, howOld: Option<Int32>)
    requires ',' !in firstName
    ensures Text.SplitFirst(GetName(NewPerson2(firstName, lastName, howOld)), ',') == Some((firstName, lastName))
  {
    Text.SplitJoin(firstName, ',', lastName);
  }

  lemma GetNameSample()
    ensures GetName(NewPerson2("John", "Doe", None)) == "John,Doe"
  {
  }

  // ----------------------------------------------------------------- Document

  /** A `Document`: the interface's abstract `version` and `size`, and its `name`. */
  datatype Document = Document(name: string, size: Int64, version: Int64)

  /** The interface default of `name`. */
  const DefaultDocumentName := "NoName"

  /** `DocumentImpl`: overrides `size` and `version` with 0 and keeps the default name. */
  function DocumentImpl(): (d: Document)
    ensures d.name == DefaultDocumentName && d.size == 0 && d.version == 0
  {
    Document(DefaultDocumentName, 0, 0)
  }

  /** The default `getDescription()`: `"Document $name has $size byte(-s)"`. */
  function GetDescription(d: Document): (r: string)
    ensures |r| > 9 + |d.name| && r[..9 + |d.name|] == "Document " + d.name
    ensures r[9 + |d.name|..] == " has " + IntToString(d.size) + " byte(-s)"
  {
    var r := "Document " + d.name + " has " + IntToString(d.size) + " byte(-s)";
    assert r[..9 + |d.name|] == "Document " + d.name;
    r
  }

  lemma DocumentImplDescription()
    ensures GetDescription(DocumentImpl()) == "Document NoName has 0 byte(-s)"
  {
    assert IntToString(0) == "0";
  }
}
