/** `Student` and its subclass `GraduateStudent`, whose secondary constructor
    assigns `country` after the primary constructor has run. */
module Inheritance {
  import opened KotlinBase
  import Text

  /** `Student.schoolFees()`. */
  function StudentSchoolFees(): (fees: real)
    ensures fees == 0.0
  {
    0.0
  }

  class GraduateStudent {
    const firstName: string
    const lastName: string
    var country: string

    /** The primary constructor: `country` keeps its initialiser "". */
    constructor (firstName: string, lastName: string)
      ensures this.firstName == firstName && this.lastName == lastName
      ensures country == ""
    {
      this.firstName := firstName;
      this.lastName := lastName;
      country := "";
    }

    /** The secondary constructor: delegates to the primary one, then stores `country`
        (defaulting to "USA"). */
    constructor WithCountry(firstName: string, lastName: string, country: string := "USA")
      ensures this.firstName == firstName && this.lastName == lastName
      ensures this.country == country
    {
      this.firstName := firstName;
      this.lastName := lastName;
      this.country := "";
      new;
      this.country := country;
    }

    /** `schoolFees()`: the inherited fees plus the private `calculateSchoolFees()` (0.0). */
    function SchoolFees(): (fees: real)
      ensures fees == StudentSchoolFees()
    {
      StudentSchoolFees() + 0.0
    }

    /** `name()`: the first name, a space, then the last name. */
    function Name(): (r: string)
      ensures |r| == |firstName| + 1 + |lastName|
      ensures r[..|firstName|] == firstName && r[|firstName|] == ' ' && r[|firstName| + 1..] == lastName
    {
      firstName + " " + lastName
    }
  }

  /** A name splits back at its first space when the first name has none. */
  lemma NameSplits(s: GraduateStudent)
    requires ' ' !in s.firstName
    ensures Text.SplitFirst(s.Name(), ' ') == Some((s.firstName, s.lastName))
  {
    Text.SplitJoin(s.firstName, ' ', s.lastName);
  }

  /** The two graduates of the sample program: the named two-argument call resolves to the
      primary constructor, so its country is empty; the three-argument call stores "USA". */
  method GraduatesSample() returns (nameA: string, countryA: string, nameB: string, countryB: string)
    ensures nameA == "John Doe" && countryA == ""
    ensures nameB == "Robert Downey Jr." && countryB == "USA"
  {
    var a := new GraduateStudent("John", "Doe");
    var b := new GraduateStudent.WithCountry("Robert", "Downey Jr.", "USA");
    nameA, countryA := a.Name(), a.country;
    nameB, countryB := b.Name(), b.country;
  }
}
