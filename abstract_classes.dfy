/** The abstract class `Employee` and its concrete subclass `Programmer`. */
module AbstractClasses {
  import opened KotlinBase
  import Text

  /** `Employee(firstName, lastName)`; `Programmer` is the only concrete subclass. */
  datatype Employee = Programmer(firstName: string, lastName: string) {

    /** `val company = "Company SA"`: the same for every employee. */
    function Company(): (c: string)
      ensures c == "Company SA"
    {
      "Company SA"
    }

    /** `Programmer.earnings()`. */
    function Earnings(): (e: real)
      ensures e == 2000.0
    {
      2000.0
    }

    /** `fullName()`: the last name, a space, then the first name. */
    function FullName(): (r: string)
      ensures |r| == |lastName| + 1 + |firstName|
      ensures r[..|lastName|] == lastName && r[|lastName|] == ' ' && r[|lastName| + 1..] == firstName
    {
      lastName + " " + firstName
    }

    /** `Employee.email()`, the implementation `Programmer` overrides. */
    function BaseEmail(): (r: string)
      ensures |r| == |firstName| + 12
      ensures r[..|firstName|] == firstName && r[|firstName|..] == "@company.com"
    {
      firstName + "@company.com"
    }

    /** `email()` as dispatched on a `Programmer`: the override. */
    function Email(): (r: string)
      ensures |r| == |firstName| + 23
      ensures r[..|firstName|] == firstName && r[|firstName|..] == "_programing@company.com"
    {
      firstName + "_programing@company.com"
    }
  }

  /** A full name splits back at its first space into last and first name,
      when the last name has no space of its own. */
  lemma FullNameSplits(e: Employee)
    requires ' ' !in e.lastName
    ensures Text.SplitFirst(e.FullName(), ' ') == Some((e.lastName, e.firstName))
  {
    Text.SplitJoin(e.lastName, ' ', e.firstName);
  }

  /** The base e-mail splits at '@' into the first name and the company domain. */
  lemma BaseEmailSplits(e: Employee)
    requires '@' !in e.firstName
    ensures Text.SplitFirst(e.BaseEmail(), '@') == Some((e.firstName, "company.com"))
  {
    assert e.BaseEmail() == e.firstName + ['@'] + "company.com";
    Text.SplitJoin(e.firstName, '@', "company.com");
  }

  /** The override keeps the domain but changes the local part: an '@'-free first name is
      read back in front of "_programing". */
  lemma EmailOverrides(e: Employee)
    requires '@' !in e.firstName
    ensures Text.SplitFirst(e.Email(), '@') == Some((e.firstName + "_programing", "company.com"))
  {
    assert '@' !in "_programing";
    assert e.Email() == (e.firstName + "_programing") + ['@'] + "company.com";
    Text.SplitJoin(e.firstName + "_programing", '@', "company.com");
  }

  /** Whatever the first name, the override never coincides with the base e-mail. */
  lemma EmailDiffersFromBase(e: Employee)
    ensures e.Email() != e.BaseEmail()
  {
    assert |e.Email()| == |e.BaseEmail()| + 11;
  }

  /** `Programmer("John", "Doe")` prints "Doe John - Company SA - 2000.0$". */
  lemma ProgrammerSample()
    ensures Programmer("John", "Doe").FullName() == "Doe John"
    ensures Programmer("John", "Doe").Company() == "Company SA"
  {
    var e := Programmer("John", "Doe");
    assert e.FullName() == "Doe" + " " + "John";
  }
}
