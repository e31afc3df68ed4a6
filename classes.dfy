/** Classes with default arguments, custom accessors, secondary constructors,
    a companion-object counter and an `object` singleton. */
module Classes {
  import opened KotlinBase

  /** `class Serie(var title = "unknown title", var year = 0)`. */
  class Serie {
    var title: string
    var year: Int32

    constructor (title: string := "unknown title", year: Int32 := 0)
      ensures this.title == title && this.year == year
    {
      this.title := title;
      this.year := year;
    }
  }

  /** `class Person(val name = "John")` with computed `lastname` and `age` and a
      validating setter on `id`. */
  class Person {
    const name: string
    /** The backing field of `id`. */
    var id: string

    constructor (name: string := "John")
      ensures this.name == name && id == "X123456789"
    {
      this.name := name;
      id := "X123456789";
    }

    /** The custom getter of `lastname`. */
    function Lastname(): (r: string)
      ensures r == "Doe"
    {
      "Doe"
    }

    /** The custom getter of `age`. */
    function Age(): (r: Int32)
      ensures r == 30
    {
      30
    }

    /** The custom setter of `id`: an empty value is refused with an exception and the
        field keeps its old value; any other value is stored. */
    method SetId(value: string) returns (r: Result<()>)
      modifies this
      ensures value == [] ==> r == Throw(IllegalArgumentException(Some("id must not be empty")))
      ensures value == [] ==> id == old(id)
      ensures value != [] ==> r == Ok(()) && id == value
    {
      if value == [] {
        r := Throw(IllegalArgumentException(Some("id must not be empty")));
      } else {
        id := value;
        r := Ok(());
      }
    }
  }

  /** A client of `Person`: defaults, a refused empty id, then an accepted one. */
  method PersonSample() returns (name: string, lastname: string, age: Int32, failed: Result<()>,
                                 idAfterFailure: string, idAfterSuccess: string)
    ensures name == "John" && lastname == "Doe" && age == 30
    ensures failed.Throw? && failed.exception.IllegalArgumentException?
    ensures idAfterFailure == "X123456789" && idAfterSuccess == "Y1"
  {
    var p := new Person();
    name, lastname, age := p.name, p.Lastname(), p.Age();
    failed := p.SetId("");
    idAfterFailure := p.id;
    var ok := p.SetId("Y1");
    idAfterSuccess := p.id;
  }

  /** `class Motorcycle(val model, val plateNo)` with two secondary constructors, each
      delegating to the previous one and then assigning one more property. */
  class Motorcycle {
    const model: string
    const plateNo: string
    var isNew: Option<bool>
    var colour: string

    constructor (model: string, plateNo: string)
      ensures this.model == model && this.plateNo == plateNo
      ensures isNew == None && colour == ""
    {
      this.model := model;
      this.plateNo := plateNo;
      isNew := None;
      colour := "";
    }

    constructor WithNew(model: string, plateNo: string, isNew: bool)
      ensures this.model == model && this.plateNo == plateNo
      ensures this.isNew == Some(isNew) && colour == ""
    {
      this.model := model;
      this.plateNo := plateNo;
      this.isNew := None;
      colour := "";
      new;
      this.isNew := Some(isNew);
    }

    constructor WithNewAndColour(model: string, plateNo: string, isNew: bool, colour: string)
      ensures this.model == model && this.plateNo == plateNo
      ensures this.isNew == Some(isNew) && this.colour == colour
    {
      this.model := model;
      this.plateNo := plateNo;
      this.isNew := None;
      this.colour := "";
      new;
      this.isNew := Some(isNew);
      this.colour := colour;
    }
  }

  /** The companion object of `Food`: the one `count` all instances share. */
  class FoodCompanion {
    var count: Int32

    /** The state the companion starts in when the class is loaded. */
    constructor ()
      ensures count == 0
    {
      count := 0;
    }

    /** `Food.create(name, colour)`: builds a Food through the private constructor,
        whose `init` block bumps the counter by one. */
    method Create(name: string, colour: string) returns (f: Food)
      modifies this
      ensures fresh(f) && f.name == name && f.colour == colour
      ensures count == WrapInt(old(count) + 1)
    {
      f := new Food(this, name, colour);
    }
  }

  class Food {
    var name: string
    var colour: string

    /** The private primary constructor; its `init` block runs `count++` (an `Int`, so it wraps). */
    constructor (companion: FoodCompanion, name: string, colour: string)
      modifies companion
      ensures this.name == name && this.colour == colour
      ensures companion.count == WrapInt(old(companion.count) + 1)
    {
      this.name := name;
      this.colour := colour;
      new;
      companion.count := WrapInt(companion.count + 1);
    }
  }

  /** A client of `Food`: two creations from a fresh companion leave the count at 2,
      and the first instance keeps its own name and colour. */
  method FoodSample() returns (name: string, colour: string, count: Int32)
    ensures name == "Tomato" && colour == "Red" && count == 2
  {
    var companion := new FoodCompanion();
    var tomato := companion.Create("Tomato", "Red");
    var potato := companion.Create("Potato", "Brown");
    name, colour, count := tomato.name, tomato.colour, companion.count;
  }

  /** A client of `Serie` and `Motorcycle`: defaults and the three constructors. */
  method ConstructorsSample() returns (year: Int32, newA: Option<bool>, colourA: string,
                                       newB: Option<bool>, colourB: string,
                                       newC: Option<bool>, colourC: string)
    ensures year == 0
    ensures newA == None && colourA == ""
    ensures newB == Some(false) && colourB == ""
    ensures newC == Some(false) && colourC == "Green"
  {
    var serie := new Serie("Game of Thrones");
    var motoA := new Motorcycle("Honda CBR", "1224GHZ");
    var motoB := new Motorcycle.WithNew("Yamaha", "3333GTR", false);
    var motoC := new Motorcycle.WithNewAndColour("BMW", "1111GTR", false, "Green");
    year := serie.year;
    newA, colourA := motoA.isNew, motoA.colour;
    newB, colourB := motoB.isNew, motoB.colour;
    newC, colourC := motoC.isNew, motoC.colour;
  }

  /** `Singleton.nothing`. */
  const Nothing: string := "Nothing"

  /** `Singleton.returnSomething(s = "something")`: hands its argument back unchanged. */
  function ReturnSomething(s: string := "something"): (r: string)
    ensures r == s
  {
    s
  }

  /** Called without an argument (as `printSomething` does) it returns "something". */
  lemma ReturnSomethingDefault()
    ensures ReturnSomething() == "something"
    ensures ReturnSomething() != Nothing
  {
  }
}
