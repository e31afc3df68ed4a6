/** Null safety in `Chapter7.kt` (copied verbatim in the ProgrammingKotlinBook
    directory): a chain of nullable references walked with nested `if`s and with
    safe calls, elvis defaults and a default constructor argument. Kotlin's
    `null` is `None`. */
module Chapter7 {
  import opened KotlinBase

  /** `class Country(val name: String = "No country")`. */
  datatype Country = Country(name: string)
  /** `class City(name: String, val country: Country?)`: only `country` is a property. */
  datatype City = City(country: Option<Country>)
  /** `class Address(name: String, postcode: String, val city: City?)`. */
  datatype Address = Address(city: Option<City>)
  /** `class Person(name: String, val address: Address?)`. */
  datatype Person = Person(address: Option<Address>)

  /** `Country()` and `Country::class.createInstance()`: the default argument. */
  function DefaultCountry(): (c: Country)
    ensures c.name == "No country"
  {
    Country("No country")
  }

  /** Every link from the person to the country is present. */
  predicate ChainComplete(person: Option<Person>)
  {
    && person.Some?
    && person.value.address.Some?
    && person.value.address.value.city.Some?
    && person.value.address.value.city.value.country.Some?
  }

  /** `person?.address?.city?.country?.name`. */
  function GetCountryNameSafe(person: Option<Person>): (r: Option<string>)
    ensures r.Some? <==> ChainComplete(person)
    ensures r.Some? ==> r.value == person.value.address.value.city.value.country.value.name
  {
    match person
    case None => None
    case Some(p) =>
      match p.address
      case None => None
      case Some(address) =>
        match address.city
        case None => None
        case Some(city) =>
          match city.country
          case None => None
          case Some(country) => Some(country.name)
  }

  /** `getCountryName`: a `var` that starts as null and is assigned only inside four
      nested null checks. */
  method GetCountryName(person: Option<Person>) returns (countryName: Option<string>)
    ensures countryName == GetCountryNameSafe(person)
    ensures countryName.None? <==> !ChainComplete(person)
  {
    countryName := None;
    if person.Some? {
      var address := person.value.address;
      if address.Some? {
        var city := address.value.city;
        if city.Some? {
          var country := city.value.country;
          if country.Some? {
            countryName := Some(country.value.name);
          }
        }
      }
    }
  }

  lemma CountryNameSamples()
    ensures GetCountryNameSafe(Some(Person(Some(Address(Some(City(Some(DefaultCountry()))))))))
      == Some("No country")
    ensures GetCountryNameSafe(Some(Person(Some(Address(Some(City(None))))))) == None
  {
  }

  /** `name?.length ?: -1`. */
  function ElvisLength(name: Option<string>): (r: int)
    ensures r >= -1
    ensures r == -1 <==> name.None?
    ensures name.Some? ==> r == |name.value|
  {
    match name
    case Some(s) => |s|
    case None => -1
  }

  /** `if (name != null) name.length else -1`. */
  function IfLength(name: Option<string>): (r: int)
    ensures r == ElvisLength(name)
  {
    if name.Some? then |name.value| else -1
  }

  /** `getNotNullName() = name ?: "John"`: never null. */
  function GetNotNullName(name: Option<string>): (r: string)
    ensures name.Some? ==> r == name.value
    ensures name.None? ==> r == "John"
  {
    match name
    case Some(s) => s
    case None => "John"
  }
}
