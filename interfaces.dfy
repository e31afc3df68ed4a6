/** The `Vehicle` interface's default `getColor(r, g, b)` and the `Car` class that implements it. */
module Interfaces {
  import opened KotlinBase

  /** The four colour names `getColor(r, g, b)` can answer. */
  predicate IsColorName(s: string) {
    s == "RED" || s == "GREEN" || s == "BLUE" || s == "WHITE"
  }

  /** `Vehicle.getColor(r, g, b)`: the pure primaries get their names, every other
      triple (out-of-range components included) is "WHITE". */
  function GetColor(r: Int32, g: Int32, b: Int32): (name: string)
    ensures IsColorName(name)
    ensures name == "RED" <==> r == 255 && g == 0 && b == 0
    ensures name == "GREEN" <==> r == 0 && g == 255 && b == 0
    ensures name == "BLUE" <==> r == 0 && g == 0 && b == 255
    ensures name == "WHITE" <==> !((r, g, b) in {(255, 0, 0), (0, 255, 0), (0, 0, 255)})
  {
    if r == 255 && g == 0 && b == 0 then "RED"
    else if r == 0 && g == 255 && b == 0 then "GREEN"
    else if r == 0 && g == 0 && b == 255 then "BLUE"
    else "WHITE"
  }

  /** Two triples share a colour name only when both are WHITE or they are the same triple. */
  lemma GetColorInjectiveOnPrimaries(r: Int32, g: Int32, b: Int32, r2: Int32, g2: Int32, b2: Int32)
    requires GetColor(r, g, b) == GetColor(r2, g2, b2)
    ensures GetColor(r, g, b) == "WHITE" || (r, g, b) == (r2, g2, b2)
  {
  }

  /** `Car` implements `Vehicle` and `Electric`; it keeps no state of its own. */
  datatype Car = Car {
    /** `override val new = true` */
    function IsNew(): (r: bool)
      ensures r
    {
      true
    }

    function GetBrand(): (brand: string)
      ensures brand == "Circle"
    {
      "Circle"
    }

    /** The argument-less `getColor()` Car overrides. */
    function GetColorName(): (name: string)
      ensures name == "Blue"
    {
      "Blue"
    }

    /** The three-argument `getColor` is inherited unchanged from `Vehicle`. */
    function GetColorOf(r: Int32, g: Int32, b: Int32): (name: string)
      ensures name == GetColor(r, g, b)
    {
      GetColor(r, g, b)
    }
  }

  /** `Car().getColor(255, 0, 0)` prints RED; a Car is new, of brand "Circle", coloured "Blue". */
  lemma CarSample()
    ensures Car().GetColorOf(255, 0, 0) == "RED"
    ensures Car().IsNew() && Car().GetBrand() == "Circle" && Car().GetColorName() == "Blue"
    ensures Car().GetColorOf(0, 0, 255) == "BLUE" && Car().GetColorOf(256, 0, 0) == "WHITE"
  {
  }
}
