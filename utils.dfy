/**
 * The unit helper of Universal Gcode Sender: the length units a position or
 * command is expressed in, lookup of a unit by its abbreviation, and the
 * fixed table of factors that converts a length from one unit to another.
 */
module Utils {
  import opened Wrappers

  /** The length units, in their declaration order MM, INCH, UNKNOWN. */
  datatype Units = Mm | Inch | Unknown {

    /** The abbreviation each unit carries: "mm", a double quote, and the empty string. */
    function Abbreviation(): string
    {
      match this
      case Mm => "mm"
      case Inch => "\""
      case Unknown => ""
    }

    /**
     * Finds a unit by its abbreviation: walks the units in declaration order
     * and returns the first whose abbreviation equals `abbrev`.
     */
    static method GetUnit(abbrev: string) returns (r: Option<Units>)
      ensures r == UnitFor(abbrev)
      ensures r.Some? ==> r.value.Abbreviation() == abbrev
    {
      var i := 0;
      while i < |Values|
        invariant 0 <= i <= |Values|
        invariant forall j :: 0 <= j < i ==> Values[j].Abbreviation() != abbrev
      {
        if Values[i].Abbreviation() == abbrev {
          return Some(Values[i]);
        }
        i := i + 1;
      }
      return None;
    }
  }

  /** The units as the enum's `values()` lists them: in declaration order. */
  const Values: seq<Units> := [Mm, Inch, Unknown]

  /** Every unit appears in `Values`, exactly once, and no two carry the same abbreviation. */
  lemma ValuesAreAllUnits()
    ensures forall u: Units :: u in Values
    ensures forall i, j :: 0 <= i < j < |Values| ==> Values[i] != Values[j]
    ensures forall i, j :: 0 <= i < j < |Values| ==> Values[i].Abbreviation() != Values[j].Abbreviation()
  {
    forall u: Units ensures u in Values {
      assert Values[Ordinal(u)] == u;
    }
  }

  /** The position of `u` in declaration order (Java's `ordinal()`). */
  function Ordinal(u: Units): (i: nat)
    ensures i < |Values| && Values[i] == u
  {
    match u
    case Mm => 0
    case Inch => 1
    case Unknown => 2
  }

  /** A unit is determined by its abbreviation. */
  lemma AbbreviationInjective(u: Units, v: Units)
    ensures u.Abbreviation() == v.Abbreviation() <==> u == v
  {
  }

  /** Since `Values` lists every unit, a string no element of `Values` carries is no unit's abbreviation. */
  lemma NoneOfValuesMatches(abbrev: string)
    requires forall j :: 0 <= j < |Values| ==> Values[j].Abbreviation() != abbrev
    ensures forall u: Units :: u.Abbreviation() != abbrev
  {
    forall u: Units ensures u.Abbreviation() != abbrev {
      assert Values[Ordinal(u)] == u;
    }
  }

  // ---------------------------------------------------------------------
  // Lookup by abbreviation
  // ---------------------------------------------------------------------

  /**
   * The position of the first unit of `units` whose abbreviation equals
   * `abbrev` exactly, or `|units|` when none does.
   */
  function FirstMatchIndex(units: seq<Units>, abbrev: string): (k: nat)
    ensures k <= |units|
    ensures k < |units| ==> units[k].Abbreviation() == abbrev
    ensures forall j :: 0 <= j < k ==> units[j].Abbreviation() != abbrev
  {
    if units == [] then 0
    else if units[0].Abbreviation() == abbrev then 0
    else 1 + FirstMatchIndex(units[1..], abbrev)
  }

  /**
   * What the lookup returns: the first unit in declaration order whose
   * abbreviation equals `abbrev`, or None (Java's null) when no unit matches.
   */
  function UnitFor(abbrev: string): (r: Option<Units>)
    ensures r.None? <==> forall u: Units :: u.Abbreviation() != abbrev
    ensures r.Some? ==> r.value.Abbreviation() == abbrev
  {
    var k := FirstMatchIndex(Values, abbrev);
    if k < |Values| then Some(Values[k])
    else
      NoneOfValuesMatches(abbrev);
      None
  }

  /** Lookup and abbreviation are inverse: the lookup of `s` yields `u` exactly when `s` is `u`'s abbreviation. */
  lemma UnitForRoundTrip(u: Units, s: string)
    ensures UnitFor(s) == Some(u) <==> s == u.Abbreviation()
  {
  }

  /** The lookup finds nothing exactly when `s` is none of "mm", a double quote and "". */
  lemma UnitForNoneIff(s: string)
    ensures UnitFor(s) == None <==> s != "mm" && s != "\"" && s != ""
  {
    assert Mm.Abbreviation() == "mm" && Inch.Abbreviation() == "\"" && Unknown.Abbreviation() == "";
  }

  // ---------------------------------------------------------------------
  // Conversion factors
  // ---------------------------------------------------------------------

  /** Millimetres in one inch. */
  const MmPerInch: real := 25.4

  /**
   * The `case INCH:` arm of the outer switch: Some(f) when it returns f,
   * None when its inner `default` breaks and control runs off the end of
   * the outer switch.
   */
  function InchArm(to: Units): Option<real>
  {
    match to
    case Mm => Some(25.4)
    case Inch => Some(1.0)
    case Unknown => None
  }

  /**
   * The `case MM:` arm of the outer switch. Its inner `default` only breaks
   * the inner switch, so control falls through into the `case INCH:` arm.
   */
  function MmArm(to: Units): Option<real>
  {
    match to
    case Mm => Some(1.0)
    case Inch => Some(1.0 / MmPerInch)
    case Unknown => InchArm(to)
  }

  /**
   * The factor by which a length in unit `from` is multiplied to express it
   * in unit `to`. When the outer switch returns nothing, the method returns
   * the fallback 1.0.
   */
  function ScaleUnits(from: Units, to: Units): (factor: real)
    ensures from == to ==> factor == 1.0
    ensures from == Unknown || to == Unknown ==> factor == 1.0
    ensures from == Mm && to == Inch ==> factor * MmPerInch == 1.0
    ensures from == Inch && to == Mm ==> factor == MmPerInch
    ensures factor > 0.0
  {
    var arm := match from
      case Mm => MmArm(to)
      case Inch => InchArm(to)
      case Unknown => None;
    arm.GetOr(1.0)
  }

  /** Every factor the table can give is 1, 25.4 or 1/25.4. */
  lemma ScaleUnitsRange(from: Units, to: Units)
    ensures ScaleUnits(from, to) in {1.0, MmPerInch, 1.0 / MmPerInch}
  {
  }

  /**
   * Converting there and back multiplies by exactly 1: between MM and INCH
   * because 25.4 and 1/25.4 are reciprocal, and for pairs with Unknown
   * because both factors are the 1.0 fallback.
   */
  lemma ScaleUnitsReciprocal(a: Units, b: Units)
    ensures ScaleUnits(a, b) * ScaleUnits(b, a) == 1.0
  {
  }

  /** Between known units, converting in two steps is converting in one. */
  lemma ScaleUnitsCompose(a: Units, b: Units, c: Units)
    requires a != Unknown && b != Unknown && c != Unknown
    ensures ScaleUnits(a, b) * ScaleUnits(b, c) == ScaleUnits(a, c)
  {
  }

  /**
   * Composition fails once Unknown is the intermediate unit between two
   * different known units: MM to UNKNOWN to INCH gives 1, not 1/25.4, and
   * INCH to UNKNOWN to MM gives 1, not 25.4.
   */
  lemma ScaleUnitsComposeThroughUnknown(a: Units, c: Units)
    requires a != Unknown && c != Unknown && a != c
    ensures ScaleUnits(a, Unknown) * ScaleUnits(Unknown, c) != ScaleUnits(a, c)
  {
  }
}
