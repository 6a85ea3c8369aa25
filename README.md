# Universal Gcode Sender: length units and their conversion factors

This project models the unit helper of Universal Gcode Sender
(`ugs-core/src/com/willwinder/universalgcodesender/model/Utils.java`), a
desktop program that streams G-code to CNC controllers. The helper defines
the length units used for positions and commands, looks a unit up by its
abbreviation, and gives the factor that converts a length from one unit to
another.

- `wrappers.dfy`: module `Wrappers`, an `Option` datatype. `None` plays the part of the Java `null` that `getUnit` returns.
- `utils.dfy`: module `Utils`.
  - The `Units` datatype has the three constants `Mm`, `Inch` and `Unknown`, listed in the enum's declaration order by `Values`.
  - Their abbreviations are `"mm"`, a double quote and the empty string.
  - `Units.GetUnit`, a static method of the enum as in the source, is the imperative lookup: a `while` loop over `Values` with an early return, like the source's `for` loop. It is proved against the specification function `UnitFor`, which is built on the recursive first-match search `FirstMatchIndex`.
  - `ScaleUnits` is the conversion factor table.

`ScaleUnits` follows the source's nested `switch` branch by branch, fall-through included:
- `MmArm` models the case `MM` arm and `InchArm` models the case `INCH` arm.
- Each arm gives `Some(f)` when it returns `f`. It gives `None` when control breaks out of the outer switch.
- The inner `default: break` of the `MM` arm only leaves the inner switch. So `MmArm(Unknown)` falls through into `InchArm(Unknown)`. Control then runs off the switch and reaches the final `return 1.0`.

Factors are exact `real` numbers. `25.4` and `1.0 / 25.4` are exact rationals, so the reciprocity and composition laws hold exactly.

## Model

| member | source | states |
|---|---|---|
| `Utils.ValuesAreAllUnits` | ugs-core/src/com/willwinder/universalgcodesender/model/Utils.java:26-29 | `values()` lists each of the three units exactly once, and no two of the three abbreviations are equal |
| `Utils.AbbreviationInjective` | ugs-core/src/com/willwinder/universalgcodesender/model/Utils.java:27-29 | two units have the same abbreviation if and only if they are the same unit |
| `Utils.Ordinal` | ugs-core/src/com/willwinder/universalgcodesender/model/Utils.java:27-29 | every unit sits at a position of `values()` in declaration order |
| `Utils.NoneOfValuesMatches` | ugs-core/src/com/willwinder/universalgcodesender/model/Utils.java:38-43 | a string that no element of `values()` carries is the abbreviation of no unit at all |
| `Utils.FirstMatchIndex` | ugs-core/src/com/willwinder/universalgcodesender/model/Utils.java:38-42 | the index found is the first position whose abbreviation equals the argument exactly; every earlier unit differs; the index is past the end only when no unit matches |
| `Utils.UnitFor` | ugs-core/src/com/willwinder/universalgcodesender/model/Utils.java:37-44 | the lookup gives null exactly when no unit has the given abbreviation; otherwise the unit it gives has that abbreviation |
| `Utils.Units.GetUnit` | ugs-core/src/com/willwinder/universalgcodesender/model/Utils.java:37-44 | the declaration-order loop returns exactly the first-match lookup `UnitFor`, so it returns a unit whose abbreviation matches, or null when none does |
| `Utils.UnitForRoundTrip` | ugs-core/src/com/willwinder/universalgcodesender/model/Utils.java:27-44 | looking up `s` yields unit `u` if and only if `s` is `u`'s abbreviation; in particular `getUnit(u.abbreviation) == u` for every unit |
| `Utils.UnitForNoneIff` | ugs-core/src/com/willwinder/universalgcodesender/model/Utils.java:38-43 | the lookup returns null if and only if the string is none of "mm", a double quote and "" |
| `Utils.ScaleUnits` | ugs-core/src/com/willwinder/universalgcodesender/model/Utils.java:47-66 | the factor is 1 from a unit to itself; it is 1 whenever either unit is UNKNOWN, MM to UNKNOWN included through the fall-through; MM to INCH times 25.4 is 1; INCH to MM is 25.4; every factor is positive |
| `Utils.ScaleUnitsRange` | ugs-core/src/com/willwinder/universalgcodesender/model/Utils.java:47-66 | every factor is one of 1, 25.4 and 1/25.4 |
| `Utils.ScaleUnitsReciprocal` | ugs-core/src/com/willwinder/universalgcodesender/model/Utils.java:47-66 | for every pair of units, the factor there times the factor back is exactly 1: reciprocal factors between MM and INCH, two 1.0 fallbacks when UNKNOWN is involved |
| `Utils.ScaleUnitsCompose` | ugs-core/src/com/willwinder/universalgcodesender/model/Utils.java:50-61 | between known units, the factor from a to b times the factor from b to c is the factor from a to c |
| `Utils.ScaleUnitsComposeThroughUnknown` | ugs-core/src/com/willwinder/universalgcodesender/model/Utils.java:52-65 | for any two different known units, going through UNKNOWN gives 1, which differs from the direct factor (1/25.4 or 25.4), so composition breaks once UNKNOWN is the intermediate unit |

## Left out

- `MainWindow.java` and `ExperimentalWindow.java`: Swing window construction, menus, dialogs, look-and-feel, settings load and save, key-binding remapping and start-up on the event thread. This is user-interface and I/O glue with no logic of its own to state.
- The controller, backend, command and position types that those files import (`GrblController`, `GUIBackend`, `GcodeCommand`, `Position`) lie outside the unit helper and are not modelled.
- `Utils.Units.GetUnit` takes a non-null string. In Java, `getUnit(null)` also returns null, because `equals(null)` is false for every abbreviation. Dafny strings cannot be null, so that call is not represented.
- `Utils.ScaleUnits` takes non-null units. In Java, `scaleUnits(null, to)` throws a `NullPointerException` when it switches on `from`. `scaleUnits(MM, null)` throws the same way in the inner switch. Those calls are not represented.
- IEEE-754 double rounding: the factors are exact reals. In Java, `25.4 * (1.0 / 25.4)` need not be exactly 1.0, so the reciprocity and composition laws are proved for exact arithmetic only. No claim is made about bit-exact double results.
- String equality is modelled as equality of character sequences. Java compares UTF-16 code units; for the three abbreviations, which are ASCII, the two agree.
