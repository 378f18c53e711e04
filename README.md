# Unit Converter: conversion table and session history

A Dafny model of the logic inside the Streamlit Unit Converter app
(`main.py`). The app converts a non-negative number between units of one
category (Length, Weight, Temperature, Speed, Time, Volume, Pressure) and
keeps a per-session history of conversions that can be shown, hidden and
cleared.

- `conversion.dfy`, module `Conversion` (pure): the units offered per
  category (`UnitOptions`), the nested factor table (`Conversions`, one
  constant per category row), and the conversion itself. The table has no
  Temperature row, so a Temperature conversion fails with
  `UnknownCategory`; this models the lookup error the app raises. It does
  not produce a wrong number. The selected category is an explicit
  argument here, where the app reads it from a global. Lookups fail in the
  order the expression performs them: the category, then the `from` unit,
  then the `to` unit. Factors are exact `real`s (`1/60` is `1.0 / 60.0`).
- `history.dfy`, module `History` (imperative): class `Session` holds the
  `history` sequence and the `showHistory` flag. Its methods are the four
  buttons. Convert appends one entry. Show History flips the flag. Clear
  History empties the list. `Shown` is the loop that renders the newest
  five entries, newest first, numbered from 1. Each method's contract
  states the whole new state. The specification functions `LastN`,
  `Reversed`, `Numbered` and `View` follow the source's
  `history[-5:][::-1]` with `enumerate(..., 1)`.

The factor table gives, for each unit, how many of that unit make one base
unit: `Kilometer` is 0.001 and `Centimeter` is 100. The source's formula
`value * f[from] / f[to]` divides where it should multiply, so it converts
backwards (see Findings). `Conversion.ConvertAsWritten` models the
formula as written. `Conversion.Convert` is the corrected conversion,
`value * f[to] / f[from]`, and the rest of the model uses it. Identity,
composition, round trip, linearity and monotonicity are proved for both
formulas. For the formula as written, composition has a proof of its own,
because swapping the units of a chain reverses it. The other four laws
follow through `AsWrittenSwapsUnits`.

## Model

| member | source | states |
|---|---|---|
| `Conversion.Convert` | main.py:144-154 | Succeeds exactly when both units have a factor in the category. On success the result, measured in the category's base unit, equals the input measured in the base unit. Otherwise it fails with the first missing key: the category, then `from`, then `to`. |
| `Conversion.ConvertAsWritten` | main.py:154 | The formula as written succeeds under the same conditions. Its result measured as if it were in `from` equals the input measured as if it were in `to`, so the units are swapped. |
| `Conversion.AsWrittenSwapsUnits` | main.py:154 | The formula as written equals the corrected conversion with `from` and `to` exchanged. |
| `Conversion.AsWrittenKilometerToMeter` | main.py:146-154 | As written, 1 Kilometer converts to 0.001 Meter. The corrected conversion gives 1000 Meter. |
| `Conversion.KilogramToPound` | main.py:147-154 | 2 Kilogram converts to 4.40924 Pound. |
| `Conversion.Categories` | main.py:119 | Definition: the seven categories in selector order. Characterised by `CategoriesWithFactors`. |
| `Conversion.UnitOptions` | main.py:126-134 | Definition: the units offered for each category, Temperature included. Characterised by `TableValid` and `OfferedUnitsAreKnown`. |
| `Conversion.Conversions` | main.py:145-152 | Definition: the factor table keyed by category, with no Temperature row. Characterised by `TableValid`, `FactorPositive` and `CategoriesWithFactors`. |
| `Conversion.LengthFactors` | main.py:146 | Definition: the Length row of the factor table. Characterised by `LengthTable`. |
| `Conversion.WeightFactors` | main.py:147 | Definition: the Weight row of the factor table. Characterised by `WeightTable`. |
| `Conversion.SpeedFactors` | main.py:148 | Definition: the Speed row of the factor table. Characterised by `SpeedTable`. |
| `Conversion.TimeFactors` | main.py:149 | Definition: the Time row of the factor table, with `1/60`, `1/3600` and `1/86400` kept as exact fractions. Characterised by `TimeTable`. |
| `Conversion.VolumeFactors` | main.py:150 | Definition: the Volume row of the factor table. Characterised by `VolumeTable`. |
| `Conversion.PressureFactors` | main.py:151 | Definition: the Pressure row of the factor table. Characterised by `PressureTable`. |
| `Conversion.TableValid` | main.py:126-152 | For each category in the table, every factor is strictly positive, and its units are exactly the units offered for that category. |
| `Conversion.FactorPositive` | main.py:145-152 | Every factor in the table is strictly positive. |
| `Conversion.CategoriesWithFactors` | main.py:119-152 | Every category is offered by the selector. A category has a factor row exactly when it is not Temperature. |
| `Conversion.OfferedUnitsAreKnown` | main.py:126-152 | Outside Temperature, a unit is offered for the category exactly when the table has a factor for it. |
| `Conversion.OfferedConversionSucceeds` | main.py:126-154 | A conversion between two offered units fails exactly when the category is Temperature. |
| `Conversion.TemperatureFails` | main.py:129-154 | Every Temperature conversion, corrected or as written, fails with `UnknownCategory(Temperature)` and gives no number. |
| `Conversion.ConvertIdentity` | main.py:154 | Converting a known unit to itself returns the input exactly. |
| `Conversion.ConvertCompose` | main.py:154 | Converting u1 to u2 and then u2 to u3 equals converting u1 to u3. |
| `Conversion.ConvertRoundTrip` | main.py:154 | Converting there and back returns the input. |
| `Conversion.ConvertScales` | main.py:154 | Converting `a * v` gives `a` times the conversion of `v`. |
| `Conversion.ConvertAdds` | main.py:154 | Converting `v + w` gives the sum of the two conversions. |
| `Conversion.ConvertMonotone` | main.py:124-154 | A non-negative input gives a non-negative result. A larger input gives a strictly larger result. |
| `Conversion.AsWrittenCompose` | main.py:154 | For the formula as written, converting u1 to u2 and then u2 to u3 equals converting u1 to u3. |
| `Conversion.AsWrittenIdentity` | main.py:154 | For the formula as written, converting a known unit to itself returns the input exactly. |
| `Conversion.AsWrittenRoundTrip` | main.py:154 | For the formula as written, converting there and back returns the input. |
| `Conversion.AsWrittenScales` | main.py:154 | For the formula as written, converting `a * v` gives `a` times the conversion of `v`. |
| `Conversion.AsWrittenAdds` | main.py:154 | For the formula as written, converting `v + w` gives the sum of the two conversions. |
| `Conversion.AsWrittenMonotone` | main.py:154 | For the formula as written, a non-negative input gives a non-negative result, and a larger input a strictly larger result. |
| `History.Reversed` | main.py:169 | `s[::-1]` has the length of `s`. `ReversedAt` shows that position `k` holds `s[len(s) - 1 - k]`. |
| `History.Numbered` | main.py:169 | `enumerate(s, start)` has the length of `s`. `NumberedAt` shows that position `k` is numbered `start + k` and holds `s[k]`. |
| `History.ReversedAt` | main.py:169 | Position `k` of `s[::-1]` holds `s[len(s) - 1 - k]`. |
| `History.NumberedAt` | main.py:169 | Position `k` of `enumerate(s, start)` is numbered `start + k` and holds `s[k]`. |
| `History.ViewAt` | main.py:169 | Row `i` of the view is numbered `i + 1` and holds the entry `i` places before the newest. |
| `History.ViewShiftAt` | main.py:159-169 | After an append, row `i + 2` holds the entry that row `i + 1` held before. |
| `History.View` | main.py:169 | Definition: the rows `enumerate(history[-5:][::-1], 1)`. Characterised by `ViewShape`, `ViewAt` and `ViewAfterAppend`. |
| `History.LastN` | main.py:169 | `h[-n:]` is the suffix of `h` whose length is the smaller of `n` and the length of `h`. |
| `History.ViewShape` | main.py:169 | The view has as many rows as the smaller of 5 and the length of `h`. Row `i` (from 0) is numbered `i + 1` and holds the entry `i` places before the last, so row 1 is the newest entry. |
| `History.ViewEmpty` | main.py:169-173 | An empty history has no rows. |
| `History.ViewAfterAppend` | main.py:159-169 | After an append, row 1 is the new entry. Earlier rows move down one place, and the oldest of five drops out. |
| `History.ViewOfSix` | main.py:169 | With six entries, the view lists entries 6 down to 2 and leaves out the first. |
| `History.Session.constructor` | main.py:16-19 | A new session has an empty history, and the history is hidden. |
| `History.Session.Convert` | main.py:156-159 | Returns `Conversion.Convert` of its arguments. On success it appends exactly one entry (value, from, result, to) to the end of the history, and the result is non-negative. On failure the history is unchanged. The flag is unchanged in both cases. |
| `History.Session.ToggleHistory` | main.py:163-164 | Flips `showHistory` and leaves the history unchanged. |
| `History.Session.ClearHistory` | main.py:172-173 | Empties the history, whatever it held, and leaves the flag unchanged. |
| `History.Session.Shown` | main.py:166-170 | The rendered rows are `View(history)` while the history is shown, and nothing otherwise. |
| `History.ToggleTwice` | main.py:163-164 | Pressing Show History twice restores both the flag and the history. |
| `History.ClearThenShow` | main.py:166-173 | After Clear History the history is empty, so the next render of the history view shows no rows. |
| `History.ConvertThenShow` | main.py:156-170 | Converting between offered units of a category other than Temperature succeeds. The entry is then rendered first, numbered 1. |

## Findings

| source | as written | input that shows it | evidently intended | confidence | as-written member | corrected member |
|---|---|---|---|---|---|---|
| main.py:154 | `value * conversions[c][from_unit] / conversions[c][to_unit]`, while the table counts units per base unit (main.py:146-151) | Length, 1.0, Kilometer to Meter gives 0.001, where 1000 is meant. Weight, 2.0, Kilogram to Pound gives about 0.907, where 4.40924 is meant. | `value * f[to] / f[from]`: the result holds as many base units as the input | high; not executed | `Conversion.ConvertAsWritten` (shown by `Conversion.AsWrittenKilometerToMeter`) | `Conversion.Convert` |

## Left out

- Streamlit rendering is not modelled: page config, CSS, markdown/HTML output, columns, buttons, success messages and the dark-mode checkbox and its `dark_mode` flag (main.py:1-124, 136-142, 160-161, 170, 174, 181). This is presentation, not logic.
- Floating-point arithmetic is not modelled. Factors and results are exact reals, so IEEE rounding in `value * f / f` is not captured.
- The `:.4f` text of an entry (main.py:158) is not modelled. An entry is the record (value, from unit, result, to unit).
- CSV export is not modelled (main.py:176-179). It goes through pandas `DataFrame.to_csv`, UTF-8 encoding and a download button, which are a foreign library and I/O. Its rows would be `history` in insertion order.
- Streamlit's re-execution of the script on every interaction is not modelled, and neither is isolation between sessions. Each method is one button press on one `Session` object.
- In the run of the script in which Clear History is pressed, the app has already rendered the old rows (main.py:169-170) before it empties the list (main.py:172-173). So that page still shows up to five old rows next to "History Cleared!". `History.ClearThenShow` describes the next render: `Shown` called after `ClearHistory`. The model does not capture the stale rows on the page of the clearing run.
- There is no affine Temperature conversion: the source has none, and the model keeps its failure.
- `History.Session.Convert` records the corrected result from `Conversion.Convert`. The app itself records the inverted number (see Findings).
- `History.Session.Convert` requires `value >= 0.0` because the number input has `min_value=0.0` (main.py:124). `Conversion.Convert` itself has no such requirement.
- `History.Session.ClearHistory` requires `showHistory` because the Clear History button exists only while the history is shown (main.py:166-172).
- The unit select boxes limit `from` and `to` to `UnitOptions` of the selected category (main.py:139-142). The model does not require this: it handles any unit name through the error path.
