# Tile calculator — verified model of the calculation core

This project models the calculation at the heart of a small desktop tile
calculator (`main.py`, class `TileCalculator`). The user enters the length
and the height of a surface and the size of a square tile, in metres, and
picks a tile category. Each category lists a few representative grout-joint
widths in millimetres; their mean, converted to metres, is the grout size.
Along each axis the calculator counts `(dimension + grout) / (tile + grout)`
tiles (the first tile needs no leading joint), rounds that up to whole
tiles, multiplies the two axis counts into the total, and works out how much
of the last tile on each axis has to be cut off. The result text always
gives the total, then a line for each axis whose cut-off is positive, or a
"no cutting required" line when neither is.

Python floats are modelled as exact `real` numbers, so the model is the
idealised calculation: the ceiling rule, the cut-off bounds and the choice
of result lines become statements that hold for every input.

Modules (one per concern of `calculate`):

- `wrappers.dfy` — `Option` and `Result`.
- `catalogue.dfy` — `Catalogue`: the six categories, the first-match lookup,
  the grout size (mean of the widths / 1000).
- `number_input.dfy` — `NumberInput`: reading an entry — `str.strip()`,
  comma-to-dot replacement, and `float()` as a parameter `toFloat`.
- `tile_count.dfy` — `TileCount`: Python's `int()` and `is_integer()`, the
  rounding rule, per-axis counts, cut-offs, and `Compute`, which gathers
  them into a `Tiling`.
- `calculator.dfy` — `Calculator`: the errors, the result lines, the
  specification function `Evaluate`, and the methods `ReportLines` (builds
  the lines one after another, as the result text is appended to) and
  `Calculate` (the handler's steps with their early exits).

The central specification is `TileCount.Sound`. For each axis, the count is
the *least cover*: the fewest tiles that, with their joints, span the surface
(`LeastCover`: `d <= n*t + (n-1)*g` and `(n-1)*t + (n-2)*g < d`). The total is
the product of the two counts. Each cut-off is how far that span overshoots
the surface, and `0 <= cut < tile + grout`. `SoundIsComputed` shows that
`Sound` determines a tiling completely. `ReportsUnique` does the same for the
line specification `Calculator.Reports`.

## Model

| member | source | states |
|---|---|---|
| `Catalogue.TileGrout` | main.py:18-25 | The six (name, grout widths in mm) pairs, in menu order. This constant has no contract of its own: `CatalogueWellFormed` states its size, the positivity of its widths and the distinctness of its names. |
| `Catalogue.OfferedNames` | main.py:66 | The menu's names, built from the catalogue in its order. No contract of its own: `LookupOffered` and `OfferedNameFound` state that every such name is found. |
| `Catalogue.CatalogueWellFormed` | main.py:18-25 | The catalogue has six entries. Each has at least one grout width and all widths are strictly positive. No two entries share a name. |
| `Catalogue.FindIndex` | main.py:100-101 | The scan `next(tile for tile in ... if tile[0] == name)` returns the position of the FIRST entry with that name. It returns the table length exactly when no entry has it. |
| `Catalogue.Lookup` | main.py:99-102 | The lookup fails exactly when no entry has the name. Otherwise it returns the widths of the first entry with that name. |
| `Catalogue.LookupOffered` | main.py:99-102 | Every name the menu offers (built from the same table, line 66) is found, and yields that entry's own widths. |
| `Catalogue.Sum` | main.py:105 | Python's `sum()` of the widths. No contract of its own: `SumBounds` and `SumPositive` state its bounds and positivity. |
| `Catalogue.GroutSize` | main.py:105 | `sum / len / 1000`, the mean width in metres. No contract of its own: `GroutSizeBounds`, `GroutSizePositive` and `CatalogueGroutPositive` state its range and positivity. |
| `Catalogue.SumBounds` | main.py:105 | If every width lies in [lo, hi], the sum of n widths lies in [n*lo, n*hi]. |
| `Catalogue.SumPositive` | main.py:105 | A non-empty list of positive widths has a positive sum. |
| `Catalogue.GroutSizeBounds` | main.py:105 | The grout size `sum / len / 1000` lies between the smallest and the largest width, converted to metres. |
| `Catalogue.GroutSizePositive` | main.py:105 | A well-formed entry has a strictly positive grout size. |
| `Catalogue.CatalogueGroutPositive` | main.py:105 | Every catalogue entry has a defined, strictly positive grout size. |
| `Catalogue.LookupGroutPositive` | main.py:99-105 | Any widths the lookup returns are non-empty and give a strictly positive grout size. |
| `NumberInput.IsSpace` | main.py:86 | The code points that `str.isspace()` accepts, which `strip()` removes. A predicate, stated by its definition. |
| `NumberInput.LeadingSpaces` | main.py:86 | Counts the white-space characters (in the sense of `str.isspace`) at the start of the text. The first character after them is not white space. |
| `NumberInput.TrailingSpaces` | main.py:86 | Counts the white-space characters at the end of the text. The character just before them is not white space. |
| `NumberInput.Strip` | main.py:86 | `str.strip()`: the text between the leading and trailing white space. No contract of its own: `LeadingSpaces`, `TrailingSpaces`, `StripEnds`, `StripUnpadded` and `StripIdempotent` state what is removed and what is kept. |
| `NumberInput.StripEnds` | main.py:86 | The stripped text is empty, or it starts and ends with a non-space. |
| `NumberInput.StripIdempotent` | main.py:86 | Stripping twice is the same as stripping once. |
| `NumberInput.StripUnpadded` | main.py:86 | A text that neither starts nor ends with white space is unchanged by stripping. |
| `NumberInput.StripPadded` | main.py:86 | `" 1,5\t"` strips to `"1,5"`. |
| `NumberInput.ReplaceCommas` | main.py:87 | The length is unchanged and no comma is left. Each comma becomes a dot and every other character stays. |
| `NumberInput.ReplaceCommasIdempotent` | main.py:87 | Replacing commas twice is the same as replacing them once. |
| `NumberInput.SeparatorsAgree` | main.py:87 | Two texts that differ only in using ',' or '.' at some positions normalise to the same text. |
| `NumberInput.ParseNumber` | main.py:85-88 | `parse_number`: strip, replace commas, then convert with `toFloat`. No contract of its own: `DecimalCommaAccepted` states the decimal-comma property, and `Evaluate` states how each failed conversion is reported. |
| `NumberInput.DecimalCommaAccepted` | main.py:85-88 | For every `float()` conversion, `"1,5"` and `" 1,5\t"` read as the same value as `"1.5"`. |
| `TileCount.Trunc` | main.py:112-117 | `int()` truncates toward zero. For x >= 0 the result is the floor of x. For x < 0 it is the least integer not below x. |
| `TileCount.IsInteger` | main.py:113 | `float.is_integer()`: the value equals its floor. A predicate, stated by its definition. |
| `TileCount.RoundUp` | main.py:112-117 | The rounding rule `int(x) if x.is_integer() else int(x) + 1`. No contract of its own: `RoundUpIsCeiling` states that it is the ceiling exactly when x >= 0 or x is integral, and floor + 2 otherwise. |
| `TileCount.RoundUpIsCeiling` | main.py:112-117 | The rule "int(x) if x.is_integer() else int(x) + 1" gives the ceiling of x exactly when x >= 0 or x is integral. A negative non-integral x comes out one too high: floor + 2. |
| `TileCount.CeilingIsLeast` | main.py:112-117 | The ceiling is the least integer not below x, and it is unique. |
| `TileCount.RawCount` | main.py:108-109 | `(dimension + grout) / (tile + grout)`. No contract of its own: `RawCountFacts` and `SpanCovers` state its meaning. |
| `TileCount.AxisCount` | main.py:108-117 | The whole tiles along one axis: the rounded raw count. No contract of its own: `AxisCountIsLeastCover` and `AxisCountMonotone` state that it is the fewest covering tiles and grows with the dimension. |
| `TileCount.CutOff` | main.py:123-126 | `n * (tile + grout) - grout - dimension`. No contract of its own: `CutOffBounds` states its range and when it is zero. |
| `TileCount.RawCountFacts` | main.py:108-109 | For a positive dimension, the raw count is positive. It measures the dimension plus one joint in units of tile + grout: raw * (t + g) = d + g. |
| `TileCount.SpanCovers` | main.py:108-109 | m tiles with m-1 joints cover the dimension exactly when m is at least the raw count `(d + g) / (t + g)`. |
| `TileCount.AxisCountIsLeastCover` | main.py:108-117 | For a positive dimension, the rounded axis count is at least 1. It is the fewest tiles whose span, with joints, covers the dimension. |
| `TileCount.AxisCountMonotone` | main.py:108-114 | Increasing the length, with the other inputs fixed, never decreases the length-axis count. |
| `TileCount.CutOffBounds` | main.py:108-126 | The cut-off is the span's overshoot of the dimension, with 0 <= cut < tile + grout. It is 0 exactly when the raw count is an integer. |
| `TileCount.LeastCoverUnique` | main.py:112-117 | At most one count is the least cover of a given dimension. |
| `TileCount.Compute` | main.py:108-126 | For positive dimensions and tile size and non-negative grout, the tiling is `Sound`: least covers per axis, total = product (>= 1), each cut-off in [0, tile + grout). Each cut-off is 0 exactly when that axis's raw count is whole. |
| `TileCount.SoundIsComputed` | main.py:108-126 | Any `Sound` tiling of given inputs is the one computed: the specification leaves no freedom. |
| `TileCount.ExampleWall` | main.py:108-126 | A 3 m x 2 m surface with 0.3 m tiles and 1 mm grout needs 10 x 7 = 70 tiles, with a cut on both axes. |
| `TileCount.ExampleOneTile` | main.py:108-126 | A 1 m x 1 m surface with 1 m tiles and 0.5 mm grout needs one tile and no cuts. |
| `Calculator.LengthCutLine` | main.py:132-133 | The length-cut line, carrying `tiles_height_whole` and `cut_length * 100`. No contract of its own: `ReportLines` and `CutLinesFollowRawCounts` state when it appears. |
| `Calculator.HeightCutLine` | main.py:135-136 | The height-cut line, carrying `tiles_length_whole` and `cut_height * 100`. No contract of its own: `ReportLines` and `CutLinesFollowRawCounts` state when it appears. |
| `Calculator.ThreeLines` | main.py:129-139 | When both cut-offs are positive, the lines are the total, then the length cut, then the height cut. |
| `Calculator.TwoLines` | main.py:129-139 | Otherwise there are two lines: the total, then the one cut line that applies or "no cutting required". |
| `Calculator.ReportsUnique` | main.py:129-139 | The result-line specification determines the lines completely. |
| `Calculator.ReportLines` | main.py:129-139 | The total line comes first. The length-cut line (count = tiles along the height, amount = cut x 100 cm) appears iff `cut_length > 0`. The height-cut line (count = tiles along the length) appears iff `cut_height > 0`. "No cutting required" appears iff both cut-offs are <= 0. The length cut precedes the height cut. |
| `Calculator.Positive` | main.py:95 | All three numbers were read and are strictly positive, the negation of the rejection test. A predicate; `Evaluate` states that its failure, and only that, gives NotPositive. |
| `Calculator.Evaluate` | main.py:90-126 | Errors are checked in the source's order. The first entry `float()` rejects gives NotANumber. Otherwise any value <= 0 gives NotPositive and no count. Otherwise an unknown name gives UnknownCategory. A success carries the parsed inputs, the category's positive grout size, and a `Sound` tiling with total >= 1. |
| `Calculator.Calculate` | main.py:83-146 | The handler run step by step shows exactly `Evaluate`'s error, under the heading `Heading` gives it, when there is one. Otherwise it shows report lines that satisfy `Reports` for the computed tiling. |
| `Calculator.RaisesValueError` | main.py:143-146 | The errors the handler catches as a ValueError: an unreadable number or a non-positive value. A predicate; `Heading` states which heading each error gets. |
| `Calculator.Heading` | main.py:143-146 | The heading is "Ошибка: " exactly for the errors raised as a ValueError (an unreadable number, a non-positive value). It is "Неожиданная ошибка: " exactly for the others (the lookup failure). |
| `Calculator.OfferedNameFound` | main.py:99-102 | With a name picked from the menu, the calculation never takes the unexpected-error (lookup failure) path. |
| `Calculator.CutLinesFollowRawCounts` | main.py:123-139 | For a computed tiling, the length-cut line appears iff the length's raw count is not whole, and likewise for the height. "No cutting required" appears iff both raw counts are whole. |

## Left out

- The Tk window, its widgets, `run` and `mainloop` (main.py:27-79, 148-161) are not modelled. The entries' texts and the selected name are parameters of `Calculate`, and its returned `Display` stands for the text written into the result label.
- Python's `float()` is not modelled. It is the parameter `toFloat`, a partial conversion from text to a number.
- Infinity and NaN, which `float()` accepts, have no counterpart in `real`. Positive infinity (`inf`) and NaN pass the positivity check at main.py:95; `-inf` is rejected as non-positive. In the code they then take these paths:
  - An axis whose dimension is infinite while the tile size is finite gets an infinite raw count. `int()` at main.py:112-117 then raises an OverflowError, shown as an unexpected error.
  - An axis whose raw count is NaN (a NaN input, or an infinite dimension with an infinite tile size) makes `int()` raise a ValueError, shown as a plain error.
  - The length axis is rounded first, so when both axes fail, the length axis's error is the one shown.
  - An infinite tile size with a finite length and height gives raw counts of 0.0, which `is_integer()` accepts, so both axis counts and the total are 0. Both cut-offs are then NaN, neither `> 0` nor `<= 0` holds, and the label shows only the total line with 0 tiles.
- IEEE-754 rounding is not modelled. Arithmetic is over exact reals, so a float quotient that lands just off an integer is not represented.
- The result text itself is not modelled: `.1f` formatting of the centimetre amounts, the decimal rendering of counts, and where the newlines fall. The lines are a sequence of `Line` values, each carrying the number it would print.
- The error texts are modelled only up to their heading. `Heading` gives the two prefixes, "Ошибка: " for a ValueError and "Неожиданная ошибка: " otherwise, and `Calculate` shows it with the error. The text after the heading is not modelled: the positivity message at main.py:96, the empty text of the lookup's StopIteration, and the foreign message of `float()`'s own ValueError.
- Of the catch-all `except Exception` (main.py:145-146), only the lookup failure is modelled, as `UnknownCategory`. Other exceptions come only from floating-point overflow, which `real` excludes.
- The cut lines are paired with their counts as written: the length-cut line reports the number of tiles along the height. That number is the count of tiles in the trimmed column (one per row), so the pairing is kept.
