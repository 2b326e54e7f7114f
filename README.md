# PM2.5 Air Quality Index conversion

This project models the conversion core of the clearSkies air-quality dashboard
(`frontend/src/utils/aqiUtils.ts`). It covers three things:

- the US EPA PM2.5 breakpoint table;
- the conversion of a PM2.5 concentration to an Air Quality Index (AQI);
- the lookup from an index to its category record (name, health implications,
  cautionary statement).

The conversion is the US EPA piecewise-linear AQI formula, as given on page 3 of
the AirNow calculator document that `aqiUtils.ts:24` links
(`https://www.airnow.gov/sites/default/files/2020-05/aqi-calculator-8-hour-o3-pm.pdf`).

- `aqi_utils.dfy`, module `AqiUtils`: the data and the operations.
  - `AQICategory` is one table row. `Breakpoints` is the six-row table, with the
    same bounds and texts as the source. `Unknown` is the sentinel row.
  - `FirstBand` is the first-match scan that both searches in the source use,
    on either the concentration scale or the index scale.
  - `Round` is JavaScript's `Math.round`. `Interpolate` is the linear formula.
  - `AqiFromPm25`, `CategoryOf` and `CategoryFromPm25` are functions that say
    what each operation returns.
  - `CalculateAqiFromPm25`, `GetAqiCategory` and `GetAqiCategoryFromPm25` are
    the source's three exported functions, as methods. The first two keep the
    source's loop, early return and fall-through defaults; the third is their
    composition. Each is proved equal to its specification function.
- `aqi_properties.dfy`, module `AqiProperties`: lemmas about the table and the
  specification functions.

Concentrations and index values are exact `real`s. Each table bound, such as
12.1 or 35.4, is the exact decimal in the source.

The code leaves gaps between bands: (12.0, 12.1), (35.4, 35.5), … for PM2.5 and
(50, 51), (100, 101), … for the index. The model keeps them. A concentration
in a gap matches no band and falls through to the final `return 0`. A
non-integer index in a gap gets the `Unknown` sentinel. Because of the gaps the
conversion is not monotone over all non-negative readings:
`AqiNotMonotoneAcrossGap` shows 12.0 → 50 but 12.05 → 0.

## Model

| member | source | states |
|---|---|---|
| AqiUtils.FirstBand | frontend/src/utils/aqiUtils.ts:28-35 | the scan returns the first row whose closed interval on the chosen scale holds the value, with no earlier row holding it; it returns none exactly when no row holds it |
| AqiUtils.Round | frontend/src/utils/aqiUtils.ts:33 | `Math.round`: the result is the integer within one half of the input, and halves round up |
| AqiUtils.CalculateAqiFromPm25 | frontend/src/utils/aqiUtils.ts:25-41 | the scanning loop, with early return and fall-through, returns exactly `AqiFromPm25`: 0 for negatives, the rounded interpolation in the first matching band, 500 above the table, otherwise 0 |
| AqiUtils.GetAqiCategory | frontend/src/utils/aqiUtils.ts:44-81 | the scanning loop returns exactly `CategoryOf`: the first row whose index interval holds the value, the top row above 500, otherwise the Unknown sentinel |
| AqiUtils.GetAqiCategoryFromPm25 | frontend/src/utils/aqiUtils.ts:85-88 | the result is the category of the index computed from the reading |
| AqiUtils.RowsValid | frontend/src/utils/aqiUtils.ts:14-21 | every row has a non-degenerate, non-negative concentration interval and index interval, so interpolation never divides by zero |
| AqiProperties.BandsAscending | frontend/src/utils/aqiUtils.ts:14-21 | on both scales every band ends strictly before any later band starts, so the bands are ordered and pairwise disjoint |
| AqiProperties.FirstBandIs | frontend/src/utils/aqiUtils.ts:28-34 | a value inside band i is matched by band i, whichever scale is searched |
| AqiProperties.FoundNotInGap | frontend/src/utils/aqiUtils.ts:14-21 | a value some band holds lies between the first band's lower bound and the last band's upper bound, and in no gap |
| AqiProperties.NotFoundInGap | frontend/src/utils/aqiUtils.ts:14-21 | a value in the table's range that no band holds lies strictly between two consecutive bands |
| AqiProperties.FirstBandFoundIff | frontend/src/utils/aqiUtils.ts:28-35 | the scan finds a band if and only if the value is in the table's range and not in a gap |
| AqiProperties.RoundMonotone | frontend/src/utils/aqiUtils.ts:33 | rounding never reverses the order of two values |
| AqiProperties.RoundOfInteger | frontend/src/utils/aqiUtils.ts:33 | rounding leaves an integer unchanged |
| AqiProperties.InterpolateWithin | frontend/src/utils/aqiUtils.ts:32 | inside a row, interpolation maps the lower bound to min_aqi and the upper bound to max_aqi, stays within them, and is strictly increasing |
| AqiProperties.AqiInBand | frontend/src/utils/aqiUtils.ts:28-34 | a reading inside band i gives an index inside band i's index interval; the band's end points give exactly min_aqi and max_aqi (12.0 → 50, 35.4 → 100, 35.5 → 101); the index is the rounded linear interpolation over that band |
| AqiProperties.AqiMonotoneInBand | frontend/src/utils/aqiUtils.ts:32-33 | within one band, the index does not decrease as the reading grows |
| AqiProperties.AqiSaturates | frontend/src/utils/aqiUtils.ts:37-39 | a reading above 500.4 gives 500, the top band's max_aqi |
| AqiProperties.AqiZeroIff | frontend/src/utils/aqiUtils.ts:26-40 | the index is 0 if and only if the reading is below 0.12 (negative or rounding to 0 in Good) or lies in a gap between two bands |
| AqiProperties.AqiInRange | frontend/src/utils/aqiUtils.ts:25-41 | every reading gives an index from 0 to 500 |
| AqiProperties.AqiExamples | frontend/src/utils/aqiUtils.ts:25-41 | -5 → 0, 0 → 0, 12.0 → 50, 12.05 → 0, 12.1 → 51, 35.4 → 100, 35.5 → 101, 500.4 → 500, 600 → 500 |
| AqiProperties.AqiNotMonotoneAcrossGap | frontend/src/utils/aqiUtils.ts:30-40 | the gaps break global monotonicity: 12.0 gives more than 12.05 |
| AqiProperties.CategoryInBand | frontend/src/utils/aqiUtils.ts:65-70 | an index inside band i's index interval gets band i |
| AqiProperties.ExactlyOneCategory | frontend/src/utils/aqiUtils.ts:15-20 | every integer index from 0 to 500 lies in exactly one band's index interval, and that band is returned |
| AqiProperties.CategoryAboveTable | frontend/src/utils/aqiUtils.ts:73-75 | an index above 500 gets the Hazardous row |
| AqiProperties.CategoryUnknownIff | frontend/src/utils/aqiUtils.ts:77-80 | the Unknown sentinel is returned if and only if the index is negative or lies strictly between two bands |
| AqiProperties.CategoryExamples | frontend/src/utils/aqiUtils.ts:65-80 | 0 and 50 → Good, 51 → Moderate, 500 and 501 → Hazardous, -1 and 50.5 → Unknown; the sentinel has -1 in every numeric field and an empty cautionary statement |
| AqiProperties.CategoryFromPm25InBand | frontend/src/utils/aqiUtils.ts:85-88 | a reading inside a concentration band is shown with that same band's category |
| AqiProperties.CategoryFromPm25NeverUnknown | frontend/src/utils/aqiUtils.ts:85-88 | the composition always returns one of the six table rows and never the sentinel |
| AqiProperties.CategoryFromPm25Examples | frontend/src/utils/aqiUtils.ts:85-88 | 35.5 → Unhealthy for Sensitive Groups, 12.0 → Good, 600 → Hazardous; a negative reading and the gap reading 35.45 both show as Good |

## Left out

- IEEE-754 arithmetic is not modelled. The model uses exact reals, so it has no
  rounding error in the ratio, for example 49 / 23.3. Any reading where
  floating-point error would move a value across a rounding half is not
  captured.
- NaN and the infinities are not modelled, because reals have none. In the
  source, `calculateAQIFromPM25(NaN)` fails every comparison and returns 0, and
  `getAQICategory(NaN)` returns the sentinel.
- The TypeScript interface `AQICategory` becomes a Dafny datatype. Field names
  are in Dafny's camel case. Index bounds are integers, as every row's are.
- Everything outside `frontend/src/utils/aqiUtils.ts` is not part of this
  model. That includes the backend HTTP views in `backend/api/views.py`, the
  React components and their fetch calls, the form range check in
  `LocationInput.tsx`, the category-to-colour switches, and the URL routing.
  These are network I/O, rendering or configuration.
