# Vaccination choropleth: data join and month selection

This project models the part of the vaccination-rate choropleth (`map.js`) that
is its own logic rather than drawing: the data join and the month selection.

- **Row ingestion.** Each CSV row of the rate file is routed by its month label
  (`"Jan"`, `"Feb"`, `"Mar"`, `"Apr"`) into one of four code-to-rate tables.
  Every row, whatever its label, also sets code-to-country in the name table.
  A later row for the same key replaces the earlier value. In the model,
  `VaccineData.DataTables` is a class with the five maps as fields.
  `IngestRow` is the row callback and `IngestAll` is the loop over the file's
  rows. `TableAfter` and `NamesAfter` are the reference definitions of what the
  tables hold after a sequence of rows. The lemmas beside them prove that the
  last write wins and that codes never written are absent.
- **Month selection.** `Choropleth.ChoroplethMap` holds the country shapes'
  data objects (`Feature`, with a mutable `total`), the month label and the
  slider value. `InitialDraw` is the first fill with January rates.
  `Update(month)` is `update(month)`:
  - It sets the slider value. The range input (minimum 1, maximum 4, step 1)
    clamps a value outside 1..4 to the nearer end.
  - For a month from 1 to 4, it rewrites every total from that month's table,
    with 0 for a missing code, and shows the English month name.
  - For any other month, it leaves every total and the label unchanged.

  `Fill`, `Fills` and `ShownLabel` state this on values. The lemmas prove
  idempotence, that an out-of-range month changes no total and no label (the
  slider still moves to the nearer end), and that the initial draw equals
  `update(1)`.

Rates are `real` and are only stored, looked up and defaulted.

In the code, the month label is written inside the per-shape fill callback
(`map.js:109-126`), so when there are no shapes the label is not written at all.
`ShownLabel` models this through its `count` argument.

## Model

| member | source | states |
|---|---|---|
| VaccineData.MonthOfLabel | map.js:55-63 | exactly the four labels "Jan", "Feb", "Mar", "Apr" select a month, and the selected month's label is the input |
| VaccineData.MonthOfSlider | map.js:110-125 | exactly the slider values 1 to 4 select a month, and the selected month's number is the input |
| VaccineData.LabelRoundTrip | map.js:55-63 | each month's label and slider number select that month |
| VaccineData.Lookup | map.js:87 | `get(id)` with default 0: the stored rate when the code is in the table, 0 when it is missing |
| VaccineData.MissingReadsAsZero | map.js:87 | the lookup with default 0: a code missing from a table reads the same as one stored with rate 0 |
| VaccineData.TableAfter | map.js:54-65 | a month's table after the rows in order: a code is in it iff it was there before or some row with that month label carries it |
| VaccineData.NamesAfter | map.js:64 | the name table after the rows in order: a code is in it iff it was there before or some row, whatever its month, carries it |
| VaccineData.TableAfterLastWrite | map.js:54-65 | after ingestion, a month table maps a code to the rate of the last row with that month label and code |
| VaccineData.TableAfterUnwritten | map.js:54-65 | a code no row writes into a month keeps its previous entry, or stays absent |
| VaccineData.LoadedTable | map.js:54-65 | loaded from empty tables, a code is in a month's table iff some row wrote it there, with the last such row's rate |
| VaccineData.UnrecognisedRowIgnored | map.js:55-64 | a row with any other month label changes no month table but still sets its code's country name |
| VaccineData.NamesAfterLastRow | map.js:64 | after ingestion, the name table maps a code to the country of the last row with that code, whatever its month |
| VaccineData.NamesAfterUnseen | map.js:64 | a code carried by no row keeps its previous name entry, or stays absent |
| VaccineData.CanadaFebruaryRow | map.js:54-65 | the row Feb/CAN/Canada/12.5 sets CAN to 12.5 in the February table only, and CAN to Canada in the name table |
| VaccineData.DataTables.constructor | map.js:14-18 | the five tables start empty |
| VaccineData.DataTables.IngestRow | map.js:54-65 | a recognised label sets code to rate in that month's table and leaves the other three unchanged; every row sets code to country |
| VaccineData.DataTables.IngestAll | map.js:54-65 | after the loop, each table equals its reference definition applied to the previous table and the rows |
| VaccineData.DataTables.RateFor | map.js:87 | the rate stored for the code in the month's table, or 0 when the code is missing |
| VaccineData.Load | map.js:54-65 | fresh tables whose contents are the reference definitions over the rows, starting from empty |
| Choropleth.Fill | map.js:109-126 | one shape's total after a redraw: unchanged without a selected month; else the stored rate, or 0 for a missing code |
| Choropleth.Fills | map.js:109-126 | every shape's total after a redraw is that shape's `Fill`, in shape order |
| Choropleth.Drawn | map.js:86-89 | every shape's total is its rate in the table, or 0 when its code is missing |
| Choropleth.ShownLabel | map.js:110-123 | the label becomes the English month name when the month is 1 to 4 and there is at least one shape; otherwise it stays as it was |
| Choropleth.SliderPosition | map.js:107 | the slider (map.js:137-140) holds a value in 1..4: the month itself when in range, else the nearer end |
| Choropleth.SelectedMonthRedraws | map.js:110-125 | with a month selected, every total becomes the stored rate or 0, whatever it was before |
| Choropleth.UnselectedMonthKeeps | map.js:109-128 | with no month selected, every total stays as it was |
| Choropleth.RedrawIdempotent | map.js:106-129 | redrawing twice for the same month gives the totals and label of one redraw |
| Choropleth.MonthLabels | map.js:110-123 | slider values 1 to 4 show "January", "February", "March", "April" |
| Choropleth.Feature.constructor | map.js:76-78 | a shape's datum with its country code and a total |
| Choropleth.ChoroplethMap.constructor | map.js:73-78 | the drawn map over the loaded tables and one distinct datum per boundary feature |
| Choropleth.ChoroplethMap.InitialDraw | map.js:86-89 | every shape's total becomes its January rate, or 0 when its code is missing |
| Choropleth.ChoroplethMap.Update | map.js:106-129 | the slider shows the month clamped to 1..4; the totals and label change as the redraw functions say, and nothing else changes |
| Choropleth.Ready | map.js:71-147 | after the first draw and `update(1)`, the totals are the January totals, the slider is at 1, and the label is "January" when there is at least one shape |

## Left out

- Projection and path generation (`d3.geoPath`, `d3.geoMiller`): library geometry on floating point.
- The colour scale and the fill colour computed from a total: a library interpolation over float breakpoints. The model stops at the `total` each fill is computed from.
- Legend construction, tooltip creation and positioning, and the slider's DOM setup: these are pure DOM side effects.
- The mouseover handler that `update` re-binds for each month: this is tooltip content, a DOM side effect. Its month is the same one that selects the totals.
- The asynchronous loading through `d3.queue` and its ignored error argument: this is I/O. The rows arrive as a parameter of `IngestAll` and `Load`. The boundary features arrive as an array parameter of `Ready`.
- Numeric coercion of the rate string, and the NaN case of `|| 0`: these are JavaScript coercion semantics. A row's rate is already a number. A stored rate of 0 reads as 0 under `|| 0` as well, so `Lookup` agrees with the code for every number except NaN.
- The slider's string value compared with `==`: the month is an `int`.
- The month label's text and the slider's value before the first `update`: the label's text comes from the page and the slider's value is the range input's default. Both are parameters of `Ready`, and `update(1)` overwrites the slider.
