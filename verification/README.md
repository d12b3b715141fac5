# Terrain image scaling for A-series paper — Dafny model

This project models the calculation core of `scaling.py`, a calculator that
tells how much to scale a terrain image (an aerial photo or rendered map of
known pixel size and known metres-per-pixel) to print it on ISO 216 A-series
paper (A0–A3) at a given print resolution,
for each of ten standard map scales 1:1000 … 1:500000.

Modules, one per concern of the source:

- `Numeric` (numeric.dfy): Python's `int(x)` (truncation toward zero),
  `round(x)` (round half to even) and two-argument `min`, on exact reals.
- `PaperSizes` (paper_sizes.dfy): the paper table, the list of standard scale
  denominators, and the nested `mm_to_pixels`.
- `Scaling` (scaling.py's `calculate_scaling_factors`, in scaling.dfy): one
  row per (sheet, scale). The rows are built by `ComputeEntry`, the
  tables by `ComputeScales`, `ComputePapers` and `CalculateScalingFactors`.
  `FitEntry` gives the same row in closed form.
- `Cli` (cli.dfy): the pure parts of the `__main__` block. These are the
  positivity checks, the paper filter, the scale filter and the rejection
  of an empty selection. `Run` chains them with the calculation.
- `Dicts` and `Wrappers`: Python dicts as ordered association lists (dict
  iteration order is insertion order), plus `Option` and `Result`.

Representation choices:

- Python floats are Dafny `real`s, so every property holds in exact
  arithmetic.
- A Python float division by zero raises `ZeroDivisionError`. The model
  returns `Failure(ZeroDivision)` instead. The calculation is therefore
  defined for every input, negative ones included.
- A sheet is the datatype `Paper`. A scale key `'1:N'` is the integer `N`.
- The `actual_scale` text is `OneTo(N)`, or `ScaleError` for `'1:ERROR'`.

What the proofs establish:

- The map scale cancels out. On positive inputs the total factor is
  `min(w_t/w0, h_t/h0)`, the largest uniform factor that fits the sheet,
  whatever the scale. So the ten rows of a sheet are identical
  (`ScaleDoesNotMatter`).
- Every row fits the sheet. One coverage is exactly 100 and both lie in
  (0, 100].
- The scale is never `1:ERROR` on inputs the driver accepts.
- The calculation divides by zero exactly when one of `w0`, `h0`, `p`, `m`,
  `dpi` is zero.
- The reported actual scale has no factor 1000, as written at
  scaling.py:87. When the fitted image prints at exactly 1:N, the ratio is
  N/1000 (`ActualScaleAtExactFit`). The row reports that ratio rounded half
  to even. An image that fills A3 at 1:1000 is reported as `1:1`
  (`ActualScaleExample`). One that fits A3 at 1:2500 has ratio 2.5 and is
  reported as `1:2` (`ActualScaleRoundingExample`).

What `scaling.py` does not do:

- It never turns the image to the other orientation and has no coverage
  cap: every row fills the sheet on one axis.
- It tries only the ten denominators listed at scaling.py:28.
- `calculate_scaling_factors` checks none of its inputs. A zero input only
  surfaces as a division by zero. The positivity checks live in the
  driver (scaling.py:190-200).

## Model

| member | source | states |
|---|---|---|
| Numeric.Trunc | scaling.py:33 | `int(x)` on a float gives the integer part, rounding toward zero, for both signs |
| Numeric.RoundHalfEven | scaling.py:111 | `round(x)` returns an integer within one half of `x`, and the even one on a tie |
| Numeric.RoundHalfEvenUnique | scaling.py:111 | those two properties determine `round(x)` uniquely |
| Numeric.Min | scaling.py:76 | `min(a, b)` is no larger than either argument and equals one of them |
| PaperSizes.SizeMm | scaling.py:20-25 | the portrait width and height in millimetres of A0, A1, A2 and A3, as in `a_series_mm` |
| PaperSizes.PaperOrder | scaling.py:40 | the order A0, A1, A2, A3 in which the sheet loop visits `a_series_mm`, its insertion order |
| PaperSizes.StandardScales | scaling.py:28 | the ten denominators of `standard_scales` in the order they are tried |
| Dicts.Keys | scaling.py:223 | a dict's keys in iteration order, one per entry, at the same positions |
| Dicts.Lookup | scaling.py:218-225 | `d[k]` as used by `results[args.paper]`, `scale_key in scales` and `scales[scale_key]`. It is `None` exactly when `k` is not a key, where Python raises `KeyError` |
| Dicts.LookupAt | scaling.py:218-225 | on a dict with unique keys, looking up the key stored at a position gives the value stored there |
| Dicts.LookupFound | scaling.py:218-225 | a key that is present is stored at some position, and `d[k]` is the value stored there |
| PaperSizes.MmToPixels | scaling.py:31-33 | for mm ≥ 0 and dpi ≥ 0, `mm_to_pixels` equals the integer quotient of `mm·dpi·10` by 254 |
| PaperSizes.MmToPixelsIsFloor | scaling.py:31-33 | for mm ≥ 0 and dpi ≥ 0 the result is the largest integer not above `mm/25.4·dpi` |
| PaperSizes.MmToPixelsNegate | scaling.py:31-33 | truncation toward zero makes a negative dpi give the negated pixel count |
| PaperSizes.MmToPixelsPositive | scaling.py:31-33 | any length of at least 26 mm spans at least one pixel when dpi ≥ 1 |
| PaperSizes.PaperPixels | scaling.py:20-43 | every sheet of the table has positive `w_t` and `h_t` when dpi ≥ 1 |
| PaperSizes.PaperPixelsNonZero | scaling.py:42-43 | a sheet's `w_t` (likewise `h_t`) is zero exactly when dpi is zero |
| Scaling.ReportedScale | scaling.py:111 | the scale text is `1:N` exactly when the ratio is positive, with N within one half of the ratio; otherwise it is `1:ERROR` |
| Scaling.PixelsPerMeter | scaling.py:36 | `p / m` is zero exactly when `p` is, is positive for positive inputs, and times `m` gives back `p` |
| Scaling.MapScaleFactorSign | scaling.py:53-66 | the factor for printing at `1:N` is zero exactly when dpi is, and positive when the pixels per metre, dpi and N are |
| Scaling.FitAfterScalingIsFit | scaling.py:69-79 | whatever positive factor the image is first scaled by, the total after fitting is `min(w_t/w0, h_t/h0)` |
| Scaling.FitAfterScalingNonZero | scaling.py:69-79 | when the sheet has no zero side, a fit that avoids dividing by zero gives a non-zero total |
| Scaling.TargetPixelsPerMeter | scaling.py:53 | pixels per real-world metre that print at 1:N. Its sign is stated by `MapScaleFactorSign` |
| Scaling.MapScaleFactor | scaling.py:66 | the factor that would print the image at 1:N. Its sign is stated by `MapScaleFactorSign` |
| Scaling.FitAfterScaling | scaling.py:69-79 | scales the image, fits it to the sheet and multiplies both factors. It is characterised by `FitAfterScalingIsFit` and `FitAfterScalingNonZero` |
| Scaling.TotalScale | scaling.py:53-79 | `total_scale` step by step. `TotalScaleIsFit` shows it is the plain fit factor on positive inputs. `TotalScaleSucceedsIff` gives exactly when it divides by zero |
| Scaling.ActualScaleRatio | scaling.py:86-87 | `actual_scale_ratio` as written. `ActualScaleAtExactFit` shows it is N/1000 at an exact fit, and `ScaleRatioPositive` gives its sign |
| Scaling.ComputeEntry | scaling.py:53-114 | one row of the table. `EntryMatchesFit` shows it equals the closed-form row on positive inputs. `EntrySucceedsIff` gives exactly when it divides by zero |
| Scaling.SheetTable | scaling.py:42-47 | one sheet's table: its pixel size, then every standard scale. `PapersOnValidInputs` shows it completes with closed-form rows on positive inputs |
| Scaling.FitFactorFits | scaling.py:74-79 | the fitted factor is positive, fits both axes, and fills the sheet on at least one axis |
| Scaling.LargestFit | scaling.py:74-79 | no larger uniform factor fits the image on the sheet |
| Scaling.RowFor | scaling.py:82-114 | builds the row from a total factor. A positive factor that fits a sheet with positive sides gives `fits_on_paper` true and final pixel sizes within the sheet's. Both coverages lie in (0,100] and are 100 on an axis the image fills. The scale is the rounded positive ratio, never `1:ERROR` |
| Scaling.ScaleRatioPositive | scaling.py:86-87 | the achieved ratio is positive for a positive factor, pixels per metre and dpi, so the `1:ERROR` branch is not taken |
| Scaling.FitEntryProperties | scaling.py:82-114 | on positive inputs a row fits and one coverage is exactly 100. Its `paper_dimensions_px` is the sheet's pixel size. Its scale is never `1:ERROR` |
| Scaling.TotalScaleIsFit | scaling.py:53-79 | on positive inputs `total_scale` equals `min(w_t/w0, h_t/h0)` for every map scale; the scale factor cancels |
| Scaling.EntryMatchesFit | scaling.py:53-114 | on positive inputs each computed row equals the closed-form row for its sheet |
| Scaling.TotalScaleSucceedsIff | scaling.py:53-79 | `total_scale` is computed without a division by zero exactly when the scale, `p/m`, dpi, `w0` and `h0` are all non-zero |
| Scaling.TotalScaleNonZero | scaling.py:74-79 | with a sheet of non-zero size the total factor is non-zero |
| Scaling.EntrySucceedsIff | scaling.py:53-105 | a row is computed without a division by zero exactly when the scale, `p/m`, dpi, `w0`, `h0`, `w_t` and `h_t` are all non-zero |
| Scaling.ComputeScales | scaling.py:47-115 | a sheet's table has exactly the given scale keys in order, with each key's computed row; it fails exactly when some row fails |
| Scaling.ComputePapers | scaling.py:40-115 | the result has exactly the given sheets in order. Each holds the table for that sheet's pixel size. It fails exactly when some table fails |
| Scaling.CalculateScalingFactors | scaling.py:5-117 | a result has keys A0, A1, A2, A3 in order, each mapping the ten standard scales in list order |
| Scaling.CalculateFailsIffZeroInput | scaling.py:36-105 | the calculation raises `ZeroDivisionError` exactly when `w0`, `h0`, `p`, `m` or dpi is zero |
| Scaling.CalcRows | scaling.py:40-117 | on positive inputs every row, found under its sheet's key, is the closed-form row for that sheet's pixel size |
| Scaling.CalculateOnValidInputs | scaling.py:38-117 | for positive inputs the calculation completes with the fixed key shape, and every row is the closed-form fit for its sheet |
| Scaling.PapersOnValidInputs | scaling.py:40-115 | on positive inputs every sheet's table completes and holds only closed-form rows |
| Scaling.ScalesOnValidInputs | scaling.py:47-115 | on positive inputs and positive scales a sheet's table completes and every row is the same closed-form row |
| Scaling.ScaleDoesNotMatter | scaling.py:47-115 | on positive inputs all ten rows of one sheet are identical |
| Scaling.ActualScaleAtExactFit | scaling.py:53-87 | when the total factor prints the image at exactly 1:N, `actual_scale_ratio` is N/1000, not N |
| Scaling.ActualScaleRoundingExample | scaling.py:20-111 | a 7425×10500 px image at 10 px/m and 254 dpi fits A3 at 1:2500 with factor 0.4. The ratio is 2.5, and the row reports `1:2`, rounded half to even |
| Scaling.ActualScaleExample | scaling.py:20-111 | a 2970×4200 px image at 10 px/m and 254 dpi fills A3 (2970×4200 px) at 1:1000, and the row reports `1:1` |
| Cli.CheckInputs | scaling.py:190-200 | the three checks run in order and report the first failure. Arguments pass exactly when width, height, pixels, meters and dpi are all positive |
| Cli.FilterPaper | scaling.py:217-218 | without a paper filter the results are unchanged. With one, exactly one key remains, holding that sheet's table |
| Cli.FilterScale | scaling.py:220-226 | each remaining sheet has exactly one row, keyed by the scale. Every remaining sheet was in the input, and keys stay unique |
| Cli.FilterScaleLookup | scaling.py:220-226 | a sheet remains exactly when its table has a row for the scale, and then it holds just that original row |
| Cli.PaperRows | scaling.py:217-218 | the paper filter keeps the chosen sheet's calculated table unchanged, under its own key |
| Cli.FilterScaleRows | scaling.py:220-226 | the scale filter keeps only calculated rows, each under the sheet it came from |
| Cli.RunRows | scaling.py:214-226 | on valid arguments every row left by both filters is the calculated row for its sheet, image size, pixels per metre and dpi |
| Cli.FilterScaleUniform | scaling.py:220-226 | when all tables have the same keys, the scale filter keeps every sheet if the scale is a key and none otherwise |
| Cli.PaperFilterOnFullResults | scaling.py:217-218 | on a full result the paper filter leaves the chosen sheet (or all four, in order), each with all ten scales |
| Cli.ScaleFilterActive | scaling.py:220 | `if args.scale:` is taken exactly for a given non-zero scale. `FiltersOutcome` relies on it |
| Cli.ApplyFilters | scaling.py:217-226 | the paper filter, then the scale filter. `FiltersOutcome` characterises the outcome on a full result |
| Cli.NoResults | scaling.py:228 | no sheet, or every sheet with no row. `FiltersOutcome` gives exactly when it holds after filtering |
| Cli.Run | scaling.py:190-230 | the driver from arguments to the printed tables or an error. `RunOutcome` characterises every outcome: its kind, the keys it keeps and the rows under them |
| Cli.FiltersOutcome | scaling.py:217-228 | on a full result the filters leave nothing exactly when an active scale filter names no standard scale. Otherwise the chosen or all sheets remain, with the chosen or all scales |
| Cli.RunOutcome | scaling.py:190-230 | a run fails a check exactly when an input is not positive. It is rejected as empty exactly when a non-zero scale filter names no standard scale. Otherwise it returns the chosen sheets and scales. Every row is the closed-form fit of the run's own width, height, `pixels/meters` and dpi on that row's sheet |

## Left out

- Argument parsing, the messages on the error stream and `sys.exit` are not
  modelled. A rejected run is a `Failure` naming its cause.
- `print_results` (scaling.py:119-156) and the debug prints
  (scaling.py:56-63, 90-101) are not modelled. They only format output.
- IEEE-754 behaviour is not modelled: rounding, overflow, infinities and NaN.
  "Every row fits" and "one coverage is exactly 100" hold in exact
  arithmetic. In floating point they may fail by one unit in the last place.
  The truncations (scaling.py:33, 109) and the rounding (scaling.py:111)
  can then land one integer away from the exact value. This happens where
  the exact value is an integer or a tie. The examples' inputs are such
  points: at 254 dpi, `mm/25.4*dpi` is an exact integer, and the ratio 2.5
  is a tie. There the model gives the exact-real answer, which a float run
  of `scaling.py` may miss by one.
- The `'1:N'` strings are not built. Keys are the integer N, and `OneTo(N)`
  stands for the text `'1:N'`.
- The image size and pixel count are `int`, as the argument parser gives
  them. The distance in metres is a `real`.
- Cli.FilterPaper: requires the chosen sheet to be a key of the results.
  The argument parser only accepts A0–A3, so the `KeyError` that
  scaling.py:218 would otherwise raise cannot happen.
- Cli.FiltersOutcome: its key-order clause holds unless the selection is
  empty. When the selection is empty, no sheet remains.
- Scaling.CalculateScalingFactors: takes `dpi` explicitly. The default
  `dpi=300` of scaling.py:5 is never used by the driver, which always passes
  `args.dpi` (scaling.py:214), whose own default of 300 is set at
  scaling.py:178.
