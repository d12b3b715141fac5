/** The calculation of `calculate_scaling_factors`: for every sheet and every
    standard map scale, the uniform factor by which to scale a terrain image
    so that it fills the sheet, with the resulting pixel size, the map scale
    actually reached, the share of the sheet covered and whether it fits.

    Python floats are exact reals here. A float division by zero raises
    `ZeroDivisionError` in Python; here it is `Failure(ZeroDivision)`, so the
    calculation is defined for every input, not only validated ones. */
module Scaling {
  import opened Wrappers
  import opened Dicts
  import opened Numeric
  import opened PaperSizes

  datatype CalcError = ZeroDivision

  /** The `actual_scale` text: `1:N` for a positive ratio, `1:ERROR` otherwise. */
  datatype ActualScale = OneTo(denominator: int) | ScaleError

  /** One row of the result: what the image becomes on one sheet when aimed
      at one map scale. */
  datatype ScaleEntry = ScaleEntry(
    totalScalingFactor: real,
    finalDimensionsPx: (int, int),
    paperDimensionsPx: (int, int),
    actualScale: ActualScale,
    coverageXPercent: real,
    coverageYPercent: real,
    fitsOnPaper: bool)

  /** Rows keyed by the map-scale denominator `N` of `1:N`. */
  type ScaleTable = Dict<int, ScaleEntry>

  /** Tables keyed by sheet. */
  type Results = Dict<Paper, ScaleTable>

  /** Pixels per real-world metre that print at `dpi` as the map scale
      `1:scaleRatio`. */
  function TargetPixelsPerMeter(dpi: int, scaleRatio: int): real
    requires scaleRatio != 0
  {
    (dpi as real / 25.4) * 1000.0 / scaleRatio as real
  }

  /** The ratio reported as the scale achieved: print pixels per
      millimetre over the pixels per metre of the scaled image. The
      calculator has no factor 1000 here (see `ActualScaleAtExactFit`). */
  function ActualScaleRatio(originalPpm: real, dpi: int, total: real): real
    requires originalPpm * total != 0.0
  {
    (dpi as real / 25.4) / (originalPpm * total)
  }

  /** Rendering of the ratio as `1:N`, rounded half to even. */
  function ReportedScale(ratio: real): (s: ActualScale)
    ensures s.OneTo? <==> ratio > 0.0
    ensures s.OneTo? ==> ratio - 0.5 <= s.denominator as real <= ratio + 0.5
  {
    if ratio > 0.0 then OneTo(RoundHalfEven(ratio)) else ScaleError
  }

  /** A row once the total factor is known: final size, the scale reached,
      coverage of the sheet and the fit test. For a positive factor that
      fits a sheet with positive sides the row passes the fit test, its
      final size lies within the sheet's, its coverages lie in (0, 100] and
      reach 100 on an axis the image fills, and its scale is the achieved
      ratio rounded, never `1:ERROR`. */
  function RowFor(w0: int, h0: int, originalPpm: real, dpi: int,
                  wt: int, ht: int, total: real): (e: ScaleEntry)
    requires originalPpm * total != 0.0 && wt != 0 && ht != 0
    ensures w0 > 0 && h0 > 0 && originalPpm > 0.0 && dpi > 0 && wt > 0 && ht > 0 && total > 0.0
            && w0 as real * total <= wt as real && h0 as real * total <= ht as real
            ==>
            && e.fitsOnPaper
            && e.paperDimensionsPx == (wt, ht)
            && 0 <= e.finalDimensionsPx.0 <= wt && 0 <= e.finalDimensionsPx.1 <= ht
            && 0.0 < e.coverageXPercent <= 100.0 && 0.0 < e.coverageYPercent <= 100.0
            && (w0 as real * total == wt as real ==> e.coverageXPercent == 100.0)
            && (h0 as real * total == ht as real ==> e.coverageYPercent == 100.0)
            && e.actualScale.OneTo?
            && var ratio := ActualScaleRatio(originalPpm, dpi, total);
               ratio > 0.0 && ratio - 0.5 <= e.actualScale.denominator as real <= ratio + 0.5
  {
    var finalW := w0 as real * total;
    var finalH := h0 as real * total;
    PositiveProduct(w0 as real, total);
    PositiveProduct(h0 as real, total);
    CoverageBounds(finalW, wt as real);
    CoverageBounds(finalH, ht as real);
    ScaleRatioPositive(originalPpm, dpi, total);
    ScaleEntry(
      total,
      (Trunc(finalW), Trunc(finalH)),
      (wt, ht),
      ReportedScale(ActualScaleRatio(originalPpm, dpi, total)),
      finalW / wt as real * 100.0,
      finalH / ht as real * 100.0,
      finalW <= wt as real && finalH <= ht as real)
  }

  /** The scale reached by a positive factor at a positive resolution is
      positive, so it is never reported as `1:ERROR`. */
  lemma ScaleRatioPositive(originalPpm: real, dpi: int, total: real)
    requires originalPpm * total != 0.0
    ensures originalPpm > 0.0 && dpi > 0 && total > 0.0
            ==> ActualScaleRatio(originalPpm, dpi, total) > 0.0
  {
    PositiveProduct(originalPpm, total);
  }

  /** The factor that would print the image at `1:scaleRatio`: target
      pixels per metre over the image's own pixels per metre. */
  function MapScaleFactor(originalPpm: real, dpi: int, scaleRatio: int): real
    requires scaleRatio != 0 && originalPpm != 0.0
  {
    TargetPixelsPerMeter(dpi, scaleRatio) / originalPpm
  }

  /** The image scaled by `factor`, then fitted uniformly to the sheet of
      `wt` by `ht` pixels; the product of both factors, or a division by
      zero when the scaled image has a zero side. */
  function FitAfterScaling(w0: int, h0: int, wt: int, ht: int, factor: real)
    : Result<real, CalcError>
  {
    var scaledW := w0 as real * factor;
    var scaledH := h0 as real * factor;
    if scaledW == 0.0 || scaledH == 0.0 then Failure(ZeroDivision)
    else Success(factor * Min(wt as real / scaledW, ht as real / scaledH))
  }

  /** The total factor of a row, step by step as the calculator computes
      it: the factor that would print the image at `1:scaleRatio`, times the
      extra uniform factor that makes the scaled image fill the sheet. */
  function TotalScale(w0: int, h0: int, originalPpm: real, dpi: int,
                      wt: int, ht: int, scaleRatio: int): Result<real, CalcError>
  {
    if scaleRatio == 0 || originalPpm == 0.0 then Failure(ZeroDivision)
    else FitAfterScaling(w0, h0, wt, ht, MapScaleFactor(originalPpm, dpi, scaleRatio))
  }

  /** One row for one sheet and one map scale. */
  function ComputeEntry(w0: int, h0: int, originalPpm: real, dpi: int,
                        wt: int, ht: int, scaleRatio: int): Result<ScaleEntry, CalcError>
  {
    match TotalScale(w0, h0, originalPpm, dpi, wt, ht, scaleRatio)
    case Failure(e) => Failure(e)
    case Success(total) =>
      if originalPpm * total == 0.0 || wt == 0 || ht == 0 then Failure(ZeroDivision)
      else Success(RowFor(w0, h0, originalPpm, dpi, wt, ht, total))
  }

  /** The largest uniform factor by which an image of `w0` by `h0` pixels
      still fits a sheet of `wt` by `ht` pixels. */
  function FitFactor(w0: int, h0: int, wt: int, ht: int): real
    requires w0 > 0 && h0 > 0
  {
    Min(wt as real / w0 as real, ht as real / h0 as real)
  }

  /** The row in closed form for positive inputs: the map scale cancels out
      and the factor is the largest uniform factor that still fits the
      sheet (`FitEntryProperties` states what it promises). */
  function FitEntry(w0: int, h0: int, originalPpm: real, dpi: int, wt: int, ht: int): ScaleEntry
    requires w0 > 0 && h0 > 0 && originalPpm > 0.0 && wt > 0 && ht > 0
  {
    FitFactorFits(w0, h0, wt, ht);
    assert originalPpm * FitFactor(w0, h0, wt, ht) > 0.0;
    RowFor(w0, h0, originalPpm, dpi, wt, ht, FitFactor(w0, h0, wt, ht))
  }

  /** What every row of a valid calculation promises: its factor is
      positive, fits the sheet on both axes and fills it on one; the fit
      test passes; the final pixel size is within the sheet's; both
      coverages lie in (0, 100] and one of them is exactly 100; and the
      scale is the achieved ratio rounded, never `1:ERROR`. */
  lemma FitEntryProperties(w0: int, h0: int, originalPpm: real, dpi: int, wt: int, ht: int)
    requires w0 > 0 && h0 > 0 && originalPpm > 0.0 && dpi > 0 && wt > 0 && ht > 0
    ensures var e := FitEntry(w0, h0, originalPpm, dpi, wt, ht);
            && e.paperDimensionsPx == (wt, ht)
            && e.totalScalingFactor > 0.0
            && w0 as real * e.totalScalingFactor <= wt as real
            && h0 as real * e.totalScalingFactor <= ht as real
            && (w0 as real * e.totalScalingFactor == wt as real
                || h0 as real * e.totalScalingFactor == ht as real)
            && e.fitsOnPaper
            && 0 <= e.finalDimensionsPx.0 <= wt && 0 <= e.finalDimensionsPx.1 <= ht
            && 0.0 < e.coverageXPercent <= 100.0 && 0.0 < e.coverageYPercent <= 100.0
            && (e.coverageXPercent == 100.0 || e.coverageYPercent == 100.0)
            && e.actualScale.OneTo?
            && originalPpm * e.totalScalingFactor > 0.0
            && var ratio := ActualScaleRatio(originalPpm, dpi, e.totalScalingFactor);
               ratio > 0.0 && ratio - 0.5 <= e.actualScale.denominator as real <= ratio + 0.5
  {
    var total := FitFactor(w0, h0, wt, ht);
    FitFactorFits(w0, h0, wt, ht);
    var e := FitEntry(w0, h0, originalPpm, dpi, wt, ht);
    assert e == RowFor(w0, h0, originalPpm, dpi, wt, ht, total);
    assert e.totalScalingFactor == total;
  }

  /** The fit factor is positive, fits the sheet on both axes and fills it
      on at least one. */
  lemma FitFactorFits(w0: int, h0: int, wt: int, ht: int)
    requires w0 > 0 && h0 > 0 && wt > 0 && ht > 0
    ensures FitFactor(w0, h0, wt, ht) > 0.0
    ensures w0 as real * FitFactor(w0, h0, wt, ht) <= wt as real
    ensures h0 as real * FitFactor(w0, h0, wt, ht) <= ht as real
    ensures w0 as real * FitFactor(w0, h0, wt, ht) == wt as real
            || h0 as real * FitFactor(w0, h0, wt, ht) == ht as real
  {
    var total := FitFactor(w0, h0, wt, ht);
    CrossMultiply(wt as real, w0 as real, total);
    CrossMultiply(ht as real, h0 as real, total);
  }

  /** `b * t <= a` when `t <= a / b`, with equality at `t == a / b`. */
  lemma CrossMultiply(a: real, b: real, t: real)
    requires b > 0.0 && t <= a / b
    ensures b * t <= a
    ensures t == a / b ==> b * t == a
  {
    assert b * t <= b * (a / b);
  }

  /** A positive length no longer than the sheet covers a share of it in
      (0, 100], and exactly 100 when it spans the sheet. */
  lemma CoverageBounds(len: real, sheet: real)
    ensures 0.0 < len <= sheet ==> 0.0 < len / sheet * 100.0 <= 100.0
    ensures 0.0 < len && len == sheet ==> len / sheet * 100.0 == 100.0
  {
    if 0.0 < len <= sheet {
      assert len / sheet <= 1.0;
    }
  }

  /** No uniform factor larger than the chosen one fits the image on the
      sheet: the calculator picks the largest fit. */
  lemma LargestFit(w0: int, h0: int, wt: int, ht: int, c: real)
    requires w0 > 0 && h0 > 0 && wt > 0 && ht > 0
    requires w0 as real * c <= wt as real && h0 as real * c <= ht as real
    ensures c <= FitFactor(w0, h0, wt, ht)
  {
    assert c <= wt as real / w0 as real by {
      assert c == (w0 as real * c) / w0 as real;
    }
    assert c <= ht as real / h0 as real by {
      assert c == (h0 as real * c) / h0 as real;
    }
  }

  /** Scaling both arguments of `min` by a positive divisor commutes with it,
      ties included. */
  lemma MinDivide(a: real, b: real, f: real)
    requires f > 0.0
    ensures f * Min(a / f, b / f) == Min(a, b)
  {
    assert b / f < a / f <==> b < a;
  }

  /** For positive inputs and a positive map scale the step-by-step row is
      the closed form: the map-scale factor cancels. */
  lemma EntryMatchesFit(w0: int, h0: int, originalPpm: real, dpi: int,
                        wt: int, ht: int, scaleRatio: int)
    requires w0 > 0 && h0 > 0 && originalPpm > 0.0 && dpi > 0 && wt > 0 && ht > 0
    requires scaleRatio > 0
    ensures ComputeEntry(w0, h0, originalPpm, dpi, wt, ht, scaleRatio)
            == Success(FitEntry(w0, h0, originalPpm, dpi, wt, ht))
  {
    TotalScaleIsFit(w0, h0, originalPpm, dpi, wt, ht, scaleRatio);
    FitFactorFits(w0, h0, wt, ht);
    assert originalPpm * FitFactor(w0, h0, wt, ht) > 0.0;
  }

  /** For positive inputs and a positive map scale the map-scale factor
      cancels: the total factor is the fit factor. */
  lemma TotalScaleIsFit(w0: int, h0: int, originalPpm: real, dpi: int,
                        wt: int, ht: int, scaleRatio: int)
    requires w0 > 0 && h0 > 0 && originalPpm > 0.0 && dpi > 0 && wt > 0 && ht > 0
    requires scaleRatio > 0
    ensures TotalScale(w0, h0, originalPpm, dpi, wt, ht, scaleRatio).Success?
    ensures TotalScale(w0, h0, originalPpm, dpi, wt, ht, scaleRatio).value
            == FitFactor(w0, h0, wt, ht)
  {
    MapScaleFactorSign(originalPpm, dpi, scaleRatio);
    FitAfterScalingIsFit(w0, h0, wt, ht, MapScaleFactor(originalPpm, dpi, scaleRatio));
  }

  /** The map-scale factor is zero exactly when the resolution is, and
      positive when all its inputs are. */
  lemma MapScaleFactorSign(originalPpm: real, dpi: int, scaleRatio: int)
    requires scaleRatio != 0 && originalPpm != 0.0
    ensures MapScaleFactor(originalPpm, dpi, scaleRatio) != 0.0 <==> dpi != 0
    ensures originalPpm > 0.0 && dpi > 0 && scaleRatio > 0
            ==> MapScaleFactor(originalPpm, dpi, scaleRatio) > 0.0
  {
    var target := TargetPixelsPerMeter(dpi, scaleRatio);
    assert target != 0.0 <==> dpi != 0;
    if originalPpm > 0.0 && dpi > 0 && scaleRatio > 0 {
      assert target > 0.0;
    }
  }

  /** Fitting after any positive factor gives the plain fit factor: the
      factor cancels. */
  lemma FitAfterScalingIsFit(w0: int, h0: int, wt: int, ht: int, factor: real)
    requires w0 > 0 && h0 > 0 && factor > 0.0
    ensures FitAfterScaling(w0, h0, wt, ht, factor).Success?
    ensures FitAfterScaling(w0, h0, wt, ht, factor).value == FitFactor(w0, h0, wt, ht)
  {
    PositiveProduct(w0 as real, factor);
    PositiveProduct(h0 as real, factor);
    assert w0 as real * factor > 0.0 && h0 as real * factor > 0.0;
    FactorCancels(wt as real, ht as real, w0 as real, h0 as real, factor);
    assert FitFactor(w0, h0, wt, ht) == Min(wt as real / w0 as real, ht as real / h0 as real);
  }

  /** A product of positive reals is positive. */
  lemma PositiveProduct(a: real, b: real)
    ensures a > 0.0 && b > 0.0 ==> a * b > 0.0
  {
  }

  /** Scaling the image by a positive factor before fitting it and
      multiplying the fit by that factor again gives the plain fit. */
  lemma FactorCancels(w: real, h: real, x: real, y: real, f: real)
    requires x > 0.0 && y > 0.0 && f > 0.0
    ensures f * Min(w / (x * f), h / (y * f)) == Min(w / x, h / y)
  {
    DivideTwice(w, x, f);
    DivideTwice(h, y, f);
    MinDivide(w / x, h / y, f);
  }

  /** Dividing by a product is dividing twice. */
  lemma DivideTwice(a: real, b: real, f: real)
    requires b != 0.0 && f != 0.0
    ensures a / (b * f) == (a / b) / f
  {
  }

  /** A row is computed without a division by zero exactly when no input is
      zero. */
  lemma EntrySucceedsIff(w0: int, h0: int, originalPpm: real, dpi: int,
                         wt: int, ht: int, scaleRatio: int)
    ensures ComputeEntry(w0, h0, originalPpm, dpi, wt, ht, scaleRatio).Success?
            <==> scaleRatio != 0 && originalPpm != 0.0 && dpi != 0
                 && w0 != 0 && h0 != 0 && wt != 0 && ht != 0
  {
    TotalScaleSucceedsIff(w0, h0, originalPpm, dpi, wt, ht, scaleRatio);
    var t := TotalScale(w0, h0, originalPpm, dpi, wt, ht, scaleRatio);
    if t.Success? && wt != 0 && ht != 0 {
      TotalScaleNonZero(w0, h0, originalPpm, dpi, wt, ht, scaleRatio);
      ProductNonZero(originalPpm, t.value);
    }
  }

  /** A product of reals is zero exactly when a factor is. */
  lemma ProductNonZero(a: real, b: real)
    ensures a * b != 0.0 <==> a != 0.0 && b != 0.0
  {
  }

  /** The total factor is computed without a division by zero exactly when
      neither the map scale, the pixels per metre, the resolution nor the
      image size is zero. */
  lemma TotalScaleSucceedsIff(w0: int, h0: int, originalPpm: real, dpi: int,
                              wt: int, ht: int, scaleRatio: int)
    ensures TotalScale(w0, h0, originalPpm, dpi, wt, ht, scaleRatio).Success?
            <==> scaleRatio != 0 && originalPpm != 0.0 && dpi != 0 && w0 != 0 && h0 != 0
  {
    if scaleRatio != 0 && originalPpm != 0.0 {
      var factor := MapScaleFactor(originalPpm, dpi, scaleRatio);
      MapScaleFactorSign(originalPpm, dpi, scaleRatio);
      ProductNonZero(w0 as real, factor);
      ProductNonZero(h0 as real, factor);
    }
  }

  /** A computed total factor for a sheet with no zero side is non-zero. */
  lemma TotalScaleNonZero(w0: int, h0: int, originalPpm: real, dpi: int,
                          wt: int, ht: int, scaleRatio: int)
    requires TotalScale(w0, h0, originalPpm, dpi, wt, ht, scaleRatio).Success?
    requires wt != 0 && ht != 0
    ensures TotalScale(w0, h0, originalPpm, dpi, wt, ht, scaleRatio).value != 0.0
  {
    var factor := MapScaleFactor(originalPpm, dpi, scaleRatio);
    FitAfterScalingNonZero(w0, h0, wt, ht, factor);
  }

  /** With a sheet of no zero side a successful fit is non-zero. */
  lemma FitAfterScalingNonZero(w0: int, h0: int, wt: int, ht: int, factor: real)
    requires FitAfterScaling(w0, h0, wt, ht, factor).Success?
    requires wt != 0 && ht != 0
    ensures FitAfterScaling(w0, h0, wt, ht, factor).value != 0.0
  {
    var scaledW, scaledH := w0 as real * factor, h0 as real * factor;
    ProductNonZero(w0 as real, factor);
    assert wt as real / scaledW != 0.0 && ht as real / scaledH != 0.0;
    var fit := Min(wt as real / scaledW, ht as real / scaledH);
    ProductNonZero(factor, fit);
  }

  /** All rows of one sheet, one per map scale, in the order of `scales`;
      the first division by zero aborts the whole table. */
  function ComputeScales(w0: int, h0: int, originalPpm: real, dpi: int,
                         wt: int, ht: int, scales: seq<int>): (r: Result<ScaleTable, CalcError>)
    ensures r.Success? <==>
            forall i :: 0 <= i < |scales| ==>
              ComputeEntry(w0, h0, originalPpm, dpi, wt, ht, scales[i]).Success?
    ensures r.Success? ==> Keys(r.value) == scales
    ensures r.Success? ==>
            forall i :: 0 <= i < |scales| ==>
              ComputeEntry(w0, h0, originalPpm, dpi, wt, ht, scales[i]) == Success(r.value[i].1)
  {
    if scales == [] then Success([])
    else
      match ComputeEntry(w0, h0, originalPpm, dpi, wt, ht, scales[0])
      case Failure(e) => Failure(e)
      case Success(entry) =>
        match ComputeScales(w0, h0, originalPpm, dpi, wt, ht, scales[1..])
        case Failure(e) => Failure(e)
        case Success(rest) => Success([(scales[0], entry)] + rest)
  }

  /** The table of one sheet: its size in pixels at `dpi`, then a row for
      every standard scale. */
  function SheetTable(w0: int, h0: int, originalPpm: real, dpi: int, paper: Paper)
    : Result<ScaleTable, CalcError>
  {
    ComputeScales(w0, h0, originalPpm, dpi,
                  PaperPixels(paper, dpi).0, PaperPixels(paper, dpi).1, StandardScales)
  }

  /** The table of every sheet in `papers`, in that order, each sheet
      converted to pixels at `dpi` and given every standard scale. */
  function ComputePapers(w0: int, h0: int, originalPpm: real, dpi: int,
                         papers: seq<Paper>): (r: Result<Results, CalcError>)
    ensures r.Success? <==>
            forall i :: 0 <= i < |papers| ==>
              SheetTable(w0, h0, originalPpm, dpi, papers[i]).Success?
    ensures r.Success? ==> Keys(r.value) == papers
    ensures r.Success? ==>
            forall i :: 0 <= i < |papers| ==>
              SheetTable(w0, h0, originalPpm, dpi, papers[i]) == Success(r.value[i].1)
  {
    if papers == [] then Success([])
    else
      match SheetTable(w0, h0, originalPpm, dpi, papers[0])
      case Failure(e) => Failure(e)
      case Success(table) =>
        match ComputePapers(w0, h0, originalPpm, dpi, papers[1..])
        case Failure(e) => Failure(e)
        case Success(rest) => Success([(papers[0], table)] + rest)
  }

  /** Pixels of the image per real-world metre: `p` pixels span `m` metres. */
  function PixelsPerMeter(p: int, m: real): (ppm: real)
    requires m != 0.0
    ensures ppm != 0.0 <==> p != 0
    ensures p > 0 && m > 0.0 ==> ppm > 0.0
    ensures ppm * m == p as real
  {
    p as real / m
  }

  /** `calculate_scaling_factors(w0, h0, p, m, dpi)`: image size in pixels,
      `p` pixels of the image spanning `m` metres, print resolution. Every
      successful result holds the four sheets in table order, each with the
      ten standard scales in list order. */
  function CalculateScalingFactors(w0: int, h0: int, p: int, m: real, dpi: int)
    : (r: Result<Results, CalcError>)
    ensures r.Success? ==> Keys(r.value) == PaperOrder
    ensures r.Success? ==> forall i :: 0 <= i < |r.value| ==> Keys(r.value[i].1) == StandardScales
  {
    if m == 0.0 then Failure(ZeroDivision)
    else ComputePapers(w0, h0, PixelsPerMeter(p, m), dpi, PaperOrder)
  }

  /** The calculation raises `ZeroDivisionError` exactly when one of its
      inputs is zero; any other input, negative ones included, completes. */
  lemma CalculateFailsIffZeroInput(w0: int, h0: int, p: int, m: real, dpi: int)
    ensures CalculateScalingFactors(w0, h0, p, m, dpi).Failure?
            <==> w0 == 0 || h0 == 0 || p == 0 || m == 0.0 || dpi == 0
  {
    if m != 0.0 {
      var ppm := PixelsPerMeter(p, m);
      forall i | 0 <= i < |PaperOrder|
        ensures PaperPixels(PaperOrder[i], dpi).0 != 0 <==> dpi != 0
        ensures PaperPixels(PaperOrder[i], dpi).1 != 0 <==> dpi != 0
      {
        PaperPixelsNonZero(PaperOrder[i], dpi);
      }
      forall i, j | 0 <= i < |PaperOrder| && 0 <= j < |StandardScales|
        ensures ComputeEntry(w0, h0, ppm, dpi, PaperPixels(PaperOrder[i], dpi).0,
                             PaperPixels(PaperOrder[i], dpi).1, StandardScales[j]).Success?
                <==> ppm != 0.0 && dpi != 0 && w0 != 0 && h0 != 0
      {
        EntrySucceedsIff(w0, h0, ppm, dpi, PaperPixels(PaperOrder[i], dpi).0,
                         PaperPixels(PaperOrder[i], dpi).1, StandardScales[j]);
      }
      if w0 == 0 || h0 == 0 || p == 0 || dpi == 0 {
        assert !SheetTable(w0, h0, ppm, dpi, PaperOrder[0]).Success?;
      }
    }
  }

  /** On the inputs the command line accepts (all positive) the calculation
      completes, and every row of a sheet is the closed-form fit for that
      sheet's pixel size, whatever the map scale. */
  lemma CalculateOnValidInputs(w0: int, h0: int, p: int, m: real, dpi: int)
    requires w0 > 0 && h0 > 0 && p > 0 && m > 0.0 && dpi > 0
    ensures var r := CalculateScalingFactors(w0, h0, p, m, dpi);
            && r.Success?
            && Keys(r.value) == PaperOrder
            && (forall i :: 0 <= i < |r.value| ==> Keys(r.value[i].1) == StandardScales)
            && forall i, j :: 0 <= i < |r.value| && 0 <= j < |r.value[i].1| ==>
                 r.value[i].1[j].1 == FitEntry(w0, h0, PixelsPerMeter(p, m), dpi,
                                               PaperPixels(PaperOrder[i], dpi).0,
                                               PaperPixels(PaperOrder[i], dpi).1)
  {
    var ppm := PixelsPerMeter(p, m);
    var r := CalculateScalingFactors(w0, h0, p, m, dpi);
    PapersOnValidInputs(w0, h0, ppm, dpi, PaperOrder);
    assert r == ComputePapers(w0, h0, ppm, dpi, PaperOrder);
    forall i, j | 0 <= i < |r.value| && 0 <= j < |r.value[i].1|
      ensures r.value[i].1[j].1 == FitEntry(w0, h0, PixelsPerMeter(p, m), dpi,
                                            PaperPixels(PaperOrder[i], dpi).0,
                                            PaperPixels(PaperOrder[i], dpi).1)
    {
      assert r.value[i].1[j].1 == FitEntry(w0, h0, ppm, dpi,
                                           PaperPixels(PaperOrder[i], dpi).0,
                                           PaperPixels(PaperOrder[i], dpi).1);
    }
  }

  /** Every row of every sheet in `results` is the closed-form row of the
      image on that sheet, whatever order or subset of sheets it holds. */
  predicate RowsAreFit(results: Results, w0: int, h0: int, originalPpm: real, dpi: int)
    requires w0 > 0 && h0 > 0 && originalPpm > 0.0 && dpi > 0
  {
    forall i, j :: 0 <= i < |results| && 0 <= j < |results[i].1| ==>
      results[i].1[j].1 == FitEntry(w0, h0, originalPpm, dpi,
                                    PaperPixels(results[i].0, dpi).0,
                                    PaperPixels(results[i].0, dpi).1)
  }

  /** On positive inputs the calculation completes and every row, found under
      its sheet's key, is the closed-form row for that sheet. */
  lemma CalcRows(w0: int, h0: int, p: int, m: real, dpi: int)
    requires w0 > 0 && h0 > 0 && p > 0 && m > 0.0 && dpi > 0
    ensures CalculateScalingFactors(w0, h0, p, m, dpi).Success?
    ensures RowsAreFit(CalculateScalingFactors(w0, h0, p, m, dpi).value,
                       w0, h0, PixelsPerMeter(p, m), dpi)
  {
    CalculateOnValidInputs(w0, h0, p, m, dpi);
    var r := CalculateScalingFactors(w0, h0, p, m, dpi).value;
    assert forall i :: 0 <= i < |r| ==> r[i].0 == Keys(r)[i] == PaperOrder[i];
  }

  /** Every sheet's table on positive inputs consists of closed-form rows. */
  lemma PapersOnValidInputs(w0: int, h0: int, originalPpm: real, dpi: int, papers: seq<Paper>)
    requires w0 > 0 && h0 > 0 && originalPpm > 0.0 && dpi > 0
    ensures var r := ComputePapers(w0, h0, originalPpm, dpi, papers);
            && r.Success?
            && forall i, j :: 0 <= i < |r.value| && 0 <= j < |r.value[i].1| ==>
                 r.value[i].1[j].1 == FitEntry(w0, h0, originalPpm, dpi,
                                               PaperPixels(papers[i], dpi).0,
                                               PaperPixels(papers[i], dpi).1)
  {
    forall i | 0 <= i < |papers|
      ensures var (wt, ht) := PaperPixels(papers[i], dpi);
              && wt > 0 && ht > 0
              && var t := ComputeScales(w0, h0, originalPpm, dpi, wt, ht, StandardScales);
              && t.Success?
              && forall j :: 0 <= j < |t.value| ==>
                   t.value[j].1 == FitEntry(w0, h0, originalPpm, dpi, wt, ht)
    {
      var (wt, ht) := PaperPixels(papers[i], dpi);
      ScalesOnValidInputs(w0, h0, originalPpm, dpi, wt, ht, StandardScales);
    }
  }

  /** One sheet's table on positive inputs and positive map scales consists
      of closed-form rows. */
  lemma ScalesOnValidInputs(w0: int, h0: int, originalPpm: real, dpi: int,
                            wt: int, ht: int, scales: seq<int>)
    requires w0 > 0 && h0 > 0 && originalPpm > 0.0 && dpi > 0 && wt > 0 && ht > 0
    requires forall i :: 0 <= i < |scales| ==> scales[i] > 0
    ensures var r := ComputeScales(w0, h0, originalPpm, dpi, wt, ht, scales);
            && r.Success?
            && forall j :: 0 <= j < |r.value| ==>
                 r.value[j].1 == FitEntry(w0, h0, originalPpm, dpi, wt, ht)
  {
    forall j | 0 <= j < |scales|
      ensures ComputeEntry(w0, h0, originalPpm, dpi, wt, ht, scales[j])
              == Success(FitEntry(w0, h0, originalPpm, dpi, wt, ht))
    {
      EntryMatchesFit(w0, h0, originalPpm, dpi, wt, ht, scales[j]);
    }
  }

  /** The map scale does not influence a row: on valid inputs the ten rows
      of one sheet are identical. */
  lemma ScaleDoesNotMatter(w0: int, h0: int, p: int, m: real, dpi: int)
    requires w0 > 0 && h0 > 0 && p > 0 && m > 0.0 && dpi > 0
    ensures var r := CalculateScalingFactors(w0, h0, p, m, dpi);
            && r.Success?
            && forall i, j, k ::
                 0 <= i < |r.value| && 0 <= j < |r.value[i].1| && 0 <= k < |r.value[i].1| ==>
                 r.value[i].1[j].1 == r.value[i].1[k].1
  {
    CalculateOnValidInputs(w0, h0, p, m, dpi);
  }

  /** The reported ratio lacks the factor 1000 that `TargetPixelsPerMeter`
      has: when the fitted image prints at exactly `1:scaleRatio`, the row
      reports `scaleRatio / 1000`. */
  lemma ActualScaleAtExactFit(originalPpm: real, dpi: int, scaleRatio: int, total: real)
    requires originalPpm > 0.0 && dpi > 0 && scaleRatio > 0
    requires total == MapScaleFactor(originalPpm, dpi, scaleRatio)
    ensures originalPpm * total != 0.0
    ensures ActualScaleRatio(originalPpm, dpi, total) == scaleRatio as real / 1000.0
  {
    var t := TargetPixelsPerMeter(dpi, scaleRatio);
    assert originalPpm * total == t;
    assert t > 0.0;
  }

  /** A concrete case: a 2970 by 4200 pixel image at 10 pixels per metre,
      printed at 254 dpi on A3, fills the sheet at 1:1000 exactly (one metre
      is ten pixels, one millimetre on paper), and the row reports `1:1`. */
  lemma ActualScaleExample()
    ensures PaperPixels(A3, 254) == (2970, 4200)
    ensures var r := ComputeEntry(2970, 4200, 10.0, 254, 2970, 4200, 1000);
            r.Success? && r.value.actualScale == OneTo(1)
  {
    EntryMatchesFit(2970, 4200, 10.0, 254, 2970, 4200, 1000);
    var e := FitEntry(2970, 4200, 10.0, 254, 2970, 4200);
    assert e.totalScalingFactor == 1.0;
    assert ActualScaleRatio(10.0, 254, 1.0) == 1.0;
  }

  /** The reported scale is the ratio rounded half to even: a
      7425×10500 px image at 10 px/m fits A3 at 254 dpi with factor 0.4
      for the map scale 1:2500, the ratio is 2.5 and the row reports `1:2`. */
  lemma ActualScaleRoundingExample()
    ensures var r := ComputeEntry(7425, 10500, 10.0, 254, 2970, 4200, 2500);
            r.Success? && r.value.totalScalingFactor == 0.4 && r.value.actualScale == OneTo(2)
  {
    EntryMatchesFit(7425, 10500, 10.0, 254, 2970, 4200, 2500);
    var e := FitEntry(7425, 10500, 10.0, 254, 2970, 4200);
    assert FitFactor(7425, 10500, 2970, 4200) == 0.4;
    assert e.totalScalingFactor == 0.4;
    assert ActualScaleRatio(10.0, 254, 0.4) == 2.5;
    assert RoundHalfEven(2.5) == 2;
  }
}
