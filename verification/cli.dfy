/** The pure part of the command-line driver: the checks on the parsed
    arguments, the paper and scale filters applied to the calculated
    tables, and the rejection of a run whose filters leave nothing. Argument
    parsing, messages on the error stream, the exit status and the printed
    table are not modelled; a rejection is a `Failure` naming its cause. */
module Cli {
  import opened Wrappers
  import opened Dicts
  import opened PaperSizes
  import opened Scaling

  /** The parsed arguments the calculation and the filters use. */
  datatype Args = Args(
    width: int,
    height: int,
    pixels: int,
    meters: real,
    dpi: int,
    paper: Option<Paper>,
    scale: Option<int>)

  datatype CliError =
    | SizeNotPositive        // width or height not positive
    | ReferenceNotPositive   // pixels or meters not positive
    | DpiNotPositive
    | NoResultsFound         // the filters left no row

  predicate ValidInputs(a: Args) {
    a.width > 0 && a.height > 0 && a.pixels > 0 && a.meters > 0.0 && a.dpi > 0
  }

  /** The three checks, in order; the first one violated is reported. */
  function CheckInputs(a: Args): (r: Option<CliError>)
    ensures r.None? <==> ValidInputs(a)
    ensures r == Some(SizeNotPositive) <==> a.width <= 0 || a.height <= 0
    ensures r == Some(ReferenceNotPositive)
            <==> a.width > 0 && a.height > 0 && (a.pixels <= 0 || a.meters <= 0.0)
    ensures r == Some(DpiNotPositive)
            <==> a.width > 0 && a.height > 0 && a.pixels > 0 && a.meters > 0.0 && a.dpi <= 0
  {
    if a.width <= 0 || a.height <= 0 then Some(SizeNotPositive)
    else if a.pixels <= 0 || a.meters <= 0.0 then Some(ReferenceNotPositive)
    else if a.dpi <= 0 then Some(DpiNotPositive)
    else None
  }

  /** Python's truth test on the optional scale: an absent scale and a scale
      of 0 both leave the results unfiltered. */
  predicate ScaleFilterActive(scale: Option<int>) {
    scale.Some? && scale.value != 0
  }

  /** Keeps only the chosen sheet's table; the key is one the results have,
      since the argument parser only accepts the four sheet names. */
  function FilterPaper(results: Results, paper: Option<Paper>): (r: Results)
    requires paper.Some? ==> paper.value in Keys(results)
    ensures paper.None? ==> r == results
    ensures paper.Some? ==> |r| == 1 && r[0].0 == paper.value
                            && Lookup(results, paper.value) == Some(r[0].1)
  {
    match paper
    case None => results
    case Some(k) => [(k, Lookup(results, k).value)]
  }

  /** What the scale filter makes of one sheet's table: the table reduced to
      the row for `scale`, or nothing when it has no such row. */
  function Restrict(table: Option<ScaleTable>, scale: int): Option<ScaleTable> {
    match table
    case None => None
    case Some(t) =>
      match Lookup(t, scale)
      case None => None
      case Some(e) => Some([(scale, e)])
  }

  /** Keeps, in order, the sheets whose table has a row for `scale`, each
      reduced to that one row. */
  function FilterScale(results: Results, scale: int): (r: Results)
    ensures forall i :: 0 <= i < |r| ==> |r[i].1| == 1 && r[i].1[0].0 == scale
    ensures forall i :: 0 <= i < |r| ==> r[i].0 in Keys(results)
    ensures UniqueKeys(results) ==> UniqueKeys(r)
  {
    if results == [] then []
    else
      var rest := FilterScale(results[1..], scale);
      match Lookup(results[0].1, scale)
      case None => rest
      case Some(e) =>
        assert UniqueKeys(results) ==> results[0].0 !in Keys(results[1..]);
        [(results[0].0, [(scale, e)])] + rest
  }

  /** Looking a sheet up after the scale filter is looking it up before and
      restricting its table to the row for `scale`. */
  lemma {:induction false} FilterScaleLookup(results: Results, scale: int, k: Paper)
    requires UniqueKeys(results)
    ensures Lookup(FilterScale(results, scale), k) == Restrict(Lookup(results, k), scale)
  {
    if results != [] {
      assert UniqueKeys(results[1..]);
      FilterScaleLookup(results[1..], scale, k);
      if results[0].0 == k {
        assert k !in Keys(results[1..]);
      }
    }
  }

  /** The paper filter, then the scale filter. */
  function ApplyFilters(results: Results, paper: Option<Paper>, scale: Option<int>): Results
    requires paper.Some? ==> paper.value in Keys(results)
  {
    var byPaper := FilterPaper(results, paper);
    if ScaleFilterActive(scale) then FilterScale(byPaper, scale.value) else byPaper
  }

  /** No sheet left, or no row left in any sheet. */
  predicate NoResults(results: Results) {
    |results| == 0 || forall i :: 0 <= i < |results| ==> |results[i].1| == 0
  }

  /** The driver from checked arguments to the tables it prints. */
  function Run(a: Args): (r: Result<Results, CliError>)
  {
    match CheckInputs(a)
    case Some(e) => Failure(e)
    case None =>
      CalculateFailsIffZeroInput(a.width, a.height, a.pixels, a.meters, a.dpi);
      var results := CalculateScalingFactors(a.width, a.height, a.pixels, a.meters, a.dpi).value;
      AllPapersListed(a.paper);
      var filtered := ApplyFilters(results, a.paper, a.scale);
      if NoResults(filtered) then Failure(NoResultsFound) else Success(filtered)
  }

  /** The paper table lists every sheet. */
  lemma AllPapersListed(paper: Option<Paper>)
    ensures paper.Some? ==> paper.value in PaperOrder
  {
    if paper.Some? {
      match paper.value
      case A0 => assert PaperOrder[0] == A0;
      case A1 => assert PaperOrder[1] == A1;
      case A2 => assert PaperOrder[2] == A2;
      case A3 => assert PaperOrder[3] == A3;
    }
  }

  /** On tables that all have the same keys `ks`, the scale filter keeps
      every sheet when `scale` is one of them and none otherwise. */
  lemma {:induction false} FilterScaleUniform(results: Results, scale: int, ks: seq<int>)
    requires forall i :: 0 <= i < |results| ==> Keys(results[i].1) == ks
    ensures scale in ks ==> Keys(FilterScale(results, scale)) == Keys(results)
    ensures scale !in ks ==> FilterScale(results, scale) == []
  {
    if results != [] {
      FilterScaleUniform(results[1..], scale, ks);
      assert Keys(results[1..]) == Keys(results)[1..];
    }
  }

  /** On a full set of tables the paper filter leaves the chosen sheet (or
      all four), each still with every standard scale. */
  lemma PaperFilterOnFullResults(results: Results, paper: Option<Paper>)
    requires Keys(results) == PaperOrder
    requires forall i :: 0 <= i < |results| ==> Keys(results[i].1) == StandardScales
    requires paper.Some? ==> paper.value in Keys(results)
    ensures var byPaper := FilterPaper(results, paper);
            && |byPaper| > 0
            && Keys(byPaper) == (if paper.Some? then [paper.value] else PaperOrder)
            && forall i :: 0 <= i < |byPaper| ==> Keys(byPaper[i].1) == StandardScales
  {
    if paper.Some? {
      assert UniqueKeys(results);
      var k := paper.value;
      var idx :| 0 <= idx < |results| && results[idx].0 == k;
      LookupAt(results, idx);
    }
  }

  /** On a full set of tables (every sheet, every standard scale) the
      filters leave nothing exactly when an active scale filter names no
      standard scale; otherwise they leave the chosen sheet (or all four)
      with the chosen scale (or all ten). */
  lemma FiltersOutcome(results: Results, paper: Option<Paper>, scale: Option<int>)
    requires Keys(results) == PaperOrder
    requires forall i :: 0 <= i < |results| ==> Keys(results[i].1) == StandardScales
    requires paper.Some? ==> paper.value in Keys(results)
    ensures NoResults(ApplyFilters(results, paper, scale))
            <==> ScaleFilterActive(scale) && scale.value !in StandardScales
    ensures Keys(ApplyFilters(results, paper, scale))
            == (if paper.Some? then [paper.value] else PaperOrder)
            || NoResults(ApplyFilters(results, paper, scale))
    ensures forall i :: 0 <= i < |ApplyFilters(results, paper, scale)| ==>
              Keys(ApplyFilters(results, paper, scale)[i].1)
              == (if ScaleFilterActive(scale) then [scale.value] else StandardScales)
  {
    PaperFilterOnFullResults(results, paper);
    var byPaper := FilterPaper(results, paper);
    if ScaleFilterActive(scale) {
      var s := scale.value;
      FilterScaleUniform(byPaper, s, StandardScales);
      var r := FilterScale(byPaper, s);
      forall i | 0 <= i < |r|
        ensures Keys(r[i].1) == [s]
      {
      }
    }
  }

  /** A run fails for its inputs exactly when a check fails; on valid
      inputs it is rejected for an empty selection exactly when an active
      scale filter names no standard scale; otherwise it returns the chosen
      sheet (or all four, in table order), each with the chosen scale (or
      all ten, in list order). */
  lemma RunOutcome(a: Args)
    ensures Run(a).Failure? && Run(a).error != NoResultsFound <==> !ValidInputs(a)
    ensures Run(a) == Failure(NoResultsFound)
            <==> ValidInputs(a) && ScaleFilterActive(a.scale) && a.scale.value !in StandardScales
    ensures Run(a).Success? ==>
            ValidInputs(a)
            && RowsAreFit(Run(a).value, a.width, a.height, PixelsPerMeter(a.pixels, a.meters), a.dpi)
    ensures Run(a).Success? ==>
            Keys(Run(a).value) == (if a.paper.Some? then [a.paper.value] else PaperOrder)
    ensures Run(a).Success? ==>
            forall i :: 0 <= i < |Run(a).value| ==>
              Keys(Run(a).value[i].1)
              == (if ScaleFilterActive(a.scale) then [a.scale.value] else StandardScales)
  {
    if ValidInputs(a) {
      CalculateFailsIffZeroInput(a.width, a.height, a.pixels, a.meters, a.dpi);
      var results := CalculateScalingFactors(a.width, a.height, a.pixels, a.meters, a.dpi).value;
      AllPapersListed(a.paper);
      FiltersOutcome(results, a.paper, a.scale);
      RunRows(a);
    }
  }

  /** On valid inputs every row the filters keep is the calculated
      closed-form row for its sheet. */
  lemma RunRows(a: Args)
    requires ValidInputs(a)
    ensures var results := CalculateScalingFactors(a.width, a.height, a.pixels, a.meters, a.dpi);
            && results.Success?
            && (a.paper.Some? ==> a.paper.value in Keys(results.value))
            && RowsAreFit(ApplyFilters(results.value, a.paper, a.scale),
                          a.width, a.height, PixelsPerMeter(a.pixels, a.meters), a.dpi)
  {
    var ppm := PixelsPerMeter(a.pixels, a.meters);
    CalcRows(a.width, a.height, a.pixels, a.meters, a.dpi);
    var results := CalculateScalingFactors(a.width, a.height, a.pixels, a.meters, a.dpi).value;
    AllPapersListed(a.paper);
    PaperRows(results, a.paper, a.width, a.height, ppm, a.dpi);
    if ScaleFilterActive(a.scale) {
      FilterScaleRows(FilterPaper(results, a.paper), a.scale.value, a.width, a.height, ppm, a.dpi);
    }
  }

  /** The paper filter keeps only rows that were already closed-form. */
  lemma PaperRows(results: Results, paper: Option<Paper>,
                  w0: int, h0: int, ppm: real, dpi: int)
    requires w0 > 0 && h0 > 0 && ppm > 0.0 && dpi > 0
    requires paper.Some? ==> paper.value in Keys(results)
    requires RowsAreFit(results, w0, h0, ppm, dpi)
    ensures RowsAreFit(FilterPaper(results, paper), w0, h0, ppm, dpi)
  {
    if paper.Some? {
      LookupFound(results, paper.value);
    }
  }

  /** The scale filter keeps only rows that were already closed-form, each
      under the sheet it came from. */
  lemma {:induction false} FilterScaleRows(results: Results, scale: int,
                                           w0: int, h0: int, ppm: real, dpi: int)
    requires w0 > 0 && h0 > 0 && ppm > 0.0 && dpi > 0
    requires RowsAreFit(results, w0, h0, ppm, dpi)
    ensures RowsAreFit(FilterScale(results, scale), w0, h0, ppm, dpi)
  {
    if results != [] {
      forall i, j | 0 <= i < |results[1..]| && 0 <= j < |results[1..][i].1|
        ensures results[1..][i].1[j].1
                == FitEntry(w0, h0, ppm, dpi, PaperPixels(results[1..][i].0, dpi).0,
                            PaperPixels(results[1..][i].0, dpi).1)
      {
        assert results[1..][i] == results[i + 1];
      }
      FilterScaleRows(results[1..], scale, w0, h0, ppm, dpi);
      if scale in Keys(results[0].1) {
        LookupFound(results[0].1, scale);
      }
    }
  }
}
