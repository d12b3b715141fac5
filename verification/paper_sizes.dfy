/** The constant tables of the calculator: the four ISO 216 A-series sheets
    it knows, with their trimmed sizes in millimetres, the ten map-scale
    denominators it tries, and the millimetre-to-pixel conversion at a print
    resolution. */
module PaperSizes {
  import opened Numeric

  datatype Paper = A0 | A1 | A2 | A3

  /** Iteration order of the paper table. */
  const PaperOrder: seq<Paper> := [A0, A1, A2, A3]

  /** Denominators `N` of the map scales `1:N`, in the order they are tried. */
  const StandardScales: seq<int> :=
    [1000, 2000, 2500, 5000, 10000, 25000, 50000, 100000, 250000, 500000]

  /** Portrait width and height of a sheet, in millimetres. */
  function SizeMm(p: Paper): (nat, nat) {
    match p
    case A0 => (841, 1189)
    case A1 => (594, 841)
    case A2 => (420, 594)
    case A3 => (297, 420)
  }

  /** Pixels spanned by `mm` millimetres printed at `dpi` dots per inch:
      inches times dots per inch, truncated toward zero. For a non-negative
      length and resolution that is the integer quotient of `mm * dpi * 10`
      by 254, since an inch is 25.4 mm. */
  function MmToPixels(mm: int, dpi: int): (px: int)
    ensures 0 <= mm && 0 <= dpi ==> px == (mm * dpi * 10) / 254
  {
    var x := mm as real / 25.4 * dpi as real;
    assert x == ((mm * dpi * 10) as real) / (254 as real);
    FloorOfQuotient(mm * dpi * 10, 254);
    Trunc(x)
  }

  /** Width and height of a sheet in pixels at `dpi`; both positive at any
      resolution of at least one dot per inch. */
  function PaperPixels(p: Paper, dpi: int): (px: (int, int))
    ensures dpi >= 1 ==> px.0 > 0 && px.1 > 0
  {
    var (w, h) := SizeMm(p);
    MmToPixelsPositive(w, dpi);
    MmToPixelsPositive(h, dpi);
    (MmToPixels(w, dpi), MmToPixels(h, dpi))
  }

  /** For a non-negative length and resolution the conversion is the
      largest integer not above the exact pixel count. */
  lemma MmToPixelsIsFloor(mm: int, dpi: int)
    requires 0 <= mm && 0 <= dpi
    ensures MmToPixels(mm, dpi) as real <= mm as real / 25.4 * dpi as real
    ensures mm as real / 25.4 * dpi as real < MmToPixels(mm, dpi) as real + 1.0
  {
    var x := mm as real / 25.4 * dpi as real;
    assert x == ((mm * dpi * 10) as real) / (254 as real);
    assert 0.0 <= x;
  }

  /** Truncation rounds toward zero, so a negative resolution mirrors a
      positive one. */
  lemma MmToPixelsNegate(mm: int, dpi: int)
    ensures MmToPixels(mm, -dpi) == -MmToPixels(mm, dpi)
  {
    var x := mm as real / 25.4 * dpi as real;
    assert mm as real / 25.4 * (-dpi) as real == -x;
    TruncNegate(x);
  }

  /** A conversion of at least 26 mm at a positive resolution spans at
      least one pixel. */
  lemma MmToPixelsPositive(mm: int, dpi: int)
    ensures mm >= 26 && dpi >= 1 ==> MmToPixels(mm, dpi) >= 1
  {
    if mm >= 26 && dpi >= 1 {
      assert mm * dpi >= mm by {
        assert mm * dpi - mm == mm * (dpi - 1);
      }
    }
  }

  /** A sheet's pixel size is zero on an axis exactly when the resolution is
      zero: no table entry is small enough to truncate to nothing. */
  lemma PaperPixelsNonZero(p: Paper, dpi: int)
    ensures PaperPixels(p, dpi).0 != 0 <==> dpi != 0
    ensures PaperPixels(p, dpi).1 != 0 <==> dpi != 0
  {
    var (w, h) := SizeMm(p);
    if dpi < 0 {
      assert PaperPixels(p, -dpi).0 > 0 && PaperPixels(p, -dpi).1 > 0;
      MmToPixelsNegate(w, -dpi);
      MmToPixelsNegate(h, -dpi);
    }
  }
}
