/**
 * The spectral resampling of aliasing_scaleUp and aliasing_scaleDown.  A
 * half-spectrum of h rows of w complex cells is copied into one of H rows
 * of W cells: the first `half` rows go to the first `half` rows, the last
 * `half` rows go to the last `half` rows, and of each row the first cw
 * cells are copied.  Every other output cell keeps what the output buffer
 * held.  Then every value is multiplied by the ratio of the grid sizes.
 *
 * Buffers are interleaved: cell c occupies positions 2c (real part) and
 * 2c + 1 (imaginary part), and row J of a W-wide spectrum starts at cell
 * J * W.
 */
module Dealiasing {
  import opened Grid
  import opened Cells

  /** The sizes a resampling copy needs so that every copied row stays inside both buffers. */
  predicate Shape(w: nat, h: nat, W: nat, H: nat, cw: nat, half: nat)
  {
    W > 0 && cw <= w && cw <= W && half <= h && 2 * half <= H
  }

  /** Output row J is among the first n rows of the lower or of the upper copied block. */
  predicate Copied(J: nat, H: nat, half: nat, n: nat)
  {
    J < n || (H - half <= J < H - half + n)
  }

  /** The row of cell c of a W-wide row-major grid. */
  function CellRow(c: nat, W: nat): nat
    requires W > 0
    decreases c
  {
    if c < W then 0 else 1 + CellRow(c - W, W)
  }

  /** The column of cell c of a W-wide row-major grid. */
  function CellCol(c: nat, W: nat): nat
    requires W > 0
    decreases c
  {
    if c < W then c else CellCol(c - W, W)
  }

  /** Row and column locate the cell. */
  lemma {:induction false} CellRowCol(c: nat, W: nat)
    requires W > 0
    ensures CellCol(c, W) < W && c == CellIndex(CellRow(c, W), CellCol(c, W), W)
    decreases c
  {
    if c >= W {
      CellRowCol(c - W, W);
      var J := CellRow(c - W, W);
      assert (1 + J) * W == J * W + W;
    }
  }

  /** The cell at row J and column I has row J and column I. */
  lemma {:induction false} CellRowColOf(J: nat, I: nat, W: nat)
    requires I < W
    ensures CellRow(CellIndex(J, I, W), W) == J && CellCol(CellIndex(J, I, W), W) == I
    decreases J
  {
    if J > 0 {
      MulMonotone(1, J, W);
      assert J * W == (J - 1) * W + W;
      assert CellIndex(J, I, W) - W == CellIndex(J - 1, I, W);
      CellRowColOf(J - 1, I, W);
    }
  }

  /** The row of the cell that position k of a W-wide interleaved buffer belongs to. */
  function RowOf(k: nat, W: nat): nat
    requires W > 0
  {
    CellRow(k / 2, W)
  }

  /** The column of the cell that position k of a W-wide interleaved buffer belongs to. */
  function ColOf(k: nat, W: nat): nat
    requires W > 0
  {
    CellCol(k / 2, W)
  }

  /**
   * The value copied into part (0 real, 1 imaginary) of output cell (J, I)
   * of an H-row output: lower rows come from the same row, upper rows from
   * the row at the same distance from the end.
   */
  function SourceAt(s: seq<real>, w: nat, h: nat, H: nat, half: nat, J: nat, I: nat, part: nat): real
    requires |s| == 2 * (w * h) && part < 2
  {
    var row := if J < half then J else h - H + J;
    if 0 <= row < h && I < w then
      CellIndexInRange(row, I, w, h);
      s[2 * CellIndex(row, I, w) + part]
    else 0.0
  }

  /**
   * The output buffer after the first n iterations of the row loop: a
   * position whose cell lies in the first cw columns of a copied row holds
   * the copied value, every other position its previous value.
   */
  function Resampled(prev: seq<real>, s: seq<real>, w: nat, h: nat, W: nat, H: nat, cw: nat, half: nat, n: nat): (r: seq<real>)
    requires Shape(w, h, W, H, cw, half) && n <= half
    requires |s| == 2 * (w * h) && |prev| == 2 * (W * H)
    ensures |r| == |prev|
  {
    seq(|prev|, k requires 0 <= k < |prev| =>
      if ColOf(k, W) < cw && Copied(RowOf(k, W), H, half, n)
      then SourceAt(s, w, h, H, half, RowOf(k, W), ColOf(k, W), k % 2)
      else prev[k])
  }

  /**
   * memcpy of len values from src at sOff to d at dOff; a source position
   * past the end of src (which the callers never reach) leaves d as it is.
   */
  function Memcpy(d: seq<real>, dOff: nat, src: seq<real>, sOff: nat, len: nat): (r: seq<real>)
    ensures |r| == |d|
  {
    seq(|d|, k requires 0 <= k < |d| =>
      if dOff <= k < dOff + len && sOff + (k - dOff) < |src| then src[sOff + (k - dOff)] else d[k])
  }

  /**
   * A position lies in the window of the first cw cells of row R exactly
   * when its cell is in row R and a column below cw; its offset in the
   * window is then twice the column plus the part.
   */
  lemma WindowIndex(k: nat, R: nat, W: nat, cw: nat)
    requires W > 0 && cw <= W
    ensures (2 * (R * W) <= k < 2 * (R * W) + 2 * cw) <==> (RowOf(k, W) == R && ColOf(k, W) < cw)
    ensures RowOf(k, W) == R && ColOf(k, W) < cw ==> k - 2 * (R * W) == 2 * ColOf(k, W) + k % 2
  {
    var c := k / 2;
    CellRowCol(c, W);
    var J := CellRow(c, W);
    var I := CellCol(c, W);
    assert c == J * W + I;
    assert k == 2 * c + k % 2;
    if J < R {
      MulMonotone(J + 1, R, W);
      assert (J + 1) * W == J * W + W;
    } else if J > R {
      MulMonotone(R + 1, J, W);
      assert (R + 1) * W == R * W + W;
    }
  }

  /** Before the row loop nothing has been copied. */
  lemma ResampledStart(prev: seq<real>, s: seq<real>, w: nat, h: nat, W: nat, H: nat, cw: nat, half: nat)
    requires Shape(w, h, W, H, cw, half)
    requires |s| == 2 * (w * h) && |prev| == 2 * (W * H)
    ensures Resampled(prev, s, w, h, W, H, cw, half, 0) == prev
  {
  }

  /** The windows iteration n copies from and to lie inside the buffers. */
  lemma StepBounds(w: nat, h: nat, W: nat, H: nat, cw: nat, half: nat, n: nat)
    requires Shape(w, h, W, H, cw, half) && n < half
    ensures 2 * (n * W) + 2 * cw <= 2 * (W * H) && 2 * (n * w) + 2 * cw <= 2 * (w * h)
    ensures 2 * ((H - half + n) * W) + 2 * cw <= 2 * (W * H)
    ensures 2 * ((h - half + n) * w) + 2 * cw <= 2 * (w * h)
  {
    MulMonotone(n + 1, H, W);
    assert (n + 1) * W == n * W + W;
    MulMonotone(n + 1, h, w);
    assert (n + 1) * w == n * w + w;
    MulMonotone(H - half + n + 1, H, W);
    assert (H - half + n + 1) * W == (H - half + n) * W + W;
    MulMonotone(h - half + n + 1, h, w);
    assert (h - half + n + 1) * w == (h - half + n) * w + w;
  }

  /**
   * Iteration n of the row loop: the lower row n and the upper row
   * H - half + n each receive the first cw cells of their source row.
   */
  function RowPairCopied(before: seq<real>, s: seq<real>, w: nat, h: nat, W: nat, H: nat, cw: nat, half: nat, n: nat): (r: seq<real>)
    requires half <= h && half <= H
    ensures |r| == |before|
  {
    Memcpy(Memcpy(before, 2 * (n * W), s, 2 * (n * w), 2 * cw),
           2 * ((H - half + n) * W), s, 2 * ((h - half + n) * w), 2 * cw)
  }

  /** A position in the lower window of iteration n receives its source value. */
  lemma StepLowerAt(prev: seq<real>, s: seq<real>, w: nat, h: nat, W: nat, H: nat, cw: nat, half: nat, n: nat, k: nat)
    requires Shape(w, h, W, H, cw, half) && n < half
    requires |s| == 2 * (w * h) && |prev| == 2 * (W * H) && k < |prev|
    requires RowOf(k, W) == n && ColOf(k, W) < cw
    ensures Resampled(prev, s, w, h, W, H, cw, half, n + 1)[k] ==
      RowPairCopied(Resampled(prev, s, w, h, W, H, cw, half, n), s, w, h, W, H, cw, half, n)[k]
  {
    StepBounds(w, h, W, H, cw, half, n);
    WindowIndex(k, n, W, cw);
    WindowIndex(k, H - half + n, W, cw);
    var I := ColOf(k, W);
    CellIndexInRange(n, I, w, h);
    assert 2 * (n * w) + (k - 2 * (n * W)) == 2 * CellIndex(n, I, w) + k % 2;
  }

  /** A position in the upper window of iteration n receives its source value. */
  lemma StepUpperAt(prev: seq<real>, s: seq<real>, w: nat, h: nat, W: nat, H: nat, cw: nat, half: nat, n: nat, k: nat)
    requires Shape(w, h, W, H, cw, half) && n < half
    requires |s| == 2 * (w * h) && |prev| == 2 * (W * H) && k < |prev|
    requires RowOf(k, W) == H - half + n && ColOf(k, W) < cw
    ensures Resampled(prev, s, w, h, W, H, cw, half, n + 1)[k] ==
      RowPairCopied(Resampled(prev, s, w, h, W, H, cw, half, n), s, w, h, W, H, cw, half, n)[k]
  {
    StepBounds(w, h, W, H, cw, half, n);
    WindowIndex(k, H - half + n, W, cw);
    var I := ColOf(k, W);
    CellIndexInRange(h - half + n, I, w, h);
    assert 2 * ((h - half + n) * w) + (k - 2 * ((H - half + n) * W)) == 2 * CellIndex(h - half + n, I, w) + k % 2;
  }

  /** A position outside both windows of iteration n keeps its value. */
  lemma StepOutsideAt(prev: seq<real>, s: seq<real>, w: nat, h: nat, W: nat, H: nat, cw: nat, half: nat, n: nat, k: nat)
    requires Shape(w, h, W, H, cw, half) && n < half
    requires |s| == 2 * (w * h) && |prev| == 2 * (W * H) && k < |prev|
    requires !(RowOf(k, W) == n && ColOf(k, W) < cw) && !(RowOf(k, W) == H - half + n && ColOf(k, W) < cw)
    ensures Resampled(prev, s, w, h, W, H, cw, half, n + 1)[k] ==
      RowPairCopied(Resampled(prev, s, w, h, W, H, cw, half, n), s, w, h, W, H, cw, half, n)[k]
  {
    StepBounds(w, h, W, H, cw, half, n);
    WindowIndex(k, n, W, cw);
    WindowIndex(k, H - half + n, W, cw);
  }

  /** Iteration n of the row loop takes the buffer after n iterations to the buffer after n + 1. */
  lemma ResampledStep(prev: seq<real>, s: seq<real>, w: nat, h: nat, W: nat, H: nat, cw: nat, half: nat, n: nat)
    requires Shape(w, h, W, H, cw, half) && n < half
    requires |s| == 2 * (w * h) && |prev| == 2 * (W * H)
    ensures Resampled(prev, s, w, h, W, H, cw, half, n + 1) ==
      RowPairCopied(Resampled(prev, s, w, h, W, H, cw, half, n), s, w, h, W, H, cw, half, n)
  {
    var a := Resampled(prev, s, w, h, W, H, cw, half, n + 1);
    var b := RowPairCopied(Resampled(prev, s, w, h, W, H, cw, half, n), s, w, h, W, H, cw, half, n);
    forall k | 0 <= k < |prev|
      ensures a[k] == b[k]
    {
      if RowOf(k, W) == n && ColOf(k, W) < cw {
        StepLowerAt(prev, s, w, h, W, H, cw, half, n, k);
      } else if RowOf(k, W) == H - half + n && ColOf(k, W) < cw {
        StepUpperAt(prev, s, w, h, W, H, cw, half, n, k);
      } else {
        StepOutsideAt(prev, s, w, h, W, H, cw, half, n, k);
      }
    }
  }

  /** The grid-size ratio the resampled spectrum is multiplied by: new points over old points. */
  function ScaleFactor(n0: nat, n1: nat, r0: nat, r1: nat): (f: real)
    requires r0 > 0 && r1 > 0 && n0 > 0 && n1 > 0
    ensures f > 0.0
  {
    MulPositiveNat(r0, r1);
    MulPositiveNat(n0, n1);
    ((n0 * n1) as real) / ((r0 * r1) as real)
  }

  /** Going up and coming back down multiplies by one. */
  lemma ScaleFactorsCancel(n0: nat, n1: nat, r0: nat, r1: nat)
    requires r0 > 0 && r1 > 0 && n0 > 0 && n1 > 0
    ensures ScaleFactor(r0, r1, n0, n1) * ScaleFactor(n0, n1, r0, r1) == 1.0
  {
    MulPositiveNat(r0, r1);
    MulPositiveNat(n0, n1);
    var a := (r0 * r1) as real;
    var b := (n0 * n1) as real;
    assert (a / b) * (b / a) == (a * b) / (b * a);
  }

  /** g * (f * x) == x when f * g == 1. */
  lemma MulCancel(f: real, g: real, x: real)
    requires g * f == 1.0
    ensures x * f * g == x
  {
    assert x * f * g == x * (f * g);
  }

  /** The default resolution of aliasing_scaleUp: three halves of the old one, rounded down. */
  function DefaultAliasingResolution(r: nat): (n: nat)
    ensures n >= r
  {
    (r * 3) / 2
  }

  /**
   * The default resolution is even, so that the dealiased product is
   * supported, exactly when r is 0 or 3 modulo 4.
   */
  lemma DefaultResolutionEven(r: nat)
    ensures DefaultAliasingResolution(r) % 2 == 0 <==> (r % 4 == 0 || r % 4 == 3)
  {
    var q := r / 4;
    var m := r % 4;
    var d := DefaultAliasingResolution(r);
    assert r == 4 * q + m && 0 <= m < 4;
    assert 2 * d <= 3 * r < 2 * d + 2;
    if m == 0 {
      assert d == 2 * (3 * q);
    } else if m == 1 {
      assert d == 2 * (3 * q) + 1;
    } else if m == 2 {
      assert d == 2 * (3 * q + 1) + 1;
    } else {
      assert d == 2 * (3 * q + 2);
    }
  }


  /**
   * The spectrum aliasing_scaleUp produces from spectrum s of an r0 x r1
   * field: a zeroed n0 x n1 spectrum receives the lower and upper r1/2 rows
   * of s, each with all its r0/2+1 cells, and is scaled by the grid ratio.
   */
  function UpSpectrum(s: seq<real>, r0: nat, r1: nat, n0: nat, n1: nat): (r: seq<real>)
    requires r0 > 0 && r1 > 0 && n0 >= r0 && n1 >= r1 && |s| == SpecLength(r0, r1)
    ensures |r| == SpecLength(n0, n1)
  {
    SpecLengthIsCells(r0, r1);
    SpecLengthIsCells(n0, n1);
    Scale(Resampled(FillCells(SpecWidth(n0) * n1, Zero), s, SpecWidth(r0), r1, SpecWidth(n0), n1,
                    SpecWidth(r0), r1 / 2, r1 / 2),
          ScaleFactor(n0, n1, r0, r1))
  }

  /**
   * The spectrum aliasing_scaleDown produces from spectrum s of an r0 x r1
   * field into the buffer prev of an n0 x n1 field: the lower and upper
   * n1/2 rows, each cut to n0/2+1 cells, scaled by the grid ratio.  For odd
   * n1 the middle output row is not written.
   */
  function DownSpectrum(prev: seq<real>, s: seq<real>, r0: nat, r1: nat, n0: nat, n1: nat): (r: seq<real>)
    requires 0 < n0 <= r0 && 0 < n1 <= r1 && |s| == SpecLength(r0, r1) && |prev| == SpecLength(n0, n1)
    ensures |r| == SpecLength(n0, n1)
  {
    SpecLengthIsCells(r0, r1);
    SpecLengthIsCells(n0, n1);
    Scale(Resampled(prev, s, SpecWidth(r0), r1, SpecWidth(n0), n1, SpecWidth(n0), n1 / 2, n1 / 2),
          ScaleFactor(n0, n1, r0, r1))
  }

  /**
   * Where position k of an h-row, w-wide spectrum goes in the H-row, W-wide
   * one: the same column and part, in the same row when it is in the lower
   * half and in the row at the same distance from the end otherwise.
   */
  function UpIndex(k: nat, w: nat, h: nat, W: nat, H: nat): int
    requires w > 0
  {
    var J := RowOf(k, w);
    var R := if J < h / 2 then J else H - h + J;
    2 * (R * W + ColOf(k, w)) + k % 2
  }

  /** The row, column and part of UpIndex, for a position inside an h-row spectrum. */
  lemma UpIndexCell(k: nat, w: nat, h: nat, W: nat, H: nat)
    requires w > 0 && w <= W && h <= H && k < 2 * (w * h)
    ensures RowOf(k, w) < h && ColOf(k, w) < w
    ensures k == 2 * CellIndex(RowOf(k, w), ColOf(k, w), w) + k % 2
    ensures var R := if RowOf(k, w) < h / 2 then RowOf(k, w) else H - h + RowOf(k, w);
      0 <= R < H && 0 <= UpIndex(k, w, h, W, H) < 2 * (W * H) &&
      RowOf(UpIndex(k, w, h, W, H), W) == R && ColOf(UpIndex(k, w, h, W, H), W) == ColOf(k, w) &&
      UpIndex(k, w, h, W, H) % 2 == k % 2
  {
    var c := k / 2;
    CellRowCol(c, w);
    var J := RowOf(k, w);
    var I := ColOf(k, w);
    if J >= h {
      MulMonotone(h, J, w);
    }
    var R: nat := if J < h / 2 then J else H - h + J;
    CellIndexInRange(R, I, W, H);
    var p := 2 * CellIndex(R, I, W) + k % 2;
    assert p == UpIndex(k, w, h, W, H);
    assert p / 2 == CellIndex(R, I, W) && p % 2 == k % 2;
    CellRowColOf(R, I, W);
  }

  /** For an even number of rows the copy up puts position k at UpIndex. */
  lemma UpAt(prev: seq<real>, s: seq<real>, w: nat, h: nat, W: nat, H: nat, k: nat)
    requires w > 0 && h % 2 == 0 && w <= W && h <= H
    requires |s| == 2 * (w * h) && |prev| == 2 * (W * H) && k < |s|
    ensures Shape(w, h, W, H, w, h / 2)
    ensures 0 <= UpIndex(k, w, h, W, H) < |prev|
    ensures Resampled(prev, s, w, h, W, H, w, h / 2, h / 2)[UpIndex(k, w, h, W, H)] == s[k]
  {
    UpIndexCell(k, w, h, W, H);
    var J, I := RowOf(k, w), ColOf(k, w);
    CellIndexInRange(J, I, w, h);
  }

  /** For an even number of rows the copy down takes position k back from UpIndex. */
  lemma DownAt(prev: seq<real>, u: seq<real>, w: nat, h: nat, W: nat, H: nat, k: nat)
    requires w > 0 && h % 2 == 0 && w <= W && h <= H
    requires |u| == 2 * (W * H) && |prev| == 2 * (w * h) && k < |prev|
    ensures Shape(W, H, w, h, w, h / 2)
    ensures 0 <= UpIndex(k, w, h, W, H) < |u|
    ensures Resampled(prev, u, W, H, w, h, w, h / 2, h / 2)[k] == u[UpIndex(k, w, h, W, H)]
  {
    UpIndexCell(k, w, h, W, H);
    var J, I := RowOf(k, w), ColOf(k, w);
    assert Copied(J, h, h / 2, h / 2);
    CellIndexInRange(if J < h / 2 then J else H - h + J, I, W, H);
  }

  /**
   * For an even number of rows, copying up, scaling by f and copying back
   * down gives the original spectrum scaled by f.
   */
  lemma CopiesRoundTrip(prev: seq<real>, zero: seq<real>, s: seq<real>, w: nat, h: nat, W: nat, H: nat, f: real)
    requires w > 0 && h % 2 == 0 && w <= W && h <= H
    requires |s| == 2 * (w * h) && |zero| == 2 * (W * H) && |prev| == 2 * (w * h)
    ensures Shape(w, h, W, H, w, h / 2) && Shape(W, H, w, h, w, h / 2)
    ensures Resampled(prev, Scale(Resampled(zero, s, w, h, W, H, w, h / 2, h / 2), f), W, H, w, h, w, h / 2, h / 2)
      == Scale(s, f)
  {
    var up := Resampled(zero, s, w, h, W, H, w, h / 2, h / 2);
    var down := Resampled(prev, Scale(up, f), W, H, w, h, w, h / 2, h / 2);
    var sf := Scale(s, f);
    forall k | 0 <= k < |s|
      ensures down[k] == sf[k]
    {
      CopiesRoundTripAt(prev, zero, s, w, h, W, H, f, k);
      ScaledAt(s, f, k);
    }
    assert |down| == |sf|;
  }

  /** Position k of CopiesRoundTrip. */
  lemma CopiesRoundTripAt(prev: seq<real>, zero: seq<real>, s: seq<real>, w: nat, h: nat, W: nat, H: nat, f: real, k: nat)
    requires w > 0 && h % 2 == 0 && w <= W && h <= H
    requires |s| == 2 * (w * h) && |zero| == 2 * (W * H) && |prev| == 2 * (w * h) && k < |s|
    ensures Shape(w, h, W, H, w, h / 2) && Shape(W, H, w, h, w, h / 2)
    ensures Resampled(prev, Scale(Resampled(zero, s, w, h, W, H, w, h / 2, h / 2), f), W, H, w, h, w, h / 2, h / 2)[k]
      == s[k] * f
  {
    var up := Resampled(zero, s, w, h, W, H, w, h / 2, h / 2);
    DownAt(prev, Scale(up, f), w, h, W, H, k);
    UpAt(zero, s, w, h, W, H, k);
    ScaledAt(up, f, UpIndex(k, w, h, W, H));
  }

  /** Scaling by f and then by g with g * f == 1 changes nothing. */
  lemma ScaleCancel(s: seq<real>, f: real, g: real)
    requires g * f == 1.0
    ensures Scale(Scale(s, f), g) == s
  {
    forall k | 0 <= k < |s|
      ensures Scale(Scale(s, f), g)[k] == s[k]
    {
      MulCancel(f, g, s[k]);
    }
  }

  /**
   * For an even number of rows, scaling a spectrum up and back down to the
   * same resolution returns it unchanged, whatever the down-scaled buffer
   * held before.
   */
  lemma AliasingRoundTrip(prev: seq<real>, s: seq<real>, r0: nat, r1: nat, n0: nat, n1: nat)
    requires r0 > 0 && r1 > 0 && n0 >= r0 && n1 >= r1 && r1 % 2 == 0
    requires |s| == SpecLength(r0, r1) && |prev| == SpecLength(r0, r1)
    ensures DownSpectrum(prev, UpSpectrum(s, r0, r1, n0, n1), n0, n1, r0, r1) == s
  {
    SpecLengthIsCells(r0, r1);
    SpecLengthIsCells(n0, n1);
    var w, W := SpecWidth(r0), SpecWidth(n0);
    var f := ScaleFactor(n0, n1, r0, r1);
    var g := ScaleFactor(r0, r1, n0, n1);
    ScaleFactorsCancel(n0, n1, r0, r1);
    var zero := FillCells(W * n1, Zero);
    CopiesRoundTrip(prev, zero, s, w, r1, W, n1, f);
    ScaleCancel(s, f, g);
  }

  /** One position of a scaled buffer. */
  lemma ScaledAt(s: seq<real>, v: real, i: nat)
    requires i < |s|
    ensures |Scale(s, v)| == |s| && Scale(s, v)[i] == s[i] * v
  {
  }

  /**
   * For an odd number of rows the middle row r1/2 is in neither copied
   * block: two spectra that differ only there scale up to the same
   * spectrum, so that row is lost.
   */
  lemma OddRowsLoseMiddleRow(s: seq<real>, t: seq<real>, r0: nat, r1: nat, n0: nat, n1: nat)
    requires r0 > 0 && r1 > 0 && n0 >= r0 && n1 >= r1 && r1 % 2 == 1
    requires |s| == SpecLength(r0, r1) && |t| == SpecLength(r0, r1)
    requires forall k :: 0 <= k < |s| && RowOf(k, SpecWidth(r0)) != r1 / 2 ==> s[k] == t[k]
    ensures UpSpectrum(s, r0, r1, n0, n1) == UpSpectrum(t, r0, r1, n0, n1)
  {
    SpecLengthIsCells(r0, r1);
    SpecLengthIsCells(n0, n1);
    var w, W := SpecWidth(r0), SpecWidth(n0);
    var zero := FillCells(W * n1, Zero);
    var us := Resampled(zero, s, w, r1, W, n1, w, r1 / 2, r1 / 2);
    var ut := Resampled(zero, t, w, r1, W, n1, w, r1 / 2, r1 / 2);
    forall k | 0 <= k < |us|
      ensures us[k] == ut[k]
    {
      var J := RowOf(k, W);
      var I := ColOf(k, W);
      var row := if J < r1 / 2 then J else r1 - n1 + J;
      if I < w && Copied(J, n1, r1 / 2, r1 / 2) && 0 <= row < r1 {
        CellIndexInRange(row, I, w, r1);
        var p := 2 * CellIndex(row, I, w) + k % 2;
        assert p / 2 == CellIndex(row, I, w);
        CellRowColOf(row, I, w);
        assert RowOf(p, w) == row != r1 / 2;
      }
    }
    assert us == ut;
  }
}
