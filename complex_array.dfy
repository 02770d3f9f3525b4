/**
 * The complex grid: res0 x res1 complex values stored as interleaved
 * (re, im) doubles, cell (y, x) at positions 2 (y res0 + x) and one
 * after.  Unlike the real field it holds complex data on either side of
 * the transform, and it does not track which side it is on: the caller
 * converts explicitly with ToSpec and ToCart.
 *
 * The transform plans are a process-wide singleton of their own with a
 * reference counter; they are built at the first set-up, from that array's
 * resolution, and destroyed when the counter drops to zero.
 */
module ComplexArrays {
  import opened Grid
  import opened Cells
  import opened Reductions
  import opened SpectralPatterns
  import opened Buffers

  /** A complex-to-complex transform library: forward and backward, by size. */
  datatype ComplexFft = ComplexFft(
    forward: (nat, nat, seq<real>) -> seq<real>,
    backward: (nat, nat, seq<real>) -> seq<real>)

  /** The library fills exactly the 2 * n0 * n1 doubles of an n0 x n1 grid. */
  ghost predicate Conforms(fft: ComplexFft)
  {
    (forall n0: nat, n1: nat, s: seq<real> :: |fft.forward(n0, n1, s)| == 2 * (n0 * n1)) &&
    (forall n0: nat, n1: nat, s: seq<real> :: |fft.backward(n0, n1, s)| == 2 * (n0 * n1))
  }

  /**
   * The singleton of plans and its reference counter.  The plans exist
   * exactly while the counter is positive; they were built for the
   * resolution planRes0 x planRes1 (the aliasing plans for twice that).
   */
  class ComplexPlans {
    const fft: ComplexFft
    var refCounter: int
    var built: bool
    var planRes0: nat
    var planRes1: nat

    predicate Valid()
      reads this
    {
      refCounter >= 0 && (built <==> refCounter >= 1)
    }

    constructor (fft: ComplexFft)
      ensures Valid() && this.fft == fft && refCounter == 0 && !built
    {
      this.fft := fft;
      refCounter := 0;
      built := false;
      planRes0, planRes1 := 0, 0;
    }

    /** What fft_setup leaves: one more reference, plans built from (r0, r1) only if there were none. */
    twostate predicate SetUp(r0: nat, r1: nat)
      reads this
    {
      Valid() && refCounter == old(refCounter) + 1 && built &&
      (old(refCounter) == 0 ==> planRes0 == r0 && planRes1 == r1) &&
      (old(refCounter) != 0 ==> planRes0 == old(planRes0) && planRes1 == old(planRes1))
    }

    /** What fftw_shutdown leaves: one reference fewer, plans destroyed at zero. */
    twostate predicate ShutDown()
      reads this
    {
      Valid() && refCounter == old(refCounter) - 1 &&
      planRes0 == old(planRes0) && planRes1 == old(planRes1)
    }

    /** The counting part of fft_setup for an array of resolution r0 x r1. */
    method Setup(r0: nat, r1: nat)
      requires Valid()
      modifies this`refCounter, this`built, this`planRes0, this`planRes1
      ensures SetUp(r0, r1)
    {
      refCounter := refCounter + 1;
      if refCounter != 1 {
        return;
      }
      built := true;
      planRes0, planRes1 := r0, r1;
    }

    /** The counting part of fftw_shutdown for an initialised array. */
    method Shutdown()
      requires Valid() && refCounter >= 1
      modifies this`refCounter, this`built
      ensures ShutDown()
    {
      refCounter := refCounter - 1;
      if refCounter > 0 {
        return;
      }
      built := false;
    }
  }

  class Complex2DArray {
    var res0: nat
    var res1: nat
    var aliasedScaled: bool
    var data: array?<real>
    var isDataInitialized: bool

    /** A set-up array: a buffer of two doubles per cell. */
    ghost predicate Valid()
      reads this
    {
      data != null && data.Length == 2 * (res0 * res1)
    }

    /** The plans match this array: the main plans its resolution, the aliasing plans half of it. */
    ghost predicate PlanFits(plans: ComplexPlans)
      reads this, plans
    {
      plans.Valid() && plans.built && Conforms(plans.fft) &&
      if aliasedScaled then 2 * plans.planRes0 == res0 && 2 * plans.planRes1 == res1
      else plans.planRes0 == res0 && plans.planRes1 == res1
    }

    /** get(y, x): the complex value at (y res0 + x) * 2 and the position after it. */
    function Get(y: nat, x: nat): (r: Complex)
      requires Valid() && y < res1 && x < res0
      reads this, data
      ensures 2 * CellIndex(y, x, res0) + 1 < data.Length
      ensures r == Complex(data[2 * CellIndex(y, x, res0)], data[2 * CellIndex(y, x, res0) + 1])
    {
      CellIndexInRange(y, x, res0, res1);
      GridCell(data[..], res0, y, x)
    }

    /** The default constructor: no buffer, not counted. */
    constructor Empty()
      ensures data == null && !isDataInitialized && !aliasedScaled
    {
      res0, res1 := 0, 0;
      aliasedScaled := false;
      data := null;
      isDataInitialized := false;
    }

    /** The resolution constructor: allocate 2 * r0 * r1 doubles and set up the plans. */
    constructor (r0: nat, r1: nat, aliased: bool, plans: ComplexPlans)
      requires plans.Valid()
      modifies plans`refCounter, plans`built, plans`planRes0, plans`planRes1
      ensures Valid() && fresh(data) && isDataInitialized
      ensures res0 == r0 && res1 == r1 && aliasedScaled == aliased
      ensures plans.SetUp(r0, r1)
    {
      aliasedScaled := aliased;
      res0, res1 := r0, r1;
      data := new real[2 * (r0 * r1)];
      isDataInitialized := true;
      new;
      plans.Setup(r0, r1);
    }

    /**
     * setup: the same as the resolution constructor on an existing array.
     * An earlier buffer is dropped without being freed, and an array that
     * was already set up takes a second reference.
     */
    method Setup(r0: nat, r1: nat, aliased: bool, plans: ComplexPlans)
      requires plans.Valid()
      modifies this, plans`refCounter, plans`built, plans`planRes0, plans`planRes1
      ensures Valid() && fresh(data) && isDataInitialized
      ensures res0 == r0 && res1 == r1 && aliasedScaled == aliased
      ensures plans.SetUp(r0, r1)
    {
      aliasedScaled := aliased;
      res0, res1 := r0, r1;
      data := new real[2 * (r0 * r1)];
      isDataInitialized := true;
      plans.Setup(r0, r1);
    }

    /** The copy constructor: a new buffer with the source's values, and a plan reference. */
    constructor Copy(src: Complex2DArray, plans: ComplexPlans)
      requires src.Valid() && plans.Valid()
      modifies plans`refCounter, plans`built, plans`planRes0, plans`planRes1
      ensures Valid() && fresh(data) && isDataInitialized
      ensures res0 == src.res0 && res1 == src.res1 && aliasedScaled == src.aliasedScaled
      ensures data[..] == src.data[..]
      ensures plans.SetUp(src.res0, src.res1)
    {
      res0, res1 := src.res0, src.res1;
      aliasedScaled := src.aliasedScaled;
      var d := new real[2 * (src.res0 * src.res1)];
      data := d;
      isDataInitialized := true;
      new;
      plans.Setup(res0, res1);
      CopyBuffer(src.data, d);
    }

    /** The destructor: release the plan reference of an initialised array, free the buffer. */
    method Destroy(plans: ComplexPlans)
      requires isDataInitialized ==> plans.Valid() && plans.refCounter >= 1
      modifies this`data, plans`refCounter, plans`built
      ensures data == null
      ensures old(isDataInitialized) ==> plans.ShutDown()
      ensures !old(isDataInitialized) ==> plans.refCounter == old(plans.refCounter) && plans.built == old(plans.built)
    {
      if isDataInitialized {
        plans.Shutdown();
      }
      data := null;
    }

    /** operator=: copy the values of an array of the same resolution into this buffer. */
    method Assign(src: Complex2DArray)
      requires Valid() && src.Valid() && res0 == src.res0 && res1 == src.res1
      modifies data
      ensures data[..] == old(src.data[..])
    {
      CopyBuffer(src.data, data);
    }

    /** toSpec: a new array holding the forward transform of this one. */
    method ToSpec(plans: ComplexPlans) returns (out: Complex2DArray)
      requires Valid() && PlanFits(plans)
      modifies plans`refCounter, plans`built, plans`planRes0, plans`planRes1
      ensures fresh(out) && fresh(out.data) && out.Valid() && out.isDataInitialized
      ensures out.res0 == res0 && out.res1 == res1 && out.aliasedScaled == aliasedScaled
      ensures out.data[..] == plans.fft.forward(res0, res1, data[..])
      ensures plans.SetUp(res0, res1) && PlanFits(plans)
    {
      out := new Complex2DArray(res0, res1, aliasedScaled, plans);
      var n0, n1 := plans.planRes0, plans.planRes1;
      if aliasedScaled {
        n0, n1 := 2 * n0, 2 * n1;
      }
      assert n0 == res0 && n1 == res1;
      ExecuteInto(plans.fft.forward(n0, n1, data[..]), out.data);
    }

    /** toCart: a new array holding the backward transform of this one, scaled by 1 / (res0 res1). */
    method ToCart(plans: ComplexPlans) returns (out: Complex2DArray)
      requires Valid() && PlanFits(plans) && res0 > 0 && res1 > 0
      modifies plans`refCounter, plans`built, plans`planRes0, plans`planRes1
      ensures fresh(out) && fresh(out.data) && out.Valid() && out.isDataInitialized
      ensures out.res0 == res0 && out.res1 == res1 && out.aliasedScaled == aliasedScaled
      ensures out.data[..] == Scale(plans.fft.backward(res0, res1, data[..]), 1.0 / ((res0 * res1) as real))
      ensures plans.SetUp(res0, res1) && PlanFits(plans)
    {
      out := new Complex2DArray(res0, res1, aliasedScaled, plans);
      var n0, n1 := plans.planRes0, plans.planRes1;
      if aliasedScaled {
        n0, n1 := 2 * n0, 2 * n1;
      }
      assert n0 == res0 && n1 == res1;
      ExecuteInto(plans.fft.backward(n0, n1, data[..]), out.data);
      MulPositiveNat(res0, res1);
      ScaleBuffer(out.data, 1.0 / ((res0 * res1) as real));
    }

    /** set(y, x, re, im): cell (y, x) becomes (re, im); no other cell changes. */
    method Set(y: nat, x: nat, re: real, im: real)
      requires Valid() && y < res1 && x < res0
      modifies data
      ensures data[..] == WriteGridCell(old(data[..]), res0, y, x, Complex(re, im))
      ensures Get(y, x) == Complex(re, im)
      ensures forall y': nat, x': nat :: y' < res1 && x' < res0 && (y' != y || x' != x) ==> Get(y', x') == old(Get(y', x'))
    {
      ghost var s := data[..];
      WriteCellInto(data, res0, y, x, Complex(re, im));
      forall y': nat, x': nat | y' < res1 && x' < res0
        ensures GridCell(data[..], res0, y', x') == if y' == y && x' == x then Complex(re, im) else GridCell(s, res0, y', x')
      {
        WriteThenRead(s, res0, res1, y, x, Complex(re, im), y', x');
      }
    }

    /** setRe: the real part of cell (y, x) becomes re; every other value stays. */
    method SetRe(y: nat, x: nat, re: real)
      requires Valid() && y < res1 && x < res0
      modifies data
      ensures Get(y, x) == Complex(re, old(Get(y, x)).im)
      ensures forall k :: 0 <= k < data.Length && k != 2 * CellIndex(y, x, res0) ==> data[k] == old(data[k])
    {
      CellIndexInRange(y, x, res0, res1);
      data[2 * CellIndex(y, x, res0)] := re;
    }

    /** setIm: the imaginary part of cell (y, x) becomes im; every other value stays. */
    method SetIm(y: nat, x: nat, im: real)
      requires Valid() && y < res1 && x < res0
      modifies data
      ensures Get(y, x) == Complex(old(Get(y, x)).re, im)
      ensures forall k :: 0 <= k < data.Length && k != 2 * CellIndex(y, x, res0) + 1 ==> data[k] == old(data[k])
    {
      CellIndexInRange(y, x, res0, res1);
      data[2 * CellIndex(y, x, res0) + 1] := im;
    }

    /** setAll(re, im): every cell becomes (re, im). */
    method SetAll(re: real, im: real)
      requires Valid()
      modifies data
      ensures data[..] == FillCells(res0 * res1, Complex(re, im))
      ensures forall y: nat, x: nat :: y < res1 && x < res0 ==> Get(y, x) == Complex(re, im)
    {
      FillCellsInto(data, Complex(re, im));
      forall y: nat, x: nat | y < res1 && x < res0
        ensures Get(y, x) == Complex(re, im)
      {
        CellIndexInRange(y, x, res0, res1);
        FillCellsReadsBack(res0 * res1, Complex(re, im), CellIndex(y, x, res0));
      }
    }

    /** setAll(complex): the same with the value given as one complex number. */
    method SetAllValue(z: Complex)
      requires Valid()
      modifies data
      ensures data[..] == FillCells(res0 * res1, z)
      ensures forall y: nat, x: nat :: y < res1 && x < res0 ==> Get(y, x) == z
    {
      SetAll(z.re, z.im);
    }

    /** setAllRe: every real part becomes re, the imaginary parts stay. */
    method SetAllRe(re: real)
      requires Valid()
      modifies data
      ensures forall c :: 0 <= c < res0 * res1 ==> CellAt(data[..], c) == Complex(re, CellAt(old(data[..]), c).im)
    {
      FillPartInto(data, 0, re);
    }

    /** setAllIm: every imaginary part becomes im, the real parts stay. */
    method SetAllIm(im: real)
      requires Valid()
      modifies data
      ensures forall c :: 0 <= c < res0 * res1 ==> CellAt(data[..], c) == Complex(CellAt(old(data[..]), c).re, im)
    {
      FillPartInto(data, 1, im);
    }

    /* ---------- spectral derivative set-ups ---------- */

    /**
     * op_setup_diff_x: zero every cell, then either the central-difference
     * stencil transformed to spectral space, or the spectral multipliers
     * i k 2 pi / L0 of the x wavenumbers.
     */
    method OpSetupDiffX(L0: real, L1: real, useFD: bool, plans: ComplexPlans)
      requires Valid() && res0 > 0 && res1 > 0 && L0 != 0.0
      requires useFD ==> res0 >= 1 && PlanFits(plans)
      modifies data, plans`refCounter, plans`built, plans`planRes0, plans`planRes1
      ensures !useFD ==> forall y: nat, x: nat :: y < res1 && x < res0 ==>
        Get(y, x) == PatternCell(DiffXPattern(res0, res1), DiffXMultiplier(2.0 * Pi / L0), res0, res1, y, x)
      ensures useFD ==> data[..] == plans.fft.forward(res0, res1, DiffXStencil(res0, res1, L0 / (res0 as real)))
      ensures plans.refCounter == old(plans.refCounter) && plans.built == old(plans.built)
      ensures plans.planRes0 == old(plans.planRes0) && plans.planRes1 == old(plans.planRes1)
    {
      SetAll(0.0, 0.0);
      if useFD {
        var h0 := L0 / (res0 as real);
        DiffXStencilInto(data, res0, res1, h0);
        TransformInPlace(plans);
      } else {
        var scale := 2.0 * Pi / L0;
        FillPatternInto(data, res0, res1, DiffXPattern(res0, res1), DiffXMultiplier(scale));
      }
    }

    /** op_setup_diff2_x: the second-difference stencil, or the multipliers -(k 2 pi / L0)^2. */
    method OpSetupDiff2X(L0: real, L1: real, useFD: bool, plans: ComplexPlans)
      requires Valid() && res0 > 0 && res1 > 0 && L0 != 0.0
      requires useFD ==> res0 >= 1 && PlanFits(plans)
      modifies data, plans`refCounter, plans`built, plans`planRes0, plans`planRes1
      ensures !useFD ==> forall y: nat, x: nat :: y < res1 && x < res0 ==>
        Get(y, x) == PatternCell(DiffXPattern(res0, res1), Diff2XMultiplier(2.0 * Pi / L0), res0, res1, y, x)
      ensures useFD ==> data[..] == plans.fft.forward(res0, res1, Diff2XStencil(res0, res1, L0 / (res0 as real)))
      ensures plans.refCounter == old(plans.refCounter) && plans.built == old(plans.built)
      ensures plans.planRes0 == old(plans.planRes0) && plans.planRes1 == old(plans.planRes1)
    {
      SetAll(0.0, 0.0);
      if useFD {
        var h0 := L0 / (res0 as real);
        Diff2XStencilInto(data, res0, res1, h0);
        TransformInPlace(plans);
      } else {
        var scale := 2.0 * Pi / L0;
        FillPatternInto(data, res0, res1, DiffXPattern(res0, res1), Diff2XMultiplier(scale));
      }
    }

    /** op_setup_diff_y: the central-difference stencil in y, or the multipliers i k 2 pi / L1. */
    method OpSetupDiffY(L0: real, L1: real, useFD: bool, plans: ComplexPlans)
      requires Valid() && res0 > 0 && res1 > 0 && L1 != 0.0
      requires useFD ==> res1 >= 1 && PlanFits(plans)
      modifies data, plans`refCounter, plans`built, plans`planRes0, plans`planRes1
      ensures !useFD ==> forall y: nat, x: nat :: y < res1 && x < res0 ==>
        Get(y, x) == PatternCell(DiffYPattern(res0, res1), DiffYMultiplier(2.0 * Pi / L1), res0, res1, y, x)
      ensures useFD ==> data[..] == plans.fft.forward(res0, res1, DiffYStencil(res0, res1, L1 / (res1 as real)))
      ensures plans.refCounter == old(plans.refCounter) && plans.built == old(plans.built)
      ensures plans.planRes0 == old(plans.planRes0) && plans.planRes1 == old(plans.planRes1)
    {
      SetAll(0.0, 0.0);
      if useFD {
        var h1 := L1 / (res1 as real);
        DiffYStencilInto(data, res0, res1, h1);
        TransformInPlace(plans);
      } else {
        var scale := 2.0 * Pi / L1;
        FillPatternInto(data, res0, res1, DiffYPattern(res0, res1), DiffYMultiplier(scale));
      }
    }

    /** op_setup_diff2_y: the second-difference stencil in y, or the multipliers -(k 2 pi / L1)^2. */
    method OpSetupDiff2Y(L0: real, L1: real, useFD: bool, plans: ComplexPlans)
      requires Valid() && res0 > 0 && res1 > 0 && L1 != 0.0
      requires useFD ==> res1 >= 1 && PlanFits(plans)
      modifies data, plans`refCounter, plans`built, plans`planRes0, plans`planRes1
      ensures !useFD ==> forall y: nat, x: nat :: y < res1 && x < res0 ==>
        Get(y, x) == PatternCell(DiffYPattern(res0, res1), Diff2YMultiplier(2.0 * Pi / L1), res0, res1, y, x)
      ensures useFD ==> data[..] == plans.fft.forward(res0, res1, Diff2YStencil(res0, res1, L1 / (res1 as real)))
      ensures plans.refCounter == old(plans.refCounter) && plans.built == old(plans.built)
      ensures plans.planRes0 == old(plans.planRes0) && plans.planRes1 == old(plans.planRes1)
    {
      SetAll(0.0, 0.0);
      if useFD {
        var h1 := L1 / (res1 as real);
        Diff2YStencilInto(data, res0, res1, h1);
        TransformInPlace(plans);
      } else {
        var scale := 2.0 * Pi / L1;
        FillPatternInto(data, res0, res1, DiffYPattern(res0, res1), Diff2YMultiplier(scale));
      }
    }

    /**
     * `*this = this->toSpec()`: the forward transform lands in a temporary
     * array, is copied back, and the temporary's plan reference is released.
     */
    method TransformInPlace(plans: ComplexPlans)
      requires Valid() && PlanFits(plans)
      modifies data, plans`refCounter, plans`built, plans`planRes0, plans`planRes1
      ensures data[..] == plans.fft.forward(res0, res1, old(data[..]))
      ensures plans.refCounter == old(plans.refCounter) && plans.built == old(plans.built)
      ensures plans.planRes0 == old(plans.planRes0) && plans.planRes1 == old(plans.planRes1)
    {
      var t := ToSpec(plans);
      Assign(t);
      t.Destroy(plans);
    }

    /* ---------- element-wise operators ---------- */

    /**
     * spec_div_element_wise: the cell-wise quotient with the zero-denominator
     * rule.  A denominator |b|^2 whose absolute value is below the threshold
     * is fatal (the program exits); `fatal` reports it.
     */
    method SpecDivElementWise(d: Complex2DArray, threshold: real, plans: ComplexPlans) returns (out: Complex2DArray, fatal: bool)
      requires Valid() && d.Valid() && d.res0 == res0 && d.res1 == res1 && plans.Valid()
      modifies plans`refCounter, plans`built, plans`planRes0, plans`planRes1
      ensures fresh(out) && fresh(out.data) && out.Valid() && out.res0 == res0 && out.res1 == res1
      ensures out.aliasedScaled == aliasedScaled && plans.SetUp(res0, res1)
      ensures fatal <==> exists c :: 0 <= c < res0 * res1 && Abs(NormSquared(CellAt(d.data[..], c))) < threshold
      ensures threshold <= 0.0 ==> !fatal
      ensures !fatal ==> out.data[..] == Cellwise(CDiv, data[..], d.data[..])
    {
      out := new Complex2DArray(res0, res1, aliasedScaled, plans);
      fatal := DivCellsInto(data, d.data, out.data, threshold);
    }

    /** operator(): the cell-wise complex product (ar br - ai bi, ar bi + ai br). */
    method ApplyOperator(b: Complex2DArray, plans: ComplexPlans) returns (out: Complex2DArray)
      requires Valid() && b.Valid() && b.res0 == res0 && b.res1 == res1 && plans.Valid()
      modifies plans`refCounter, plans`built, plans`planRes0, plans`planRes1
      ensures fresh(out) && fresh(out.data) && out.Valid() && out.res0 == res0 && out.res1 == res1
      ensures out.aliasedScaled == aliasedScaled && plans.SetUp(res0, res1)
      ensures out.data[..] == Cellwise(CMul, data[..], b.data[..])
    {
      out := new Complex2DArray(res0, res1, aliasedScaled, plans);
      CellwiseInto(CMul, data, b.data, out.data);
    }

    /** operator*(complex): every cell times the value. */
    method MulScalar(v: Complex, plans: ComplexPlans) returns (out: Complex2DArray)
      requires Valid() && plans.Valid()
      modifies plans`refCounter, plans`built, plans`planRes0, plans`planRes1
      ensures fresh(out) && fresh(out.data) && out.Valid() && out.res0 == res0 && out.res1 == res1
      ensures out.aliasedScaled == aliasedScaled && plans.SetUp(res0, res1)
      ensures out.data[..] == ScaleCells(data[..], v)
    {
      out := new Complex2DArray(res0, res1, aliasedScaled, plans);
      ScaleCellsInto(data, v, out.data);
    }

    /** operator+: the element-wise sum. */
    method AddArray(b: Complex2DArray, plans: ComplexPlans) returns (out: Complex2DArray)
      requires Valid() && b.Valid() && b.res0 == res0 && b.res1 == res1 && plans.Valid()
      modifies plans`refCounter, plans`built, plans`planRes0, plans`planRes1
      ensures fresh(out) && fresh(out.data) && out.Valid() && out.res0 == res0 && out.res1 == res1
      ensures out.aliasedScaled == aliasedScaled && plans.SetUp(res0, res1)
      ensures out.data[..] == Add(data[..], b.data[..])
    {
      out := new Complex2DArray(res0, res1, aliasedScaled, plans);
      AddInto(data, b.data, out.data);
    }

    /** operator+=: add b element-wise into this array (b may be this array). */
    method AddAssign(b: Complex2DArray)
      requires Valid() && b.Valid() && b.res0 == res0 && b.res1 == res1
      modifies data
      ensures data[..] == Add(old(data[..]), old(b.data[..]))
    {
      AddInPlace(data, b.data);
    }

    /** operator-: the element-wise difference. */
    method SubArray(b: Complex2DArray, plans: ComplexPlans) returns (out: Complex2DArray)
      requires Valid() && b.Valid() && b.res0 == res0 && b.res1 == res1 && plans.Valid()
      modifies plans`refCounter, plans`built, plans`planRes0, plans`planRes1
      ensures fresh(out) && fresh(out.data) && out.Valid() && out.res0 == res0 && out.res1 == res1
      ensures out.aliasedScaled == aliasedScaled && plans.SetUp(res0, res1)
      ensures out.data[..] == Sub(data[..], b.data[..])
    {
      out := new Complex2DArray(res0, res1, aliasedScaled, plans);
      SubInto(data, b.data, out.data);
    }

    /** addScalar_Spec: a copy with v times the number of cells added to cell 0, the mean mode. */
    method AddScalarSpec(v: Complex, plans: ComplexPlans) returns (out: Complex2DArray)
      requires Valid() && res0 > 0 && res1 > 0 && plans.Valid()
      modifies plans`refCounter, plans`built, plans`planRes0, plans`planRes1
      ensures fresh(out) && fresh(out.data) && out.Valid() && out.res0 == res0 && out.res1 == res1
      ensures out.aliasedScaled == aliasedScaled && plans.SetUp(res0, res1)
      ensures out.data[..] == AddAtFirstCell(data[..], MeanMode(v, res0 * res1))
    {
      out := new Complex2DArray(res0, res1, aliasedScaled, plans);
      CopyBuffer(data, out.data);
      MulPositiveNat(res0, res1);
      AddAtFirstCellInPlace(out.data, MeanMode(v, res0 * res1));
    }

    /** subScalar_Spec: the same amount subtracted at cell 0. */
    method SubScalarSpec(v: Complex, plans: ComplexPlans) returns (out: Complex2DArray)
      requires Valid() && res0 > 0 && res1 > 0 && plans.Valid()
      modifies plans`refCounter, plans`built, plans`planRes0, plans`planRes1
      ensures fresh(out) && fresh(out.data) && out.Valid() && out.res0 == res0 && out.res1 == res1
      ensures out.aliasedScaled == aliasedScaled && plans.SetUp(res0, res1)
      ensures out.data[..] == AddAtFirstCell(data[..], CSub(Zero, MeanMode(v, res0 * res1)))
    {
      out := new Complex2DArray(res0, res1, aliasedScaled, plans);
      CopyBuffer(data, out.data);
      MulPositiveNat(res0, res1);
      AddAtFirstCellInPlace(out.data, CSub(Zero, MeanMode(v, res0 * res1)));
    }

    /** addScalar_Cart: v added to every cell. */
    method AddScalarCart(v: Complex, plans: ComplexPlans) returns (out: Complex2DArray)
      requires Valid() && plans.Valid()
      modifies plans`refCounter, plans`built, plans`planRes0, plans`planRes1
      ensures fresh(out) && fresh(out.data) && out.Valid() && out.res0 == res0 && out.res1 == res1
      ensures out.aliasedScaled == aliasedScaled && plans.SetUp(res0, res1)
      ensures out.data[..] == ShiftCells(data[..], v)
    {
      out := new Complex2DArray(res0, res1, aliasedScaled, plans);
      ShiftCellsInto(data, v, out.data);
    }

    /** subScalar_Cart: v subtracted from every cell. */
    method SubScalarCart(v: Complex, plans: ComplexPlans) returns (out: Complex2DArray)
      requires Valid() && plans.Valid()
      modifies plans`refCounter, plans`built, plans`planRes0, plans`planRes1
      ensures fresh(out) && fresh(out.data) && out.Valid() && out.res0 == res0 && out.res1 == res1
      ensures out.aliasedScaled == aliasedScaled && plans.SetUp(res0, res1)
      ensures out.data[..] == ShiftCells(data[..], CSub(Zero, v))
    {
      out := new Complex2DArray(res0, res1, aliasedScaled, plans);
      ShiftCellsInto(data, CSub(Zero, v), out.data);
    }

    /** operator*(array): the cell-wise product through std::complex, sized by the operand. */
    method MulArray(b: Complex2DArray, plans: ComplexPlans) returns (out: Complex2DArray)
      requires Valid() && b.Valid() && b.res0 == res0 && b.res1 == res1 && plans.Valid()
      modifies plans`refCounter, plans`built, plans`planRes0, plans`planRes1
      ensures fresh(out) && fresh(out.data) && out.Valid() && out.res0 == b.res0 && out.res1 == b.res1
      ensures out.aliasedScaled == aliasedScaled && plans.SetUp(b.res0, b.res1)
      ensures out.data[..] == Cellwise(CMul, data[..], b.data[..])
    {
      out := new Complex2DArray(b.res0, b.res1, aliasedScaled, plans);
      CellwiseInto(CMul, data, b.data, out.data);
    }

    /* ---------- reductions ---------- */

    /**
     * reduce_sumAbs as written: the index i steps by 2 up to 2N and the loop
     * reads positions 2i and 2i+1, past the end of the buffer once N >= 2.
     * `outOfBounds` reports the first such read.
     */
    method ReduceSumAbsAsWritten() returns (sum: real, outOfBounds: bool)
      requires Valid()
      ensures outOfBounds <==> res0 * res1 >= 2
      ensures !outOfBounds ==> sum == SumAbs(data[..])
    {
      sum, outOfBounds := SumAbsStrided(data);
    }

    /** reduce_sumAbs as intended: |re| + |im| summed over every cell. */
    method ReduceSumAbs() returns (sum: real)
      requires Valid()
      ensures sum == SumAbs(data[..])
    {
      sum := SumAbsCells(data);
    }

    /** reduce_rms_quad: the root mean square of the cell moduli, Kahan-summed. */
    method ReduceRmsQuad(sqrt: real -> real) returns (r: real)
      requires Valid() && res0 > 0 && res1 > 0
      ensures r == sqrt(SumSquares(data[..]) / ((res0 * res1) as real))
    {
      var sum := KahanSumSquares(data);
      MulPositiveNat(res0, res1);
      r := sqrt(sum / ((res0 * res1) as real));
    }

    /** reduce_sum_re_quad: the sum of the real parts, Kahan-summed. */
    method ReduceSumReQuad() returns (r: real)
      requires Valid()
      ensures r == SumRe(data[..])
    {
      r := KahanSumRe(data);
    }

    /** reduce_norm2_quad: the 2-norm of the cell values, Kahan-summed. */
    method ReduceNorm2Quad(sqrt: real -> real) returns (r: real)
      requires Valid()
      ensures r == sqrt(SumSquares(data[..]))
    {
      var sum := KahanSumSquares(data);
      r := sqrt(sum);
    }
  }

  /** A plan execution writes the transform's output into the destination buffer. */
  method ExecuteInto(v: seq<real>, dst: array<real>)
    requires |v| == dst.Length
    modifies dst
    ensures dst[..] == v
  {
    forall k | 0 <= k < dst.Length {
      dst[k] := v[k];
    }
  }

  /** The loop of setAllRe (part 0) and setAllIm (part 1): every value at an even (odd) position becomes v. */
  method FillPartInto(a: array<real>, part: nat, v: real)
    requires a.Length % 2 == 0 && part < 2
    modifies a
    ensures forall c :: 0 <= c < a.Length / 2 ==> a[2 * c + part] == v && a[2 * c + 1 - part] == old(a[2 * c + 1 - part])
  {
    var c := 0;
    while c < a.Length / 2
      invariant 0 <= c <= a.Length / 2
      invariant forall c' :: 0 <= c' < c ==> a[2 * c' + part] == v
      invariant forall k :: 0 <= k < a.Length && (k >= 2 * c || k % 2 != part) ==> a[k] == old(a[k])
    {
      a[2 * c + part] := v;
      c := c + 1;
    }
  }

  /* ---------- the derivative set-ups: patterns, multipliers, stencils ---------- */

  /** The loops of op_setup_diff_x and diff2_x: rows j < res1/2 mirrored to res1-1-j, columns 1 <= i < res0/2 mirrored to res0-i. */
  function DiffXPattern(res0: nat, res1: nat): (p: Pattern)
    ensures Fits(p, res0, res1)
  {
    Pattern(0, res1 / 2, 1, 1, res0 / 2, 0, true)
  }

  /** The loops of op_setup_diff_y and diff2_y: rows 1 <= j < res1/2 mirrored to res1-j, columns i < res0/2 mirrored to res0-1-i. */
  function DiffYPattern(res0: nat, res1: nat): (p: Pattern)
    ensures Fits(p, res0, res1)
  {
    Pattern(1, res1 / 2, 0, 0, res0 / 2, 1, true)
  }

  /** i k: (0, i scale) in the direct columns, (0, -i scale) in the mirrored ones. */
  function DiffXMultiplier(scale: real): Multiplier
  {
    (j: nat, i: nat, rowMirrored: bool, colMirrored: bool) =>
      Complex(0.0, if colMirrored then -(i as real) * scale else (i as real) * scale)
  }

  /** -k^2: (-(i scale)^2, 0) in all four cells. */
  function Diff2XMultiplier(scale: real): Multiplier
  {
    (j: nat, i: nat, rowMirrored: bool, colMirrored: bool) =>
      Complex(-(i as real) * scale * (i as real) * scale, 0.0)
  }

  /** i l: (0, j scale) in the direct rows, (0, -j scale) in the mirrored ones. */
  function DiffYMultiplier(scale: real): Multiplier
  {
    (j: nat, i: nat, rowMirrored: bool, colMirrored: bool) =>
      Complex(0.0, if rowMirrored then -(j as real) * scale else (j as real) * scale)
  }

  /** -l^2: (-(j scale)^2, 0) in all four cells. */
  function Diff2YMultiplier(scale: real): Multiplier
  {
    (j: nat, i: nat, rowMirrored: bool, colMirrored: bool) =>
      Complex(-(j as real) * scale * (j as real) * scale, 0.0)
  }

  /** The zero grid with -1/(2h) at (0, 1) and 1/(2h) at (0, res0-1), written in that order. */
  function DiffXStencil(res0: nat, res1: nat, h: real): seq<real>
    requires res0 >= 1 && h != 0.0
  {
    var s := WriteGridCell(FillCells(res0 * res1, Zero), res0, 0, 1, Complex(-1.0 / (2.0 * h), 0.0));
    WriteGridCell(s, res0, 0, res0 - 1, Complex(1.0 / (2.0 * h), 0.0))
  }

  /** The zero grid with 1/h^2 at (0, 1), -2/h^2 at (0, 0) and 1/h^2 at (0, res0-1), in that order. */
  function Diff2XStencil(res0: nat, res1: nat, h: real): seq<real>
    requires res0 >= 1 && h != 0.0
  {
    var s := WriteGridCell(FillCells(res0 * res1, Zero), res0, 0, 1, Complex(1.0 / (h * h), 0.0));
    var s' := WriteGridCell(s, res0, 0, 0, Complex(-2.0 / (h * h), 0.0));
    WriteGridCell(s', res0, 0, res0 - 1, Complex(1.0 / (h * h), 0.0))
  }

  /** The zero grid with -1/(2h) at (1, 0) and 1/(2h) at (res1-1, 0), in that order. */
  function DiffYStencil(res0: nat, res1: nat, h: real): seq<real>
    requires res1 >= 1 && h != 0.0
  {
    var s := WriteGridCell(FillCells(res0 * res1, Zero), res0, 1, 0, Complex(-1.0 / (2.0 * h), 0.0));
    WriteGridCell(s, res0, res1 - 1, 0, Complex(1.0 / (2.0 * h), 0.0))
  }

  /** The zero grid with 1/h^2 at (1, 0), -2/h^2 at (0, 0) and 1/h^2 at (res1-1, 0), in that order. */
  function Diff2YStencil(res0: nat, res1: nat, h: real): seq<real>
    requires res1 >= 1 && h != 0.0
  {
    var s := WriteGridCell(FillCells(res0 * res1, Zero), res0, 1, 0, Complex(1.0 / (h * h), 0.0));
    var s' := WriteGridCell(s, res0, 0, 0, Complex(-2.0 / (h * h), 0.0));
    WriteGridCell(s', res0, res1 - 1, 0, Complex(1.0 / (h * h), 0.0))
  }

  /**
   * For even resolutions the x-derivative multipliers are i times the
   * signed x wavenumber times 2 pi / L0: zero in the mean and Nyquist
   * columns, x below the Nyquist column and x - res0 above it.
   */
  lemma DiffXIsWavenumber(w: nat, h: nat, scale: real, y: nat, x: nat)
    requires w % 2 == 0 && h % 2 == 0 && y < h && x < w
    ensures PatternCell(DiffXPattern(w, h), DiffXMultiplier(scale), w, h, y, x) ==
            Complex(0.0, (Wavenumber(x, w) as real) * scale)
  {
    var p := DiffXPattern(w, h);
    assert RowSource(p, h, y) != Untouched;
    if 2 * x < w && x != 0 {
      assert ColSource(p, w, x) == Direct(x);
    } else if 2 * x > w {
      assert ColSource(p, w, x) == Mirrored(w - x);
    } else {
      assert ColSource(p, w, x) == Untouched;
    }
  }

  /**
   * For even resolutions the y-derivative multipliers are i times the
   * signed y wavenumber times 2 pi / L1.
   */
  lemma DiffYIsWavenumber(w: nat, h: nat, scale: real, y: nat, x: nat)
    requires w % 2 == 0 && h % 2 == 0 && y < h && x < w
    ensures PatternCell(DiffYPattern(w, h), DiffYMultiplier(scale), w, h, y, x) ==
            Complex(0.0, (Wavenumber(y, h) as real) * scale)
  {
    var p := DiffYPattern(w, h);
    assert ColSource(p, w, x) != Untouched;
    if 2 * y < h && y != 0 {
      assert RowSource(p, h, y) == Direct(y);
    } else if 2 * y > h {
      assert RowSource(p, h, y) == Mirrored(h - y);
    } else {
      assert RowSource(p, h, y) == Untouched;
    }
  }

  /**
   * At every resolution, whatever the multiplier, the x patterns leave
   * column 0 and column res0/2 zero, and the y patterns leave rows 0 and
   * res1/2 zero.
   */
  lemma DiffPatternsZeroLines(w: nat, h: nat, m: Multiplier, y: nat, x: nat)
    requires y < h && x < w
    ensures (x == 0 || x == w / 2) ==> PatternCell(DiffXPattern(w, h), m, w, h, y, x) == Zero
    ensures (y == 0 || y == h / 2) ==> PatternCell(DiffYPattern(w, h), m, w, h, y, x) == Zero
  {
    if x == 0 || x == w / 2 {
      assert ColSource(DiffXPattern(w, h), w, x) == Untouched;
    }
    if y == 0 || y == h / 2 {
      assert RowSource(DiffYPattern(w, h), h, y) == Untouched;
    }
  }

  /** Each second-derivative multiplier is the square of the first-derivative one. */
  lemma Diff2MultipliersSquare(scale: real)
    ensures forall j: nat, i: nat, rm: bool, cm: bool ::
      Diff2XMultiplier(scale)(j, i, rm, cm) == CMul(DiffXMultiplier(scale)(j, i, rm, cm), DiffXMultiplier(scale)(j, i, rm, cm))
    ensures forall j: nat, i: nat, rm: bool, cm: bool ::
      Diff2YMultiplier(scale)(j, i, rm, cm) == CMul(DiffYMultiplier(scale)(j, i, rm, cm), DiffYMultiplier(scale)(j, i, rm, cm))
  {
    forall j: nat, i: nat, rm: bool, cm: bool
      ensures Diff2XMultiplier(scale)(j, i, rm, cm) == CMul(DiffXMultiplier(scale)(j, i, rm, cm), DiffXMultiplier(scale)(j, i, rm, cm))
      ensures Diff2YMultiplier(scale)(j, i, rm, cm) == CMul(DiffYMultiplier(scale)(j, i, rm, cm), DiffYMultiplier(scale)(j, i, rm, cm))
    {
      ImaginarySquare((i as real) * scale);
      ImaginarySquare(-(i as real) * scale);
      ImaginarySquare((j as real) * scale);
      ImaginarySquare(-(j as real) * scale);
    }
  }

  /** At every resolution the spectral second derivative in x is the cell-wise square of the first. */
  lemma Diff2XIsDiffXSquared(s: seq<real>, t: seq<real>, w: nat, h: nat, scale: real)
    requires |s| == |t| == 2 * (w * h)
    requires HoldsPattern(s, w, h, DiffXPattern(w, h), DiffXMultiplier(scale))
    requires HoldsPattern(t, w, h, DiffXPattern(w, h), Diff2XMultiplier(scale))
    ensures |s| % 2 == 0 && t == Cellwise(CMul, s, s)
  {
    Diff2MultipliersSquare(scale);
    SquarePattern(s, t, w, h, DiffXPattern(w, h), DiffXMultiplier(scale), Diff2XMultiplier(scale));
  }

  /** The same in y. */
  lemma Diff2YIsDiffYSquared(s: seq<real>, t: seq<real>, w: nat, h: nat, scale: real)
    requires |s| == |t| == 2 * (w * h)
    requires HoldsPattern(s, w, h, DiffYPattern(w, h), DiffYMultiplier(scale))
    requires HoldsPattern(t, w, h, DiffYPattern(w, h), Diff2YMultiplier(scale))
    ensures |s| % 2 == 0 && t == Cellwise(CMul, s, s)
  {
    Diff2MultipliersSquare(scale);
    SquarePattern(s, t, w, h, DiffYPattern(w, h), DiffYMultiplier(scale), Diff2YMultiplier(scale));
  }

  /* ---------- sums over the real parts ---------- */

  /** The sum of the real parts of an interleaved buffer, cell by cell. */
  function SumRe(s: seq<real>): real
  {
    if |s| < 2 then 0.0 else SumRe(s[..|s| - 2]) + s[|s| - 2]
  }

  /** Overwriting one cell changes the sum of the real parts by the change of that cell's real part. */
  lemma {:induction false} SumReSetCell(s: seq<real>, c: nat, z: Complex)
    requires |s| % 2 == 0 && 2 * c + 1 < |s|
    ensures SumRe(SetCell(s, c, z)) == SumRe(s) - s[2 * c] + z.re
  {
    var r := SetCell(s, c, z);
    if 2 * c + 2 < |s| {
      assert r[..|r| - 2] == SetCell(s[..|s| - 2], c, z);
      SumReSetCell(s[..|s| - 2], c, z);
    } else {
      assert r[..|r| - 2] == s[..|s| - 2];
    }
  }

  /** A grid of zeros sums to zero. */
  lemma {:induction false} SumReZeros(n: nat)
    ensures SumRe(FillCells(n, Zero)) == 0.0
  {
    if n > 0 {
      assert FillCells(n, Zero)[..2 * n - 2] == FillCells(n - 1, Zero);
      SumReZeros(n - 1);
    }
  }

  /** The same for a write through the grid coordinates. */
  lemma SumReWrite(s: seq<real>, w: nat, h: nat, y: nat, x: nat, z: Complex)
    requires |s| == 2 * (w * h) && y < h && x < w
    ensures SumRe(WriteGridCell(s, w, y, x, z)) == SumRe(s) - GridCell(s, w, y, x).re + z.re
  {
    CellIndexInRange(y, x, w, h);
    SumReSetCell(s, CellIndex(y, x, w), z);
  }

  /** Two writes of distinct cells on the zero grid: the real parts sum to the two written ones. */
  lemma TwoWritesOnZeros(w: nat, h: nat, y1: nat, x1: nat, a: Complex, y2: nat, x2: nat, b: Complex)
    requires y1 < h && x1 < w && y2 < h && x2 < w && (y1 != y2 || x1 != x2)
    ensures SumRe(WriteGridCell(WriteGridCell(FillCells(w * h, Zero), w, y1, x1, a), w, y2, x2, b)) == a.re + b.re
  {
    var z := FillCells(w * h, Zero);
    ZeroGridCell(w, h, y1, x1);
    ZeroGridCell(w, h, y2, x2);
    SumReZeros(w * h);
    SumReWrite(z, w, h, y1, x1, a);
    WriteThenRead(z, w, h, y1, x1, a, y2, x2);
    SumReWrite(WriteGridCell(z, w, y1, x1, a), w, h, y2, x2, b);
  }

  /** Three writes of distinct cells on the zero grid. */
  lemma ThreeWritesOnZeros(w: nat, h: nat, y1: nat, x1: nat, a: Complex, y2: nat, x2: nat, b: Complex, y3: nat, x3: nat, c: Complex)
    requires y1 < h && x1 < w && y2 < h && x2 < w && y3 < h && x3 < w
    requires (y1 != y2 || x1 != x2) && (y1 != y3 || x1 != x3) && (y2 != y3 || x2 != x3)
    ensures SumRe(WriteGridCell(WriteGridCell(WriteGridCell(FillCells(w * h, Zero), w, y1, x1, a), w, y2, x2, b), w, y3, x3, c)) ==
            a.re + b.re + c.re
  {
    var z := FillCells(w * h, Zero);
    var s := WriteGridCell(z, w, y1, x1, a);
    var s' := WriteGridCell(s, w, y2, x2, b);
    TwoWritesOnZeros(w, h, y1, x1, a, y2, x2, b);
    ZeroGridCell(w, h, y3, x3);
    WriteThenRead(z, w, h, y1, x1, a, y3, x3);
    WriteThenRead(s, w, h, y2, x2, b, y3, x3);
    SumReWrite(s', w, h, y3, x3, c);
  }

  /**
   * The finite-difference stencils are consistent: their weights sum to
   * zero, so they map a constant field to zero.  This needs at least three
   * points along the axis; with two, the later write overwrites the earlier.
   */
  lemma DiffXStencilWeightsCancel(w: nat, h: nat, step: real)
    requires w >= 3 && h >= 1 && step != 0.0
    ensures SumRe(DiffXStencil(w, h, step)) == 0.0
  {
    TwoWritesOnZeros(w, h, 0, 1, Complex(-1.0 / (2.0 * step), 0.0), 0, w - 1, Complex(1.0 / (2.0 * step), 0.0));
  }

  lemma Diff2XStencilWeightsCancel(w: nat, h: nat, step: real)
    requires w >= 3 && h >= 1 && step != 0.0
    ensures SumRe(Diff2XStencil(w, h, step)) == 0.0
  {
    var a := Complex(1.0 / (step * step), 0.0);
    ThreeWritesOnZeros(w, h, 0, 1, a, 0, 0, Complex(-2.0 / (step * step), 0.0), 0, w - 1, a);
  }

  lemma DiffYStencilWeightsCancel(w: nat, h: nat, step: real)
    requires w >= 1 && h >= 3 && step != 0.0
    ensures SumRe(DiffYStencil(w, h, step)) == 0.0
  {
    TwoWritesOnZeros(w, h, 1, 0, Complex(-1.0 / (2.0 * step), 0.0), h - 1, 0, Complex(1.0 / (2.0 * step), 0.0));
  }

  lemma Diff2YStencilWeightsCancel(w: nat, h: nat, step: real)
    requires w >= 1 && h >= 3 && step != 0.0
    ensures SumRe(Diff2YStencil(w, h, step)) == 0.0
  {
    var a := Complex(1.0 / (step * step), 0.0);
    ThreeWritesOnZeros(w, h, 1, 0, a, 0, 0, Complex(-2.0 / (step * step), 0.0), h - 1, 0, a);
  }

  /** With two columns the central-difference stencil keeps only its second weight. */
  lemma DiffXStencilTwoColumns(h: nat, step: real)
    requires h >= 1 && step != 0.0
    ensures SumRe(DiffXStencil(2, h, step)) == 1.0 / (2.0 * step)
  {
    var z := FillCells(2 * h, Zero);
    SumReZeros(2 * h);
    var a := Complex(-1.0 / (2.0 * step), 0.0);
    var s := WriteGridCell(z, 2, 0, 1, a);
    ZeroGridCell(2, h, 0, 1);
    SumReWrite(z, 2, h, 0, 1, a);
    WriteThenRead(z, 2, h, 0, 1, a, 0, 1);
    SumReWrite(s, 2, h, 0, 1, Complex(1.0 / (2.0 * step), 0.0));
  }

  /**
   * With one column, set(0, 1, ...) lands on cell (1, 0): on a 1 x 2 grid the
   * x stencil becomes a difference between the two rows.
   */
  lemma DiffXStencilOneColumn(step: real)
    requires step != 0.0
    ensures DiffXStencil(1, 2, step) == [1.0 / (2.0 * step), 0.0, -1.0 / (2.0 * step), 0.0]
  {
    var a := Complex(-1.0 / (2.0 * step), 0.0);
    var b := Complex(1.0 / (2.0 * step), 0.0);
    FillCellsReadsBack(2, Zero, 0);
    OneColumnWrites(FillCells(2, Zero), a, b);
    SetBothCells(FillCells(2, Zero), a, b);
  }

  /** On a single cell, set(0, 1, ...) falls outside the buffer; only the second weight is written. */
  lemma DiffXStencilSingleCell(step: real)
    requires step != 0.0
    ensures DiffXStencil(1, 1, step) == [1.0 / (2.0 * step), 0.0]
  {
    FillCellsReadsBack(1, Zero, 0);
    SingleCellWrites(FillCells(1, Zero), Complex(-1.0 / (2.0 * step), 0.0), Complex(1.0 / (2.0 * step), 0.0));
  }

  /** Every cell of the zero grid is zero. */
  lemma ZeroGridCell(w: nat, h: nat, y: nat, x: nat)
    requires y < h && x < w
    ensures |FillCells(w * h, Zero)| == 2 * (w * h)
    ensures GridCell(FillCells(w * h, Zero), w, y, x) == Zero
  {
    CellIndexInRange(y, x, w, h);
    FillCellsReadsBack(w * h, Zero, CellIndex(y, x, w));
  }

  /* ---------- scalar operators on cells ---------- */

  /** v added to every cell (addScalar_Cart). */
  function ShiftCells(s: seq<real>, v: Complex): (r: seq<real>)
    requires |s| % 2 == 0
  {
    Cellwise(CAdd, s, FillCells(|s| / 2, v))
  }

  /** Every cell times v (operator*(complex)). */
  function ScaleCells(s: seq<real>, v: Complex): (r: seq<real>)
    requires |s| % 2 == 0
  {
    Cellwise(CMul, s, FillCells(|s| / 2, v))
  }

  /** The amount the spectral scalar operators put on the mean mode: v times the number of cells. */
  function MeanMode(v: Complex, n: nat): Complex
  {
    Complex(v.re * (n as real), v.im * (n as real))
  }

  /** Cell 0 increased by z, every other value kept (addScalar_Spec). */
  function AddAtFirstCell(s: seq<real>, z: Complex): (r: seq<real>)
    requires |s| >= 2
  {
    s[0 := s[0] + z.re][1 := s[1] + z.im]
  }

  /** Cell c of the shifted buffer is cell c plus v. */
  lemma ShiftCellsAt(s: seq<real>, v: Complex, c: nat)
    requires |s| % 2 == 0 && 2 * c + 1 < |s|
    ensures |ShiftCells(s, v)| == |s|
    ensures CellAt(ShiftCells(s, v), c) == CAdd(CellAt(s, c), v)
  {
    FillCellsReadsBack(|s| / 2, v, c);
    CellwiseAt(CAdd, s, FillCells(|s| / 2, v), c);
  }

  /** subScalar_Cart undoes addScalar_Cart. */
  lemma ShiftCellsInverse(s: seq<real>, v: Complex)
    requires |s| % 2 == 0
    ensures ShiftCells(ShiftCells(s, v), CSub(Zero, v)) == s
  {
    var t := ShiftCells(s, v);
    var u := ShiftCells(t, CSub(Zero, v));
    assert |t| == |s| by {
      if |s| > 0 {
        ShiftCellsAt(s, v, 0);
      }
    }
    forall c | 0 <= c < |s| / 2
      ensures CellAt(u, c) == CellAt(s, c)
    {
      ShiftCellsAt(s, v, c);
      ShiftCellsAt(t, CSub(Zero, v), c);
    }
    SameCellsSameBuffer(u, s);
  }

  /** setAll(v) followed by addScalar_Cart(-v) leaves every cell zero. */
  lemma FillThenShiftBack(n: nat, v: Complex)
    ensures ShiftCells(FillCells(n, v), CSub(Zero, v)) == FillCells(n, Zero)
  {
    var f := FillCells(n, v);
    forall c | 0 <= c < n
      ensures CellAt(ShiftCells(f, CSub(Zero, v)), c) == CellAt(FillCells(n, Zero), c)
    {
      FillCellsReadsBack(n, v, c);
      FillCellsReadsBack(n, Zero, c);
      ShiftCellsAt(f, CSub(Zero, v), c);
    }
    if n > 0 {
      ShiftCellsAt(f, CSub(Zero, v), 0);
    }
    SameCellsSameBuffer(ShiftCells(f, CSub(Zero, v)), FillCells(n, Zero));
  }

  /** Dividing by the constant field v undoes the product with v, for v != 0. */
  lemma ScaleCellsInverse(s: seq<real>, v: Complex)
    requires |s| % 2 == 0 && NormSquared(v) != 0.0
    ensures Cellwise(CDiv, ScaleCells(s, v), FillCells(|s| / 2, v)) == s
  {
    var n := |s| / 2;
    forall c | 0 <= c < n
      ensures NormSquared(CellAt(FillCells(n, v), c)) != 0.0
    {
      FillCellsReadsBack(n, v, c);
    }
    CellwiseDivUndoesMul(s, FillCells(n, v));
  }

  /** subScalar_Spec undoes addScalar_Spec. */
  lemma AddAtFirstCellInverse(s: seq<real>, z: Complex)
    requires |s| >= 2
    ensures AddAtFirstCell(AddAtFirstCell(s, z), CSub(Zero, z)) == s
  {
    var t := AddAtFirstCell(AddAtFirstCell(s, z), CSub(Zero, z));
    assert forall k :: 0 <= k < |s| ==> t[k] == s[k];
  }

  /** The free operator*(complex, array): every cell of the array times v. */
  method ScalarTimesArray(v: Complex, a: Complex2DArray, plans: ComplexPlans) returns (out: Complex2DArray)
    requires a.Valid() && plans.Valid()
    modifies plans`refCounter, plans`built, plans`planRes0, plans`planRes1
    ensures fresh(out) && fresh(out.data) && out.Valid() && out.res0 == a.res0 && out.res1 == a.res1
    ensures out.aliasedScaled == a.aliasedScaled && plans.SetUp(a.res0, a.res1)
    ensures out.data[..] == ScaleCells(a.data[..], v)
  {
    out := new Complex2DArray(a.res0, a.res1, a.aliasedScaled, plans);
    ScaleCellsInto(a.data, v, out.data);
  }

  /** The set calls of op_setup_diff_x's finite-difference branch, on the zeroed grid. */
  method DiffXStencilInto(a: array<real>, res0: nat, res1: nat, h: real)
    requires a.Length == 2 * (res0 * res1) && res0 >= 1 && h != 0.0
    requires a[..] == FillCells(res0 * res1, Zero)
    modifies a
    ensures a[..] == DiffXStencil(res0, res1, h)
  {
    WriteCellInto(a, res0, 0, 1, Complex(-1.0 / (2.0 * h), 0.0));
    WriteCellInto(a, res0, 0, res0 - 1, Complex(1.0 / (2.0 * h), 0.0));
  }

  /** The set calls of op_setup_diff2_x's finite-difference branch. */
  method Diff2XStencilInto(a: array<real>, res0: nat, res1: nat, h: real)
    requires a.Length == 2 * (res0 * res1) && res0 >= 1 && h != 0.0
    requires a[..] == FillCells(res0 * res1, Zero)
    modifies a
    ensures a[..] == Diff2XStencil(res0, res1, h)
  {
    WriteCellInto(a, res0, 0, 1, Complex(1.0 / (h * h), 0.0));
    WriteCellInto(a, res0, 0, 0, Complex(-2.0 / (h * h), 0.0));
    WriteCellInto(a, res0, 0, res0 - 1, Complex(1.0 / (h * h), 0.0));
  }

  /** The set calls of op_setup_diff_y's finite-difference branch. */
  method DiffYStencilInto(a: array<real>, res0: nat, res1: nat, h: real)
    requires a.Length == 2 * (res0 * res1) && res1 >= 1 && h != 0.0
    requires a[..] == FillCells(res0 * res1, Zero)
    modifies a
    ensures a[..] == DiffYStencil(res0, res1, h)
  {
    WriteCellInto(a, res0, 1, 0, Complex(-1.0 / (2.0 * h), 0.0));
    WriteCellInto(a, res0, res1 - 1, 0, Complex(1.0 / (2.0 * h), 0.0));
  }

  /** The set calls of op_setup_diff2_y's finite-difference branch. */
  method Diff2YStencilInto(a: array<real>, res0: nat, res1: nat, h: real)
    requires a.Length == 2 * (res0 * res1) && res1 >= 1 && h != 0.0
    requires a[..] == FillCells(res0 * res1, Zero)
    modifies a
    ensures a[..] == Diff2YStencil(res0, res1, h)
  {
    WriteCellInto(a, res0, 1, 0, Complex(1.0 / (h * h), 0.0));
    WriteCellInto(a, res0, 0, 0, Complex(-2.0 / (h * h), 0.0));
    WriteCellInto(a, res0, res1 - 1, 0, Complex(1.0 / (h * h), 0.0));
  }

  /* ---------- the loops ---------- */

  /** out.data[0] += z.re; out.data[1] += z.im. */
  method AddAtFirstCellInPlace(a: array<real>, z: Complex)
    requires a.Length >= 2
    modifies a
    ensures a[..] == AddAtFirstCell(old(a[..]), z)
  {
    a[0] := a[0] + z.re;
    a[1] := a[1] + z.im;
  }

  /** Cell c of dst becomes f(cell c of s, v). */
  method CellwiseConstInto(f: (Complex, Complex) -> Complex, s: array<real>, v: Complex, dst: array<real>)
    requires s.Length == dst.Length && s.Length % 2 == 0 && dst != s
    modifies dst
    ensures dst[..] == Cellwise(f, s[..], FillCells(s.Length / 2, v))
  {
    var n := s.Length / 2;
    var c := 0;
    while c < n
      invariant 0 <= c <= n
      invariant forall c' :: 0 <= c' < c ==> CellAt(dst[..], c') == f(CellAt(s[..], c'), v)
    {
      var z := f(Complex(s[2 * c], s[2 * c + 1]), v);
      dst[2 * c] := z.re;
      dst[2 * c + 1] := z.im;
      c := c + 1;
    }
    forall c' | 0 <= c' < n
      ensures CellAt(dst[..], c') == f(CellAt(s[..], c'), CellAt(FillCells(n, v), c'))
    {
      FillCellsReadsBack(n, v, c');
    }
    CellwiseFromCells(f, s[..], FillCells(n, v), dst[..]);
  }

  /** The loop of addScalar_Cart and subScalar_Cart. */
  method ShiftCellsInto(s: array<real>, v: Complex, dst: array<real>)
    requires s.Length == dst.Length && s.Length % 2 == 0 && dst != s
    modifies dst
    ensures dst[..] == ShiftCells(s[..], v)
  {
    CellwiseConstInto(CAdd, s, v, dst);
  }

  /** The loop of operator*(complex). */
  method ScaleCellsInto(s: array<real>, v: Complex, dst: array<real>)
    requires s.Length == dst.Length && s.Length % 2 == 0 && dst != s
    modifies dst
    ensures dst[..] == ScaleCells(s[..], v)
  {
    CellwiseConstInto(CMul, s, v, dst);
  }

  /**
   * The loop of spec_div_element_wise: it stops at the first cell whose
   * |den| lies below the threshold; otherwise every cell of dst is the
   * quotient with the zero-denominator rule.
   */
  method DivCellsInto(s: array<real>, t: array<real>, dst: array<real>, threshold: real) returns (fatal: bool)
    requires s.Length == t.Length == dst.Length && s.Length % 2 == 0 && dst != s && dst != t
    modifies dst
    ensures fatal <==> exists c :: 0 <= c < s.Length / 2 && Abs(NormSquared(CellAt(t[..], c))) < threshold
    ensures !fatal ==> dst[..] == Cellwise(CDiv, s[..], t[..])
  {
    var c := 0;
    while c < s.Length / 2
      invariant 0 <= c <= s.Length / 2
      invariant forall c' :: 0 <= c' < c ==> !(Abs(NormSquared(CellAt(t[..], c'))) < threshold)
      invariant forall c' :: 0 <= c' < c ==> CellAt(dst[..], c') == CDiv(CellAt(s[..], c'), CellAt(t[..], c'))
    {
      var ar, ai := s[2 * c], s[2 * c + 1];
      var br, bi := t[2 * c], t[2 * c + 1];
      var den := br * br + bi * bi;
      if Abs(den) < threshold {
        assert NormSquared(CellAt(t[..], c)) == den;
        return true;
      }
      var z: Complex;
      if Abs(den) == 0.0 {
        z := Zero;
      } else {
        z := Complex((ar * br + ai * bi) / den, (ai * br - ar * bi) / den);
      }
      assert z == CDiv(CellAt(s[..], c), CellAt(t[..], c));
      dst[2 * c] := z.re;
      dst[2 * c + 1] := z.im;
      c := c + 1;
    }
    CellwiseFromCells(CDiv, s[..], t[..], dst[..]);
    return false;
  }

  /**
   * reduce_sumAbs's loop as written: i runs over 0, 2, 4, ... below the
   * length and reads positions 2i and 2i+1.  It reports the first read past
   * the end instead of performing it.
   */
  method SumAbsStrided(a: array<real>) returns (sum: real, outOfBounds: bool)
    requires a.Length % 2 == 0
    ensures outOfBounds <==> a.Length >= 4
    ensures !outOfBounds ==> sum == SumAbs(a[..])
  {
    sum := 0.0;
    var i := 0;
    while i < a.Length
      invariant 0 <= i && i % 2 == 0
      invariant i >= 2 ==> 2 * (i - 2) + 1 < a.Length
      invariant i <= 2 ==> sum == SumAbs(a[..i])
    {
      if 2 * i + 1 >= a.Length {
        return sum, true;
      }
      if i == 0 {
        assert a[..2][..1] == a[..1];
        assert a[..1][..0] == a[..0];
      }
      sum := sum + (Abs(a[2 * i]) + Abs(a[2 * i + 1]));
      i := i + 2;
    }
    assert i <= 2;
    assert a[..i] == a[..];
    return sum, false;
  }

  /** reduce_sumAbs as intended: |re| + |im| of every cell, in order. */
  method SumAbsCells(a: array<real>) returns (sum: real)
    requires a.Length % 2 == 0
    ensures sum == SumAbs(a[..])
  {
    sum := 0.0;
    var i := 0;
    while i < a.Length
      invariant 0 <= i <= a.Length && i % 2 == 0
      invariant sum == SumAbs(a[..i])
    {
      assert a[..i + 2][..i + 1] == a[..i + 1];
      assert a[..i + 1][..i] == a[..i];
      sum := sum + (Abs(a[i]) + Abs(a[i + 1]));
      i := i + 2;
    }
    assert a[..i] == a[..];
  }

  /**
   * The Kahan loop of reduce_rms_quad and reduce_norm2_quad over re^2 + im^2.
   * In exact arithmetic the compensation c stays zero.
   */
  method KahanSumSquares(a: array<real>) returns (sum: real)
    requires a.Length % 2 == 0
    ensures sum == SumSquares(a[..])
  {
    sum := 0.0;
    var c := 0.0;
    var i := 0;
    while i < a.Length
      invariant 0 <= i <= a.Length && i % 2 == 0
      invariant c == 0.0
      invariant sum == SumSquares(a[..i])
    {
      assert a[..i + 2][..i + 1] == a[..i + 1];
      assert a[..i + 1][..i] == a[..i];
      var value := a[i] * a[i] + a[i + 1] * a[i + 1];
      var y := value - c;
      var t := sum + y;
      c := (t - sum) - y;
      sum := t;
      i := i + 2;
    }
    sum := sum - c;
    assert a[..i] == a[..];
  }

  /** The Kahan loop of reduce_sum_re_quad over the real parts. */
  method KahanSumRe(a: array<real>) returns (sum: real)
    requires a.Length % 2 == 0
    ensures sum == SumRe(a[..])
  {
    sum := 0.0;
    var c := 0.0;
    var i := 0;
    while i < a.Length
      invariant 0 <= i <= a.Length && i % 2 == 0
      invariant c == 0.0
      invariant sum == SumRe(a[..i])
    {
      assert a[..i + 2][..i] == a[..i];
      var value := a[i];
      var y := value - c;
      var t := sum + y;
      c := (t - sum) - y;
      sum := t;
      i := i + 2;
    }
    sum := sum - c;
    assert a[..i] == a[..];
  }
}
