/**
 * The two-dimensional real field of the spectral build: a Cartesian buffer
 * of res0 x res1 doubles and a spectral buffer of res1 rows of res0/2+1
 * complex cells, each with a validity flag.  The field converts lazily
 * between the two representations through the plan singletons of FftPlans;
 * every setter and operator leaves the flags in a fixed state.
 *
 * The field's value seen from either side is given by SpectralValue and
 * CartesianValue: the valid buffer when there is one, otherwise the
 * transform of the other buffer.
 */
module DataArrays {
  import opened Grid
  import opened Cells
  import opened Reductions
  import opened FftPlans
  import opened Kernels
  import opened Dealiasing
  import opened Buffers

  class DataArray {
    var res0: nat
    var res1: nat
    var resSpec0: nat
    var resSpec1: nat
    var cartLength: nat
    var specLength: nat
    var cart: array?<real>
    var spec: array?<real>
    var cartValid: bool
    var specValid: bool
    var aliasingScaled: bool
    var temporaryData: bool

    /** Buffers allocated with the sizes the resolution dictates. */
    ghost predicate Valid()
      reads this`res0, this`res1, this`resSpec0, this`resSpec1, this`cartLength, this`specLength, this`cart, this`spec
    {
      res0 > 0 && res1 > 0 &&
      cartLength == CartLength(res0, res1) &&
      specLength == SpecLength(res0, res1) &&
      resSpec0 == SpecWidth(res0) && resSpec1 == res1 &&
      cart != null && spec != null && cart != spec &&
      cart.Length == cartLength && spec.Length == specLength &&
      cartLength > 0 && specLength > 0
    }

    /** No buffer of this field is a buffer of b. */
    ghost predicate Apart(b: DataArray)
      reads this`cart, this`spec, b`cart, b`spec
    {
      cart != b.cart && cart != b.spec && spec != b.cart && spec != b.spec
    }

    /** The singleton this field transforms with: the aliasing one for an aliasing-scaled field. */
    function PlanSlot(reg: FftRegistry): Slot
      reads this, reg
    {
      if aliasingScaled then reg.aliasing else reg.main
    }

    /** The singleton exists and was built for this field's resolution. */
    ghost predicate PlanMatches(reg: FftRegistry)
      reads this, reg
    {
      PlanSlot(reg).Present? && PlanSlot(reg).plan == PlanFor(res0, res1)
    }

    /** The spectrum of the field: the spectral buffer if valid, else the forward transform. */
    ghost function SpectralValue(fft: RealFft): seq<real>
      reads this, cart, spec
      requires Valid()
    {
      if specValid then spec[..] else fft.forward(res0, res1, cart[..])
    }

    /** The grid values: the Cartesian buffer if valid, else the scaled backward transform. */
    ghost function CartesianValue(fft: RealFft): seq<real>
      reads this, cart, spec
      requires Valid()
    {
      if cartValid then cart[..] else Scale(fft.backward(res0, res1, spec[..]), 1.0 / (cartLength as real))
    }

    /** What requestDataInSpectralSpace asserts before it transforms. */
    ghost predicate CanRequestSpectral(reg: FftRegistry)
      reads this, reg
      requires Valid()
    {
      specValid || (cartValid && PlanMatches(reg) && Conforms(reg.fft))
    }

    /** What requestDataInCartesianSpace asserts before it transforms. */
    ghost predicate CanRequestCartesian(reg: FftRegistry)
      reads this, reg
      requires Valid()
    {
      cartValid || (specValid && PlanMatches(reg) && Conforms(reg.fft))
    }

    /**
     * The field went through requestDataInSpectralSpace: its spectral buffer
     * holds the spectrum it had, and nothing else changed.
     */
    twostate predicate SpectralRequested(fft: RealFft)
      reads this, cart, spec
    {
      old(Valid()) && Valid() && specValid && cartValid == old(cartValid) &&
      cart == old(cart) && spec == old(spec) && cart[..] == old(cart[..]) &&
      spec[..] == old(SpectralValue(fft))
    }

    /**
     * The field went through requestDataInCartesianSpace: its Cartesian
     * buffer holds the grid values it had.  A backward transform leaves
     * the spectral buffer invalid, because it consumes its input.
     */
    twostate predicate CartesianRequested(fft: RealFft)
      reads this, cart, spec
    {
      old(Valid()) && Valid() && cartValid &&
      (old(cartValid) ==> specValid == old(specValid)) &&
      (!old(cartValid) ==> !specValid) &&
      cart == old(cart) && spec == old(spec) && spec[..] == old(spec[..]) &&
      cart[..] == old(CartesianValue(fft))
    }

    /**
     * p_request_buffers_with_resolution: nothing happens when the resolution
     * is unchanged; otherwise both buffers are reallocated for the new
     * resolution and both flags drop.
     */
    method RequestBuffersWithResolution(r0: nat, r1: nat)
      requires (r0 == res0 && r1 == res1) || (r0 > 0 && r1 > 0)
      modifies this
      ensures old(res0) == r0 && old(res1) == r1 ==> unchanged(this)
      ensures !(old(res0) == r0 && old(res1) == r1) ==>
        Valid() && res0 == r0 && res1 == r1 && fresh(cart) && fresh(spec) &&
        !cartValid && !specValid &&
        aliasingScaled == old(aliasingScaled) && temporaryData == old(temporaryData)
    {
      if res0 == r0 && res1 == r1 {
        return;
      }
      cartLength := r0 * r1;
      res0, res1 := r0, r1;
      cartValid := false;
      SpecLengthFromCartLength(r0, r1);
      specLength := (cartLength / r0) * ((r0 / 2 + 1) * 2);
      MulPositiveNat(r0, r1);
      SpecLengthIsCells(r0, r1);
      MulPositiveNat(SpecWidth(r0), r1);
      resSpec0, resSpec1 := r0 / 2 + 1, r1;
      specValid := false;
      cart := new real[cartLength];
      spec := new real[specLength];
    }

    /** The resolution constructor: allocate, then take a reference on the main plan. */
    constructor (r0: nat, r1: nat, reg: FftRegistry)
      requires r0 > 0 && r1 > 0
      modifies reg`main
      ensures Valid() && fresh(cart) && fresh(spec)
      ensures res0 == r0 && res1 == r1
      ensures !cartValid && !specValid && !aliasingScaled && !temporaryData
      ensures reg.main == AfterAcquire(old(reg.main), PlanFor(r0, r1))
    {
      res0, res1 := 0, 0;
      resSpec0, resSpec1 := 0, 0;
      cartLength, specLength := 0, 0;
      cart, spec := null, null;
      cartValid, specValid := false, false;
      aliasingScaled, temporaryData := false, false;
      new;
      RequestBuffersWithResolution(r0, r1);
      reg.TestAndInit(r0, r1);
    }

    /**
     * The copy constructor: duplicate whichever buffers are valid, keep the
     * flags and the aliasing mark, and bump the main counter (which the
     * source does without a null check).
     */
    constructor Copy(src: DataArray, reg: FftRegistry)
      requires src.Valid() && reg.main.Present?
      modifies reg`main
      ensures Valid() && fresh(cart) && fresh(spec)
      ensures res0 == src.res0 && res1 == src.res1
      ensures cartValid == src.cartValid && specValid == src.specValid
      ensures aliasingScaled == src.aliasingScaled && !temporaryData
      ensures cartValid ==> cart[..] == src.cart[..]
      ensures specValid ==> spec[..] == src.spec[..]
      ensures (src.cartValid || src.specValid) ==>
        SpectralValue(reg.fft) == src.SpectralValue(reg.fft) &&
        CartesianValue(reg.fft) == src.CartesianValue(reg.fft)
      ensures reg.main == Present(old(reg.main).refCounter + 1, old(reg.main).plan)
    {
      res0, res1 := src.res0, src.res1;
      resSpec0, resSpec1 := src.resSpec0, src.resSpec1;
      cartLength, specLength := src.cartLength, src.specLength;
      aliasingScaled := src.aliasingScaled;
      temporaryData := false;
      cart := new real[src.cartLength];
      spec := new real[src.specLength];
      cartValid := src.cartValid;
      specValid := src.specValid;
      new;
      if cartValid {
        CopyBuffer(src.cart, cart);
      }
      if specValid {
        CopyBuffer(src.spec, spec);
      }
      reg.Retain();
    }

    /**
     * The move constructor: take over the source's buffers and flags, leave
     * the source with no buffers and both flags down, bump the main counter.
     */
    constructor Move(src: DataArray, reg: FftRegistry)
      requires src.Valid() && reg.main.Present?
      modifies src, reg`main
      ensures Valid()
      ensures res0 == old(src.res0) && res1 == old(src.res1)
      ensures cart == old(src.cart) && spec == old(src.spec)
      ensures cartValid == old(src.cartValid) && specValid == old(src.specValid)
      ensures aliasingScaled == old(src.aliasingScaled) && !temporaryData
      ensures src.cart == null && src.spec == null && !src.cartValid && !src.specValid
      ensures reg.main == Present(old(reg.main).refCounter + 1, old(reg.main).plan)
    {
      res0, res1 := src.res0, src.res1;
      resSpec0, resSpec1 := src.resSpec0, src.resSpec1;
      cartLength, specLength := src.cartLength, src.specLength;
      aliasingScaled := src.aliasingScaled;
      temporaryData := false;
      cart := src.cart;
      spec := src.spec;
      cartValid := src.cartValid;
      specValid := src.specValid;
      new;
      src.cart := null;
      src.cartValid := false;
      src.spec := null;
      src.specValid := false;
      reg.Retain();
    }

    /**
     * The destructor: free both buffers and drop the references on the
     * plan singletons (the aliasing one decremented while it still exists).
     */
    method Destroy(reg: FftRegistry)
      requires reg.main.Present? && reg.main.refCounter >= 1
      modifies this, reg
      ensures cart == null && spec == null
      ensures reg.main == AfterRelease(old(reg.main))
      ensures reg.aliasing ==
        (if old(reg.main).refCounter == 1 then Absent
         else if old(aliasingScaled) && old(reg.aliasing).Present? then AfterDecrement(old(reg.aliasing))
         else old(reg.aliasing))
    {
      cart := null;
      spec := null;
      var crashed := reg.Release(aliasingScaled);
    }

    /* ---------- cell access ---------- */

    /** set: write Cartesian cell (j, i); the Cartesian side becomes the valid one. */
    method Set(j: nat, i: nat, v: real)
      requires Valid() && j < res1 && i < res0
      modifies this`cartValid, this`specValid, cart
      ensures Valid() && cartValid && !specValid
      ensures CellIndex(j, i, res0) < cartLength
      ensures cart[..] == old(cart[..])[CellIndex(j, i, res0) := v]
    {
      CellIndexInRange(j, i, res0, res1);
      cartValid := true;
      specValid := false;
      cart[CellIndex(j, i, res0)] := v;
    }

    /** get: read Cartesian cell (j, i) as stored, without a transform. */
    method Get(j: nat, i: nat) returns (v: real)
      requires Valid() && j < res1 && i < res0
      ensures CellIndex(j, i, res0) < cartLength
      ensures v == cart[CellIndex(j, i, res0)]
    {
      CellIndexInRange(j, i, res0, res1);
      v := cart[CellIndex(j, i, res0)];
    }

    /** getSpec_Re: the real part of spectral cell (j, i). */
    method GetSpecRe(j: nat, i: nat) returns (v: real)
      requires Valid() && j < resSpec1 && i < resSpec0
      ensures 2 * CellIndex(j, i, resSpec0) + 1 < specLength
      ensures v == CellAt(spec[..], CellIndex(j, i, resSpec0)).re
    {
      CellIndexInRange(j, i, resSpec0, resSpec1);
      SpecLengthIsCells(res0, res1);
      v := spec[2 * CellIndex(j, i, resSpec0)];
    }

    /** getSpec_Im: the imaginary part of spectral cell (j, i). */
    method GetSpecIm(j: nat, i: nat) returns (v: real)
      requires Valid() && j < resSpec1 && i < resSpec0
      ensures 2 * CellIndex(j, i, resSpec0) + 1 < specLength
      ensures v == CellAt(spec[..], CellIndex(j, i, resSpec0)).im
    {
      CellIndexInRange(j, i, resSpec0, resSpec1);
      SpecLengthIsCells(res0, res1);
      v := spec[2 * CellIndex(j, i, resSpec0) + 1];
    }

    /** setSpec: write spectral cell (j, i); the spectral side becomes the valid one. */
    method SetSpec(j: nat, i: nat, re: real, im: real)
      requires Valid() && j < resSpec1 && i < resSpec0
      modifies this`cartValid, this`specValid, spec
      ensures Valid() && specValid && !cartValid
      ensures 2 * CellIndex(j, i, resSpec0) + 1 < specLength
      ensures spec[..] == SetCell(old(spec[..]), CellIndex(j, i, resSpec0), Complex(re, im))
    {
      CellIndexInRange(j, i, resSpec0, resSpec1);
      SpecLengthIsCells(res0, res1);
      cartValid := false;
      specValid := true;
      var idx := CellIndex(j, i, resSpec0);
      spec[idx * 2] := re;
      spec[idx * 2 + 1] := im;
    }

    /** setAll: every Cartesian value becomes v. */
    method SetAll(v: real)
      requires Valid()
      modifies this`cartValid, this`specValid, cart
      ensures Valid() && cartValid && !specValid
      ensures cart[..] == Fill(cartLength, v)
    {
      var i := 0;
      while i < cartLength
        modifies cart
        invariant 0 <= i <= cartLength
        invariant forall k :: 0 <= k < i ==> cart[k] == v
      {
        cart[i] := v;
        i := i + 1;
      }
      cartValid := true;
      specValid := false;
    }

    /** setAllSpec: every spectral cell becomes (re, im). */
    method SetAllSpec(re: real, im: real)
      requires Valid()
      modifies this`cartValid, this`specValid, spec
      ensures Valid() && specValid && !cartValid
      ensures spec[..] == FillCells(specLength / 2, Complex(re, im))
    {
      SpecLengthIsCells(res0, res1);
      FillCellsInto(spec, Complex(re, im));
      cartValid := false;
      specValid := true;
    }

    /* ---------- stencils ---------- */

    /**
     * setup_kernel: the mirrored, scaled stencil is written around cell
     * (0, 0) of a zeroed Cartesian buffer, wrapping periodically, and the
     * result is transformed to spectral space.  The stencil must have odd
     * size; entries that would land outside the grid are skipped.
     */
    method SetupKernel(k: seq<seq<real>>, S: nat, scale: real, reg: FftRegistry)
      requires Valid() && IsSquare(k, S) && S % 2 == 1
      requires PlanMatches(reg) && Conforms(reg.fft)
      modifies this`cartValid, this`specValid, cart, spec
      ensures Valid() && cartValid && specValid
      ensures cart[..] == KernelBuffer(Mirror(k, S, scale), S, res0, res1)
      ensures spec[..] == reg.fft.forward(res0, res1, cart[..])
    {
      var inv := MirrorKernel(k, S, scale);
      ghost var m := Mirror(k, S, scale);
      SetAll(0.0);
      PlaceBlockLoop(inv, m, S, Q1(S));
      PlaceBlockLoop(inv, m, S, Q2(S, res0));
      PlaceBlockLoop(inv, m, S, Q3(S, res1));
      PlaceBlockLoop(inv, m, S, Q4(S, res0, res1));
      cartValid := true;
      specValid := false;
      RequestDataInSpectralSpace(reg);
    }

    /**
     * One of the four quadrant loops of setup_kernel: row by row, entry
     * (ky, kx) of the block goes to cell (ky + dy, kx + dx) through set,
     * unless that cell lies outside the grid.
     */
    method PlaceBlockLoop(inv: array2<real>, ghost m: seq<seq<real>>, S: nat, b: Block)
      requires Valid() && cartValid && !specValid
      requires IsSquare(m, S) && BlockFits(b, S)
      requires inv.Length0 == S && inv.Length1 == S
      requires forall j, i :: 0 <= j < S && 0 <= i < S ==> inv[j, i] == m[j][i]
      modifies this`cartValid, this`specValid, cart
      ensures Valid() && cartValid && !specValid
      ensures cart[..] == PlaceBlock(old(cart[..]), m, S, b, res0)
    {
      ghost var prev := cart[..];
      PlaceStart(prev, m, S, b, res0);
      var ky := b.ky0;
      while ky < b.ky1
        invariant b.ky0 <= ky <= b.ky1
        invariant Valid() && cartValid && !specValid
        invariant cart[..] == PlaceUpTo(prev, m, S, b, ky, b.kx0, res0)
      {
        var kx := b.kx0;
        while kx < b.kx1
          invariant b.kx0 <= kx <= b.kx1
          invariant Valid() && cartValid && !specValid
          invariant cart[..] == PlaceUpTo(prev, m, S, b, ky, kx, res0)
        {
          var cy := ky + b.dy;
          var cx := kx + b.dx;
          if 0 <= cy < res1 && 0 <= cx < res0 {
            PlaceStepInGrid(prev, m, S, b, ky, kx, res0, res1);
            Set(cy, cx, inv[ky, kx]);
          } else {
            PlaceStepOutside(prev, m, S, b, ky, kx, res0, res1);
          }
          kx := kx + 1;
        }
        PlaceNextRow(prev, m, S, b, ky, res0);
        ky := ky + 1;
      }
    }

    /* ---------- dealiasing ---------- */

    /**
     * aliasing_scaleUp with an explicit resolution: a new aliasing-scaled
     * field of resolution n0 x n1 holding this field's spectrum, zero-padded
     * in the columns and the middle rows and multiplied by
     * (n0*n1)/(res0*res1).  The output takes a reference on the main plan
     * (its constructor) and on the aliasing plan.
     */
    method ScaleUp(n0: nat, n1: nat, reg: FftRegistry) returns (out: DataArray)
      requires Valid() && CanRequestSpectral(reg) && n0 >= res0 && n1 >= res1
      modifies this`specValid, spec, reg`main, reg`aliasing
      ensures SpectralRequested(reg.fft)
      ensures fresh(out) && fresh(out.cart) && fresh(out.spec) && out.Valid()
      ensures out.res0 == n0 && out.res1 == n1 && out.aliasingScaled && !out.temporaryData
      ensures out.specValid && !out.cartValid
      ensures out.spec[..] == UpSpectrum(old(SpectralValue(reg.fft)), res0, res1, n0, n1)
      ensures reg.main == AfterAcquire(old(reg.main), PlanFor(n0, n1))
      ensures reg.aliasing == AfterAcquire(old(reg.aliasing), PlanFor(n0, n1))
    {
      RequestDataInSpectralSpace(reg);
      out := new DataArray(n0, n1, reg);
      out.aliasingScaled := true;
      reg.AliasingTestAndInit(n0, n1);
      out.SetAllSpec(0.0, 0.0);
      SpecLengthIsCells(res0, res1);
      SpecLengthIsCells(n0, n1);
      CopyQuadrantsInto(spec, resSpec0, res1, out.spec, out.resSpec0, out.res1, resSpec0, res1 / 2);
      ScaleBuffer(out.spec, ScaleFactor(n0, n1, res0, res1));
      out.specValid := true;
      out.cartValid := false;
    }

    /**
     * aliasing_scaleUp with the default resolution, 3/2 of the current one
     * rounded down in each direction.  An odd default resolution stops the
     * program before anything changes; null stands for that exit.
     */
    method ScaleUpDefault(reg: FftRegistry) returns (out: DataArray?)
      requires Valid() && CanRequestSpectral(reg)
      modifies this`specValid, spec, reg`main, reg`aliasing
      ensures out == null <==>
        DefaultAliasingResolution(res0) % 2 != 0 || DefaultAliasingResolution(res1) % 2 != 0
      ensures out == null ==> unchanged(this, spec, reg)
      ensures out != null ==>
        SpectralRequested(reg.fft) &&
        fresh(out) && out.Valid() && out.aliasingScaled && out.specValid && !out.cartValid &&
        out.res0 == DefaultAliasingResolution(res0) && out.res1 == DefaultAliasingResolution(res1) &&
        out.spec[..] == UpSpectrum(old(SpectralValue(reg.fft)), res0, res1, out.res0, out.res1)
    {
      var n0 := (res0 * 3) / 2;
      if n0 % 2 != 0 {
        return null;
      }
      var n1 := (res1 * 3) / 2;
      if n1 % 2 != 0 {
        return null;
      }
      out := ScaleUp(n0, n1, reg);
    }

    /**
     * aliasing_scaleDown: this field is marked aliasing-scaled (so it
     * transforms with the aliasing plan) and a new field of the smaller
     * resolution n0 x n1 receives the low modes of its spectrum, multiplied
     * by (n0*n1)/(res0*res1).  The output is not aliasing-scaled, yet its
     * reference on the aliasing plan is taken all the same.  Its buffer is
     * not cleared first, so a middle row left uncopied (n1 odd) keeps
     * whatever the fresh buffer held.
     *
     * The aliasing plan is taken for the output before this field's
     * spectrum is requested, so when no aliasing plan exists yet it is built
     * for n0 x n1 and this field of res0 x res1 is transformed with it.
     * planMismatch reports a forward transform run with a plan of another
     * resolution; the spectrum it leaves is not promised.
     */
    method ScaleDown(n0: nat, n1: nat, reg: FftRegistry) returns (out: DataArray, planMismatch: bool)
      requires Valid() && 0 < n0 <= res0 && 0 < n1 <= res1
      requires specValid || (cartValid && Conforms(reg.fft))
      modifies this`aliasingScaled, this`specValid, spec, reg`main, reg`aliasing
      ensures planMismatch <==>
        !old(specValid) && AfterAcquire(old(reg.aliasing), PlanFor(n0, n1)).plan != PlanFor(res0, res1)
      ensures aliasingScaled && Valid() && specValid && cartValid == old(cartValid)
      ensures cart == old(cart) && spec == old(spec) && cart[..] == old(cart[..])
      ensures !planMismatch ==> SpectralRequested(reg.fft)
      ensures fresh(out) && fresh(out.cart) && fresh(out.spec) && out.Valid()
      ensures out.res0 == n0 && out.res1 == n1 && !out.aliasingScaled && !out.temporaryData
      ensures out.specValid && !out.cartValid
      ensures exists prev: seq<real> ::
        |prev| == SpecLength(n0, n1) && out.spec[..] == DownSpectrum(prev, spec[..], res0, res1, n0, n1)
      ensures reg.main == AfterAcquire(old(reg.main), PlanFor(n0, n1))
      ensures reg.aliasing == AfterAcquire(old(reg.aliasing), PlanFor(n0, n1))
    {
      aliasingScaled := true;
      out := new DataArray(n0, n1, reg);
      out.aliasingScaled := false;
      reg.AliasingTestAndInit(n0, n1);
      planMismatch := RequestSpectrumOrMismatch(reg);
      out.ReceiveDownscaled(spec, res0, res1);
    }

    /**
     * The copy half of aliasing_scaleDown, run on the output: the low modes
     * of src, a spectrum of r0 x r1, land in this field's spectral buffer
     * over whatever it held, and the spectral side becomes the valid one.
     */
    method ReceiveDownscaled(src: array<real>, r0: nat, r1: nat)
      requires Valid() && src != spec && 0 < res0 <= r0 && 0 < res1 <= r1 && src.Length == SpecLength(r0, r1)
      modifies this`specValid, this`cartValid, spec
      ensures Valid() && specValid && !cartValid
      ensures exists prev: seq<real> ::
        |prev| == SpecLength(res0, res1) && spec[..] == DownSpectrum(prev, src[..], r0, r1, res0, res1)
    {
      ghost var prev := spec[..];
      DownInto(src, r0, r1, spec, res0, res1);
      assert spec[..] == DownSpectrum(prev, src[..], r0, r1, res0, res1);
      specValid := true;
      cartValid := false;
    }

    /* ---------- the lazy conversion ---------- */

    /**
     * requestDataInSpectralSpace as it runs whatever plan the singleton
     * holds: with a plan for this resolution it is the request below; with a
     * plan for another resolution (planMismatch) the spectral buffer is
     * marked valid but its contents are not promised.
     */
    method RequestSpectrumOrMismatch(reg: FftRegistry) returns (planMismatch: bool)
      requires Valid() && PlanSlot(reg).Present? && (specValid || (cartValid && Conforms(reg.fft)))
      modifies this`specValid, spec
      ensures planMismatch <==> !old(specValid) && PlanSlot(reg).plan != PlanFor(res0, res1)
      ensures Valid() && specValid && cartValid == old(cartValid)
      ensures cart == old(cart) && spec == old(spec) && cart[..] == old(cart[..])
      ensures !planMismatch ==> SpectralRequested(reg.fft)
    {
      planMismatch := !specValid && PlanSlot(reg).plan != PlanFor(res0, res1);
      if planMismatch {
        specValid := true;
      } else {
        RequestDataInSpectralSpace(reg);
      }
    }

    /**
     * requestDataInSpectralSpace: nothing to do when the spectrum is valid;
     * otherwise the Cartesian side must be valid and is transformed forward
     * with the field's plan, after which both sides are valid.  Neither
     * view of the field's value changes.
     */
    method RequestDataInSpectralSpace(reg: FftRegistry)
      requires Valid() && CanRequestSpectral(reg)
      modifies this`specValid, spec
      ensures SpectralRequested(reg.fft)
      ensures CartesianValue(reg.fft) == old(CartesianValue(reg.fft))
    {
      if specValid {
        return;
      }
      var plan := PlanSlot(reg).plan;
      var out := reg.fft.forward(plan.res0, plan.res1, cart[..]);
      forall k | 0 <= k < spec.Length {
        spec[k] := out[k];
      }
      specValid := true;
    }

    /**
     * requestDataInCartesianSpace: nothing to do when the Cartesian side is
     * valid; otherwise the spectral side must be valid and is transformed
     * backward, each value is scaled by 1/(res0*res1), and the spectral side
     * is marked invalid.
     */
    method RequestDataInCartesianSpace(reg: FftRegistry)
      requires Valid() && CanRequestCartesian(reg)
      modifies this`specValid, this`cartValid, cart
      ensures CartesianRequested(reg.fft)
    {
      if cartValid {
        return;
      }
      var plan := PlanSlot(reg).plan;
      var out := reg.fft.backward(plan.res0, plan.res1, spec[..]);
      assert |out| == cartLength;
      forall k | 0 <= k < cart.Length {
        cart[k] := out[k];
      }
      assert cart[..] == out;
      specValid := false;
      var scale := 1.0 / (plan.backwardLength as real);
      ScaleBuffer(cart, scale);
      assert cart[..] == Scale(out, scale);
      cartValid := true;
    }

    /** Both operands of a spectral operator request their spectra, this one first. */
    method RequestSpectralPair(b: DataArray, reg: FftRegistry)
      requires Valid() && b.Valid()
      requires this == b || Apart(b)
      requires CanRequestSpectral(reg) && b.CanRequestSpectral(reg)
      modifies this`specValid, spec, b`specValid, b.spec
      ensures SpectralRequested(reg.fft) && b.SpectralRequested(reg.fft)
    {
      RequestDataInSpectralSpace(reg);
      b.RequestDataInSpectralSpace(reg);
    }

    /* ---------- Cartesian helpers ---------- */

    /** return_one_if_positive: 1 where the stored Cartesian value is positive, else 0. */
    method ReturnOneIfPositive(reg: FftRegistry) returns (out: DataArray)
      requires Valid()
      modifies reg`main
      ensures fresh(out) && out.Valid() && out.res0 == res0 && out.res1 == res1
      ensures out.cartValid && !out.specValid && out.temporaryData
      ensures out.cart[..] == OneIfPositive(cart[..])
      ensures reg.main == AfterAcquire(old(reg.main), PlanFor(res0, res1))
    {
      out := new DataArray(res0, res1, reg);
      out.temporaryData := true;
      var i := 0;
      while i < cartLength
        modifies out.cart
        invariant 0 <= i <= cartLength
        invariant forall k :: 0 <= k < i ==> out.cart[k] == OneIfPositive(cart[..])[k]
      {
        out.cart[i] := if cart[i] > 0.0 then 1.0 else 0.0;
        i := i + 1;
      }
      out.cartValid := true;
    }

    /** return_value_if_positive: the stored value where positive, else 0. */
    method ReturnValueIfPositive(reg: FftRegistry) returns (out: DataArray)
      requires Valid()
      modifies reg`main
      ensures fresh(out) && out.Valid() && out.res0 == res0 && out.res1 == res1
      ensures out.cartValid && !out.specValid && out.temporaryData
      ensures out.cart[..] == ValueIfPositive(cart[..])
      ensures reg.main == AfterAcquire(old(reg.main), PlanFor(res0, res1))
    {
      out := new DataArray(res0, res1, reg);
      out.temporaryData := true;
      var i := 0;
      while i < cartLength
        modifies out.cart
        invariant 0 <= i <= cartLength
        invariant forall k :: 0 <= k < i ==> out.cart[k] == ValueIfPositive(cart[..])[k]
      {
        out.cart[i] := if cart[i] > 0.0 then cart[i] else 0.0;
        i := i + 1;
      }
      out.cartValid := true;
    }

    /** return_one_if_negative: 1 where the stored value is negative, else 0. */
    method ReturnOneIfNegative(reg: FftRegistry) returns (out: DataArray)
      requires Valid()
      modifies reg`main
      ensures fresh(out) && out.Valid() && out.res0 == res0 && out.res1 == res1
      ensures out.cartValid && !out.specValid && out.temporaryData
      ensures out.cart[..] == OneIfNegative(cart[..])
      ensures reg.main == AfterAcquire(old(reg.main), PlanFor(res0, res1))
    {
      out := new DataArray(res0, res1, reg);
      out.temporaryData := true;
      var i := 0;
      while i < cartLength
        modifies out.cart
        invariant 0 <= i <= cartLength
        invariant forall k :: 0 <= k < i ==> out.cart[k] == OneIfNegative(cart[..])[k]
      {
        out.cart[i] := if cart[i] < 0.0 then 1.0 else 0.0;
        i := i + 1;
      }
      out.cartValid := true;
    }

    /** return_value_if_negative: the stored value where negative, else 0. */
    method ReturnValueIfNegative(reg: FftRegistry) returns (out: DataArray)
      requires Valid()
      modifies reg`main
      ensures fresh(out) && out.Valid() && out.res0 == res0 && out.res1 == res1
      ensures out.cartValid && !out.specValid && out.temporaryData
      ensures out.cart[..] == ValueIfNegative(cart[..])
      ensures reg.main == AfterAcquire(old(reg.main), PlanFor(res0, res1))
    {
      out := new DataArray(res0, res1, reg);
      out.temporaryData := true;
      var i := 0;
      while i < cartLength
        modifies out.cart
        invariant 0 <= i <= cartLength
        invariant forall k :: 0 <= k < i ==> out.cart[k] == ValueIfNegative(cart[..])[k]
      {
        out.cart[i] := if cart[i] < 0.0 then cart[i] else 0.0;
        i := i + 1;
      }
      out.cartValid := true;
    }

    /* ---------- reductions over the grid values ---------- */

    /** reduce_maxAbs: the largest absolute grid value, -1 for an empty grid. */
    method ReduceMaxAbs(reg: FftRegistry) returns (r: real)
      requires Valid() && CanRequestCartesian(reg)
      modifies this`specValid, this`cartValid, cart
      ensures CartesianRequested(reg.fft)
      ensures r == MaxAbsFrom(-1.0, old(CartesianValue(reg.fft)))
    {
      RequestDataInCartesianSpace(reg);
      r := -1.0;
      var i := 0;
      while i < cartLength
        invariant 0 <= i <= cartLength
        invariant r == MaxAbsFrom(-1.0, cart[..i])
      {
        assert cart[..i + 1][..i] == cart[..i];
        r := Max(r, Abs(cart[i]));
        i := i + 1;
      }
      assert cart[..i] == cart[..];
    }

    /** reduce_max: the largest grid value, starting from -DBL_MAX. */
    method ReduceMax(reg: FftRegistry) returns (r: real)
      requires Valid() && CanRequestCartesian(reg)
      modifies this`specValid, this`cartValid, cart
      ensures CartesianRequested(reg.fft)
      ensures r == MaxFrom(-DblMax, old(CartesianValue(reg.fft)))
    {
      RequestDataInCartesianSpace(reg);
      r := -DblMax;
      var i := 0;
      while i < cartLength
        invariant 0 <= i <= cartLength
        invariant r == MaxFrom(-DblMax, cart[..i])
      {
        assert cart[..i + 1][..i] == cart[..i];
        r := Max(r, cart[i]);
        i := i + 1;
      }
      assert cart[..i] == cart[..];
    }

    /** reduce_min: the smallest grid value, starting from DBL_MAX. */
    method ReduceMin(reg: FftRegistry) returns (r: real)
      requires Valid() && CanRequestCartesian(reg)
      modifies this`specValid, this`cartValid, cart
      ensures CartesianRequested(reg.fft)
      ensures r == MinFrom(DblMax, old(CartesianValue(reg.fft)))
    {
      RequestDataInCartesianSpace(reg);
      r := DblMax;
      var i := 0;
      while i < cartLength
        invariant 0 <= i <= cartLength
        invariant r == MinFrom(DblMax, cart[..i])
      {
        assert cart[..i + 1][..i] == cart[..i];
        r := Min(r, cart[i]);
        i := i + 1;
      }
      assert cart[..i] == cart[..];
    }

    /** reduce_sum: the sum of the grid values. */
    method ReduceSum(reg: FftRegistry) returns (r: real)
      requires Valid() && CanRequestCartesian(reg)
      modifies this`specValid, this`cartValid, cart
      ensures CartesianRequested(reg.fft)
      ensures r == Sum(old(CartesianValue(reg.fft)))
    {
      RequestDataInCartesianSpace(reg);
      r := 0.0;
      var i := 0;
      while i < cartLength
        invariant 0 <= i <= cartLength
        invariant r == Sum(cart[..i])
      {
        assert cart[..i + 1][..i] == cart[..i];
        r := r + cart[i];
        i := i + 1;
      }
      assert cart[..i] == cart[..];
    }

    /** reduce_sum_quad: the same sum, accumulated in quad precision (exact here). */
    method ReduceSumQuad(reg: FftRegistry) returns (r: real)
      requires Valid() && CanRequestCartesian(reg)
      modifies this`specValid, this`cartValid, cart
      ensures CartesianRequested(reg.fft)
      ensures r == Sum(old(CartesianValue(reg.fft)))
    {
      r := ReduceSum(reg);
    }

    /** reduce_sumAbs: the sum of the absolute grid values. */
    method ReduceSumAbs(reg: FftRegistry) returns (r: real)
      requires Valid() && CanRequestCartesian(reg)
      modifies this`specValid, this`cartValid, cart
      ensures CartesianRequested(reg.fft)
      ensures r == SumAbs(old(CartesianValue(reg.fft)))
    {
      RequestDataInCartesianSpace(reg);
      r := 0.0;
      var i := 0;
      while i < cartLength
        invariant 0 <= i <= cartLength
        invariant r == SumAbs(cart[..i])
      {
        assert cart[..i + 1][..i] == cart[..i];
        r := r + Abs(cart[i]);
        i := i + 1;
      }
      assert cart[..i] == cart[..];
    }

    /** reduce_sumAbs_quad: the same sum of absolute values in quad precision (exact here). */
    method ReduceSumAbsQuad(reg: FftRegistry) returns (r: real)
      requires Valid() && CanRequestCartesian(reg)
      modifies this`specValid, this`cartValid, cart
      ensures CartesianRequested(reg.fft)
      ensures r == SumAbs(old(CartesianValue(reg.fft)))
    {
      r := ReduceSumAbs(reg);
    }

    /* ---------- assignment ---------- */

    /**
     * operator=: take the source's aliasing mark and flags; each valid
     * buffer is copied, or swapped with the source's when the source is a
     * temporary.  Resolutions must agree, as the buffers are not reallocated.
     */
    method Assign(src: DataArray)
      requires Valid() && src.Valid() && src.res0 == res0 && src.res1 == res1
      requires this == src || Apart(src)
      modifies this, cart, spec, src`cart, src`spec
      ensures Valid() && src.Valid() && res0 == old(res0) && res1 == old(res1)
      ensures src.res0 == old(src.res0) && src.res1 == old(src.res1)
      ensures aliasingScaled == old(src.aliasingScaled) && temporaryData == old(temporaryData)
      ensures cartValid == old(src.cartValid) && specValid == old(src.specValid)
      ensures cartValid ==> cart[..] == old(src.cart[..])
      ensures specValid ==> spec[..] == old(src.spec[..])
      ensures cart == (if old(src.temporaryData) && cartValid then old(src.cart) else old(cart))
      ensures spec == (if old(src.temporaryData) && specValid then old(src.spec) else old(spec))
      ensures old(src.temporaryData) && cartValid ==> src.cart == old(cart)
      ensures old(src.temporaryData) && specValid ==> src.spec == old(spec)
    {
      aliasingScaled := src.aliasingScaled;
      AssignCartesian(src);
      AssignSpectral(src);
    }

    /** The Cartesian half of operator=. */
    method AssignCartesian(src: DataArray)
      requires Valid() && src.Valid() && src.res0 == res0 && src.res1 == res1
      requires this == src || Apart(src)
      modifies this`cart, this`cartValid, cart, src`cart
      ensures Valid() && src.Valid() && (this == src || Apart(src))
      ensures cartValid == old(src.cartValid)
      ensures cartValid ==> cart[..] == old(src.cart[..])
      ensures !cartValid ==> cart == old(cart) && src.cart == old(src.cart)
      ensures old(src.temporaryData) && cartValid ==> cart == old(src.cart) && src.cart == old(cart)
      ensures !old(src.temporaryData) ==> cart == old(cart) && src.cart == old(src.cart)
      ensures src != this && !old(src.temporaryData) ==> src.cart[..] == old(src.cart[..])
    {
      if src.cartValid {
        cartValid := true;
        if src.temporaryData {
          cart, src.cart := src.cart, cart;
        } else {
          CopyBuffer(src.cart, cart);
        }
      } else {
        cartValid := false;
      }
    }

    /** The spectral half of operator=. */
    method AssignSpectral(src: DataArray)
      requires Valid() && src.Valid() && src.res0 == res0 && src.res1 == res1
      requires this == src || Apart(src)
      modifies this`spec, this`specValid, spec, src`spec
      ensures Valid() && src.Valid() && (this == src || Apart(src))
      ensures specValid == old(src.specValid)
      ensures specValid ==> spec[..] == old(src.spec[..])
      ensures !specValid ==> spec == old(spec) && src.spec == old(src.spec)
      ensures old(src.temporaryData) && specValid ==> spec == old(src.spec) && src.spec == old(spec)
      ensures !old(src.temporaryData) ==> spec == old(spec) && src.spec == old(src.spec)
    {
      if src.specValid {
        specValid := true;
        if src.temporaryData {
          spec, src.spec := src.spec, spec;
        } else {
          CopyBuffer(src.spec, spec);
        }
      } else {
        specValid := false;
      }
    }

    /* ---------- spectral operators ---------- */

    /** operator+: the spectra added element by element; the result is spectral. */
    method AddField(b: DataArray, reg: FftRegistry) returns (out: DataArray)
      requires Valid() && b.Valid() && b.res0 == res0 && b.res1 == res1
      requires this == b || Apart(b)
      requires CanRequestSpectral(reg) && b.CanRequestSpectral(reg)
      modifies this`specValid, spec, b`specValid, b.spec, reg`main
      ensures SpectralRequested(reg.fft) && b.SpectralRequested(reg.fft)
      ensures fresh(out) && fresh(out.cart) && fresh(out.spec) && out.Valid()
      ensures out.res0 == res0 && out.res1 == res1 && !out.aliasingScaled && out.temporaryData
      ensures out.specValid && !out.cartValid
      ensures out.spec[..] == Add(old(SpectralValue(reg.fft)), old(b.SpectralValue(reg.fft)))
      ensures reg.main == AfterAcquire(old(reg.main), PlanFor(res0, res1))
    {
      RequestSpectralPair(b, reg);
      out := new DataArray(res0, res1, reg);
      out.temporaryData := true;
      AddInto(spec, b.spec, out.spec);
      out.specValid := true;
      out.cartValid := false;
    }

    /** operator-: the spectra subtracted element by element; the result is spectral. */
    method SubField(b: DataArray, reg: FftRegistry) returns (out: DataArray)
      requires Valid() && b.Valid() && b.res0 == res0 && b.res1 == res1
      requires this == b || Apart(b)
      requires CanRequestSpectral(reg) && b.CanRequestSpectral(reg)
      modifies this`specValid, spec, b`specValid, b.spec, reg`main
      ensures SpectralRequested(reg.fft) && b.SpectralRequested(reg.fft)
      ensures fresh(out) && fresh(out.cart) && fresh(out.spec) && out.Valid()
      ensures out.res0 == res0 && out.res1 == res1 && !out.aliasingScaled && out.temporaryData
      ensures out.specValid && !out.cartValid
      ensures out.spec[..] == Sub(old(SpectralValue(reg.fft)), old(b.SpectralValue(reg.fft)))
      ensures reg.main == AfterAcquire(old(reg.main), PlanFor(res0, res1))
    {
      RequestSpectralPair(b, reg);
      out := new DataArray(res0, res1, reg);
      out.temporaryData := true;
      SubInto(spec, b.spec, out.spec);
      out.specValid := true;
      out.cartValid := false;
    }

    /** operator+=: add b's spectrum into this one in place; this becomes spectral. */
    method AddAssign(b: DataArray, reg: FftRegistry)
      requires Valid() && b.Valid() && b.res0 == res0 && b.res1 == res1
      requires this == b || Apart(b)
      requires CanRequestSpectral(reg) && b.CanRequestSpectral(reg)
      modifies this`specValid, this`cartValid, spec, b`specValid, b.spec
      ensures Valid() && specValid && !cartValid && spec == old(spec)
      ensures spec[..] == Add(old(SpectralValue(reg.fft)), old(b.SpectralValue(reg.fft)))
      ensures b != this ==> b.SpectralRequested(reg.fft)
    {
      RequestSpectralPair(b, reg);
      AddInPlace(spec, b.spec);
      specValid := true;
      cartValid := false;
    }

    /** operator-=: subtract b's spectrum from this one in place; this becomes spectral. */
    method SubAssign(b: DataArray, reg: FftRegistry)
      requires Valid() && b.Valid() && b.res0 == res0 && b.res1 == res1
      requires this == b || Apart(b)
      requires CanRequestSpectral(reg) && b.CanRequestSpectral(reg)
      modifies this`specValid, this`cartValid, spec, b`specValid, b.spec
      ensures Valid() && specValid && !cartValid && spec == old(spec)
      ensures spec[..] == Sub(old(SpectralValue(reg.fft)), old(b.SpectralValue(reg.fft)))
      ensures b != this ==> b.SpectralRequested(reg.fft)
    {
      RequestSpectralPair(b, reg);
      SubInPlace(spec, b.spec);
      specValid := true;
      cartValid := false;
    }

    /**
     * operator+(double): copy the spectrum and add v*res0*res1 to its first
     * element, the real part of the mean mode; the result is spectral.
     */
    method AddScalar(v: real, reg: FftRegistry) returns (out: DataArray)
      requires Valid() && CanRequestSpectral(reg)
      modifies this`specValid, spec, reg`main
      ensures SpectralRequested(reg.fft)
      ensures fresh(out) && fresh(out.cart) && fresh(out.spec) && out.Valid()
      ensures out.res0 == res0 && out.res1 == res1 && !out.aliasingScaled && out.temporaryData
      ensures out.specValid && !out.cartValid
      ensures out.spec[..] == AddAtFirst(old(SpectralValue(reg.fft)), MeanModeAmount(v, cartLength))
      ensures reg.main == AfterAcquire(old(reg.main), PlanFor(res0, res1))
    {
      RequestDataInSpectralSpace(reg);
      out := new DataArray(res0, res1, reg);
      out.temporaryData := true;
      CopyBuffer(spec, out.spec);
      AddAtFirstInPlace(out.spec, MeanModeAmount(v, res0 * res1));
      out.cartValid := false;
      out.specValid := true;
    }

    /**
     * operator-(double) as written: the spectrum is copied and v*res0*res1
     * subtracted at the first element, but neither flag of the result is
     * set, so the result can be requested in neither space.
     */
    method SubScalarAsWritten(v: real, reg: FftRegistry) returns (out: DataArray)
      requires Valid() && CanRequestSpectral(reg)
      modifies this`specValid, spec, reg`main
      ensures SpectralRequested(reg.fft)
      ensures fresh(out) && fresh(out.cart) && fresh(out.spec) && out.Valid()
      ensures out.res0 == res0 && out.res1 == res1 && out.temporaryData
      ensures out.spec[..] == AddAtFirst(old(SpectralValue(reg.fft)), -(MeanModeAmount(v, cartLength)))
      ensures !out.specValid && !out.cartValid
      ensures !out.CanRequestSpectral(reg) && !out.CanRequestCartesian(reg)
      ensures reg.main == AfterAcquire(old(reg.main), PlanFor(res0, res1))
    {
      RequestDataInSpectralSpace(reg);
      out := new DataArray(res0, res1, reg);
      out.temporaryData := true;
      CopyBuffer(spec, out.spec);
      AddAtFirstInPlace(out.spec, -MeanModeAmount(v, res0 * res1));
    }

    /** operator-(double) with the flags set as in operator+(double). */
    method SubScalar(v: real, reg: FftRegistry) returns (out: DataArray)
      requires Valid() && CanRequestSpectral(reg)
      modifies this`specValid, spec, reg`main
      ensures SpectralRequested(reg.fft)
      ensures fresh(out) && fresh(out.cart) && fresh(out.spec) && out.Valid()
      ensures out.res0 == res0 && out.res1 == res1 && !out.aliasingScaled && out.temporaryData
      ensures out.specValid && !out.cartValid
      ensures out.spec[..] == AddAtFirst(old(SpectralValue(reg.fft)), -(MeanModeAmount(v, cartLength)))
      ensures reg.main == AfterAcquire(old(reg.main), PlanFor(res0, res1))
    {
      RequestDataInSpectralSpace(reg);
      out := new DataArray(res0, res1, reg);
      out.temporaryData := true;
      CopyBuffer(spec, out.spec);
      AddAtFirstInPlace(out.spec, -MeanModeAmount(v, res0 * res1));
      out.cartValid := false;
      out.specValid := true;
    }

    /**
     * Unary operator- as written: negate the spectral buffer in place, with
     * no request and no change of flags.  When the Cartesian side is valid
     * the field's grid values are left as they were.
     */
    method NegateAsWritten()
      requires Valid()
      modifies spec
      ensures Valid()
      ensures spec[..] == Cells.Negate(old(spec[..]))
    {
      NegateBuffer(spec);
    }

    /** Unary operator- on the spectrum the field has: request it, negate it, drop the Cartesian side. */
    method NegateSpectrum(reg: FftRegistry)
      requires Valid() && CanRequestSpectral(reg)
      modifies this`specValid, this`cartValid, spec
      ensures Valid() && specValid && !cartValid && spec == old(spec)
      ensures spec[..] == Cells.Negate(old(SpectralValue(reg.fft)))
    {
      RequestDataInSpectralSpace(reg);
      NegateBuffer(spec);
      cartValid := false;
    }

    /**
     * operator(): apply this field as a spectral operator to b, the complex
     * product cell by cell; the result is spectral.
     */
    method ApplyOperator(b: DataArray, reg: FftRegistry) returns (out: DataArray)
      requires Valid() && b.Valid() && b.res0 == res0 && b.res1 == res1
      requires this == b || Apart(b)
      requires CanRequestSpectral(reg) && b.CanRequestSpectral(reg)
      modifies this`specValid, spec, b`specValid, b.spec, reg`main
      ensures SpectralRequested(reg.fft) && b.SpectralRequested(reg.fft)
      ensures fresh(out) && fresh(out.cart) && fresh(out.spec) && out.Valid()
      ensures out.res0 == res0 && out.res1 == res1 && !out.aliasingScaled && out.temporaryData
      ensures out.specValid && !out.cartValid
      ensures specLength % 2 == 0
      ensures out.spec[..] == Cellwise(CMul, old(SpectralValue(reg.fft)), old(b.SpectralValue(reg.fft)))
      ensures reg.main == AfterAcquire(old(reg.main), PlanFor(res0, res1))
    {
      RequestSpectralPair(b, reg);
      out := new DataArray(res0, res1, reg);
      out.temporaryData := true;
      SpecLengthIsCells(res0, res1);
      CellwiseInto(CMul, spec, b.spec, out.spec);
      out.specValid := true;
      out.cartValid := false;
    }

    /**
     * spec_div_element_wise as written: cell by cell
     * (ar*br - ai*bi, ai*br - ar*bi) / (br^2 - bi^2); the result is spectral.
     */
    method SpecDivAsWritten(b: DataArray, reg: FftRegistry) returns (out: DataArray)
      requires Valid() && b.Valid() && b.res0 == res0 && b.res1 == res1
      requires this == b || Apart(b)
      requires CanRequestSpectral(reg) && b.CanRequestSpectral(reg)
      modifies this`specValid, spec, b`specValid, b.spec, reg`main
      ensures SpectralRequested(reg.fft) && b.SpectralRequested(reg.fft)
      ensures fresh(out) && fresh(out.cart) && fresh(out.spec) && out.Valid()
      ensures out.res0 == res0 && out.res1 == res1 && !out.aliasingScaled && out.temporaryData
      ensures out.specValid && !out.cartValid
      ensures specLength % 2 == 0
      ensures out.spec[..] == Cellwise(CDivAsWritten, old(SpectralValue(reg.fft)), old(b.SpectralValue(reg.fft)))
      ensures reg.main == AfterAcquire(old(reg.main), PlanFor(res0, res1))
    {
      RequestSpectralPair(b, reg);
      out := new DataArray(res0, res1, reg);
      out.temporaryData := true;
      SpecLengthIsCells(res0, res1);
      CellwiseInto(CDivAsWritten, spec, b.spec, out.spec);
      out.specValid := true;
      out.cartValid := false;
    }

    /**
     * Spectral division by the conjugate formula with the zero-denominator
     * rule of the complex grid: the inverse of operator() wherever no cell
     * of b is zero.
     */
    method SpecDiv(b: DataArray, reg: FftRegistry) returns (out: DataArray)
      requires Valid() && b.Valid() && b.res0 == res0 && b.res1 == res1
      requires this == b || Apart(b)
      requires CanRequestSpectral(reg) && b.CanRequestSpectral(reg)
      modifies this`specValid, spec, b`specValid, b.spec, reg`main
      ensures SpectralRequested(reg.fft) && b.SpectralRequested(reg.fft)
      ensures fresh(out) && fresh(out.cart) && fresh(out.spec) && out.Valid()
      ensures out.res0 == res0 && out.res1 == res1 && !out.aliasingScaled && out.temporaryData
      ensures out.specValid && !out.cartValid
      ensures specLength % 2 == 0
      ensures out.spec[..] == Cellwise(CDiv, old(SpectralValue(reg.fft)), old(b.SpectralValue(reg.fft)))
      ensures reg.main == AfterAcquire(old(reg.main), PlanFor(res0, res1))
    {
      RequestSpectralPair(b, reg);
      out := new DataArray(res0, res1, reg);
      out.temporaryData := true;
      SpecLengthIsCells(res0, res1);
      CellwiseInto(CDiv, spec, b.spec, out.spec);
      out.specValid := true;
      out.cartValid := false;
    }

    /* ---------- Cartesian operators ---------- */

    /** operator*: the grid values multiplied point by point; the result is Cartesian. */
    method MulField(b: DataArray, reg: FftRegistry) returns (out: DataArray)
      requires Valid() && b.Valid() && b.res0 == res0 && b.res1 == res1
      requires this == b || Apart(b)
      requires CanRequestCartesian(reg) && b.CanRequestCartesian(reg)
      modifies this`specValid, this`cartValid, cart, b`specValid, b`cartValid, b.cart, reg`main
      ensures CartesianRequested(reg.fft) && b.CartesianRequested(reg.fft)
      ensures fresh(out) && fresh(out.cart) && fresh(out.spec) && out.Valid()
      ensures out.res0 == res0 && out.res1 == res1 && !out.aliasingScaled && out.temporaryData
      ensures out.cartValid && !out.specValid
      ensures out.cart[..] == Mul(old(CartesianValue(reg.fft)), old(b.CartesianValue(reg.fft)))
      ensures reg.main == AfterAcquire(old(reg.main), PlanFor(res0, res1))
    {
      RequestDataInCartesianSpace(reg);
      b.RequestDataInCartesianSpace(reg);
      out := new DataArray(b.res0, b.res1, reg);
      out.temporaryData := true;
      MulInto(cart, b.cart, out.cart);
      out.cartValid := true;
      out.specValid := false;
    }

    /** operator/: the grid values divided point by point; the result is Cartesian. */
    method DivField(b: DataArray, reg: FftRegistry) returns (out: DataArray)
      requires Valid() && b.Valid() && b.res0 == res0 && b.res1 == res1
      requires this == b || Apart(b)
      requires CanRequestCartesian(reg) && b.CanRequestCartesian(reg)
      requires NonZero(b.CartesianValue(reg.fft))
      modifies this`specValid, this`cartValid, cart, b`specValid, b`cartValid, b.cart, reg`main
      ensures CartesianRequested(reg.fft) && b.CartesianRequested(reg.fft)
      ensures fresh(out) && fresh(out.cart) && fresh(out.spec) && out.Valid()
      ensures out.res0 == res0 && out.res1 == res1 && !out.aliasingScaled && out.temporaryData
      ensures out.cartValid && !out.specValid
      ensures out.cart[..] == Quot(old(CartesianValue(reg.fft)), old(b.CartesianValue(reg.fft)))
      ensures reg.main == AfterAcquire(old(reg.main), PlanFor(res0, res1))
    {
      RequestDataInCartesianSpace(reg);
      b.RequestDataInCartesianSpace(reg);
      out := new DataArray(res0, res1, reg);
      out.temporaryData := true;
      QuotInto(cart, b.cart, out.cart);
      out.cartValid := true;
      out.specValid := false;
    }

    /**
     * operator*(double): scale the spectrum when it is valid (the result is
     * spectral), otherwise the Cartesian values, which must then be valid
     * (the result is Cartesian).  No transform is requested.
     */
    method MulScalar(v: real, reg: FftRegistry) returns (out: DataArray)
      requires Valid() && (specValid || cartValid)
      modifies reg`main
      ensures fresh(out) && fresh(out.cart) && fresh(out.spec) && out.Valid()
      ensures out.res0 == res0 && out.res1 == res1 && !out.aliasingScaled && out.temporaryData
      ensures specValid ==> out.specValid && !out.cartValid && out.spec[..] == Scale(spec[..], v)
      ensures !specValid ==> out.cartValid && !out.specValid && out.cart[..] == Scale(cart[..], v)
      ensures reg.main == AfterAcquire(old(reg.main), PlanFor(res0, res1))
    {
      out := new DataArray(res0, res1, reg);
      out.temporaryData := true;
      if specValid {
        ScaleInto(spec, v, out.spec);
        out.cartValid := false;
        out.specValid := true;
        return;
      }
      ScaleInto(cart, v, out.cart);
      out.specValid := false;
      out.cartValid := true;
    }
  }

  /** The first loop of setup_kernel: the stencil mirrored in x and scaled, in a local S x S array. */
  method MirrorKernel(k: seq<seq<real>>, S: nat, scale: real) returns (inv: array2<real>)
    requires IsSquare(k, S)
    ensures fresh(inv) && inv.Length0 == S && inv.Length1 == S
    ensures forall j, i :: 0 <= j < S && 0 <= i < S ==> inv[j, i] == Mirror(k, S, scale)[j][i]
  {
    inv := new real[S, S];
    var j := 0;
    while j < S
      invariant 0 <= j <= S
      invariant forall j', i :: 0 <= j' < j && 0 <= i < S ==> inv[j', i] == k[j'][S - i - 1] * scale
    {
      var i := 0;
      while i < S
        invariant 0 <= i <= S
        invariant forall j', i' :: 0 <= j' < j && 0 <= i' < S ==> inv[j', i'] == k[j'][S - i' - 1] * scale
        invariant forall i' :: 0 <= i' < i ==> inv[j, i'] == k[j][S - i' - 1] * scale
      {
        inv[j, i] := k[j][S - i - 1] * scale;
        i := i + 1;
      }
      j := j + 1;
    }
  }

  /** memcpy: len values of src from sOff onwards overwrite dst from dOff onwards. */
  method MemcpyInto(src: array<real>, sOff: nat, dst: array<real>, dOff: nat, len: nat)
    requires src != dst && sOff + len <= src.Length && dOff + len <= dst.Length
    modifies dst
    ensures dst[..] == Memcpy(old(dst[..]), dOff, src[..], sOff, len)
  {
    var i := 0;
    while i < len
      invariant 0 <= i <= len
      invariant forall k :: 0 <= k < dst.Length ==>
        dst[k] == if dOff <= k < dOff + i then src[sOff + (k - dOff)] else old(dst[k])
    {
      dst[dOff + i] := src[sOff + i];
      i := i + 1;
    }
    assert forall k :: 0 <= k < dst.Length ==> dst[..][k] == Memcpy(old(dst[..]), dOff, src[..], sOff, len)[k];
  }

  /**
   * The row loop of aliasing_scaleUp and aliasing_scaleDown: for each j
   * below half, the first cw cells of source row j go to output row j and
   * those of source row h - half + j to output row H - half + j.
   */
  method CopyQuadrantsInto(src: array<real>, w: nat, h: nat, dst: array<real>, W: nat, H: nat, cw: nat, half: nat)
    requires src != dst && Shape(w, h, W, H, cw, half)
    requires src.Length == 2 * (w * h) && dst.Length == 2 * (W * H)
    modifies dst
    ensures dst[..] == Resampled(old(dst[..]), src[..], w, h, W, H, cw, half, half)
  {
    ghost var prev := dst[..];
    ResampledStart(prev, src[..], w, h, W, H, cw, half);
    var j := 0;
    while j < half
      invariant 0 <= j <= half
      invariant dst[..] == Resampled(prev, src[..], w, h, W, H, cw, half, j)
    {
      ResampledStep(prev, src[..], w, h, W, H, cw, half, j);
      CopyRowPair(src, w, h, dst, W, H, cw, half, j);
      j := j + 1;
    }
  }

  /** The body of aliasing_scaleDown after the request: copy the low modes, then scale. */
  method DownInto(src: array<real>, r0: nat, r1: nat, dst: array<real>, n0: nat, n1: nat)
    requires src != dst && 0 < n0 <= r0 && 0 < n1 <= r1
    requires src.Length == SpecLength(r0, r1) && dst.Length == SpecLength(n0, n1)
    modifies dst
    ensures dst[..] == DownSpectrum(old(dst[..]), src[..], r0, r1, n0, n1)
  {
    SpecLengthIsCells(r0, r1);
    SpecLengthIsCells(n0, n1);
    CopyQuadrantsInto(src, SpecWidth(r0), r1, dst, SpecWidth(n0), n1, SpecWidth(n0), n1 / 2);
    ScaleBuffer(dst, ScaleFactor(n0, n1, r0, r1));
  }

  /** One iteration of the row loop: the two memcpy calls for row pair j. */
  method CopyRowPair(src: array<real>, w: nat, h: nat, dst: array<real>, W: nat, H: nat, cw: nat, half: nat, j: nat)
    requires src != dst && Shape(w, h, W, H, cw, half) && j < half
    requires src.Length == 2 * (w * h) && dst.Length == 2 * (W * H)
    modifies dst
    ensures dst[..] == RowPairCopied(old(dst[..]), src[..], w, h, W, H, cw, half, j)
  {
    StepBounds(w, h, W, H, cw, half, j);
    var lowerOut, lowerIn := 2 * (j * W), 2 * (j * w);
    var top: nat, bottom: nat := H - half + j, h - half + j;
    var upperOut, upperIn := 2 * (top * W), 2 * (bottom * w);
    MemcpyInto(src, lowerIn, dst, lowerOut, 2 * cw);
    MemcpyInto(src, upperIn, dst, upperOut, 2 * cw);
  }

  /**
   * Unary operator- as written on a field whose Cartesian side is valid:
   * the grid value read back afterwards is the value before the negation.
   */
  method UnaryMinusKeepsGridValue(reg: FftRegistry) returns (before: real, after: real)
    modifies reg`main
    ensures before == 1.0 && after == before
  {
    var a := new DataArray(2, 2, reg);
    a.SetAll(1.0);
    before := a.Get(0, 0);
    a.NegateAsWritten();
    after := a.Get(0, 0);
  }

  /**
   * aliasing_scaleDown takes a reference on the aliasing singleton for its
   * output but marks the output not aliasing-scaled, so destroying the
   * output gives back its main reference only: whatever the field, the
   * aliasing counter ends one higher than before.
   */
  method DownscaledOutputKeepsAliasingReference(f: DataArray, n0: nat, n1: nat, reg: FftRegistry)
    requires f.Valid() && 0 < n0 <= f.res0 && 0 < n1 <= f.res1
    requires f.specValid || (f.cartValid && Conforms(reg.fft))
    requires reg.main.Present? && reg.main.refCounter >= 1
    modifies f`aliasingScaled, f`specValid, f.spec, reg
    ensures reg.main == old(reg.main)
    ensures reg.aliasing == AfterAcquire(old(reg.aliasing), PlanFor(n0, n1))
    ensures Count(reg.aliasing) == Count(old(reg.aliasing)) + 1
  {
    ghost var main0, aliasing0 := reg.main, reg.aliasing;
    var out, _ := f.ScaleDown(n0, n1, reg);
    assert !out.aliasingScaled && reg.main == AfterAcquire(main0, PlanFor(n0, n1));
    ghost var aliasing1 := reg.aliasing;
    ReleaseUndoesAcquire(main0, PlanFor(n0, n1));
    out.Destroy(reg);
    assert reg.aliasing == aliasing1;
  }

  /**
   * aliasing_scaleUp's output is aliasing-scaled, so destroying it gives
   * back both references it took: the counters end where they started.
   */
  method UpscaledOutputReturnsAliasingReference(f: DataArray, n0: nat, n1: nat, reg: FftRegistry)
    requires f.Valid() && f.CanRequestSpectral(reg) && n0 >= f.res0 && n1 >= f.res1
    requires reg.main.Present? && reg.main.refCounter >= 1
    modifies f`specValid, f.spec, reg
    ensures reg.main == old(reg.main)
    ensures Count(reg.aliasing) == Count(old(reg.aliasing))
    ensures reg.aliasing.Present?
  {
    ghost var main0, aliasing0 := reg.main, reg.aliasing;
    var out := f.ScaleUp(n0, n1, reg);
    assert out.aliasingScaled && reg.main == AfterAcquire(main0, PlanFor(n0, n1));
    ghost var aliasing1 := reg.aliasing;
    assert aliasing1.Present? && Count(aliasing1) == Count(aliasing0) + 1;
    ReleaseUndoesAcquire(main0, PlanFor(n0, n1));
    out.Destroy(reg);
    assert reg.aliasing == AfterDecrement(aliasing1);
  }

  /**
   * The copy constructor keeps the aliasing mark but takes only a main
   * reference, so copying an aliasing-scaled field and destroying the copy
   * leaves the main counter where it was and the aliasing counter one lower.
   */
  method CopyOfAliasedFieldDropsAliasingReference(f: DataArray, reg: FftRegistry)
    requires f.Valid() && f.aliasingScaled
    requires reg.main.Present? && reg.main.refCounter >= 1 && reg.aliasing.Present?
    modifies reg
    ensures reg.main == old(reg.main)
    ensures reg.aliasing == AfterDecrement(old(reg.aliasing))
    ensures Count(reg.aliasing) == Count(old(reg.aliasing)) - 1
  {
    ghost var main0 := reg.main;
    var copy := new DataArray.Copy(f, reg);
    assert copy.aliasingScaled && reg.main == AfterAcquire(main0, PlanFor(f.res0, f.res1));
    ReleaseUndoesAcquire(main0, PlanFor(f.res0, f.res1));
    copy.Destroy(reg);
  }

  /** The free operator v * a: the same as a * v. */
  method ScalarTimes(v: real, a: DataArray, reg: FftRegistry) returns (out: DataArray)
    requires a.Valid() && (a.specValid || a.cartValid)
    modifies reg`main
    ensures fresh(out) && out.Valid() && out.res0 == a.res0 && out.res1 == a.res1
    ensures a.specValid ==> out.specValid && !out.cartValid && out.spec[..] == Scale(a.spec[..], v)
    ensures !a.specValid ==> out.cartValid && !out.specValid && out.cart[..] == Scale(a.cart[..], v)
  {
    out := a.MulScalar(v, reg);
  }

  /**
   * The amount a scalar v shifts the first spectral element by: v times
   * the number of grid points, the unnormalised forward transform of a
   * constant.
   */
  function MeanModeAmount(v: real, n: nat): real
  {
    v * (n as real)
  }




  /* ---------- sign masks of return_*_if_* ---------- */

  function OneIfPositive(s: seq<real>): (r: seq<real>)
  {
    seq(|s|, k requires 0 <= k < |s| => if s[k] > 0.0 then 1.0 else 0.0)
  }

  function ValueIfPositive(s: seq<real>): (r: seq<real>)
  {
    seq(|s|, k requires 0 <= k < |s| => if s[k] > 0.0 then s[k] else 0.0)
  }

  function OneIfNegative(s: seq<real>): (r: seq<real>)
  {
    seq(|s|, k requires 0 <= k < |s| => if s[k] < 0.0 then 1.0 else 0.0)
  }

  function ValueIfNegative(s: seq<real>): (r: seq<real>)
  {
    seq(|s|, k requires 0 <= k < |s| => if s[k] < 0.0 then s[k] else 0.0)
  }

  /** The value masks are the one masks times the values. */
  lemma ValueMasksAreOneMasksTimesValues(s: seq<real>)
    ensures ValueIfPositive(s) == Mul(OneIfPositive(s), s)
    ensures ValueIfNegative(s) == Mul(OneIfNegative(s), s)
  {
  }

  /** The positive and the negative part add up to the values. */
  lemma PositiveAndNegativePartsAddUp(s: seq<real>)
    ensures Add(ValueIfPositive(s), ValueIfNegative(s)) == s
  {
  }
}
