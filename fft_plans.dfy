/**
 * The two process-wide transform-plan singletons of the real fields: the
 * main plan and the plan for aliasing-scaled fields.  Each is either absent
 * (a null pointer) or present with a reference counter and the plan it was
 * built with.  A plan is built from whichever field first asks for it, with
 * that field's resolution; it is not looked up by resolution afterwards.
 *
 * The transform library itself is outside the model: it is a value with a
 * forward (real to half-spectrum) and a backward (half-spectrum to real)
 * function, of which the model only knows the output lengths.
 */
module FftPlans {
  import opened Grid

  /** A real-to-complex transform library: forward and backward, by resolution. */
  datatype RealFft = RealFft(
    forward: (nat, nat, seq<real>) -> seq<real>,
    backward: (nat, nat, seq<real>) -> seq<real>)

  /** The library fills exactly the buffers the fields allocate. */
  ghost predicate Conforms(fft: RealFft)
  {
    (forall r0: nat, r1: nat, s: seq<real> :: |fft.forward(r0, r1, s)| == SpecLength(r0, r1)) &&
    (forall r0: nat, r1: nat, s: seq<real> :: |fft.backward(r0, r1, s)| == CartLength(r0, r1))
  }

  /**
   * A plan remembers the resolution of the field it was built from and the
   * lengths of its forward output (the spectral buffer) and backward output
   * (the Cartesian buffer).
   */
  datatype Plan = Plan(res0: nat, res1: nat, forwardLength: nat, backwardLength: nat)

  /** The plan built from a field of resolution res0 x res1. */
  function PlanFor(res0: nat, res1: nat): (p: Plan)
    ensures p.res0 == res0 && p.res1 == res1
    ensures p.forwardLength == res1 * SpecWidth(res0) * 2
    ensures p.backwardLength == res0 * res1
  {
    Plan(res0, res1, SpecLength(res0, res1), CartLength(res0, res1))
  }

  /** A singleton pointer: null, or an object with a counter and a plan. */
  datatype Slot = Absent | Present(refCounter: int, plan: Plan)

  function Count(s: Slot): int
  {
    if s.Absent? then 0 else s.refCounter
  }

  /**
   * The test-and-init step: an existing singleton gets its counter bumped
   * and keeps its plan; a missing one is built from p with counter 1.
   */
  function AfterAcquire(s: Slot, p: Plan): (r: Slot)
    ensures r.Present? && r.refCounter == Count(s) + 1
    ensures r.plan == (if s.Present? then s.plan else p)
  {
    match s
    case Absent => Present(1, p)
    case Present(c, q) => Present(c + 1, q)
  }

  /**
   * The destructor's step on the main singleton: decrement, and delete the
   * singleton when the counter reaches zero.
   */
  function AfterRelease(s: Slot): (r: Slot)
    requires s.Present? && s.refCounter >= 1
    ensures Count(r) == s.refCounter - 1
    ensures r.Absent? <==> s.refCounter == 1
    ensures r.Present? ==> r.plan == s.plan
  {
    if s.refCounter == 1 then Absent else Present(s.refCounter - 1, s.plan)
  }

  /** A bare decrement with no deletion and no lower bound (the aliasing counter). */
  function AfterDecrement(s: Slot): (r: Slot)
    requires s.Present?
    ensures r.Present? && r.refCounter == s.refCounter - 1 && r.plan == s.plan
  {
    Present(s.refCounter - 1, s.plan)
  }

  /**
   * A plan's buffers are those of the field it was built from: the forward
   * output holds two doubles per cell of the res0/2+1 by res1 half spectrum,
   * the backward output one double per grid cell; and two fields share a plan
   * value exactly when they have the same resolution.
   */
  lemma PlanFitsItsField(res0: nat, res1: nat, n0: nat, n1: nat)
    ensures PlanFor(res0, res1).forwardLength == 2 * (SpecWidth(res0) * res1)
    ensures PlanFor(res0, res1).backwardLength == CartLength(res0, res1)
    ensures PlanFor(res0, res1) == PlanFor(n0, n1) <==> res0 == n0 && res1 == n1
  {
    SpecLengthIsCells(res0, res1);
  }

  /** A release undoes an acquire: the singleton returns to what it was, null included. */
  lemma ReleaseUndoesAcquire(s: Slot, p: Plan)
    requires s.Absent? || s.refCounter >= 1
    ensures AfterRelease(AfterAcquire(s, p)) == s
  {
  }

  /**
   * An acquire after a release restores the singleton unless the release
   * deleted it; then the plan is rebuilt from the asking field, which may
   * have another resolution.
   */
  lemma AcquireAfterRelease(s: Slot, p: Plan)
    requires s.Present? && s.refCounter >= 1
    ensures AfterAcquire(AfterRelease(s), p) == s <==> s.refCounter >= 2 || s.plan == p
    ensures s.refCounter == 1 ==> AfterAcquire(AfterRelease(s), p) == Present(1, p)
  {
  }

  /**
   * The aliasing decrement is undone by an acquire whatever the counter,
   * and unlike the main release it never deletes: at one reference the main
   * singleton disappears while the aliasing one stays with counter 0.
   */
  lemma DecrementKeepsSingleton(s: Slot, p: Plan)
    requires s.Present?
    ensures AfterAcquire(AfterDecrement(s), p) == s
    ensures s.refCounter == 1 ==> AfterRelease(s) == Absent && AfterDecrement(s) == Present(0, s.plan)
  {
  }

  /** Lifetime events of the fields that hold a singleton. */
  datatype Event = Construct(res0: nat, res1: nat) | Destroy

  function Acquires(es: seq<Event>): nat
  {
    if es == [] then 0 else Acquires(es[..|es| - 1]) + (if es[|es| - 1].Construct? then 1 else 0)
  }

  function Releases(es: seq<Event>): nat
  {
    if es == [] then 0 else Releases(es[..|es| - 1]) + (if es[|es| - 1].Destroy? then 1 else 0)
  }

  /**
   * One lifetime event on the main singleton.  A destruction that would
   * take the counter below zero is stopped by the destructor's debug
   * assertion; the model leaves the singleton as it is there.
   */
  function Step(s: Slot, e: Event): Slot
  {
    match e
    case Construct(r0, r1) => AfterAcquire(s, PlanFor(r0, r1))
    case Destroy => if s.Present? && s.refCounter >= 1 then AfterRelease(s) else s
  }

  /** The main singleton after a sequence of constructions and destructions. */
  function Run(s: Slot, es: seq<Event>): Slot
  {
    if es == [] then s else Step(Run(s, es[..|es| - 1]), es[|es| - 1])
  }

  /**
   * Starting from no singleton, the counter always equals the number of live
   * fields (constructions minus destructions), and the singleton exists
   * exactly while that number is positive.
   */
  lemma {:induction false} RunCountsLiveFields(es: seq<Event>)
    requires forall n :: 0 <= n < |es| ==> es[n].Destroy? ==> Count(Run(Absent, es[..n])) >= 1
    ensures Count(Run(Absent, es)) == Acquires(es) - Releases(es)
    ensures Run(Absent, es).Present? <==> Acquires(es) > Releases(es)
    ensures Run(Absent, es).Present? ==> Run(Absent, es).refCounter >= 1
    decreases |es|
  {
    if es != [] {
      var p := es[..|es| - 1];
      assert forall n :: 0 <= n < |p| ==> p[..n] == es[..n] && p[n] == es[n];
      RunCountsLiveFields(p);
    }
  }

  /**
   * A construction never rebuilds an existing singleton: whatever the
   * resolution of the new field, the plan stays the one first built.
   */
  lemma PlanIsNotKeyedByResolution(s: Slot, r0: nat, r1: nat)
    requires s.Present?
    ensures AfterAcquire(s, PlanFor(r0, r1)).plan == s.plan
  {
  }

  /**
   * The registry of both singletons and the transform library they run.
   */
  class FftRegistry {
    const fft: RealFft
    var main: Slot
    var aliasing: Slot

    constructor (fft: RealFft)
      ensures this.fft == fft && main == Absent && aliasing == Absent
    {
      this.fft := fft;
      main := Absent;
      aliasing := Absent;
    }

    /** fftTestAndInit: bump the main counter, building the plan from this resolution when absent. */
    method TestAndInit(res0: nat, res1: nat)
      modifies this`main
      ensures main == AfterAcquire(old(main), PlanFor(res0, res1))
    {
      if main.Present? {
        main := Present(main.refCounter + 1, main.plan);
      } else {
        main := Present(0, PlanFor(res0, res1));
        main := Present(main.refCounter + 1, main.plan);
      }
    }

    /** fftAliasingTestAndInit: the same on the aliasing singleton. */
    method AliasingTestAndInit(res0: nat, res1: nat)
      modifies this`aliasing
      ensures aliasing == AfterAcquire(old(aliasing), PlanFor(res0, res1))
    {
      if aliasing.Present? {
        aliasing := Present(aliasing.refCounter + 1, aliasing.plan);
      } else {
        aliasing := Present(0, PlanFor(res0, res1));
        aliasing := Present(aliasing.refCounter + 1, aliasing.plan);
      }
    }

    /** The copy and move constructors bump the main counter without a null check. */
    method Retain()
      requires main.Present?
      modifies this`main
      ensures main == Present(old(main).refCounter + 1, old(main).plan)
    {
      main := Present(main.refCounter + 1, main.plan);
    }

    /**
     * The destructor's part: release the main singleton (deleting both
     * singletons when it reaches zero), then, for an aliasing-scaled field,
     * decrement the aliasing counter.  That decrement dereferences the
     * aliasing pointer without a check, so it crashes when the pointer is
     * null; `crashed` reports it.
     */
    method ReleaseAsWritten(aliasingScaled: bool) returns (crashed: bool)
      requires main.Present? && main.refCounter >= 1
      modifies this
      ensures main == AfterRelease(old(main))
      ensures crashed <==> aliasingScaled && (old(main).refCounter == 1 || old(aliasing).Absent?)
      ensures !crashed ==>
        aliasing == (if old(main).refCounter == 1 then Absent
                     else if aliasingScaled then AfterDecrement(old(aliasing)) else old(aliasing))
    {
      var c := main.refCounter - 1;
      if c == 0 {
        main := Absent;
        aliasing := Absent;
      } else {
        main := Present(c, main.plan);
      }
      crashed := false;
      if aliasingScaled {
        if aliasing.Absent? {
          crashed := true;
        } else {
          aliasing := AfterDecrement(aliasing);
        }
      }
    }

    /**
     * The destructor's part with the aliasing decrement done while the
     * aliasing singleton still exists, so it never dereferences null.
     */
    method Release(aliasingScaled: bool) returns (crashed: bool)
      requires main.Present? && main.refCounter >= 1
      modifies this
      ensures !crashed
      ensures main == AfterRelease(old(main))
      ensures aliasing ==
        (if old(main).refCounter == 1 then Absent
         else if aliasingScaled && old(aliasing).Present? then AfterDecrement(old(aliasing))
         else old(aliasing))
    {
      crashed := false;
      if aliasingScaled && aliasing.Present? {
        aliasing := AfterDecrement(aliasing);
      }
      var c := main.refCounter - 1;
      if c == 0 {
        main := Absent;
        aliasing := Absent;
      } else {
        main := Present(c, main.plan);
      }
    }
  }

  /**
   * The last aliasing-scaled field to be destroyed crashes the as-written
   * destructor, which has just deleted the aliasing singleton; the corrected
   * order does not.
   */
  method LastAliasedFieldCrashes(fft: RealFft) returns (crashed: bool, fixed: bool)
    ensures crashed && !fixed
  {
    var reg := new FftRegistry(fft);
    reg.TestAndInit(8, 8);
    reg.AliasingTestAndInit(12, 12);
    crashed := reg.ReleaseAsWritten(true);
    var reg2 := new FftRegistry(fft);
    reg2.TestAndInit(8, 8);
    reg2.AliasingTestAndInit(12, 12);
    fixed := reg2.Release(true);
  }
}
