/**
 * The stencil placement of setup_kernel.  An S x S stencil (S odd, radius
 * R = S/2) is mirrored in x, scaled, and written into the Cartesian grid in
 * four blocks so that its centre lands on cell (0, 0) and the rest wraps
 * around periodically: stencil row ky goes to grid row ky - R, or to
 * res1 - R + ky when ky < R, and likewise for columns.
 *
 * Each block is a translation of a rectangle of stencil entries by
 * (dy, dx); entries whose target falls outside the grid are skipped.
 */
module Kernels {
  import opened Grid
  import opened Cells

  /** An S x S stencil. */
  predicate IsSquare(k: seq<seq<real>>, S: nat)
  {
    |k| == S && forall j :: 0 <= j < S ==> |k[j]| == S
  }

  /** The x-mirrored, scaled stencil: entry (j, i) is k[j][S-1-i] * scale. */
  function Mirror(k: seq<seq<real>>, S: nat, scale: real): (r: seq<seq<real>>)
    requires IsSquare(k, S)
    ensures IsSquare(r, S)
  {
    seq(S, j requires 0 <= j < S => seq(S, i requires 0 <= i < S => k[j][S - i - 1] * scale))
  }

  /** Stencil rows [ky0, ky1) and columns [kx0, kx1), written to grid cell (ky + dy, kx + dx). */
  datatype Block = Block(ky0: nat, ky1: nat, kx0: nat, kx1: nat, dy: int, dx: int)

  predicate BlockFits(b: Block, S: nat)
  {
    b.ky0 <= b.ky1 <= S && b.kx0 <= b.kx1 <= S
  }

  /** The lower-left block: stencil [R, S) x [R, S) to cells [0, R] x [0, R]. */
  function Q1(S: nat): Block
  {
    Block(S / 2, S, S / 2, S, -(S / 2), -(S / 2))
  }

  /** The lower-right block: columns [0, R) wrap to res0 - R + kx. */
  function Q2(S: nat, res0: nat): Block
  {
    Block(S / 2, S, 0, S / 2, -(S / 2), res0 - S / 2)
  }

  /** The upper-left block: rows [0, R) wrap to res1 - R + ky. */
  function Q3(S: nat, res1: nat): Block
  {
    Block(0, S / 2, S / 2, S, res1 - S / 2, -(S / 2))
  }

  /** The upper-right block: both wrap. */
  function Q4(S: nat, res0: nat, res1: nat): Block
  {
    Block(0, S / 2, 0, S / 2, res1 - S / 2, res0 - S / 2)
  }

  /** Entry (ky, kx) lies in the block and precedes (kyc, kxc) in row-major loop order. */
  predicate Before(b: Block, ky: int, kx: int, kyc: int, kxc: int)
  {
    b.ky0 <= ky < b.ky1 && b.kx0 <= kx < b.kx1 && (ky < kyc || (ky == kyc && kx < kxc))
  }

  /**
   * The grid after the block's loops have written every entry before
   * (kyc, kxc): a cell whose source entry has been visited holds that
   * entry, every other cell keeps its previous value.
   */
  function PlaceUpTo(prev: seq<real>, inv: seq<seq<real>>, S: nat, b: Block, kyc: int, kxc: int, w: nat): (r: seq<real>)
    requires IsSquare(inv, S) && BlockFits(b, S) && w > 0
    ensures |r| == |prev|
  {
    seq(|prev|, p requires 0 <= p < |prev| =>
      var ky := p / w - b.dy;
      var kx := p % w - b.dx;
      if Before(b, ky, kx, kyc, kxc) then inv[ky][kx] else prev[p])
  }

  /** The grid after the whole block. */
  function PlaceBlock(prev: seq<real>, inv: seq<seq<real>>, S: nat, b: Block, w: nat): (r: seq<real>)
    requires IsSquare(inv, S) && BlockFits(b, S) && w > 0
    ensures |r| == |prev|
  {
    PlaceUpTo(prev, inv, S, b, b.ky1, b.kx0, w)
  }

  /** The zeroed grid with the four blocks written in the loop order of setup_kernel. */
  function KernelBuffer(inv: seq<seq<real>>, S: nat, res0: nat, res1: nat): (r: seq<real>)
    requires IsSquare(inv, S) && res0 > 0
    ensures |r| == res0 * res1
  {
    var g0 := Fill(res0 * res1, 0.0);
    var g1 := PlaceBlock(g0, inv, S, Q1(S), res0);
    var g2 := PlaceBlock(g1, inv, S, Q2(S, res0), res0);
    var g3 := PlaceBlock(g2, inv, S, Q3(S, res1), res0);
    PlaceBlock(g3, inv, S, Q4(S, res0, res1), res0)
  }

  /** Nothing precedes the first entry of a block. */
  lemma PlaceStart(prev: seq<real>, inv: seq<seq<real>>, S: nat, b: Block, w: nat)
    requires IsSquare(inv, S) && BlockFits(b, S) && w > 0
    ensures PlaceUpTo(prev, inv, S, b, b.ky0, b.kx0, w) == prev
  {
  }

  /** Finishing row kyc of the block is starting row kyc + 1. */
  lemma PlaceNextRow(prev: seq<real>, inv: seq<seq<real>>, S: nat, b: Block, kyc: int, w: nat)
    requires IsSquare(inv, S) && BlockFits(b, S) && w > 0
    ensures PlaceUpTo(prev, inv, S, b, kyc, b.kx1, w) == PlaceUpTo(prev, inv, S, b, kyc + 1, b.kx0, w)
  {
  }

  /** Visiting entry (kyc, kxc) affects exactly the positions whose source entry it is. */
  lemma PlaceStepAt(prev: seq<real>, inv: seq<seq<real>>, S: nat, b: Block, kyc: nat, kxc: nat, w: nat, p: nat)
    requires IsSquare(inv, S) && BlockFits(b, S) && w > 0
    requires b.ky0 <= kyc < b.ky1 && b.kx0 <= kxc < b.kx1 && p < |prev|
    ensures PlaceUpTo(prev, inv, S, b, kyc, kxc + 1, w)[p] ==
      if p / w - b.dy == kyc && p % w - b.dx == kxc then inv[kyc][kxc]
      else PlaceUpTo(prev, inv, S, b, kyc, kxc, w)[p]
  {
  }

  /** Visiting an entry whose target cell lies in the w x h grid writes it there. */
  lemma PlaceStepInGrid(prev: seq<real>, inv: seq<seq<real>>, S: nat, b: Block, kyc: nat, kxc: nat, w: nat, h: nat)
    requires IsSquare(inv, S) && BlockFits(b, S) && w > 0 && |prev| == w * h
    requires b.ky0 <= kyc < b.ky1 && b.kx0 <= kxc < b.kx1
    requires 0 <= kyc + b.dy < h && 0 <= kxc + b.dx < w
    ensures CellIndex(kyc + b.dy, kxc + b.dx, w) < |prev|
    ensures PlaceUpTo(prev, inv, S, b, kyc, kxc + 1, w) ==
      PlaceUpTo(prev, inv, S, b, kyc, kxc, w)[CellIndex(kyc + b.dy, kxc + b.dx, w) := inv[kyc][kxc]]
  {
    var cy: nat := kyc + b.dy;
    var cx: nat := kxc + b.dx;
    var before := PlaceUpTo(prev, inv, S, b, kyc, kxc, w);
    var after := PlaceUpTo(prev, inv, S, b, kyc, kxc + 1, w);
    var c := CellIndex(cy, cx, w);
    CellIndexInRange(cy, cx, w, h);
    DivModCell(cy, cx, w);
    forall p | 0 <= p < |prev|
      ensures after[p] == before[c := inv[kyc][kxc]][p]
    {
      PlaceStepAt(prev, inv, S, b, kyc, kxc, w, p);
      PositionCell(p, w, h);
    }
  }

  /** Visiting an entry whose target cell lies outside the w x h grid changes nothing. */
  lemma PlaceStepOutside(prev: seq<real>, inv: seq<seq<real>>, S: nat, b: Block, kyc: nat, kxc: nat, w: nat, h: nat)
    requires IsSquare(inv, S) && BlockFits(b, S) && w > 0 && |prev| == w * h
    requires b.ky0 <= kyc < b.ky1 && b.kx0 <= kxc < b.kx1
    requires !(0 <= kyc + b.dy < h && 0 <= kxc + b.dx < w)
    ensures PlaceUpTo(prev, inv, S, b, kyc, kxc + 1, w) == PlaceUpTo(prev, inv, S, b, kyc, kxc, w)
  {
    var before := PlaceUpTo(prev, inv, S, b, kyc, kxc, w);
    var after := PlaceUpTo(prev, inv, S, b, kyc, kxc + 1, w);
    forall p | 0 <= p < |prev|
      ensures after[p] == before[p]
    {
      PlaceStepAt(prev, inv, S, b, kyc, kxc, w, p);
      PositionCell(p, w, h);
      assert !(p / w - b.dy == kyc && p % w - b.dx == kxc);
    }
  }

  /** Cell (y, x) after a whole block: its source entry if the block covers it, else unchanged. */
  lemma BlockCell(prev: seq<real>, inv: seq<seq<real>>, S: nat, b: Block, w: nat, h: nat, y: nat, x: nat)
    requires IsSquare(inv, S) && BlockFits(b, S) && w > 0 && |prev| == w * h
    requires y < h && x < w
    ensures CellIndex(y, x, w) < |prev|
    ensures PlaceBlock(prev, inv, S, b, w)[CellIndex(y, x, w)] ==
      if b.ky0 <= y - b.dy < b.ky1 && b.kx0 <= x - b.dx < b.kx1 then inv[y - b.dy][x - b.dx]
      else prev[CellIndex(y, x, w)]
  {
    CellIndexInRange(y, x, w, h);
    DivModCell(y, x, w);
  }

  /** The stencil row (or column) that lands on grid row (or column) y: (y + R) mod n. */
  function WrapIndex(y: nat, S: nat, n: nat): nat
    requires n > 0
  {
    (y + S / 2) % n
  }

  lemma ModBelowTwice(a: nat, n: nat)
    requires n > 0 && a < 2 * n
    ensures a % n == if a < n then a else a - n
  {
    var q := a / n;
    var r := a % n;
    assert a == q * n + r && 0 <= r < n;
    if a < n {
      if q > 0 {
        MulMonotone(1, q, n);
      }
    } else if q > 1 {
      MulMonotone(2, q, n);
    }
  }

  /**
   * On a grid at least as large as the stencil in both directions the
   * blocks do not overlap, and setup_kernel's buffer is the periodic
   * placement of the mirrored stencil: cell (y, x) holds entry
   * ((y + R) mod res1, (x + R) mod res0) when both are stencil indices,
   * and 0 elsewhere.
   */
  lemma {:induction false} KernelIsPeriodicPlacement(inv: seq<seq<real>>, S: nat, res0: nat, res1: nat, y: nat, x: nat)
    requires IsSquare(inv, S) && S % 2 == 1
    requires res0 >= S && res1 >= S && y < res1 && x < res0
    ensures CellIndex(y, x, res0) < res0 * res1
    ensures KernelBuffer(inv, S, res0, res1)[CellIndex(y, x, res0)] ==
      if WrapIndex(y, S, res1) < S && WrapIndex(x, S, res0) < S
      then inv[WrapIndex(y, S, res1)][WrapIndex(x, S, res0)]
      else 0.0
  {
    var R := S / 2;
    var g0 := Fill(res0 * res1, 0.0);
    var g1 := PlaceBlock(g0, inv, S, Q1(S), res0);
    var g2 := PlaceBlock(g1, inv, S, Q2(S, res0), res0);
    var g3 := PlaceBlock(g2, inv, S, Q3(S, res1), res0);
    CellIndexInRange(y, x, res0, res1);
    BlockCell(g0, inv, S, Q1(S), res0, res1, y, x);
    BlockCell(g1, inv, S, Q2(S, res0), res0, res1, y, x);
    BlockCell(g2, inv, S, Q3(S, res1), res0, res1, y, x);
    BlockCell(g3, inv, S, Q4(S, res0, res1), res0, res1, y, x);
    WrapCover(y, S, res1);
    WrapCover(x, S, res0);
  }

  /**
   * Along one axis of length n >= S, grid index y is reached by a stencil
   * index exactly in the first R+1 positions (from the unshifted block)
   * and the last R (from the wrapped block), and these are disjoint.
   */
  lemma WrapCover(y: nat, S: nat, n: nat)
    requires S % 2 == 1 && n >= S && y < n
    ensures S == 2 * (S / 2) + 1
    ensures !(y <= S / 2 && y >= n - S / 2)
    ensures y <= S / 2 ==> WrapIndex(y, S, n) == y + S / 2
    ensures y >= n - S / 2 ==> WrapIndex(y, S, n) == y + S / 2 - n
    ensures WrapIndex(y, S, n) < S <==> y <= S / 2 || y >= n - S / 2
  {
    ModBelowTwice(y + S / 2, n);
  }
}
