/** The linear-space divide-and-conquer search of internal/diffutil. */
module Differ {
  import opened EditGrid
  import opened EditScript

  /** Go's math.MaxInt: the "unreached" mark of the backward search. */
  const MAX_INT: int := 0x7fff_ffff_ffff_ffff

  /** The floor of the default per-split cost cap. */
  const MIN_TOO_EXPENSIVE: int := 1024

  function FloorSqrt(n: nat): (r: nat)
    ensures r * r <= n < (r + 1) * (r + 1)
  {
    if n == 0 then 0 else
    var r := FloorSqrt(n - 1);
    if (r + 1) * (r + 1) <= n then r + 1 else r
  }

  /** The cost cap for a search over n array cells; costCap <= 0 asks for the
      default. */
  function EffectiveCap(n: nat, costCap: int): (cap: int)
    ensures cap >= LeastCap(costCap) >= 1
    ensures costCap > 0 ==> cap == costCap
    ensures costCap <= 0 ==> n < (cap + 1) * (cap + 1) && (cap > MIN_TOO_EXPENSIVE ==> cap * cap <= n)
  {
    if costCap <= 0 then
      var r := FloorSqrt(n);
      SquareGrows(r + 1, Max(MIN_TOO_EXPENSIVE, r) + 1);
      Max(MIN_TOO_EXPENSIVE, r)
    else costCap
  }

  lemma SquareGrows(a: nat, b: nat)
    requires a <= b
    ensures a * a <= b * b
  {
    assert a * a <= a * b <= b * b;
  }

  /** What the cap is at least, whatever the size of the input. */
  function LeastCap(costCap: int): int {
    if costCap <= 0 then MIN_TOO_EXPENSIVE else costCap
  }

  /** The range x[xoff..xlim] by y[yoff..ylim] under comparison. */
  datatype Box = Box(xoff: int, xlim: int, yoff: int, ylim: int) {
    /** First and last diagonal with a point in the box, and the diagonals of
        its two corners. */
    function DMin(): int { xoff - ylim }
    function DMax(): int { xlim - yoff }
    function FMid(): int { xoff - yoff }
    function BMid(): int { xlim - ylim }
    /** The diagonals active at cost c. */
    function FMin(c: nat): int requires yoff <= ylim { FMid() + LowDiag(ylim - yoff, c) }
    function FMax(c: nat): int requires xoff <= xlim { FMid() - LowDiag(xlim - xoff, c) }
    function BMin(c: nat): int requires xoff <= xlim { BMid() + LowDiag(xlim - xoff, c) }
    function BMax(c: nat): int requires yoff <= ylim { BMid() - LowDiag(ylim - yoff, c) }
  }

  /** A pass over the diagonals lo..hi (half-sums hl, hh with its cost), looking
      for an overlap on the other search's diagonals omin..omax. */
  datatype Window = Window(lo: int, hi: int, hl: int, hh: int, omin: int, omax: int, check: bool)

  class Differ {
    const x: seq<int>
    const y: seq<int>
    const delX: array<bool>
    const insY: array<bool>
    const fd: array<int>
    const bd: array<int>
    const off: int
    const tooExpensive: int

    ghost predicate Valid() {
      && |x| + |y| + 3 <= MAX_INT
      && delX.Length == |x| && insY.Length == |y| && delX != insY
      && fd.Length == bd.Length == |x| + |y| + 3 && fd != bd
      && off == |y| + 1
      && tooExpensive >= 1
    }

    constructor (x: seq<int>, y: seq<int>, costCap: int)
      requires |x| + |y| + 3 <= MAX_INT
      ensures Valid() && this.x == x && this.y == y && tooExpensive == EffectiveCap(|x| + |y| + 3, costCap)
      ensures fresh(delX) && fresh(insY) && fresh(fd) && fresh(bd)
      ensures NoneMarked(delX[..]) && NoneMarked(insY[..])
    {
      var n := |x| + |y| + 3;
      this.x, this.y := x, y;
      delX, insY := new bool[|x|](_ => false), new bool[|y|](_ => false);
      fd, bd := new int[n](_ => 0), new int[n](_ => 0);
      off := |y| + 1;
      tooExpensive := EffectiveCap(n, costCap);
    }

    ghost predicate Inside(b: Box) {
      0 <= b.xoff <= b.xlim <= |x| && 0 <= b.yoff <= b.ylim <= |y|
    }

    /** Both ends of the box differ, as they do once compare has trimmed it. */
    ghost predicate Trimmed(b: Box) {
      && Inside(b) && b.xoff < b.xlim && b.yoff < b.ylim
      && x[b.xoff] != y[b.yoff] && x[b.xlim-1] != y[b.ylim-1]
    }

    ghost function U(b: Box): seq<int> requires Inside(b) { x[b.xoff..b.xlim] }
    ghost function V(b: Box): seq<int> requires Inside(b) { y[b.yoff..b.ylim] }

    // -------------------------------------------------- what a row entry means

    /** px is what fd must hold at index s once the forward search has spent c. */
    ghost predicate FwdEntry(b: Box, c: int, s: int, px: int)
      requires Inside(b)
    {
      Entry(U(b), V(b), s - off - b.FMid(), c, px - b.xoff)
    }

    ghost predicate BwdEntry(b: Box, c: int, s: int, px: int)
      requires Inside(b)
    {
      Entry(Rev(U(b)), Rev(V(b)), b.BMid() - (s - off), c, b.xlim - px)
    }

    ghost predicate FwdRow(f: seq<int>, b: Box, c: int, lo: int, hi: int)
      requires Inside(b)
    {
      forall s :: 0 <= s < |f| && off + lo <= s <= off + hi ==> FwdEntry(b, c, s, f[s])
    }

    ghost predicate BwdRow(f: seq<int>, b: Box, c: int, lo: int, hi: int)
      requires Inside(b)
    {
      forall s :: 0 <= s < |f| && off + lo <= s <= off + hi ==> BwdEntry(b, c, s, f[s])
    }

    lemma ForwardLift(b: Box, c: nat, s: int, px: int, h: int)
      requires Inside(b) && c >= 1
      requires FwdEntry(b, c - 1, s, px) && s - off - b.FMid() + c - 1 == 2 * h
      ensures FwdEntry(b, c, s, px)
    {
      EntryLift(U(b), V(b), s - off - b.FMid(), c - 1, px - b.xoff, h);
    }

    lemma BackwardLift(b: Box, c: nat, s: int, px: int, h: int)
      requires Inside(b) && c >= 1
      requires BwdEntry(b, c - 1, s, px) && b.BMid() - (s - off) + c - 1 == 2 * h
      ensures BwdEntry(b, c, s, px)
    {
      EntryLift(Rev(U(b)), Rev(V(b)), b.BMid() - (s - off), c - 1, b.xlim - px, h);
    }

    // ------------------------------------------------------ one diagonal's step

    ghost predicate Same(k: int, t: int) {
      0 <= t < |x| && 0 <= t - k < |y| && x[t] == y[t - k]
    }

    /** Follows equal elements down diagonal k, staying inside the box. */
    method SlideForward(px: int, k: int, xlim: int, ylim: int) returns (qx: int)
      requires 0 <= px && 0 <= px - k && xlim <= |x| && ylim <= |y|
      ensures px <= qx && (px < qx ==> qx <= xlim && qx - k <= ylim)
      ensures forall t :: px <= t < qx ==> Same(k, t)
      ensures qx < xlim && qx - k < ylim ==> !Same(k, qx)
    {
      qx := px;
      var qy := px - k;
      while qx < xlim && qy < ylim && x[qx] == y[qy]
        invariant qy == qx - k && px <= qx && (px < qx ==> qx <= xlim && qy <= ylim)
        invariant forall t :: px <= t < qx ==> Same(k, t)
      {
        qx, qy := qx + 1, qy + 1;
      }
    }

    method SlideBackward(px: int, k: int, xoff: int, yoff: int) returns (qx: int)
      requires px <= |x| && px - k <= |y| && 0 <= xoff && 0 <= yoff
      ensures qx <= px && (qx < px ==> xoff <= qx && yoff <= qx - k)
      ensures forall t :: qx <= t < px ==> Same(k, t)
      ensures xoff < qx && yoff < qx - k ==> !Same(k, qx - 1)
    {
      qx := px;
      var qy := px - k;
      while qx > xoff && qy > yoff && x[qx-1] == y[qy-1]
        invariant qy == qx - k && qx <= px && (qx < px ==> xoff <= qx && yoff <= qy)
        invariant forall t :: qx <= t < px ==> Same(k, t)
      {
        qx, qy := qx - 1, qy - 1;
      }
    }

    /** The diagonals k a step at cost c may take from its two neighbours. */
    ghost predicate Steppable(b: Box, mid: int, c: nat, k: int) {
      && Trimmed(b) && off == |y| + 1 && c >= 1
      && b.DMin() <= k <= b.DMax() && Abs(k - mid) <= c && (k == mid ==> c >= 2)
    }

    lemma ForwardOrigin(b: Box, c: nat, k: int, tlo: int, thi: int)
      requires Steppable(b, b.FMid(), c, k)
      requires FwdEntry(b, c - 1, off + k - 1, tlo) && FwdEntry(b, c - 1, off + k + 1, thi)
      ensures Max(tlo + 1, thi) >= Max(b.xoff, b.yoff + k)
    {
      hide Ed;
      StepFromEdge(U(b), V(b), k - b.FMid(), c, tlo - b.xoff, thi - b.xoff);
    }

    lemma MatchesForward(b: Box, k: int, t: int)
      requires Inside(b)
      ensures Matches(U(b), V(b), k - b.FMid(), t - b.xoff) <==>
              b.xoff <= t < b.xlim && b.yoff <= t - k < b.ylim && Same(k, t)
    {
    }

    lemma MatchesBackward(b: Box, k: int, t: int)
      requires Inside(b)
      ensures Matches(Rev(U(b)), Rev(V(b)), b.BMid() - k, b.xlim - t - 1) <==>
              b.xoff <= t < b.xlim && b.yoff <= t - k < b.ylim && Same(k, t)
    {
    }

    lemma ForwardEntry(b: Box, c: nat, k: int, tlo: int, thi: int, x0: int, px: int)
      requires Steppable(b, b.FMid(), c, k)
      requires FwdEntry(b, c - 1, off + k - 1, tlo) && FwdEntry(b, c - 1, off + k + 1, thi)
      requires x0 == Max(tlo + 1, thi) && x0 >= Max(b.xoff, b.yoff + k)
      requires x0 <= px && (x0 < px ==> px <= b.xlim && px - k <= b.ylim)
      requires forall t :: x0 <= t < px ==> Same(k, t)
      requires px < b.xlim && px - k < b.ylim ==> !Same(k, px)
      ensures FwdEntry(b, c, off + k, px)
    {
      hide Ed; hide Furthest; hide Overrun;
      var u, v, kk := U(b), V(b), k - b.FMid();
      forall t | x0 - b.xoff <= t < px - b.xoff ensures Matches(u, v, kk, t) {
        MatchesForward(b, k, t + b.xoff);
      }
      MatchesForward(b, k, px);
      EntryStep(u, v, kk, c, tlo - b.xoff, thi - b.xoff, x0 - b.xoff, px - b.xoff);
    }

    lemma BackwardOrigin(b: Box, c: nat, k: int, tlo: int, thi: int)
      requires Steppable(b, b.BMid(), c, k)
      requires BwdEntry(b, c - 1, off + k - 1, tlo) && BwdEntry(b, c - 1, off + k + 1, thi)
      ensures Min(tlo, thi - 1) <= Min(b.xlim, b.ylim + k)
    {
      hide Ed;
      StepFromEdge(Rev(U(b)), Rev(V(b)), b.BMid() - k, c, b.xlim - thi, b.xlim - tlo);
    }

    lemma BackwardEntry(b: Box, c: nat, k: int, tlo: int, thi: int, x0: int, px: int)
      requires Steppable(b, b.BMid(), c, k)
      requires BwdEntry(b, c - 1, off + k - 1, tlo) && BwdEntry(b, c - 1, off + k + 1, thi)
      requires x0 == Min(tlo, thi - 1) && x0 <= Min(b.xlim, b.ylim + k)
      requires px <= x0 && (px < x0 ==> b.xoff <= px && b.yoff <= px - k)
      requires forall t :: px <= t < x0 ==> Same(k, t)
      requires b.xoff < px && b.yoff < px - k ==> !Same(k, px - 1)
      ensures BwdEntry(b, c, off + k, px)
    {
      hide Ed; hide Furthest; hide Overrun;
      var u, v, kk := Rev(U(b)), Rev(V(b)), b.BMid() - k;
      forall t | b.xlim - x0 <= t < b.xlim - px ensures Matches(u, v, kk, t) {
        MatchesBackward(b, k, b.xlim - t - 1);
      }
      MatchesBackward(b, k, px - 1);
      EntryStep(u, v, kk, c, b.xlim - thi, b.xlim - tlo, b.xlim - x0, b.xlim - px);
    }

    method ForwardStep(b: Box, c: nat, k: int) returns (px: int)
      requires Valid() && Steppable(b, b.FMid(), c, k)
      requires FwdEntry(b, c - 1, off + k - 1, fd[off + k - 1]) && FwdEntry(b, c - 1, off + k + 1, fd[off + k + 1])
      modifies fd
      ensures fd[..] == old(fd[..])[off + k := px]
      ensures FwdEntry(b, c, off + k, px)
    {
      var tlo, thi := fd[off + k - 1], fd[off + k + 1];
      px := tlo + 1;
      if tlo < thi {
        px := thi;
      }
      ghost var x0 := px;
      ForwardOrigin(b, c, k, tlo, thi);
      px := SlideForward(px, k, b.xlim, b.ylim);
      ForwardEntry(b, c, k, tlo, thi, x0, px);
      fd[off + k] := px;
    }

    method BackwardStep(b: Box, c: nat, k: int) returns (px: int)
      requires Valid() && Steppable(b, b.BMid(), c, k)
      requires BwdEntry(b, c - 1, off + k - 1, bd[off + k - 1]) && BwdEntry(b, c - 1, off + k + 1, bd[off + k + 1])
      modifies bd
      ensures bd[..] == old(bd[..])[off + k := px]
      ensures BwdEntry(b, c, off + k, px)
    {
      var tlo, thi := bd[off + k - 1], bd[off + k + 1];
      px := thi - 1;
      if tlo < thi {
        px := tlo;
      }
      ghost var x0 := px;
      BackwardOrigin(b, c, k, tlo, thi);
      px := SlideBackward(px, k, b.xoff, b.yoff);
      BackwardEntry(b, c, k, tlo, thi, x0, px);
      bd[off + k] := px;
    }

    // ------------------------------------------------------------ one full pass

    /** The diagonals lo..hi are within the box and within c of mid. */
    ghost predicate Reach(b: Box, mid: int, c: int, lo: int, hi: int) {
      && b.DMin() <= lo && hi <= b.DMax()
      && mid - c <= lo && hi <= mid + c
      && c >= 1 && off == |y| + 1
    }

    /** Every diagonal the pass at cost c will read holds the row for c - 1. */
    ghost predicate FwdReady(f: seq<int>, b: Box, c: int, lo: int, hi: int)
      requires Trimmed(b)
    {
      && |f| == |x| + |y| + 3
      && FwdRow(f, b, c - 1, lo + 1, hi - 1)
      && FwdRow(f, b, c - 1, lo - 1, lo - 1)
      && FwdRow(f, b, c - 1, hi + 1, hi + 1)
    }

    /** The pass at cost c has done the diagonals above k, starting from was. */
    ghost predicate FwdDone(f: seq<int>, was: seq<int>, b: Box, c: int, lo: int, hi: int, k: int)
      requires Trimmed(b)
    {
      && FwdReady(was, b, c, lo, hi) && |f| == |was|
      && (forall s :: 0 <= s < |f| && s <= off + k + 1 ==> f[s] == was[s])
      && FwdRow(f, b, c, k + 2, hi)
    }

    lemma FwdNeighbours(f: seq<int>, was: seq<int>, b: Box, c: int, lo: int, hi: int, k: int, h: int, hl: int, hh: int)
      requires Trimmed(b) && Reach(b, b.FMid(), c, lo, hi) && FwdDone(f, was, b, c, lo, hi, k) && lo <= k <= hi
      requires k - b.FMid() + c == 2 * h && lo - b.FMid() + c == 2 * hl && hi - b.FMid() + c == 2 * hh
      ensures 0 < off + k < |f| - 1
      ensures FwdEntry(b, c - 1, off + k - 1, f[off + k - 1]) && FwdEntry(b, c - 1, off + k + 1, f[off + k + 1])
    {
      assert lo < k ==> lo + 1 <= k - 1;
      assert k < hi ==> k + 1 <= hi - 1;
      assert f[off + k - 1] == was[off + k - 1] && f[off + k + 1] == was[off + k + 1];
    }

    lemma FwdDoneStep(f: seq<int>, was: seq<int>, b: Box, c: int, lo: int, hi: int, k: int, h: int, hl: int, hh: int,
                      px: int)
      requires Trimmed(b) && Reach(b, b.FMid(), c, lo, hi) && FwdDone(f, was, b, c, lo, hi, k) && lo <= k <= hi
      requires k - b.FMid() + c == 2 * h && lo - b.FMid() + c == 2 * hl && hi - b.FMid() + c == 2 * hh
      requires FwdEntry(b, c, off + k, px)
      ensures 0 <= off + k < |f| && FwdDone(f[off + k := px], was, b, c, lo, hi, k - 2)
    {
      FwdNeighbours(f, was, b, c, lo, hi, k, h, hl, hh);
      if k + 1 <= hi {
        ForwardLift(b, c, off + k + 1, f[off + k + 1], h);
      }
    }

    ghost predicate BwdReady(f: seq<int>, b: Box, c: int, lo: int, hi: int)
      requires Trimmed(b)
    {
      && |f| == |x| + |y| + 3
      && BwdRow(f, b, c - 1, lo + 1, hi - 1)
      && BwdRow(f, b, c - 1, lo - 1, lo - 1)
      && BwdRow(f, b, c - 1, hi + 1, hi + 1)
    }

    ghost predicate BwdDone(f: seq<int>, was: seq<int>, b: Box, c: int, lo: int, hi: int, k: int)
      requires Trimmed(b)
    {
      && BwdReady(was, b, c, lo, hi) && |f| == |was|
      && (forall s :: 0 <= s < |f| && s <= off + k + 1 ==> f[s] == was[s])
      && BwdRow(f, b, c, k + 2, hi)
    }

    lemma BwdNeighbours(f: seq<int>, was: seq<int>, b: Box, c: int, lo: int, hi: int, k: int, h: int, hl: int, hh: int)
      requires Trimmed(b) && Reach(b, b.BMid(), c, lo, hi) && BwdDone(f, was, b, c, lo, hi, k) && lo <= k <= hi
      requires b.BMid() - k + c == 2 * h && b.BMid() - lo + c == 2 * hl && b.BMid() - hi + c == 2 * hh
      ensures 0 < off + k < |f| - 1
      ensures BwdEntry(b, c - 1, off + k - 1, f[off + k - 1]) && BwdEntry(b, c - 1, off + k + 1, f[off + k + 1])
    {
      assert lo < k ==> lo + 1 <= k - 1;
      assert k < hi ==> k + 1 <= hi - 1;
      assert f[off + k - 1] == was[off + k - 1] && f[off + k + 1] == was[off + k + 1];
    }

    lemma BwdDoneStep(f: seq<int>, was: seq<int>, b: Box, c: int, lo: int, hi: int, k: int, h: int, hl: int, hh: int,
                      px: int)
      requires Trimmed(b) && Reach(b, b.BMid(), c, lo, hi) && BwdDone(f, was, b, c, lo, hi, k) && lo <= k <= hi
      requires b.BMid() - k + c == 2 * h && b.BMid() - lo + c == 2 * hl && b.BMid() - hi + c == 2 * hh
      requires BwdEntry(b, c, off + k, px)
      ensures 0 <= off + k < |f| && BwdDone(f[off + k := px], was, b, c, lo, hi, k - 2)
    {
      BwdNeighbours(f, was, b, c, lo, hi, k, h, hl, hh);
      if k + 1 <= hi {
        BackwardLift(b, c, off + k + 1, f[off + k + 1], h - 1);
      }
    }

    /** On the diagonal 2 * h + p the forward search is still short of the
        backward one. */
    ghost predicate Gap(f: seq<int>, g: seq<int>, p: int, h: int) {
      0 <= off + 2 * h + p < |f| && off + 2 * h + p < |g| && f[off + 2 * h + p] < g[off + 2 * h + p]
    }

    ghost predicate Apart(f: seq<int>, g: seq<int>, p: int, lo: int, hi: int) {
      forall h :: lo <= 2 * h + p <= hi ==> Gap(f, g, p, h)
    }

    lemma ApartFwdStep(f: seq<int>, g: seq<int>, p: int, h: int, k: int, hi: int, bmin: int, bmax: int, px: int)
      requires k == 2 * h + p && 0 <= off + k < |f| && off + k < |g|
      requires Apart(f, g, p, Max(k + 1, bmin), Min(hi, bmax))
      requires bmin <= k <= bmax ==> px < g[off + k]
      ensures Apart(f[off + k := px], g, p, Max(k - 2 + 1, bmin), Min(hi, bmax))
    {
      var f' := f[off + k := px];
      forall h' | Max(k - 1, bmin) <= 2 * h' + p <= Min(hi, bmax) ensures Gap(f', g, p, h') {
        if h' != h {
          assert Gap(f, g, p, h');
        }
      }
    }

    lemma ApartBwdStep(f: seq<int>, g: seq<int>, p: int, h: int, k: int, hi: int, fmin: int, fmax: int, px: int)
      requires k == 2 * h + p && 0 <= off + k < |f| && off + k < |g|
      requires Apart(f, g, p, Max(k + 1, fmin), Min(hi, fmax))
      requires fmin <= k <= fmax ==> f[off + k] < px
      ensures Apart(f, g[off + k := px], p, Max(k - 2 + 1, fmin), Min(hi, fmax))
    {
      var g' := g[off + k := px];
      forall h' | Max(k - 1, fmin) <= 2 * h' + p <= Min(hi, fmax) ensures Gap(f, g', p, h') {
        if h' != h {
          assert Gap(f, g, p, h');
        }
      }
    }

    /** Where a forward pass stands: k is the next diagonal. */
    ghost predicate FwdAt(f: seq<int>, g: seq<int>, was: seq<int>, b: Box, c: nat, w: Window, k: int)
    {
      && Trimmed(b) && Reach(b, b.FMid(), c, w.lo, w.hi) && |g| == |x| + |y| + 3
      && w.lo - b.FMid() + c == 2 * w.hl && w.hi - b.FMid() + c == 2 * w.hh && w.lo <= w.hi
      && w.lo - 2 <= k <= w.hi
      && FwdDone(f, was, b, c, w.lo, w.hi, k)
      && (w.check ==> Apart(f, g, b.FMid() - c, Max(k + 1, w.omin), Min(w.hi, w.omax)))
    }

    /** One iteration of the forward pass's loop. */
    method ForwardDiagonal(b: Box, c: nat, ghost w: Window, k: int, bmin: int, bmax: int, odd: bool,
                           ghost was: seq<int>, ghost h: int)
      returns (met: bool, px: int)
      requires Valid() && FwdAt(fd[..], bd[..], was, b, c, w, k)
      requires k >= w.lo && k - b.FMid() + c == 2 * h
      requires w.omin == bmin && w.omax == bmax && w.check == odd
      modifies fd
      ensures 0 <= off + k < bd.Length && FwdEntry(b, c, off + k, px)
      ensures met <==> odd && bmin <= k <= bmax && bd[off + k] <= px
      ensures !met ==> FwdAt(fd[..], bd[..], was, b, c, w, k - 2)
    {
      hide Ed; hide Entry;
      ghost var f := fd[..];
      FwdNeighbours(f, was, b, c, w.lo, w.hi, k, h, w.hl, w.hh);
      px := ForwardStep(b, c, k);
      met := odd && bmin <= k <= bmax && bd[off + k] <= px;
      if !met {
        FwdDoneStep(f, was, b, c, w.lo, w.hi, k, h, w.hl, w.hh, px);
        if odd {
          ApartFwdStep(f, bd[..], b.FMid() - c, h, k, w.hi, bmin, bmax, px);
        }
      }
    }

    /** Where a backward pass stands: k is the next diagonal. */
    ghost predicate BwdAt(f: seq<int>, g: seq<int>, was: seq<int>, b: Box, c: nat, w: Window, k: int)
    {
      && Trimmed(b) && Reach(b, b.BMid(), c, w.lo, w.hi) && |f| == |x| + |y| + 3
      && b.BMid() - w.lo + c == 2 * w.hl && b.BMid() - w.hi + c == 2 * w.hh && w.lo <= w.hi
      && w.lo - 2 <= k <= w.hi
      && BwdDone(g, was, b, c, w.lo, w.hi, k)
      && (w.check ==> Apart(f, g, b.BMid() + c, Max(k + 1, w.omin), Min(w.hi, w.omax)))
    }

    /** One iteration of the backward pass's loop. */
    method BackwardDiagonal(b: Box, c: nat, ghost w: Window, k: int, fmin: int, fmax: int, odd: bool,
                            ghost was: seq<int>, ghost h: int)
      returns (met: bool, px: int)
      requires Valid() && BwdAt(fd[..], bd[..], was, b, c, w, k)
      requires k >= w.lo && b.BMid() - k + c == 2 * h
      requires w.omin == fmin && w.omax == fmax && w.check == !odd
      modifies bd
      ensures 0 <= off + k < fd.Length && BwdEntry(b, c, off + k, px)
      ensures met <==> !odd && fmin <= k <= fmax && px <= fd[off + k]
      ensures !met ==> BwdAt(fd[..], bd[..], was, b, c, w, k - 2)
    {
      hide Ed; hide Entry;
      ghost var g := bd[..];
      BwdNeighbours(g, was, b, c, w.lo, w.hi, k, h, w.hl, w.hh);
      px := BackwardStep(b, c, k);
      met := !odd && fmin <= k <= fmax && px <= fd[off + k];
      if !met {
        BwdDoneStep(g, was, b, c, w.lo, w.hi, k, h, w.hl, w.hh, px);
        if !odd {
          ApartBwdStep(fd[..], g, b.BMid() + c, -h, k, w.hi, fmin, fmax, px);
        }
      }
    }

    /** One round of the forward search: every active diagonal gets one more
        edit.  Stops at the first diagonal where it passes the backward one. */
    method ForwardPass(b: Box, c: nat, fmin: int, fmax: int, bmin: int, bmax: int, odd: bool,
                       ghost hl: int, ghost hh: int)
      returns (met: bool, xm: int, km: int)
      requires Valid() && Trimmed(b) && Reach(b, b.FMid(), c, fmin, fmax)
      requires fmin - b.FMid() + c == 2 * hl && fmax - b.FMid() + c == 2 * hh && fmin <= fmax
      requires FwdReady(fd[..], b, c, fmin, fmax)
      modifies fd
      ensures !met ==> FwdRow(fd[..], b, c, fmin, fmax)
      ensures !met && odd ==> Apart(fd[..], bd[..], b.FMid() - c, Max(fmin, bmin), Min(fmax, bmax))
      ensures met ==> odd && fmin <= km <= fmax && bmin <= km <= bmax && 0 <= off + km < bd.Length
      ensures met ==> bd[off + km] <= xm && FwdEntry(b, c, off + km, xm)
    {
      met, xm, km := false, 0, fmax;
      ghost var was, h, w := fd[..], hh, Window(fmin, fmax, hl, hh, bmin, bmax, odd);
      while km >= fmin
        invariant km - b.FMid() + c == 2 * h
        invariant FwdAt(fd[..], bd[..], was, b, c, w, km)
      {
        met, xm := ForwardDiagonal(b, c, w, km, bmin, bmax, odd, was, h);
        if met {
          return;
        }
        km, h := km - 2, h - 1;
      }
      FwdEnd(fd[..], bd[..], was, b, c, w, km, h);
    }

    lemma FwdEnd(f: seq<int>, g: seq<int>, was: seq<int>, b: Box, c: nat, w: Window, k: int, h: int)
      requires FwdAt(f, g, was, b, c, w, k) && k < w.lo && k - b.FMid() + c == 2 * h
      ensures FwdRow(f, b, c, w.lo, w.hi)
      ensures w.check ==> Apart(f, g, b.FMid() - c, Max(w.lo, w.omin), Min(w.hi, w.omax))
    {
      hide Entry; hide Gap; hide Reach;
      assert k + 2 == w.lo;
    }

    /** The backward search's round. */
    method BackwardPass(b: Box, c: nat, bmin: int, bmax: int, fmin: int, fmax: int, odd: bool,
                        ghost hl: int, ghost hh: int)
      returns (met: bool, xm: int, km: int)
      requires Valid() && Trimmed(b) && Reach(b, b.BMid(), c, bmin, bmax)
      requires b.BMid() - bmin + c == 2 * hl && b.BMid() - bmax + c == 2 * hh && bmin <= bmax
      requires BwdReady(bd[..], b, c, bmin, bmax)
      modifies bd
      ensures !met ==> BwdRow(bd[..], b, c, bmin, bmax)
      ensures !met && !odd ==> Apart(fd[..], bd[..], b.BMid() + c, Max(bmin, fmin), Min(bmax, fmax))
      ensures met ==> !odd && fmin <= km <= fmax && bmin <= km <= bmax && 0 <= off + km < fd.Length
      ensures met ==> xm <= fd[off + km] && BwdEntry(b, c, off + km, xm)
    {
      met, xm, km := false, 0, bmax;
      ghost var was, h, w := bd[..], hh, Window(bmin, bmax, hl, hh, fmin, fmax, !odd);
      while km >= bmin
        invariant b.BMid() - km + c == 2 * h
        invariant BwdAt(fd[..], bd[..], was, b, c, w, km)
      {
        met, xm := BackwardDiagonal(b, c, w, km, fmin, fmax, odd, was, h);
        if met {
          return;
        }
        km, h := km - 2, h + 1;
      }
      BwdEnd(fd[..], bd[..], was, b, c, w, km, h);
    }

    lemma BwdEnd(f: seq<int>, g: seq<int>, was: seq<int>, b: Box, c: nat, w: Window, k: int, h: int)
      requires BwdAt(f, g, was, b, c, w, k) && k < w.lo && b.BMid() - k + c == 2 * h
      ensures BwdRow(g, b, c, w.lo, w.hi)
      ensures w.check ==> Apart(f, g, b.BMid() + c, Max(w.lo, w.omin), Min(w.hi, w.omax))
    {
      hide Entry; hide Gap; hide Reach;
      assert k + 2 == w.lo;
    }

    // ---------------------------------------------------------------- the split

    /** The forward row at cost c covers every diagonal searched at that cost. */
    ghost predicate FwdAll(f: seq<int>, b: Box, c: nat) {
      && Trimmed(b) && off == |y| + 1 && |f| == |x| + |y| + 3
      && FwdRow(f, b, c, b.FMin(c), b.FMax(c))
    }

    ghost predicate BwdAll(f: seq<int>, b: Box, c: nat) {
      && Trimmed(b) && off == |y| + 1 && |f| == |x| + |y| + 3
      && BwdRow(f, b, c, b.BMin(c), b.BMax(c))
    }

    lemma RangeLaw(b: Box, c: nat) returns (fl: int, fh: int, bl: int, bh: int)
      requires Trimmed(b)
      ensures b.DMin() <= b.FMin(c) <= b.FMid() <= b.FMax(c) <= b.DMax()
      ensures b.DMin() <= b.BMin(c) <= b.BMid() <= b.BMax(c) <= b.DMax()
      ensures b.FMid() - c <= b.FMin(c) && b.FMax(c) <= b.FMid() + c
      ensures b.BMid() - c <= b.BMin(c) && b.BMax(c) <= b.BMid() + c
      ensures b.FMin(c) == b.FMid() - c || b.FMin(c) <= b.DMin() + 1
      ensures b.FMax(c) == b.FMid() + c || b.FMax(c) >= b.DMax() - 1
      ensures b.BMin(c) == b.BMid() - c || b.BMin(c) <= b.DMin() + 1
      ensures b.BMax(c) == b.BMid() + c || b.BMax(c) >= b.DMax() - 1
      ensures b.FMin(c) - b.FMid() + c == 2 * fl && b.FMax(c) - b.FMid() + c == 2 * fh
      ensures b.BMid() - b.BMin(c) + c == 2 * bl && b.BMid() - b.BMax(c) + c == 2 * bh
    {
      var hn := LowDiagLaw(b.xlim - b.xoff, c);
      var hm := LowDiagLaw(b.ylim - b.yoff, c);
      fl, fh := hm, c - hn;
      bl, bh := c - hn, hm;
    }

    lemma FwdUnreached(b: Box, c: nat, s: int)
      requires Trimmed(b) && off == |y| + 1
      requires s - off < b.FMid() - c || s - off > b.FMid() + c || s - off < b.DMin() || s - off > b.DMax()
      requires b.DMin() - 1 <= s - off
      ensures FwdEntry(b, c, s, -1)
    {
      EntryOutside(U(b), V(b), s - off - b.FMid(), c, -1 - b.xoff);
    }

    lemma BwdUnreached(b: Box, c: nat, s: int)
      requires Trimmed(b) && off == |y| + 1 && |x| < MAX_INT
      requires s - off < b.BMid() - c || s - off > b.BMid() + c || s - off < b.DMin() || s - off > b.DMax()
      requires s - off <= b.DMax() + 1
      ensures BwdEntry(b, c, s, MAX_INT)
    {
      EntryOutside(Rev(U(b)), Rev(V(b)), b.BMid() - (s - off), c, b.xlim - MAX_INT);
    }

    /** Widening to lo..hi, with the unreached diagonals beyond marked, leaves
        everything the next pass reads in place. */
    lemma FwdWiden(f: seq<int>, f': seq<int>, b: Box, c: nat, lo0: int, hi0: int, lo: int, hi: int)
      requires c >= 1 && Trimmed(b) && off == |y| + 1 && |f| == |f'| == |x| + |y| + 3
      requires b.DMin() <= lo0 <= hi0 <= b.DMax() && FwdRow(f, b, c - 1, lo0, hi0)
      requires lo0 == b.FMid() - (c - 1) || lo0 <= b.DMin() + 1
      requires hi0 == b.FMid() + (c - 1) || hi0 >= b.DMax() - 1
      requires lo == if lo0 > b.DMin() then lo0 - 1 else lo0 + 1
      requires hi == if hi0 < b.DMax() then hi0 + 1 else hi0 - 1
      requires forall s :: 0 <= s < |f| && off + lo0 <= s <= off + hi0 ==> f'[s] == f[s]
      requires lo0 > b.DMin() ==> f'[off + lo - 1] == -1
      requires hi0 < b.DMax() ==> f'[off + hi + 1] == -1
      ensures FwdReady(f', b, c, lo, hi)
    {
      hide Ed;
      assert FwdRow(f', b, c - 1, lo0, hi0);
      if lo0 > b.DMin() {
        FwdUnreached(b, c - 1, off + lo - 1);
      }
      if hi0 < b.DMax() {
        FwdUnreached(b, c - 1, off + hi + 1);
      }
    }

    method WidenForward(b: Box, c: nat, fmin0: int, fmax0: int)
      returns (fmin: int, fmax: int, ghost hl: int, ghost hh: int)
      requires Valid() && c >= 1 && FwdAll(fd[..], b, c - 1)
      requires fmin0 == b.FMin(c - 1) && fmax0 == b.FMax(c - 1)
      modifies fd
      ensures fmin == b.FMin(c) && fmax == b.FMax(c) && fmin <= fmax
      ensures fmin - b.FMid() + c == 2 * hl && fmax - b.FMid() + c == 2 * hh
      ensures Reach(b, b.FMid(), c, fmin, fmax) && FwdReady(fd[..], b, c, fmin, fmax)
    {
      hide Ed;
      ghost var f := fd[..];
      ghost var fl, fh, bl, bh := RangeLaw(b, c - 1);
      fmin, fmax := fmin0, fmax0;
      if fmin > b.DMin() {
        fmin := fmin - 1;
        fd[off + fmin - 1] := -1;
      } else {
        fmin := fmin + 1;
      }
      if fmax < b.DMax() {
        fmax := fmax + 1;
        fd[off + fmax + 1] := -1;
      } else {
        fmax := fmax - 1;
      }
      hl, hh, bl, bh := RangeLaw(b, c);
      FwdWiden(f, fd[..], b, c, fmin0, fmax0, fmin, fmax);
    }

    /** Widening to lo..hi, with the unreached diagonals beyond marked, leaves
        everything the next pass reads in place. */
    lemma BwdWiden(f: seq<int>, f': seq<int>, b: Box, c: nat, lo0: int, hi0: int, lo: int, hi: int)
      requires c >= 1 && Trimmed(b) && off == |y| + 1 && |f| == |f'| == |x| + |y| + 3 && |x| < MAX_INT
      requires b.DMin() <= lo0 <= hi0 <= b.DMax() && BwdRow(f, b, c - 1, lo0, hi0)
      requires lo0 == b.BMid() - (c - 1) || lo0 <= b.DMin() + 1
      requires hi0 == b.BMid() + (c - 1) || hi0 >= b.DMax() - 1
      requires lo == if lo0 > b.DMin() then lo0 - 1 else lo0 + 1
      requires hi == if hi0 < b.DMax() then hi0 + 1 else hi0 - 1
      requires forall s :: 0 <= s < |f| && off + lo0 <= s <= off + hi0 ==> f'[s] == f[s]
      requires lo0 > b.DMin() ==> f'[off + lo - 1] == MAX_INT
      requires hi0 < b.DMax() ==> f'[off + hi + 1] == MAX_INT
      ensures BwdReady(f', b, c, lo, hi)
    {
      hide Ed;
      assert BwdRow(f', b, c - 1, lo0, hi0);
      if lo0 > b.DMin() {
        BwdUnreached(b, c - 1, off + lo - 1);
      }
      if hi0 < b.DMax() {
        BwdUnreached(b, c - 1, off + hi + 1);
      }
    }

    method WidenBackward(b: Box, c: nat, bmin0: int, bmax0: int)
      returns (bmin: int, bmax: int, ghost hl: int, ghost hh: int)
      requires Valid() && c >= 1 && BwdAll(bd[..], b, c - 1)
      requires bmin0 == b.BMin(c - 1) && bmax0 == b.BMax(c - 1)
      modifies bd
      ensures bmin == b.BMin(c) && bmax == b.BMax(c) && bmin <= bmax
      ensures b.BMid() - bmin + c == 2 * hl && b.BMid() - bmax + c == 2 * hh
      ensures Reach(b, b.BMid(), c, bmin, bmax) && BwdReady(bd[..], b, c, bmin, bmax)
    {
      hide Ed;
      ghost var f := bd[..];
      ghost var fl, fh, bl, bh := RangeLaw(b, c - 1);
      bmin, bmax := bmin0, bmax0;
      if bmin > b.DMin() {
        bmin := bmin - 1;
        bd[off + bmin - 1] := MAX_INT;
      } else {
        bmin := bmin + 1;
      }
      if bmax < b.DMax() {
        bmax := bmax + 1;
        bd[off + bmax + 1] := MAX_INT;
      } else {
        bmax := bmax - 1;
      }
      fl, fh, hl, hh := RangeLaw(b, c);
      BwdWiden(f, bd[..], b, c, bmin0, bmax0, bmin, bmax);
    }

    lemma Overlapping(f: seq<int>, g: seq<int>, p: int, lo: int, hi: int, h: int)
      requires 0 <= off + 2 * h + p < |f| && off + 2 * h + p < |g| && lo <= 2 * h + p <= hi
      requires g[off + 2 * h + p] <= f[off + 2 * h + p]
      ensures !Apart(f, g, p, lo, hi)
    {
      assert !Gap(f, g, p, h);
    }

    /** A forward row at cf and a backward row at cb that stay apart rule out
        the distance cf + cb. */
    lemma NotMet(f: seq<int>, g: seq<int>, b: Box, cf: nat, cb: nat, p: int, lo: int, hi: int, q: int)
      requires FwdAll(f, b, cf) && BwdAll(g, b, cb)
      requires lo == Max(b.FMin(cf), b.BMin(cb)) && hi == Min(b.FMax(cf), b.BMax(cb))
      requires Apart(f, g, p, lo, hi) && b.FMid() - cf - p == 2 * q
      ensures D(b) != cf + cb
    {
      hide Ed;
      if D(b) == cf + cb {
        var k, kb, h, i := RowsMeet(U(b), V(b), cf, cb);
        var s := off + b.FMid() + k;
        var fl, fh, bl, bh := RangeLaw(b, cf);
        assert FwdEntry(b, cf, s, f[s]);
        assert BwdEntry(b, cb, s, g[s]);
        assert Furthest(U(b), V(b), k, cf, f[s] - b.xoff);
        assert Furthest(Rev(U(b)), Rev(V(b)), kb, cb, b.xlim - g[s]);
        Overlapping(f, g, p, lo, hi, h + q);
      }
    }

    ghost predicate InBox(b: Box, px: int, py: int) {
      Inside(b) && b.xoff <= px <= b.xlim && b.yoff <= py <= b.ylim
    }

    ghost function D(b: Box): nat requires Inside(b) { Dist(U(b), V(b)) }

    /** The distance from the box's start to a point of it, and on to its end. */
    ghost function CostTo(b: Box, px: int, py: int): nat
      requires InBox(b, px, py)
    {
      Dist(x[b.xoff..px], y[b.yoff..py])
    }

    ghost function CostFrom(b: Box, px: int, py: int): nat
      requires InBox(b, px, py)
    {
      Dist(x[px..b.xlim], y[py..b.ylim])
    }

    /** (px, py) divides the box's distance into cf and cb. */
    ghost predicate Halves(b: Box, px: int, py: int, cf: int, cb: int) {
      InBox(b, px, py) && CostTo(b, px, py) == cf && CostFrom(b, px, py) == cb && D(b) == cf + cb
    }

    lemma Slices(s: seq<int>, lo: int, mid: int, hi: int)
      requires 0 <= lo <= mid <= hi <= |s|
      ensures s[lo..hi][..mid - lo] == s[lo..mid] && s[lo..hi][mid - lo..] == s[mid..hi]
    {
    }

    lemma CostLaw(b: Box, px: int, py: int)
      requires InBox(b, px, py)
      ensures CostTo(b, px, py) == Ed(U(b), V(b), px - b.xoff, py - b.yoff)
      ensures CostFrom(b, px, py) == Back(U(b), V(b), px - b.xoff, py - b.yoff)
    {
      var i, j := px - b.xoff, py - b.yoff;
      CutDist(U(b), V(b), i, j);
      Slices(x, b.xoff, px, b.xlim);
      Slices(y, b.yoff, py, b.ylim);
    }

    lemma ForwardMet(b: Box, c: nat, k: int, px: int, py: int, qx: int)
      requires Trimmed(b) && c >= 1 && b.DMin() <= k <= b.DMax() && py == px - k
      requires Abs(k - b.FMid()) <= c && Abs(k - b.BMid()) <= c - 1
      requires FwdEntry(b, c, off + k, px) && BwdEntry(b, c-1, off + k, qx) && qx <= px
      requires D(b) >= 2 * c - 1
      ensures Halves(b, px, py, c, c - 1)
    {
      hide Ed;
      MeetPoint(U(b), V(b), k - b.FMid(), c, c - 1, px - b.xoff, b.xlim - qx);
      CostLaw(b, px, py);
    }

    lemma BackwardMet(b: Box, c: nat, k: int, px: int, py: int, qx: int)
      requires Trimmed(b) && c >= 1 && b.DMin() <= k <= b.DMax() && py == px - k
      requires Abs(k - b.FMid()) <= c && Abs(k - b.BMid()) <= c
      requires BwdEntry(b, c, off + k, px) && FwdEntry(b, c, off + k, qx) && px <= qx
      requires D(b) >= 2 * c
      ensures Halves(b, px, py, c, c)
    {
      hide Ed;
      MeetPointBack(U(b), V(b), k - b.FMid(), c, c, qx - b.xoff, b.xlim - px);
      CostLaw(b, px, py);
    }

    // ------------------------------------------------------------- the cost cap

    lemma ForwardClip(b: Box, c: nat, k: int, fx: int, px: int, h: int)
      requires Trimmed(b) && c >= 1 && b.DMin() <= k <= b.DMax() && Abs(k - b.FMid()) <= c
      requires k - b.FMid() + c == 2 * h && FwdEntry(b, c, off + k, fx)
      requires px == Min(Min(fx, b.xlim), b.ylim + k)
      ensures InBox(b, px, px - k) && px + px - k > b.xoff + b.yoff && CostTo(b, px, px - k) <= c
    {
      hide Ed;
      ClippedPoint(U(b), V(b), k - b.FMid(), c, fx - b.xoff, h);
      CostLaw(b, px, px - k);
    }

    lemma BackwardClip(b: Box, c: nat, k: int, fx: int, px: int, h: int)
      requires Trimmed(b) && c >= 1 && b.DMin() <= k <= b.DMax() && Abs(k - b.BMid()) <= c
      requires b.BMid() - k + c == 2 * h && BwdEntry(b, c, off + k, fx)
      requires px == Max(Max(fx, b.xoff), b.yoff + k)
      ensures InBox(b, px, px - k) && px + px - k < b.xlim + b.ylim && CostFrom(b, px, px - k) <= c
    {
      hide Ed;
      ClippedPoint(Rev(U(b)), Rev(V(b)), b.BMid() - k, c, b.xlim - fx, h);
      CostLaw(b, px, px - k);
    }

    /** Some diagonal of the forward row has its clipped entry at least c past
        the start of the box. */
    lemma ForwardGain(b: Box, c: nat, f: seq<int>, fmin: int, fmax: int) returns (k: int, h: int)
      requires Trimmed(b) && c >= 1 && c <= D(b) && off == |y| + 1 && |f| == |x| + |y| + 3
      requires fmin == b.FMin(c) && fmax == b.FMax(c) && FwdRow(f, b, c, fmin, fmax)
      ensures fmin <= k <= fmax && k - b.FMid() + c == 2 * h && 0 <= off + k < |f|
      ensures var px := Min(Min(f[off + k], b.xlim), b.ylim + k); px + px - k >= b.xoff + b.yoff + c
    {
      hide Ed; hide LowDiag;
      var fl, fh, bl, bh := RangeLaw(b, c);
      var i, j, hh := FarPoint(U(b), V(b), c);
      k, h := b.FMid() + i - j, hh;
      assert FwdEntry(b, c, off + k, f[off + k]);
      FarClipped(U(b), V(b), i, j, c, f[off + k] - b.xoff);
    }

    /** The mirror image. */
    lemma BackwardGain(b: Box, c: nat, g: seq<int>, bmin: int, bmax: int) returns (k: int, h: int)
      requires Trimmed(b) && c >= 1 && c <= D(b) && off == |y| + 1 && |g| == |x| + |y| + 3
      requires bmin == b.BMin(c) && bmax == b.BMax(c) && BwdRow(g, b, c, bmin, bmax)
      ensures bmin <= k <= bmax && b.BMid() - k + c == 2 * h && 0 <= off + k < |g|
      ensures var px := Max(Max(g[off + k], b.xoff), b.yoff + k); px + px - k <= b.xlim + b.ylim - c
    {
      hide Ed; hide LowDiag;
      var fl, fh, bl, bh := RangeLaw(b, c);
      DistRev(U(b), V(b));
      var i, j, hh := FarPoint(Rev(U(b)), Rev(V(b)), c);
      k, h := b.BMid() - i + j, hh;
      assert BwdEntry(b, c, off + k, g[off + k]);
      FarClipped(Rev(U(b)), Rev(V(b)), i, j, c, b.xlim - g[off + k]);
    }

    /** The forward entry of diagonal k, pulled back into the box. */
    method ClipForward(b: Box, c: nat, k: int, ghost h: int) returns (px: int, py: int)
      requires Valid() && Trimmed(b) && c >= 1 && b.DMin() <= k <= b.DMax() && Abs(k - b.FMid()) <= c
      requires k - b.FMid() + c == 2 * h && FwdEntry(b, c, off + k, fd[off + k])
      ensures px == Min(Min(fd[off + k], b.xlim), b.ylim + k) && py == px - k
      ensures InBox(b, px, py) && CostTo(b, px, py) <= c
    {
      px := Min(fd[off + k], b.xlim);
      py := px - k;
      if b.ylim < py {
        px, py := b.ylim + k, b.ylim;
      }
      ForwardClip(b, c, k, fd[off + k], px, h);
    }

    /** The mirror image. */
    method ClipBackward(b: Box, c: nat, k: int, ghost h: int) returns (px: int, py: int)
      requires Valid() && Trimmed(b) && c >= 1 && b.DMin() <= k <= b.DMax() && Abs(k - b.BMid()) <= c
      requires b.BMid() - k + c == 2 * h && BwdEntry(b, c, off + k, bd[off + k])
      ensures px == Max(Max(bd[off + k], b.xoff), b.yoff + k) && py == px - k
      ensures InBox(b, px, py) && CostFrom(b, px, py) <= c
    {
      px := Max(b.xoff, bd[off + k]);
      py := px - k;
      if py < b.yoff {
        px, py := b.yoff + k, b.yoff;
      }
      BackwardClip(b, c, k, bd[off + k], px, h);
    }

    /** The point furthest from the start that the forward search reached: at
        least c past it. */
    method FurthestForward(b: Box, c: nat, fmin: int, fmax: int, ghost hl: int, ghost hh: int)
      returns (best: int, fx: int)
      requires Valid() && Trimmed(b) && Reach(b, b.FMid(), c, fmin, fmax) && fmin <= fmax && c <= D(b)
      requires fmin - b.FMid() + c == 2 * hl && fmax - b.FMid() + c == 2 * hh
      requires fmin == b.FMin(c) && fmax == b.FMax(c) && FwdRow(fd[..], b, c, fmin, fmax)
      ensures InBox(b, fx, best - fx) && best >= b.xoff + b.yoff + c && CostTo(b, fx, best - fx) <= c
    {
      hide Ed; hide LowDiag; hide Entry; hide CostTo;
      best, fx := -1, 0;
      var k := fmax;
      ghost var h := hh;
      ghost var far, hf := ForwardGain(b, c, fd[..], fmin, fmax);
      while k >= fmin
        invariant fmin - 2 <= k <= fmax && k - b.FMid() + c == 2 * h
        invariant k == fmax ==> best == -1
        invariant k < fmax ==> InBox(b, fx, best - fx) && CostTo(b, fx, best - fx) <= c
        invariant k < far ==> best >= b.xoff + b.yoff + c
      {
        assert FwdEntry(b, c, off + k, fd[..][off + k]);
        var px, py := ClipForward(b, c, k, h);
        if best < px + py {
          best, fx := px + py, px;
        }
        k, h := k - 2, h - 1;
      }
    }

    /** The point furthest from the end that the backward search reached: at
        least c before it. */
    method FurthestBackward(b: Box, c: nat, bmin: int, bmax: int, ghost hl: int, ghost hh: int)
      returns (best: int, bx: int)
      requires Valid() && Trimmed(b) && Reach(b, b.BMid(), c, bmin, bmax) && bmin <= bmax && c <= D(b)
      requires b.BMid() - bmin + c == 2 * hl && b.BMid() - bmax + c == 2 * hh
      requires bmin == b.BMin(c) && bmax == b.BMax(c) && BwdRow(bd[..], b, c, bmin, bmax)
      ensures InBox(b, bx, best - bx) && best <= b.xlim + b.ylim - c && CostFrom(b, bx, best - bx) <= c
    {
      hide Ed; hide LowDiag; hide Entry; hide CostFrom;
      best, bx := MAX_INT, 0;
      var k := bmax;
      ghost var h := hh;
      ghost var far, hf := BackwardGain(b, c, bd[..], bmin, bmax);
      while k >= bmin
        invariant bmin - 2 <= k <= bmax && b.BMid() - k + c == 2 * h
        invariant k == bmax ==> best == MAX_INT
        invariant k < bmax ==> InBox(b, bx, best - bx) && CostFrom(b, bx, best - bx) <= c
        invariant k < far ==> best <= b.xlim + b.ylim - c
      {
        assert BwdEntry(b, c, off + k, bd[..][off + k]);
        var px, py := ClipBackward(b, c, k, h);
        if px + py < best {
          best, bx := px + py, px;
        }
        k, h := k - 2, h + 1;
      }
    }

    // -------------------------------------------------------------- the search

    lemma OddDist(b: Box, odd: bool)
      requires Inside(b) && odd == ((b.FMid() - b.BMid()) % 2 != 0)
      ensures odd == (D(b) % 2 != 0)
    {
      EdParity(U(b), V(b), b.xlim - b.xoff, b.ylim - b.yoff);
    }

    /** Widen and advance the forward search from cost c - 1 to c. */
    method ForwardRound(b: Box, c: nat, fmin0: int, fmax0: int, bmin: int, bmax: int, odd: bool)
      returns (met: bool, xm: int, ym: int, fmin: int, fmax: int)
      requires Valid() && c >= 1 && FwdAll(fd[..], b, c - 1) && BwdAll(bd[..], b, c - 1)
      requires fmin0 == b.FMin(c - 1) && fmax0 == b.FMax(c - 1) && bmin == b.BMin(c - 1) && bmax == b.BMax(c - 1)
      requires D(b) >= 2 * c - 1
      modifies fd
      ensures met ==> Halves(b, xm, ym, c, c - 1)
      ensures !met ==> fmin == b.FMin(c) && fmax == b.FMax(c) && FwdAll(fd[..], b, c)
      ensures !met && odd ==> D(b) >= 2 * c
    {
      hide Ed; hide Entry; hide LowDiag;
      ghost var hl, hh, g := 0, 0, bd[..];
      fmin, fmax, hl, hh := WidenForward(b, c, fmin0, fmax0);
      var km: int;
      met, xm, km := ForwardPass(b, c, fmin, fmax, bmin, bmax, odd, hl, hh);
      assert bd[..] == g;
      ym := xm - km;
      if met {
        ghost var fl, fh, bl, bh := RangeLaw(b, c - 1);
        assert BwdEntry(b, c - 1, off + km, g[off + km]);
        ForwardMet(b, c, km, xm, ym, bd[off + km]);
      } else if odd {
        NotMet(fd[..], g, b, c, c - 1, b.FMid() - c, Max(fmin, bmin), Min(fmax, bmax), 0);
      }
    }

    method BackwardRound(b: Box, c: nat, bmin0: int, bmax0: int, fmin: int, fmax: int, odd: bool)
      returns (met: bool, xm: int, ym: int, bmin: int, bmax: int)
      requires Valid() && c >= 1 && FwdAll(fd[..], b, c) && BwdAll(bd[..], b, c - 1)
      requires fmin == b.FMin(c) && fmax == b.FMax(c) && bmin0 == b.BMin(c - 1) && bmax0 == b.BMax(c - 1)
      requires D(b) >= 2 * c && odd == ((b.FMid() - b.BMid()) % 2 != 0)
      modifies bd
      ensures met ==> Halves(b, xm, ym, c, c)
      ensures !met ==> bmin == b.BMin(c) && bmax == b.BMax(c) && BwdAll(bd[..], b, c)
      ensures !met && !odd ==> D(b) > 2 * c
    {
      hide Ed; hide Entry; hide LowDiag;
      ghost var hl, hh, f := 0, 0, fd[..];
      bmin, bmax, hl, hh := WidenBackward(b, c, bmin0, bmax0);
      var km: int;
      met, xm, km := BackwardPass(b, c, bmin, bmax, fmin, fmax, odd, hl, hh);
      assert fd[..] == f;
      ym := xm - km;
      if met {
        ghost var fl, fh, bl, bh := RangeLaw(b, c);
        assert FwdEntry(b, c, off + km, f[off + km]);
        BackwardMet(b, c, km, xm, ym, fd[off + km]);
      } else if !odd {
        NotMet(f, bd[..], b, c, c, b.BMid() + c, Max(bmin, fmin), Min(bmax, fmax), (b.FMid() - b.BMid()) / 2 - c);
      }
    }

    lemma StartRows(f: seq<int>, g: seq<int>, b: Box)
      requires Trimmed(b) && off == |y| + 1 && |f| == |g| == |x| + |y| + 3
      requires f[off + b.FMid()] == b.xoff && g[off + b.BMid()] == b.xlim
      ensures FwdAll(f, b, 0) && BwdAll(g, b, 0) && D(b) >= 2
      ensures b.FMin(0) == b.FMax(0) == b.FMid() && b.BMin(0) == b.BMax(0) == b.BMid()
    {
      hide Ed;
      FurthestAtStart(U(b), V(b));
      FurthestAtStart(Rev(U(b)), Rev(V(b)));
      TrimmedDist(U(b), V(b));
    }

    /** What split promises about its point.  Within the cap, or when the cap
        is forbidden, both halves are non-trivial and their distances add up
        to the box's; past the cap, the half flagged minimal is the one whose
        distance the search has bounded, and it is at least as long as the
        cap, so the other half is that much smaller than the box. */
    ghost predicate SplitAt(b: Box, minimal: bool, xm: int, ym: int, loMin: bool, hiMin: bool) {
      && InBox(b, xm, ym)
      && if minimal || D(b) <= 2 * tooExpensive
         then loMin && hiMin && CostTo(b, xm, ym) > 0 && CostFrom(b, xm, ym) > 0
              && CostTo(b, xm, ym) + CostFrom(b, xm, ym) == D(b)
         else (loMin && !hiMin && xm + ym >= b.xoff + b.yoff + tooExpensive && CostTo(b, xm, ym) <= tooExpensive)
              || (!loMin && hiMin && xm + ym <= b.xlim + b.ylim - tooExpensive && CostFrom(b, xm, ym) <= tooExpensive)
    }

    lemma ExactSplit(b: Box, minimal: bool, xm: int, ym: int, cf: int, cb: int)
      requires Halves(b, xm, ym, cf, cb) && cf > 0 && cb > 0
      requires minimal || cf + cb <= 2 * tooExpensive
      ensures SplitAt(b, minimal, xm, ym, true, true)
    {
    }

    method Split(xoff: int, xlim: int, yoff: int, ylim: int, minimal: bool)
      returns (xmid: int, ymid: int, loMin: bool, hiMin: bool)
      requires Valid() && Trimmed(Box(xoff, xlim, yoff, ylim))
      modifies fd, bd
      ensures SplitAt(Box(xoff, xlim, yoff, ylim), minimal, xmid, ymid, loMin, hiMin)
    {
      hide Ed; hide Entry; hide LowDiag;
      var b := Box(xoff, xlim, yoff, ylim);
      var fmin, fmax := b.FMid(), b.FMid();
      var bmin, bmax := b.BMid(), b.BMid();
      var odd := (b.FMid() - b.BMid()) % 2 != 0;
      fd[off + b.FMid()] := xoff;
      bd[off + b.BMid()] := xlim;
      StartRows(fd[..], bd[..], b);
      OddDist(b, odd);
      var c := 0;
      while true
        invariant 0 <= c && fmin == b.FMin(c) && fmax == b.FMax(c) && bmin == b.BMin(c) && bmax == b.BMax(c)
        invariant FwdAll(fd[..], b, c) && BwdAll(bd[..], b, c)
        invariant D(b) > 2 * c && D(b) >= 2
        invariant minimal || c < tooExpensive
        decreases D(b) - 2 * c
      {
        c := c + 1;
        var met;
        met, xmid, ymid, fmin, fmax := ForwardRound(b, c, fmin, fmax, bmin, bmax, odd);
        if met {
          ExactSplit(b, minimal, xmid, ymid, c, c - 1);
          return xmid, ymid, true, true;
        }
        met, xmid, ymid, bmin, bmax := BackwardRound(b, c, bmin, bmax, fmin, fmax, odd);
        if met {
          ExactSplit(b, minimal, xmid, ymid, c, c);
          return xmid, ymid, true, true;
        }
        if minimal || c < tooExpensive {
          continue;
        }
        ghost var fl, fh, bl, bh := RangeLaw(b, c);
        var fxyBest, fxBest := FurthestForward(b, c, fmin, fmax, fl, fh);
        var bxyBest, bxBest := FurthestBackward(b, c, bmin, bmax, bl, bh);
        if (xlim + ylim) - bxyBest < fxyBest - (xoff + yoff) {
          return fxBest, fxyBest - fxBest, true, false;
        }
        return bxBest, bxyBest - bxBest, false, true;
      }
    }

    // --------------------------------------------------------------- compare

    /** Restricted to the box, the marks turn x into y, and when exact no
        script for the box is shorter. */
    ghost predicate Solves(b: Box, del: seq<bool>, ins: seq<bool>, exact: bool) {
      && Inside(b) && |del| == |x| && |ins| == |y|
      && Keep(U(b), del[b.xoff..b.xlim]) == Keep(V(b), ins[b.yoff..b.ylim])
      && (exact ==> Count(del[b.xoff..b.xlim]) + Count(ins[b.yoff..b.ylim]) == D(b))
    }

    ghost predicate Clean(b: Box, del: seq<bool>, ins: seq<bool>) {
      && |del| == |x| && |ins| == |y| && Inside(b)
      && (forall k :: b.xoff <= k < b.xlim ==> !del[k])
      && (forall k :: b.yoff <= k < b.ylim ==> !ins[k])
    }

    /** The two pairs of marks agree inside, or outside, the box. */
    ghost predicate AgreeIn(b: Box, del: seq<bool>, ins: seq<bool>, del': seq<bool>, ins': seq<bool>) {
      && |del| == |del'| == |x| && |ins| == |ins'| == |y| && Inside(b)
      && (forall k :: b.xoff <= k < b.xlim ==> del[k] == del'[k])
      && (forall k :: b.yoff <= k < b.ylim ==> ins[k] == ins'[k])
    }

    ghost predicate AgreeOut(b: Box, del: seq<bool>, ins: seq<bool>, del': seq<bool>, ins': seq<bool>) {
      && |del| == |del'| == |x| && |ins| == |ins'| == |y|
      && (forall k :: 0 <= k < |x| && !(b.xoff <= k < b.xlim) ==> del[k] == del'[k])
      && (forall k :: 0 <= k < |y| && !(b.yoff <= k < b.ylim) ==> ins[k] == ins'[k])
    }

    lemma SolvesLocal(b: Box, del: seq<bool>, ins: seq<bool>, del': seq<bool>, ins': seq<bool>, exact: bool)
      requires Solves(b, del, ins, exact) && AgreeIn(b, del, ins, del', ins')
      ensures Solves(b, del', ins', exact)
    {
      assert del[b.xoff..b.xlim] == del'[b.xoff..b.xlim];
      assert ins[b.yoff..b.ylim] == ins'[b.yoff..b.ylim];
    }

    lemma SolvesJoin(b: Box, xm: int, ym: int, del: seq<bool>, ins: seq<bool>, exact: bool)
      requires InBox(b, xm, ym)
      requires Solves(Box(b.xoff, xm, b.yoff, ym), del, ins, exact)
      requires Solves(Box(xm, b.xlim, ym, b.ylim), del, ins, exact)
      requires exact ==> CostTo(b, xm, ym) + CostFrom(b, xm, ym) == D(b)
      ensures Solves(b, del, ins, exact)
    {
      hide Ed;
      assert U(b) == x[b.xoff..xm] + x[xm..b.xlim] && V(b) == y[b.yoff..ym] + y[ym..b.ylim];
      assert del[b.xoff..b.xlim] == del[b.xoff..xm] + del[xm..b.xlim];
      assert ins[b.yoff..b.ylim] == ins[b.yoff..ym] + ins[ym..b.ylim];
      KeepConcat(x[b.xoff..xm], del[b.xoff..xm], x[xm..b.xlim], del[xm..b.xlim]);
      KeepConcat(y[b.yoff..ym], ins[b.yoff..ym], y[ym..b.ylim], ins[ym..b.ylim]);
    }

    lemma SolvesSame(b: Box, del: seq<bool>, ins: seq<bool>, exact: bool)
      requires Clean(b, del, ins) && U(b) == V(b)
      ensures Solves(b, del, ins, exact) && D(b) == 0
    {
      hide Ed;
      KeepAll(U(b), del[b.xoff..b.xlim]);
      KeepAll(V(b), ins[b.yoff..b.ylim]);
      DistSame(U(b));
    }

    /** Trimming equal ends leaves the distance alone and nothing to mark. */
    lemma SolvesTrimmed(b: Box, t: Box, del: seq<bool>, ins: seq<bool>, exact: bool)
      requires Inside(b) && Inside(t)
      requires b.xoff <= t.xoff && t.xlim <= b.xlim && b.yoff <= t.yoff && t.ylim <= b.ylim
      requires x[b.xoff..t.xoff] == y[b.yoff..t.yoff] && x[t.xlim..b.xlim] == y[t.ylim..b.ylim]
      requires Clean(Box(b.xoff, t.xoff, b.yoff, t.yoff), del, ins)
      requires Clean(Box(t.xlim, b.xlim, t.ylim, b.ylim), del, ins)
      requires Solves(t, del, ins, exact)
      ensures Solves(b, del, ins, exact)
    {
      hide Ed;
      var pre, post := Box(b.xoff, t.xoff, b.yoff, t.yoff), Box(t.xlim, b.xlim, t.ylim, b.ylim);
      var rest := Box(t.xoff, b.xlim, t.yoff, b.ylim);
      TrimDist(b, t);
      SolvesSame(post, del, ins, exact);
      SolvesJoin(rest, t.xlim, t.ylim, del, ins, exact);
      SolvesSame(pre, del, ins, exact);
      SolvesJoin(b, t.xoff, t.yoff, del, ins, exact);
    }

    lemma TrimFront(b: Box, px: int, py: int)
      requires InBox(b, px, py) && x[b.xoff..px] == y[b.yoff..py]
      ensures D(b) == D(Box(px, b.xlim, py, b.ylim)) && D(Box(b.xoff, px, b.yoff, py)) == 0
    {
      hide Ed; hide Dist;
      Slices(x, b.xoff, px, b.xlim);
      Slices(y, b.yoff, py, b.ylim);
      assert px - b.xoff == |x[b.xoff..px]| == |y[b.yoff..py]| == py - b.yoff;
      TrimPrefix(U(b), V(b), px - b.xoff);
      DistSame(x[b.xoff..px]);
    }

    lemma TrimBack(b: Box, px: int, py: int)
      requires InBox(b, px, py) && x[px..b.xlim] == y[py..b.ylim]
      ensures D(b) == D(Box(b.xoff, px, b.yoff, py)) && D(Box(px, b.xlim, py, b.ylim)) == 0
    {
      hide Ed; hide Dist;
      Slices(x, b.xoff, px, b.xlim);
      Slices(y, b.yoff, py, b.ylim);
      assert b.xlim - px == |x[px..b.xlim]| == |y[py..b.ylim]| == b.ylim - py;
      TrimSuffix(U(b), V(b), b.xlim - px);
      DistSame(x[px..b.xlim]);
    }

    lemma TrimDist(b: Box, t: Box)
      requires Inside(b)
      requires b.xoff <= t.xoff <= t.xlim <= b.xlim && b.yoff <= t.yoff <= t.ylim <= b.ylim
      requires x[b.xoff..t.xoff] == y[b.yoff..t.yoff] && x[t.xlim..b.xlim] == y[t.ylim..b.ylim]
      ensures D(b) == D(t) == D(Box(t.xoff, b.xlim, t.yoff, b.ylim))
      ensures D(Box(b.xoff, t.xoff, b.yoff, t.yoff)) == 0 == D(Box(t.xlim, b.xlim, t.ylim, b.ylim))
    {
      hide Ed; hide Dist;
      TrimFront(b, t.xoff, t.yoff);
      TrimBack(Box(t.xoff, b.xlim, t.yoff, b.ylim), t.xlim, t.ylim);
    }

    lemma SolvesOneSided(b: Box, del: seq<bool>, ins: seq<bool>, exact: bool)
      requires Inside(b) && (b.xoff == b.xlim || b.yoff == b.ylim) && |del| == |x| && |ins| == |y|
      requires AllMarked(del[b.xoff..b.xlim]) && AllMarked(ins[b.yoff..b.ylim])
      ensures Solves(b, del, ins, exact)
    {
      KeepNone(U(b), del[b.xoff..b.xlim]);
      KeepNone(V(b), ins[b.yoff..b.ylim]);
    }

    /** compare's two trimming loops. */
    method Trim(b: Box) returns (t: Box)
      requires Inside(b)
      ensures b.xoff <= t.xoff <= t.xlim <= b.xlim && b.yoff <= t.yoff <= t.ylim <= b.ylim
      ensures x[b.xoff..t.xoff] == y[b.yoff..t.yoff] && x[t.xlim..b.xlim] == y[t.ylim..b.ylim]
      ensures t.xoff < t.xlim && t.yoff < t.ylim ==> Trimmed(t)
    {
      var xoff, xlim, yoff, ylim := b.xoff, b.xlim, b.yoff, b.ylim;
      while xoff < xlim && yoff < ylim && x[xoff] == y[yoff]
        invariant b.xoff <= xoff <= xlim && b.yoff <= yoff <= ylim
        invariant x[b.xoff..xoff] == y[b.yoff..yoff]
      {
        assert x[b.xoff..xoff+1] == x[b.xoff..xoff] + [x[xoff]];
        assert y[b.yoff..yoff+1] == y[b.yoff..yoff] + [y[yoff]];
        xoff, yoff := xoff + 1, yoff + 1;
      }
      while xoff < xlim && yoff < ylim && x[xlim-1] == y[ylim-1]
        invariant xoff <= xlim <= b.xlim && yoff <= ylim <= b.ylim
        invariant x[xlim..b.xlim] == y[ylim..b.ylim]
        invariant xoff < xlim && yoff < ylim ==> x[xoff] != y[yoff]
      {
        assert x[xlim-1..b.xlim] == [x[xlim-1]] + x[xlim..b.xlim];
        assert y[ylim-1..b.ylim] == [y[ylim-1]] + y[ylim..b.ylim];
        xlim, ylim := xlim - 1, ylim - 1;
      }
      t := Box(xoff, xlim, yoff, ylim);
    }

    static method MarkRange(a: array<bool>, lo: int, hi: int)
      requires 0 <= lo <= hi <= a.Length
      modifies a
      ensures AllMarked(a[lo..hi])
      ensures forall t :: 0 <= t < a.Length && !(lo <= t < hi) ==> a[t] == old(a[t])
    {
      var k := lo;
      while k < hi
        invariant lo <= k <= hi
        invariant forall t :: lo <= t < k ==> a[t]
        invariant forall t :: 0 <= t < a.Length && !(lo <= t < k) ==> a[t] == old(a[t])
      {
        a[k] := true;
        k := k + 1;
      }
    }

    /** Either half is a smaller problem, or the same one with the cap off. */
    lemma Progress(b: Box, minimal: bool, xm: int, ym: int, loMin: bool, hiMin: bool)
      requires tooExpensive >= 1 && SplitAt(b, minimal, xm, ym, loMin, hiMin)
      ensures xm + ym < b.xlim + b.ylim || (loMin && !minimal)
      ensures xm + ym > b.xoff + b.yoff || (hiMin && !minimal)
    {
    }

    /** When a split of the box's comparison reaches the cap: the cap is allowed,
        more than one run differs, and the distance exceeds twice the cap.  The
        first split decides, for a split within the cap forbids it below. */
    ghost predicate Capped(b: Box, minimal: bool)
      requires Inside(b)
    {
      !minimal && !OneRun(U(b), V(b)) && D(b) > 2 * tooExpensive
    }

    lemma TrimCapped(b: Box, t: Box, minimal: bool)
      requires Inside(b) && b.xoff <= t.xoff <= t.xlim <= b.xlim && b.yoff <= t.yoff <= t.ylim <= b.ylim
      requires x[b.xoff..t.xoff] == y[b.yoff..t.yoff] && x[t.xlim..b.xlim] == y[t.ylim..b.ylim]
      requires t.xoff < t.xlim && t.yoff < t.ylim ==> Trimmed(t)
      ensures OneRun(U(b), V(b)) <==> t.xoff == t.xlim || t.yoff == t.ylim
      ensures OneRun(U(t), V(t)) <==> t.xoff == t.xlim || t.yoff == t.ylim
      ensures Capped(b, minimal) <==> Capped(t, minimal)
    {
      hide Ed;
      TrimDist(b, t);
      var p, s := t.xoff - b.xoff, b.xlim - t.xlim;
      assert U(b)[..p] == x[b.xoff..t.xoff] && V(b)[..p] == y[b.yoff..t.yoff];
      assert U(b)[|U(b)|-s..] == x[t.xlim..b.xlim] && V(b)[|V(b)|-s..] == y[t.ylim..b.ylim];
      TrimmedOneRun(U(b), V(b), p, s);
      TrimmedOneRun(U(t), V(t), 0, 0);
    }

    /** compare.  capped says that some split reached the cap, which happens
        exactly when Capped says so; otherwise the script is a shortest one. */
    method Compare(xoff: int, xlim: int, yoff: int, ylim: int, minimal: bool) returns (ghost capped: bool)
      requires Valid() && Clean(Box(xoff, xlim, yoff, ylim), delX[..], insY[..])
      modifies delX, insY, fd, bd
      ensures AgreeOut(Box(xoff, xlim, yoff, ylim), old(delX[..]), old(insY[..]), delX[..], insY[..])
      ensures capped <==> Capped(Box(xoff, xlim, yoff, ylim), minimal)
      ensures Solves(Box(xoff, xlim, yoff, ylim), delX[..], insY[..], !capped)
      decreases (xlim - xoff) + (ylim - yoff), if minimal then 0 else 1
    {
      hide Ed;
      var b := Box(xoff, xlim, yoff, ylim);
      var t := Trim(b);
      TrimCapped(b, t, minimal);
      capped := CompareTrimmed(t, minimal);
      SolvesTrimmed(b, t, delX[..], insY[..], !capped);
    }

    /** compare's switch, on the trimmed box. */
    method CompareTrimmed(t: Box, minimal: bool) returns (ghost capped: bool)
      requires Valid() && Clean(t, delX[..], insY[..])
      requires t.xoff < t.xlim && t.yoff < t.ylim ==> Trimmed(t)
      modifies delX, insY, fd, bd
      ensures AgreeOut(t, old(delX[..]), old(insY[..]), delX[..], insY[..])
      ensures capped <==> Capped(t, minimal)
      ensures Solves(t, delX[..], insY[..], !capped)
      decreases (t.xlim - t.xoff) + (t.ylim - t.yoff), if minimal then 0 else 1, 0
    {
      hide Ed; hide OneRun; hide Keep; hide Count;
      TrimCapped(t, t, minimal);
      if t.xoff == t.xlim {
        MarkRange(insY, t.yoff, t.ylim);
        SolvesOneSided(t, delX[..], insY[..], true);
        capped := false;
      } else if t.yoff == t.ylim {
        MarkRange(delX, t.xoff, t.xlim);
        SolvesOneSided(t, delX[..], insY[..], true);
        capped := false;
      } else {
        capped := CompareHalves(t, minimal);
      }
    }

    /** compare's default case: split, then both halves. */
    method CompareHalves(t: Box, minimal: bool) returns (ghost capped: bool)
      requires Valid() && Clean(t, delX[..], insY[..]) && Trimmed(t) && !OneRun(U(t), V(t))
      modifies delX, insY, fd, bd
      ensures AgreeOut(t, old(delX[..]), old(insY[..]), delX[..], insY[..])
      ensures capped <==> Capped(t, minimal)
      ensures Solves(t, delX[..], insY[..], !capped)
      decreases (t.xlim - t.xoff) + (t.ylim - t.yoff), if minimal then 0 else 1, 0, 0
    {
      hide Ed; hide OneRun; hide Keep; hide Count; hide Solves;
      var xmid, ymid, loMin, hiMin := Split(t.xoff, t.xlim, t.yoff, t.ylim, minimal);
      Progress(t, minimal, xmid, ymid, loMin, hiMin);
      ghost var lo := Compare(t.xoff, xmid, t.yoff, ymid, loMin);
      ghost var d1, i1 := delX[..], insY[..];
      ghost var hi := Compare(xmid, t.xlim, ymid, t.ylim, hiMin);
      capped := !(loMin && hiMin) || lo || hi;
      SolvesLocal(Box(t.xoff, xmid, t.yoff, ymid), d1, i1, delX[..], insY[..], !lo);
      SolvesLess(Box(t.xoff, xmid, t.yoff, ymid), delX[..], insY[..], !lo, !capped);
      SolvesLess(Box(xmid, t.xlim, ymid, t.ylim), delX[..], insY[..], !hi, !capped);
      SolvesJoin(t, xmid, ymid, delX[..], insY[..], !capped);
    }

    lemma SolvesLess(b: Box, del: seq<bool>, ins: seq<bool>, exact: bool, exact': bool)
      requires Solves(b, del, ins, exact) && (exact' ==> exact)
      ensures Solves(b, del, ins, exact')
    {
    }
  }
}
