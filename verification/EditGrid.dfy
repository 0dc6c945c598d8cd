/** The edit grid of two sequences: the cost of turning a prefix of one into a
    prefix of the other by deletions and insertions only, and the "furthest
    point on a diagonal" relation that the bidirectional search computes.

    Points are (i, j): i elements of u and j elements of v consumed.  The
    diagonal of a point is i - j.  The cost of completing the edit from (i, j)
    is the prefix cost of the reversed sequences, so every law below serves
    both search directions. */
module EditGrid {

  function Min(a: int, b: int): int { if a <= b then a else b }
  function Max(a: int, b: int): int { if a <= b then b else a }
  function Abs(a: int): int { if a < 0 then -a else a }

  ghost function Ed<T>(u: seq<T>, v: seq<T>, i: nat, j: nat): nat
    requires i <= |u| && j <= |v|
  {
    if i == 0 then j
    else if j == 0 then i
    else if u[i-1] == v[j-1] then Ed(u, v, i-1, j-1)
    else 1 + Min(Ed(u, v, i-1, j), Ed(u, v, i, j-1))
  }

  /** The number of deletions plus insertions a shortest edit script needs. */
  ghost function Dist<T>(u: seq<T>, v: seq<T>): nat {
    Ed(u, v, |u|, |v|)
  }

  function Rev<T>(s: seq<T>): (r: seq<T>)
    ensures |r| == |s|
    ensures forall t :: 0 <= t < |s| ==> r[t] == s[|s| - 1 - t]
  {
    seq(|s|, t requires 0 <= t < |s| => s[|s| - 1 - t])
  }

  /** The cost of completing the edit from (i, j). */
  ghost function Back<T>(u: seq<T>, v: seq<T>, i: nat, j: nat): nat
    requires i <= |u| && j <= |v|
  {
    Ed(Rev(u), Rev(v), |u| - i, |v| - j)
  }

  // ---------------------------------------------------------------- local laws

  lemma {:induction false} EdStep<T>(u: seq<T>, v: seq<T>, i: nat, j: nat)
    requires i <= |u| && j <= |v|
    ensures i > 0 ==> Abs(Ed(u, v, i, j) - Ed(u, v, i-1, j)) == 1
    ensures j > 0 ==> Abs(Ed(u, v, i, j) - Ed(u, v, i, j-1)) == 1
    ensures i > 0 && j > 0 ==> Ed(u, v, i, j) - Ed(u, v, i-1, j-1) in {0, 2}
    decreases i + j
  {
    if i > 0 && j > 0 {
      EdStep(u, v, i-1, j);
      EdStep(u, v, i, j-1);
    }
  }

  lemma {:induction false} EdParity<T>(u: seq<T>, v: seq<T>, i: nat, j: nat)
    requires i <= |u| && j <= |v|
    ensures (Ed(u, v, i, j) + i + j) % 2 == 0
    decreases i + j
  {
    if i > 0 {
      EdParity(u, v, i-1, j);
      EdStep(u, v, i, j);
    } else if j > 0 {
      EdParity(u, v, i, j-1);
    }
  }

  lemma {:induction false} EdDiagonal<T>(u: seq<T>, v: seq<T>, i: nat, j: nat, i': nat, j': nat)
    requires i <= i' <= |u| && j <= j' <= |v| && i' - i == j' - j
    ensures Ed(u, v, i, j) <= Ed(u, v, i', j')
    decreases i'
  {
    if i < i' {
      EdDiagonal(u, v, i, j, i'-1, j'-1);
      EdStep(u, v, i', j');
    }
  }

  lemma {:induction false} EdMonotone<T>(u: seq<T>, v: seq<T>, i: nat, j: nat, i': nat, j': nat)
    requires i <= i' <= |u| && j <= j' <= |v|
    ensures Ed(u, v, i', j') <= Ed(u, v, i, j) + (i' - i) + (j' - j)
    decreases i' + j'
  {
    if i < i' {
      EdMonotone(u, v, i, j, i'-1, j');
      EdStep(u, v, i', j');
    } else if j < j' {
      EdMonotone(u, v, i, j, i', j'-1);
      EdStep(u, v, i', j');
    }
  }

  lemma {:induction false} EdLower<T>(u: seq<T>, v: seq<T>, i: nat, j: nat)
    requires i <= |u| && j <= |v|
    ensures Ed(u, v, i, j) >= Abs(i - j)
    ensures i == 0 || j == 0 ==> Ed(u, v, i, j) == Abs(i - j)
    decreases i + j
  {
    if i > 0 && j > 0 {
      EdLower(u, v, i-1, j-1);
      EdLower(u, v, i-1, j);
      EdLower(u, v, i, j-1);
    }
  }

  /** Only the consumed prefixes matter. */
  lemma {:induction false} EdPrefix<T>(u: seq<T>, v: seq<T>, u': seq<T>, v': seq<T>, i: nat, j: nat)
    requires i <= |u| && j <= |v| && i <= |u'| && j <= |v'|
    requires u[..i] == u'[..i] && v[..j] == v'[..j]
    ensures Ed(u, v, i, j) == Ed(u', v', i, j)
    decreases i + j
  {
    if i > 0 && j > 0 {
      assert u[..i-1] == u[..i][..i-1] == u'[..i-1];
      assert v[..j-1] == v[..j][..j-1] == v'[..j-1];
      assert u[i-1] == u[..i][i-1] && v[j-1] == v[..j][j-1];
      assert u'[i-1] == u'[..i][i-1] && v'[j-1] == v'[..j][j-1];
      EdPrefix(u, v, u', v', i-1, j-1);
      EdPrefix(u, v, u', v', i-1, j);
      EdPrefix(u, v, u', v', i, j-1);
    }
  }

  // ------------------------------------------------------------ both directions

  lemma BackStep<T>(u: seq<T>, v: seq<T>, i: nat, j: nat)
    requires i <= |u| && j <= |v|
    ensures i == |u| ==> Back(u, v, i, j) == |v| - j
    ensures j == |v| ==> Back(u, v, i, j) == |u| - i
    ensures i < |u| && j < |v| && u[i] == v[j] ==> Back(u, v, i, j) == Back(u, v, i+1, j+1)
    ensures i < |u| && j < |v| && u[i] != v[j] ==>
              Back(u, v, i, j) == 1 + Min(Back(u, v, i+1, j), Back(u, v, i, j+1))
    ensures i < |u| ==> Abs(Back(u, v, i, j) - Back(u, v, i+1, j)) == 1
    ensures j < |v| ==> Abs(Back(u, v, i, j) - Back(u, v, i, j+1)) == 1
  {
    EdStep(Rev(u), Rev(v), |u| - i, |v| - j);
  }

  /** No point undercuts the distance: reaching it and then completing the
      edit is one way of doing the whole edit. */
  lemma {:induction false} Triangle<T>(u: seq<T>, v: seq<T>, i: nat, j: nat)
    requires i <= |u| && j <= |v|
    ensures Dist(u, v) <= Ed(u, v, i, j) + Back(u, v, i, j)
    decreases |u| - i + |v| - j
  {
    BackStep(u, v, i, j);
    if i == |u| || j == |v| {
      EdMonotone(u, v, i, j, |u|, |v|);
    } else if u[i] == v[j] {
      Triangle(u, v, i+1, j+1);
    } else if Back(u, v, i+1, j) <= Back(u, v, i, j+1) {
      EdStep(u, v, i+1, j);
      Triangle(u, v, i+1, j);
    } else {
      EdStep(u, v, i, j+1);
      Triangle(u, v, i, j+1);
    }
  }

  /** Every intermediate cost is met on some shortest path. */
  lemma {:induction false} OnShortestPath<T>(u: seq<T>, v: seq<T>, c: nat, i: nat, j: nat) returns (pi: nat, pj: nat)
    requires i <= |u| && j <= |v|
    requires Ed(u, v, i, j) + Back(u, v, i, j) == Dist(u, v)
    requires c <= Ed(u, v, i, j)
    ensures pi <= i && pj <= j
    ensures Ed(u, v, pi, pj) == c && Back(u, v, pi, pj) == Dist(u, v) - c
    ensures c == 0 ==> pi == pj == 0
    decreases i + j
  {
    if (i == 0 && j == 0) || (c == Ed(u, v, i, j) && c != 0) {
      pi, pj := i, j;
    } else if i > 0 && j > 0 && u[i-1] == v[j-1] {
      BackStep(u, v, i-1, j-1);
      pi, pj := OnShortestPath(u, v, c, i-1, j-1);
    } else if i > 0 && (j == 0 || Ed(u, v, i-1, j) <= Ed(u, v, i, j-1)) {
      BackStep(u, v, i-1, j);
      Triangle(u, v, i-1, j);
      pi, pj := OnShortestPath(u, v, c, i-1, j);
    } else {
      BackStep(u, v, i, j-1);
      Triangle(u, v, i, j-1);
      pi, pj := OnShortestPath(u, v, c, i, j-1);
    }
  }

  /** The distance does not depend on the end the search starts from. */
  lemma DistRev<T>(u: seq<T>, v: seq<T>)
    ensures Dist(Rev(u), Rev(v)) == Dist(u, v)
  {
    BackStep(u, v, |u|, |v|);
    var i, j := OnShortestPath(u, v, 0, |u|, |v|);
  }

  /** Cutting both sequences at a point whose two costs add up to the distance
      splits the problem into two that add up to it. */
  lemma CutDist<T>(u: seq<T>, v: seq<T>, i: nat, j: nat)
    requires i <= |u| && j <= |v|
    ensures Dist(u[..i], v[..j]) == Ed(u, v, i, j)
    ensures Dist(u[i..], v[j..]) == Back(u, v, i, j)
  {
    hide Ed;
    EdPrefix(u, v, u[..i], v[..j], i, j);
    CutSuffix(u, v, i, j);
  }

  lemma CutSuffix<T>(u: seq<T>, v: seq<T>, i: nat, j: nat)
    requires i <= |u| && j <= |v|
    ensures Dist(u[i..], v[j..]) == Back(u, v, i, j)
  {
    hide Ed;
    RevSuffix(u, i);
    RevSuffix(v, j);
    EdPrefix(Rev(u), Rev(v), Rev(u[i..]), Rev(v[j..]), |u|-i, |v|-j);
    DistRev(u[i..], v[j..]);
  }

  lemma RevSuffix<T>(s: seq<T>, i: nat)
    requires i <= |s|
    ensures Rev(s)[..|s|-i] == Rev(s[i..])[..|s|-i]
  {
  }

  /** A common prefix costs nothing. */
  lemma {:induction false} TrimPrefix<T>(u: seq<T>, v: seq<T>, p: nat)
    requires p <= |u| && p <= |v| && u[..p] == v[..p]
    ensures Dist(u, v) == Dist(u[p..], v[p..])
  {
    if p == 0 {
      assert u[0..] == u && v[0..] == v;
    } else {
      assert u[0] == u[..p][0] && v[0] == v[..p][0];
      BackStep(u, v, 0, 0);
      DistRev(u, v);
      CutDist(u, v, 1, 1);
      assert u[1..][..p-1] == u[..p][1..] && v[1..][..p-1] == v[..p][1..];
      TrimPrefix(u[1..], v[1..], p-1);
      assert u[1..][p-1..] == u[p..] && v[1..][p-1..] == v[p..];
    }
  }

  /** A common suffix costs nothing. */
  lemma {:induction false} TrimSuffix<T>(u: seq<T>, v: seq<T>, p: nat)
    requires p <= |u| && p <= |v| && u[|u|-p..] == v[|v|-p..]
    ensures Dist(u, v) == Dist(u[..|u|-p], v[..|v|-p])
  {
    if p == 0 {
      assert u[..|u|] == u && v[..|v|] == v;
    } else {
      var n, m := |u| - 1, |v| - 1;
      assert u[n] == u[|u|-p..][p-1] && v[m] == v[|v|-p..][p-1];
      CutDist(u, v, n, m);
      assert u[..n][n-(p-1)..] == u[|u|-p..][..p-1] && v[..m][m-(p-1)..] == v[|v|-p..][..p-1];
      TrimSuffix(u[..n], v[..m], p-1);
      assert u[..n][..n-(p-1)] == u[..|u|-p] && v[..m][..m-(p-1)] == v[..|v|-p];
    }
  }

  lemma DistSame<T>(u: seq<T>)
    ensures Dist(u, u) == 0
  {
    TrimPrefix(u, u, |u|);
  }

  // ------------------------------------------------- furthest reaching points

  /** w is the furthest u-coordinate on diagonal k reachable at cost c: the
      points of the grid on that diagonal within cost c are exactly those up
      to w.  (w itself may lie past the grid.) */
  ghost predicate Furthest<T>(u: seq<T>, v: seq<T>, k: int, c: int, w: int) {
    forall i: nat, j: nat {:trigger Within(u, v, i, j, c)} ::
      i <= |u| && j <= |v| && i - j == k ==> (Within(u, v, i, j, c) <==> i <= w)
  }

  ghost predicate Within<T>(u: seq<T>, v: seq<T>, i: nat, j: nat, c: int)
    requires i <= |u| && j <= |v|
  {
    Ed(u, v, i, j) <= c
  }

  ghost predicate Matches<T>(u: seq<T>, v: seq<T>, k: int, i: int) {
    0 <= i < |u| && 0 <= i - k < |v| && u[i] == v[i - k]
  }

  lemma FurthestAtStart<T>(u: seq<T>, v: seq<T>)
    requires |u| > 0 && |v| > 0 && u[0] != v[0]
    ensures Furthest(u, v, 0, 0, 0)
  {
    forall i: nat, j: nat | i <= |u| && j <= |v| && i - j == 0
      ensures Within(u, v, i, j, 0) <==> i <= 0
    {
      if i > 0 {
        assert Ed(u, v, 1, 1) >= 1 by { EdLower(u, v, 0, 1); EdLower(u, v, 1, 0); }
        EdDiagonal(u, v, 1, 1, i, j);
      }
    }
  }

  /** A diagonal further out than the cost allows, or outside the grid. */
  lemma FurthestOutside<T>(u: seq<T>, v: seq<T>, k: int, c: int, w: int)
    requires w < 0
    requires Abs(k) > c || k < -|v| || k > |u|
    ensures Furthest(u, v, k, c, w)
  {
    forall i: nat, j: nat | i <= |u| && j <= |v| && i - j == k
      ensures !Within(u, v, i, j, c)
    {
      EdLower(u, v, i, j);
    }
  }

  /** The first grid point of a diagonal is reached once the cost covers it. */
  lemma FurthestFromEdge<T>(u: seq<T>, v: seq<T>, k: int, c: int, w: int)
    requires Furthest(u, v, k, c, w)
    requires Abs(k) <= c && -|v| <= k <= |u|
    ensures w >= Max(0, k)
  {
    EdLower(u, v, Max(0, k), Max(0, k) - k);
    assert Within(u, v, Max(0, k), Max(0, k) - k, c);
  }

  /** One more edit: the step from the two neighbouring diagonals followed by
      the slide along matches lands on the furthest point. */
  lemma FurthestStep<T>(u: seq<T>, v: seq<T>, k: int, c: nat, lo: int, hi: int, w0: int, w: int)
    requires c >= 1 && Abs(k) <= c && -|v| <= k <= |u|
    requires Furthest(u, v, k-1, c-1, lo) && Furthest(u, v, k+1, c-1, hi)
    requires w0 == Max(lo + 1, hi) && w0 <= w
    requires forall t :: w0 <= t < w ==> Matches(u, v, k, t)
    requires !Matches(u, v, k, w) && w >= Max(0, k)
    ensures Furthest(u, v, k, c, w)
  {
    forall i: nat, j: nat | i <= |u| && j <= |v| && i - j == k
      ensures Within(u, v, i, j, c) <==> i <= w
    {
      if i <= w0 {
        WithinStep(u, v, k, c, lo, hi, i, j);
      } else if i <= w {
        FurthestSlide(u, v, k, c, lo, hi, w0, i, j);
      } else {
        BeyondStep(u, v, k, c, lo, hi, w, i, j);
      }
    }
  }

  lemma WithinStep<T>(u: seq<T>, v: seq<T>, k: int, c: nat, lo: int, hi: int, i: nat, j: nat)
    requires c >= 1 && Abs(k) <= c
    requires Furthest(u, v, k-1, c-1, lo) && Furthest(u, v, k+1, c-1, hi)
    requires i <= |u| && j <= |v| && i - j == k && i <= Max(lo + 1, hi)
    ensures Ed(u, v, i, j) <= c
  {
    EdLower(u, v, i, j);
    EdStep(u, v, i, j);
    if i == 0 || j == 0 {
    } else if i <= lo + 1 {
      assert Within(u, v, i-1, j, c - 1);
    } else {
      assert Within(u, v, i, j-1, c - 1);
    }
  }

  lemma {:induction false} FurthestSlide<T>(u: seq<T>, v: seq<T>, k: int, c: nat, lo: int, hi: int, w0: int, i: nat,
                                            j: nat)
    requires c >= 1 && Abs(k) <= c
    requires Furthest(u, v, k-1, c-1, lo) && Furthest(u, v, k+1, c-1, hi)
    requires w0 == Max(lo + 1, hi)
    requires i <= |u| && j <= |v| && i - j == k && w0 <= i
    requires forall t :: w0 <= t < i ==> Matches(u, v, k, t)
    ensures Ed(u, v, i, j) <= c
    decreases i
  {
    if i == w0 {
      WithinStep(u, v, k, c, lo, hi, i, j);
    } else {
      assert Matches(u, v, k, i - 1);
      FurthestSlide(u, v, k, c, lo, hi, w0, i - 1, j - 1);
    }
  }

  lemma BeyondStep<T>(u: seq<T>, v: seq<T>, k: int, c: nat, lo: int, hi: int, w: int, i: nat, j: nat)
    requires c >= 1
    requires Furthest(u, v, k-1, c-1, lo) && Furthest(u, v, k+1, c-1, hi)
    requires Max(lo + 1, hi) <= w && w >= Max(0, k)
    requires !Matches(u, v, k, w)
    requires i <= |u| && j <= |v| && i - j == k && i > w
    ensures Ed(u, v, i, j) > c
  {
    var a, b := w, w - k;
    assert !Within(u, v, a, b+1, c - 1);
    assert !Within(u, v, a+1, b, c - 1);
    assert u[a] != v[b];
    EdDiagonal(u, v, a+1, b+1, i, j);
  }

  /** The last grid point of diagonal k. */
  ghost function EdgeOf<T>(u: seq<T>, v: seq<T>, k: int): int {
    Min(|u|, |v| + k)
  }

  /** How early the search can leave the grid on diagonal k: only when the
      whole edit is cheaper than the detour to the corner. */
  ghost predicate Overrun<T>(u: seq<T>, v: seq<T>, k: int, c: int, w: int) {
    w > EdgeOf(u, v, k) ==> Dist(u, v) <= c - 2 + Abs(k - (|u| - |v|))
  }

  lemma OverrunStep<T>(u: seq<T>, v: seq<T>, k: int, c: nat, lo: int, hi: int, w: int)
    requires c >= 1 && -|v| <= k <= |u|
    requires Furthest(u, v, k-1, c-1, lo) && Furthest(u, v, k+1, c-1, hi)
    requires Overrun(u, v, k-1, c-1, lo) && Overrun(u, v, k+1, c-1, hi)
    requires w == Max(lo + 1, hi)
    requires k == -|v| ==> lo < 0
    requires k == |u| ==> hi < 0
    ensures Overrun(u, v, k, c, w)
  {
    var e := EdgeOf(u, v, k);
    if w > e {
      if w == hi {
        var e' := EdgeOf(u, v, k+1);
        if hi <= e' {
          assert Within(u, v, e', e' - k - 1, c - 1);
          EdMonotone(u, v, e', e' - k - 1, |u|, |v|);
        }
      } else {
        var e' := EdgeOf(u, v, k-1);
        if lo <= e' {
          assert Within(u, v, e', e' - k + 1, c - 1);
          EdMonotone(u, v, e', e' - k + 1, |u|, |v|);
        }
      }
    }
  }

  /** The step never starts before the first grid point of its diagonal. */
  lemma StepFromEdge<T>(u: seq<T>, v: seq<T>, k: int, c: nat, lo: int, hi: int)
    requires c >= 1 && Abs(k) <= c && -|v| <= k <= |u| && |u| > 0 && |v| > 0
    requires k == 0 ==> c >= 2
    requires Furthest(u, v, k-1, c-1, lo) && Furthest(u, v, k+1, c-1, hi)
    ensures Max(lo + 1, hi) >= Max(0, k)
  {
    if k > 0 {
      FurthestFromEdge(u, v, k-1, c-1, lo);
    } else {
      FurthestFromEdge(u, v, k+1, c-1, hi);
    }
  }

  /** What a search row records for diagonal k at cost c. */
  ghost predicate Entry<T>(u: seq<T>, v: seq<T>, k: int, c: int, w: int) {
    && Furthest(u, v, k, c, w)
    && Overrun(u, v, k, c, w)
    && (k < -|v| || k > |u| ==> w < 0)
  }

  lemma EntryOutside<T>(u: seq<T>, v: seq<T>, k: int, c: int, w: int)
    requires w < 0
    requires Abs(k) > c || k < -|v| || k > |u|
    requires -|v| - 1 <= k
    ensures Entry(u, v, k, c, w)
  {
    FurthestOutside(u, v, k, c, w);
  }

  lemma EntryStep<T>(u: seq<T>, v: seq<T>, k: int, c: nat, lo: int, hi: int, w0: int, w: int)
    requires c >= 1 && Abs(k) <= c && -|v| <= k <= |u| && |u| > 0 && |v| > 0
    requires k == 0 ==> c >= 2
    requires Entry(u, v, k-1, c-1, lo) && Entry(u, v, k+1, c-1, hi)
    requires w0 == Max(lo + 1, hi) && w0 <= w
    requires forall t :: w0 <= t < w ==> Matches(u, v, k, t)
    requires !Matches(u, v, k, w)
    ensures Entry(u, v, k, c, w)
  {
    StepFromEdge(u, v, k, c, lo, hi);
    FurthestStep(u, v, k, c, lo, hi, w0, w);
    OverrunStep(u, v, k, c, lo, hi, w0);
    if w0 < w {
      assert Matches(u, v, k, w - 1);
    }
  }

  /** A cost the diagonal's parity rules out adds nothing. */
  lemma EntryLift<T>(u: seq<T>, v: seq<T>, k: int, c: nat, w: int, h: int)
    requires Entry(u, v, k, c, w) && k + c == 2 * h
    ensures Entry(u, v, k, c + 1, w)
  {
    forall i: nat, j: nat {:trigger Within(u, v, i, j, c + 1)} | i <= |u| && j <= |v| && i - j == k
      ensures Within(u, v, i, j, c + 1) <==> i <= w
    {
      EdParity(u, v, i, j);
      assert Within(u, v, i, j, c) <==> i <= w;
    }
  }

  /** The lowest diagonal searched at cost c when m diagonals lie below the
      starting one: it moves out by one until the grid ends, then alternates. */
  function LowDiag(m: nat, c: nat): int {
    if c == 0 then 0
    else if LowDiag(m, c-1) + m > 0 then LowDiag(m, c-1) - 1
    else LowDiag(m, c-1) + 1
  }

  lemma {:induction false} LowDiagLaw(m: nat, c: nat) returns (h: int)
    ensures LowDiag(m, c) + m >= 0 && LowDiag(m, c) + c >= 0 && LowDiag(m, c) <= Max(0, 1 - m)
    ensures LowDiag(m, c) + c == 0 || LowDiag(m, c) + m <= 1
    ensures LowDiag(m, c) + c == 2 * h
  {
    if c == 0 {
      h := 0;
    } else {
      h := LowDiagLaw(m, c-1);
      if LowDiag(m, c-1) + m <= 0 {
        h := h + 1;
      }
    }
  }

  /** When the distance is the combined cost of two rows, they overlap: some
      diagonal searched by both has a point that both have passed. */
  lemma RowsMeet<T>(u: seq<T>, v: seq<T>, cf: nat, cb: nat) returns (k: int, kb: int, h: int, i: nat)
    requires Dist(u, v) == cf + cb
    ensures k + kb == |u| - |v| && k + cf == 2 * h
    ensures LowDiag(|v|, cf) <= k <= -LowDiag(|u|, cf)
    ensures LowDiag(|v|, cb) <= kb <= -LowDiag(|u|, cb)
    ensures forall w :: Furthest(u, v, k, cf, w) ==> i <= w
    ensures forall w :: Furthest(Rev(u), Rev(v), kb, cb, w) ==> |u| - i <= w
  {
    BackStep(u, v, |u|, |v|);
    var pi, pj := OnShortestPath(u, v, cf, |u|, |v|);
    i := pi;
    k := i as int - pj as int;
    kb := |u| - |v| - k;
    assert Within(u, v, pi, pj, cf) && Within(Rev(u), Rev(v), |u| - pi, |v| - pj, cb);
    h := DiagonalSearched(u, v, pi, pj);
    var h' := DiagonalSearched(Rev(u), Rev(v), |u| - pi, |v| - pj);
  }

  /** A point's diagonal is searched once the cost reaches the point's own. */
  lemma DiagonalSearched<T>(u: seq<T>, v: seq<T>, i: nat, j: nat) returns (h: int)
    requires i <= |u| && j <= |v|
    ensures i - j + Ed(u, v, i, j) == 2 * h
    ensures LowDiag(|v|, Ed(u, v, i, j)) <= i - j <= -LowDiag(|u|, Ed(u, v, i, j))
  {
    var c := Ed(u, v, i, j);
    EdLower(u, v, i, j);
    EdParity(u, v, i, j);
    h := (c + i - j) / 2;
    var hl := LowDiagLaw(|v|, c);
    var hh := LowDiagLaw(|u|, c);
  }

  /** The first overlap is a point of the grid, on a shortest path, that
      divides the distance into the costs of the two rows. */
  lemma MeetPoint<T>(u: seq<T>, v: seq<T>, k: int, cf: nat, cb: nat, w: int, w': int)
    requires -|v| <= k <= |u| && Abs(k) <= cf && Abs(|u| - |v| - k) <= cb
    requires Entry(u, v, k, cf, w) && Entry(Rev(u), Rev(v), |u| - |v| - k, cb, w')
    requires |u| - w' <= w
    requires Dist(u, v) >= cf + cb
    ensures 0 <= w <= |u| && 0 <= w - k <= |v|
    ensures Ed(u, v, w, w - k) == cf && Back(u, v, w, w - k) == cb
    ensures Dist(u, v) == cf + cb
  {
    FurthestFromEdge(u, v, k, cf, w);
    assert Within(u, v, w, w - k, cf) && Within(Rev(u), Rev(v), |u| - w, |v| - (w - k), cb);
    Triangle(u, v, w, w - k);
  }

  /** The furthest point of a diagonal, pulled back to the grid's edge, is a
      grid point within the cost, and past the origin. */
  lemma ClippedPoint<T>(u: seq<T>, v: seq<T>, k: int, c: nat, w: int, h: int)
    requires |u| > 0 && |v| > 0 && c >= 1
    requires -|v| <= k <= |u| && Abs(k) <= c && k + c == 2 * h
    requires Furthest(u, v, k, c, w)
    ensures var i := Min(w, EdgeOf(u, v, k));
            0 <= i <= |u| && 0 <= i - k <= |v| && i + (i - k) > 0 && Ed(u, v, i, i - k) <= c
  {
    FurthestFromEdge(u, v, k, c, w);
    if k == 0 {
      EdMonotone(u, v, 0, 0, 1, 1);
      assert Within(u, v, 1, 1, c);
    }
    var i := Min(w, EdgeOf(u, v, k));
    assert Within(u, v, i, i - k, c);
  }

  /** While the distance is no less than c, a search that has spent c has
      covered a diagonal with a point at least c steps from the origin. */
  lemma FarPoint<T>(u: seq<T>, v: seq<T>, c: nat) returns (i: nat, j: nat, h: int)
    requires c <= Dist(u, v)
    ensures i <= |u| && j <= |v| && Ed(u, v, i, j) == c && i + j >= c
    ensures i - j + c == 2 * h && LowDiag(|v|, c) <= i - j <= -LowDiag(|u|, c)
  {
    i, j := OnShortestPath(u, v, c, |u|, |v|);
    h := DiagonalSearched(u, v, i, j);
    EdMonotone(u, v, 0, 0, i, j);
  }

  /** The clipped entry of that diagonal is no nearer. */
  lemma FarClipped<T>(u: seq<T>, v: seq<T>, i: nat, j: nat, c: nat, w: int)
    requires i <= |u| && j <= |v| && Ed(u, v, i, j) == c && i + j >= c && Furthest(u, v, i - j, c, w)
    ensures var p := Min(w, EdgeOf(u, v, i - j)); p + (p - (i - j)) >= c
  {
    assert Within(u, v, i, j, c);
  }

  // --------------------------------------------------------------------- one run

  /** One side is the other with a single run of elements cut out at p. */
  ghost predicate CutAt<T>(u: seq<T>, v: seq<T>, p: int) {
    var n := Min(|u|, |v|);
    0 <= p <= n && u[..p] == v[..p] && u[|u|-(n-p)..] == v[|v|-(n-p)..]
  }

  ghost predicate OneRun<T>(u: seq<T>, v: seq<T>) {
    exists p :: CutAt(u, v, p)
  }

  /** Trimming common ends empties a side exactly when one run is all that
      differs. */
  lemma TrimmedOneRun<T>(u: seq<T>, v: seq<T>, p: nat, s: nat)
    requires p + s <= |u| && p + s <= |v| && u[..p] == v[..p] && u[|u|-s..] == v[|v|-s..]
    requires p + s < |u| && p + s < |v| ==> u[p] != v[p] && u[|u|-1-s] != v[|v|-1-s]
    ensures OneRun(u, v) <==> p + s == |u| || p + s == |v|
  {
    if p + s == |u| || p + s == |v| {
      assert CutAt(u, v, p);
    } else {
      forall q ensures !CutAt(u, v, q) {
        var n := Min(|u|, |v|);
        if 0 <= q <= n && q > p {
          assert u[..q][p] == u[p] && v[..q][p] == v[p];
        } else if 0 <= q <= n {
          var k := n - q - 1 - s;
          assert u[|u|-(n-q)..][k] == u[|u|-1-s] && v[|v|-(n-q)..][k] == v[|v|-1-s];
        }
      }
    }
  }

  /** MeetPoint seen from the other end. */
  lemma MeetPointBack<T>(u: seq<T>, v: seq<T>, k: int, cf: nat, cb: nat, w: int, w': int)
    requires -|v| <= k <= |u| && Abs(k) <= cf && Abs(|u| - |v| - k) <= cb
    requires Entry(u, v, k, cf, w) && Entry(Rev(u), Rev(v), |u| - |v| - k, cb, w')
    requires |u| - w' <= w
    requires Dist(u, v) >= cf + cb
    ensures 0 <= |u| - w' <= |u| && 0 <= |u| - w' - k <= |v|
    ensures Ed(u, v, |u| - w', |u| - w' - k) == cf && Back(u, v, |u| - w', |u| - w' - k) == cb
    ensures Dist(u, v) == cf + cb
  {
    var kb := |u| - |v| - k;
    DistRev(u, v);
    FurthestFromEdge(Rev(u), Rev(v), kb, cb, w');
    assert w' <= EdgeOf(Rev(u), Rev(v), kb);
    assert Within(u, v, |u| - w', |u| - w' - k, cf) && Within(Rev(u), Rev(v), w', w' - kb, cb);
    Triangle(u, v, |u| - w', |u| - w' - k);
  }

  /** A trimmed grid with both sides non-empty needs at least two edits. */
  lemma TrimmedDist<T>(u: seq<T>, v: seq<T>)
    requires |u| > 0 && |v| > 0
    requires u[0] != v[0] && u[|u|-1] != v[|v|-1]
    ensures Dist(u, v) >= 2
  {
    EdParity(u, v, |u|, |v|);
    if Dist(u, v) < 2 {
      EdLower(u, v, |u|, |v|);
      if |u| == |v| {
        EdLower(u, v, 1, 0);
        EdLower(u, v, 0, 1);
        EdDiagonal(u, v, 1, 1, |u|, |v|);
      } else if |u| < |v| {
        EdLower(u, v, |u|-1, |v|);
        assert Ed(u, v, |u|, |v|-1) == 0;
        EdLower(u, v, 1, 0);
        EdLower(u, v, 0, 1);
        EdDiagonal(u, v, 1, 1, |u|, |v|-1);
      } else {
        EdLower(u, v, |u|, |v|-1);
        assert Ed(u, v, |u|-1, |v|) == 0;
        EdLower(u, v, 1, 0);
        EdLower(u, v, 0, 1);
        EdDiagonal(u, v, 1, 1, |u|-1, |v|);
      }
    }
  }
}
