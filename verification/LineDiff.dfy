/** Line-level diffing: which lines of a are deleted and which of b inserted
    (changes), and the edit script as a list of operations (diffOps). */
module LineDiff {
  import opened EditGrid
  import opened EditScript
  import opened Shortest
  import Differ

  type Line = string

  // ---------------------------------------------------- common prefix and suffix

  /** p is the length of the longest common prefix, s that of the longest common
      suffix of what it leaves. */
  ghost predicate Ends(a: seq<Line>, b: seq<Line>, p: nat, s: nat) {
    && p + s <= |a| && p + s <= |b|
    && (forall i :: 0 <= i < p ==> a[i] == b[i])
    && (forall i :: |a| - s <= i < |a| ==> a[i] == b[i + (|b| - |a|)])
    && (p < |a| && p < |b| ==> a[p] != b[p])
    && (p + s < |a| && p + s < |b| ==> a[|a|-1-s] != b[|b|-1-s])
  }

  lemma EndsSlices(a: seq<Line>, b: seq<Line>, p: nat, s: nat)
    requires Ends(a, b, p, s)
    ensures a[..p] == b[..p] && a[|a|-s..] == b[|b|-s..]
  {
  }

  method CommonEnds(a: seq<Line>, b: seq<Line>) returns (p: nat, s: nat)
    ensures Ends(a, b, p, s)
  {
    p := 0;
    while p < |a| && p < |b| && a[p] == b[p]
      invariant p <= |a| && p <= |b| && forall i :: 0 <= i < p ==> a[i] == b[i]
    {
      p := p + 1;
    }
    s := 0;
    while s < |a| - p && s < |b| - p && a[|a|-1-s] == b[|b|-1-s]
      invariant p + s <= |a| && p + s <= |b|
      invariant forall i :: |a| - s <= i < |a| ==> a[i] == b[i + (|b| - |a|)]
    {
      s := s + 1;
    }
  }

  // -------------------------------------------------------------------- interning

  /** Distinct lines have distinct ids, all below the number of lines. */
  ghost predicate Interned(ids: map<Line, int>) {
    && (forall l :: l in ids ==> 0 <= ids[l] < |ids|)
    && (forall l, l' :: l in ids && l' in ids && ids[l] == ids[l'] ==> l == l')
  }

  ghost predicate IdsOf(ids: map<Line, int>, lines: seq<Line>, out: seq<int>) {
    |out| == |lines| && forall i :: 0 <= i < |lines| ==> lines[i] in ids && out[i] == ids[lines[i]]
  }

  ghost predicate Extends(ids: map<Line, int>, ids': map<Line, int>) {
    forall l :: l in ids ==> l in ids' && ids'[l] == ids[l]
  }

  method InternLines(lines: seq<Line>, ids0: map<Line, int>) returns (out: seq<int>, ids: map<Line, int>)
    requires Interned(ids0)
    ensures Interned(ids) && Extends(ids0, ids) && IdsOf(ids, lines, out)
  {
    out, ids := [], ids0;
    for i := 0 to |lines|
      invariant Interned(ids) && Extends(ids0, ids) && IdsOf(ids, lines[..i], out)
    {
      var l := lines[i];
      assert lines[..i+1] == lines[..i] + [l];
      if l !in ids {
        assert |ids[l := |ids|]| == |ids| + 1 by {
          assert ids[l := |ids|].Keys == ids.Keys + {l};
        }
        ids := ids[l := |ids|];
      }
      out := out + [ids[l]];
    }
    assert lines[..|lines|] == lines;
  }

  method Present(ids: seq<int>, n: nat) returns (present: array<bool>)
    requires forall i :: 0 <= i < |ids| ==> 0 <= ids[i] < n
    ensures fresh(present) && present.Length == n
    ensures forall id :: 0 <= id < n ==> (present[id] <==> id in ids)
  {
    present := new bool[n](_ => false);
    for i := 0 to |ids|
      invariant forall id :: 0 <= id < n ==> (present[id] <==> id in ids[..i])
    {
      present[ids[i]] := true;
      assert ids[..i+1] == ids[..i] + [ids[i]];
    }
    assert ids[..|ids|] == ids;
  }

  // ---------------------------------------------------------- one-sided lines

  /** idx lists, in order, the positions below n that m leaves unmarked. */
  ghost predicate Positions(m: seq<bool>, n: nat, idx: seq<int>) {
    && n <= |m| && |idx| == Rank(m, n)
    && (forall k :: 0 <= k < |idx| ==> 0 <= idx[k] < n && !m[idx[k]] && Rank(m, idx[k]) == k)
  }

  lemma RankStep(m: seq<bool>, i: nat)
    requires i < |m|
    ensures Rank(m, i + 1) == Rank(m, i) + (if m[i] then 0 else 1)
  {
    assert m[..i+1] == m[..i] + [m[i]];
    KeepConcat(m[..i], m[..i], [m[i]], [m[i]]);
  }

  /** marks holds m at offset p and nothing else. */
  ghost predicate MarksAt(marks: seq<bool>, p: nat, m: seq<bool>) {
    forall t :: 0 <= t < |marks| ==> (marks[t] <==> p <= t < p + |m| && m[t - p])
  }

  /** Splits the ids into the ones the other side has, with their positions,
      and the rest, which it marks. */
  method DropOneSided(ids: seq<int>, present: array<bool>, marks: array<bool>, p: nat, ghost m: seq<bool>)
    returns (kept: seq<int>, idx: seq<int>)
    requires marks != present && p + |ids| <= marks.Length && |m| == |ids|
    requires forall i :: 0 <= i < |ids| ==> 0 <= ids[i] < present.Length && (m[i] <==> !present[ids[i]])
    requires NoneMarked(marks[..])
    modifies marks
    ensures Positions(m, |ids|, idx) && |kept| == |idx|
    ensures forall k :: 0 <= k < |idx| ==> kept[k] == ids[idx[k]]
    ensures MarksAt(marks[..], p, m)
  {
    kept, idx := [], [];
    assert m[..0] == [];
    for i := 0 to |ids|
      invariant Positions(m, i, idx) && |kept| == |idx|
      invariant forall k :: 0 <= k < |idx| ==> kept[k] == ids[idx[k]]
      invariant forall t :: 0 <= t < marks.Length ==> (marks[t] <==> p <= t < p + i && m[t - p])
      invariant forall i :: 0 <= i < |ids| ==> (m[i] <==> !present[ids[i]])
    {
      RankStep(m, i);
      if present[ids[i]] {
        kept, idx := kept + [ids[i]], idx + [i];
      } else {
        marks[p + i] := true;
      }
    }
  }

  /** Position i is marked by m, or by one of the first k marks found. */
  ghost predicate MarkedUpTo(m: seq<bool>, found: seq<bool>, i: nat, k: int)
    requires i < |m| && k <= |found|
  {
    m[i] || (0 <= Rank(m, i) < k && found[Rank(m, i)])
  }

  /** Adds the search's marks at the positions they came from. */
  method MarkKept(found: array<bool>, idx: seq<int>, marks: array<bool>, p: nat, ghost m: seq<bool>)
    requires marks != found && found.Length == |idx| && p + |m| <= marks.Length
    requires Positions(m, |m|, idx) && |idx| == |m| - Count(m)
    requires MarksAt(marks[..], p, m)
    modifies marks
    ensures MarksAt(marks[..], p, Compose(m, found[..]))
  {
    ghost var f := found[..];
    for k := 0 to |idx|
      invariant forall t :: 0 <= t < marks.Length ==> (marks[t] <==> p <= t < p + |m| && MarkedUpTo(m, f, t - p, k))
      invariant found[..] == f
    {
      if found[k] {
        marks[p + idx[k]] := true;
      }
      forall t | 0 <= t < marks.Length
        ensures marks[t] <==> p <= t < p + |m| && MarkedUpTo(m, f, t - p, k + 1)
      {
        if p <= t < p + |m| && !m[t - p] && Rank(m, t - p) == k {
          RankInjective(m, t - p, idx[k]);
        }
      }
    }
    forall t | p <= t < p + |m|
      ensures marks[t] <==> Compose(m, found[..])[t - p]
    {
      ComposeAt(m, found[..], t - p);
    }
  }

  lemma {:induction false} RankInjective(m: seq<bool>, i: nat, j: nat)
    requires i < |m| && j < |m| && !m[i] && !m[j] && Rank(m, i) == Rank(m, j)
    ensures i == j
  {
    if i < j {
      RankMonotone(m, i + 1, j);
      RankStep(m, i);
    } else if j < i {
      RankMonotone(m, j + 1, i);
      RankStep(m, j);
    }
  }

  lemma {:induction false} RankMonotone(m: seq<bool>, i: nat, j: nat)
    requires i <= j <= |m|
    ensures Rank(m, i) <= Rank(m, j)
    decreases j
  {
    if i < j {
      RankMonotone(m, i, j - 1);
      RankStep(m, j - 1);
    }
  }

  // ---------------------------------------------------------------------- changes

  /** The marks turn a into b; when exact, no script is shorter. */
  ghost predicate Script(a: seq<Line>, b: seq<Line>, del: seq<bool>, ins: seq<bool>, exact: bool) {
    && |del| == |a| && |ins| == |b|
    && Keep(a, del) == Keep(b, ins)
    && (exact ==> Count(del) + Count(ins) == Dist(a, b))
  }

  /** Marks found on interned, two-sided lines carry over to the lines. */
  lemma ScriptFromKept(a: seq<Line>, b: seq<Line>, ids: map<Line, int>, xs: seq<int>, ys: seq<int>,
                       ma: seq<bool>, mb: seq<bool>, dx: seq<bool>, iy: seq<bool>, exact: bool)
    requires Interned(ids) && (forall l :: l in a || l in b ==> l in ids)
    requires ma == Absent(a, set l | l in b) && mb == Absent(b, set l | l in a)
    requires IdsOf(ids, Keep(a, ma), xs) && IdsOf(ids, Keep(b, mb), ys)
    requires |dx| == |xs| && |iy| == |ys| && Keep(xs, dx) == Keep(ys, iy)
    requires exact ==> Count(dx) + Count(iy) == Dist(xs, ys)
    ensures |dx| == |ma| - Count(ma) && |iy| == |mb| - Count(mb)
    ensures Script(a, b, Compose(ma, dx), Compose(mb, iy), exact)
  {
    hide Ed;
    KeepCount(a, ma);
    KeepCount(b, mb);
    ComposeKeep(a, ma, dx);
    ComposeKeep(b, mb, iy);
    var ka, kb := Keep(a, ma), Keep(b, mb);
    var f := l => if l in ids then ids[l] else -1;
    KeepRenamed(ka, xs, dx, f);
    KeepRenamed(kb, ys, iy, f);
    KeepIn(ka, dx);
    KeepIn(kb, iy);
    assert Keep(ka, dx) == Keep(kb, iy);
    DropAbsent(a, b, set l | l in a, set l | l in b);
    EdRenamed(ka, kb, xs, ys, |ka|, |kb|);
  }

  lemma {:induction false} KeepIn<T>(s: seq<T>, m: seq<bool>)
    requires |s| == |m|
    ensures forall i :: 0 <= i < |Keep(s, m)| ==> Keep(s, m)[i] in s
  {
    if s != [] {
      KeepIn(s[1..], m[1..]);
    }
  }

  /** Unmarked lines the two sides share at the ends change nothing. */
  lemma ScriptPadded(a: seq<Line>, b: seq<Line>, p: nat, s: nat, del: seq<bool>, ins: seq<bool>, exact: bool)
    requires p + s <= |a| && p + s <= |b| && |del| == |a| && |ins| == |b|
    requires a[..p] == b[..p] && a[|a|-s..] == b[|b|-s..]
    requires NoneMarked(del[..p]) && NoneMarked(ins[..p]) && NoneMarked(del[|a|-s..]) && NoneMarked(ins[|b|-s..])
    requires Script(a[p..|a|-s], b[p..|b|-s], del[p..|a|-s], ins[p..|b|-s], exact)
    ensures Script(a, b, del, ins, exact)
  {
    hide Ed;
    TrimmedEnds(a, b, p, s);
    KeepPadded(a, del, p, s);
    KeepPadded(b, ins, p, s);
  }

  lemma TrimmedEnds(a: seq<Line>, b: seq<Line>, p: nat, s: nat)
    requires p + s <= |a| && p + s <= |b|
    requires a[..p] == b[..p] && a[|a|-s..] == b[|b|-s..]
    ensures Dist(a, b) == Dist(a[p..|a|-s], b[p..|b|-s])
  {
    hide Ed;
    TrimPrefix(a, b, p);
    assert a[p..][|a[p..]|-s..] == a[|a|-s..] && b[p..][|b[p..]|-s..] == b[|b|-s..];
    TrimSuffix(a[p..], b[p..], s);
    assert a[p..][..|a[p..]|-s] == a[p..|a|-s] && b[p..][..|b[p..]|-s] == b[p..|b|-s];
  }

  lemma KeepPadded(a: seq<Line>, m: seq<bool>, p: nat, s: nat)
    requires p + s <= |a| == |m| && NoneMarked(m[..p]) && NoneMarked(m[|a|-s..])
    ensures Keep(a, m) == a[..p] + (Keep(a[p..|a|-s], m[p..|a|-s]) + a[|a|-s..])
    ensures Count(m) == Count(m[p..|a|-s])
  {
    hide Keep; hide Count;
    var q := |a| - s;
    ThreeParts(a, p, q);
    ThreeParts(m, p, q);
    KeepConcat(a[..p], m[..p], a[p..q] + a[q..], m[p..q] + m[q..]);
    KeepConcat(a[p..q], m[p..q], a[q..], m[q..]);
    KeepAll(a[..p], m[..p]);
    KeepAll(a[q..], m[q..]);
  }

  lemma ThreeParts<T>(s: seq<T>, p: nat, q: nat)
    requires p <= q <= |s|
    ensures s == s[..p] + (s[p..q] + s[q..])
  {
  }

  /** A line is one-sided exactly when the other side's ids lack its id. */
  lemma OneSidedIds(ids: map<Line, int>, a: seq<Line>, b: seq<Line>, ai: seq<int>, bi: seq<int>)
    requires Interned(ids) && IdsOf(ids, a, ai) && IdsOf(ids, b, bi)
    ensures forall i :: 0 <= i < |a| ==> (Absent(a, set l | l in b)[i] <==> ai[i] !in bi)
  {
    forall i | 0 <= i < |a| ensures a[i] in b <==> ai[i] in bi {
      if a[i] in b {
        var j :| 0 <= j < |b| && b[j] == a[i];
        assert bi[j] == ai[i];
      }
      if ai[i] in bi {
        var j :| 0 <= j < |bi| && bi[j] == ai[i];
        assert b[j] == a[i];
      }
    }
  }

  lemma KeptIds(ids: map<Line, int>, a: seq<Line>, ai: seq<int>, m: seq<bool>, idx: seq<int>, kept: seq<int>)
    requires IdsOf(ids, a, ai) && |m| == |a| && Positions(m, |a|, idx) && |kept| == |idx|
    requires forall k :: 0 <= k < |idx| ==> kept[k] == ai[idx[k]]
    ensures IdsOf(ids, Keep(a, m), kept) && |idx| == |m| - Count(m)
  {
    KeepCount(a, m);
    assert m[..|m|] == m;
    forall k | 0 <= k < |idx| ensures Keep(a, m)[k] == a[idx[k]] {
      KeepAt(a, m, idx[k]);
    }
  }

  /** The lines of a that b has too. */
  ghost function Shared(a: seq<Line>, b: seq<Line>): seq<Line> {
    Keep(a, Absent(a, set l | l in b))
  }

  /** How many of a's lines b lacks. */
  ghost function Lacking(a: seq<Line>, b: seq<Line>): nat {
    Count(Absent(a, set l | l in b))
  }

  /** When the search for a script between the common ends reaches the cap: the
      lines both sides have differ in more than one run and by more than twice
      the cap that their number gives. */
  ghost predicate SearchCapped(a: seq<Line>, b: seq<Line>, costCap: int) {
    var u, v := Shared(a, b), Shared(b, a);
    !OneRun(u, v) && Dist(u, v) > 2 * Differ.EffectiveCap(|u| + |v| + 3, costCap)
  }

  /** The same for whole texts, by what their common ends leave. */
  ghost predicate Capped(a: seq<Line>, b: seq<Line>, costCap: int) {
    exists p: nat, s: nat :: Ends(a, b, p, s) && SearchCapped(a[p..|a|-s], b[p..|b|-s], costCap)
  }

  /** One run cut out is a matter of which elements are equal. */
  lemma OneRunRenamed<S, T>(u: seq<S>, v: seq<S>, u': seq<T>, v': seq<T>)
    requires |u| == |u'| && |v| == |v'|
    requires forall p, q :: 0 <= p < |u| && 0 <= q < |v| ==> (u[p] == v[q] <==> u'[p] == v'[q])
    ensures OneRun(u, v) <==> OneRun(u', v')
  {
    hide CutAt;
    forall p ensures CutAt(u, v, p) <==> CutAt(u', v', p) {
      CutRenamed(u, v, u', v', p);
    }
  }

  lemma CutRenamed<S, T>(u: seq<S>, v: seq<S>, u': seq<T>, v': seq<T>, p: int)
    requires |u| == |u'| && |v| == |v'|
    requires forall p, q :: 0 <= p < |u| && 0 <= q < |v| ==> (u[p] == v[q] <==> u'[p] == v'[q])
    ensures CutAt(u, v, p) <==> CutAt(u', v', p)
  {
    var n := Min(|u|, |v|);
    if 0 <= p <= n {
      SlicesRenamed(u, v, u', v', 0, 0, p);
      SlicesRenamed(u, v, u', v', |u| - (n - p), |v| - (n - p), n - p);
      assert u[..p] == u[0..0+p] && v[..p] == v[0..0+p] && u'[..p] == u'[0..0+p] && v'[..p] == v'[0..0+p];
      var i, j := |u| - (n - p), |v| - (n - p);
      assert i + (n - p) == |u| && j + (n - p) == |v|;
      assert u[i..] == u[i..i+(n-p)] && v[j..] == v[j..j+(n-p)];
      assert u'[i..] == u'[i..i+(n-p)] && v'[j..] == v'[j..j+(n-p)];
    }
  }

  lemma SlicesRenamed<S, T>(u: seq<S>, v: seq<S>, u': seq<T>, v': seq<T>, i: nat, j: nat, n: nat)
    requires |u| == |u'| && |v| == |v'| && i + n <= |u| && j + n <= |v|
    requires forall p, q :: 0 <= p < |u| && 0 <= q < |v| ==> (u[p] == v[q] <==> u'[p] == v'[q])
    ensures u[i..i+n] == v[j..j+n] <==> u'[i..i+n] == v'[j..j+n]
  {
    var s, t, s', t' := u[i..i+n], v[j..j+n], u'[i..i+n], v'[j..j+n];
    assert forall k :: 0 <= k < n ==> (s[k] == t[k] <==> s'[k] == t'[k]);
  }

  /** Interning decides neither what the search costs nor whether it is capped. */
  lemma InternedCapped(ids: map<Line, int>, a: seq<Line>, b: seq<Line>, xs: seq<int>, ys: seq<int>, costCap: int)
    requires Interned(ids) && IdsOf(ids, Shared(a, b), xs) && IdsOf(ids, Shared(b, a), ys)
    ensures SearchCapped(a, b, costCap) <==>
      !OneRun(xs, ys) && Dist(xs, ys) > 2 * Differ.EffectiveCap(|xs| + |ys| + 3, costCap)
  {
    hide Ed; hide OneRun; hide Shared;
    EdRenamed(Shared(a, b), Shared(b, a), xs, ys, |xs|, |ys|);
    OneRunRenamed(Shared(a, b), Shared(b, a), xs, ys);
  }

  /** The search's distance is the whole one less the one-sided lines. */
  lemma SharedDist(a: seq<Line>, b: seq<Line>)
    ensures Dist(a, b) == Dist(Shared(a, b), Shared(b, a)) + Lacking(a, b) + Lacking(b, a)
  {
    DropAbsent(a, b, set l | l in a, set l | l in b);
  }

  method SearchKept(xs: seq<int>, ys: seq<int>, costCap: int) returns (d: Differ.Differ, ghost capped: bool)
    requires |xs| + |ys| + 3 <= Differ.MAX_INT
    ensures fresh(d) && fresh(d.delX) && fresh(d.insY) && d.Valid() && d.x == xs && d.y == ys
    ensures Keep(xs, d.delX[..]) == Keep(ys, d.insY[..])
    ensures capped <==> !OneRun(xs, ys) && Dist(xs, ys) > 2 * Differ.EffectiveCap(|xs| + |ys| + 3, costCap)
    ensures !capped ==> Count(d.delX[..]) + Count(d.insY[..]) == Dist(xs, ys)
  {
    hide Ed; hide OneRun;
    d := new Differ.Differ(xs, ys, costCap);
    assert xs[0..|xs|] == xs && ys[0..|ys|] == ys;
    capped := d.Compare(0, |xs|, 0, |ys|, false);
    assert d.delX[..][0..|xs|] == d.delX[..] && d.insY[..][0..|ys|] == d.insY[..];
  }

  /** Interns both sides and tabulates which ids each side has. */
  method InternBoth(a: seq<Line>, b: seq<Line>)
    returns (ai: seq<int>, bi: seq<int>, inA: array<bool>, inB: array<bool>, ghost ids: map<Line, int>)
    ensures Interned(ids) && IdsOf(ids, a, ai) && IdsOf(ids, b, bi)
    ensures fresh(inA) && fresh(inB) && inA.Length == inB.Length == |ids|
    ensures forall i :: 0 <= i < |a| ==> (Absent(a, set l | l in b)[i] <==> !inB[ai[i]])
    ensures forall i :: 0 <= i < |b| ==> (Absent(b, set l | l in a)[i] <==> !inA[bi[i]])
  {
    var m: map<Line, int>;
    ai, m := InternLines(a, map[]);
    bi, m := InternLines(b, m);
    ids := m;
    inA := Present(ai, |m|);
    inB := Present(bi, |m|);
    OneSidedIds(ids, a, b, ai, bi);
    OneSidedIds(ids, b, a, bi, ai);
  }

  /** Marks the one-sided lines and returns the interned rest, with its
      positions. */
  method KeepShared(a: seq<Line>, b: seq<Line>, delA: array<bool>, insB: array<bool>, p: nat)
    returns (xs: seq<int>, xIdx: seq<int>, ys: seq<int>, yIdx: seq<int>, ghost ids: map<Line, int>)
    requires delA != insB && p + |a| <= delA.Length && p + |b| <= insB.Length
    requires NoneMarked(delA[..]) && NoneMarked(insB[..])
    modifies delA, insB
    ensures Interned(ids) && (forall l :: l in a || l in b ==> l in ids)
    ensures KeptSide(ids, a, Absent(a, set l | l in b), xs, xIdx)
    ensures KeptSide(ids, b, Absent(b, set l | l in a), ys, yIdx)
    ensures MarksAt(delA[..], p, Absent(a, set l | l in b)) && MarksAt(insB[..], p, Absent(b, set l | l in a))
  {
    hide Interned;
    ghost var ma, mb := Absent(a, set l | l in b), Absent(b, set l | l in a);
    var ai, bi, inA, inB;
    ai, bi, inA, inB, ids := InternBoth(a, b);
    xs, xIdx := DropOneSided(ai, inB, delA, p, ma);
    ghost var da := delA[..];
    ys, yIdx := DropOneSided(bi, inA, insB, p, mb);
    assert delA[..] == da;
    KeptIds(ids, a, ai, ma, xIdx, xs);
    KeptIds(ids, b, bi, mb, yIdx, ys);
  }

  /** kept holds the ids of the lines of a that m leaves, idx their positions. */
  ghost predicate KeptSide(ids: map<Line, int>, a: seq<Line>, m: seq<bool>, kept: seq<int>, idx: seq<int>) {
    && |m| == |a| && |kept| == |idx| == |m| - Count(m)
    && IdsOf(ids, Keep(a, m), kept) && Positions(m, |m|, idx)
  }

  /** changes between the common ends. */
  method MarkMiddle(a: seq<Line>, b: seq<Line>, costCap: int, delA: array<bool>, insB: array<bool>, p: nat)
    returns (ghost del: seq<bool>, ghost ins: seq<bool>)
    requires |a| + |b| + 3 <= Differ.MAX_INT && delA != insB
    requires p + |a| <= delA.Length && p + |b| <= insB.Length
    requires NoneMarked(delA[..]) && NoneMarked(insB[..])
    modifies delA, insB
    ensures Script(a, b, del, ins, !SearchCapped(a, b, costCap))
    ensures MarksAt(delA[..], p, del) && MarksAt(insB[..], p, ins)
  {
    hide Ed; hide Interned; hide IdsOf; hide Positions; hide MarksAt; hide Absent; hide Script; hide Keep;
    ghost var ids, ma, mb := map[], Absent(a, set l | l in b), Absent(b, set l | l in a);
    var xs, xIdx, ys, yIdx;
    xs, xIdx, ys, yIdx, ids := KeepShared(a, b, delA, insB, p);
    InternedCapped(ids, a, b, xs, ys, costCap);
    ghost var capped;
    var d;
    d, capped := SearchKept(xs, ys, costCap);
    ghost var dx, iy := d.delX[..], d.insY[..];
    ScriptFromKept(a, b, ids, xs, ys, ma, mb, dx, iy, !capped);
    del, ins := Compose(ma, dx), Compose(mb, iy);
    MarkKept(d.delX, xIdx, delA, p, ma);
    ghost var da := delA[..];
    assert d.insY[..] == iy;
    MarkKept(d.insY, yIdx, insB, p, mb);
    assert delA[..] == da;
  }

  /** changes.  For every cap the unmarked lines agree; unless the search
      reaches the cap the marks are fewest. */
  method Changes(a: seq<Line>, b: seq<Line>, costCap: int) returns (delA: array<bool>, insB: array<bool>)
    requires |a| + |b| + 3 <= Differ.MAX_INT
    ensures fresh(delA) && fresh(insB)
    ensures Script(a, b, delA[..], insB[..], !Capped(a, b, costCap))
  {
    hide Ed; hide SearchCapped; hide Script; hide Ends;
    delA, insB := new bool[|a|](_ => false), new bool[|b|](_ => false);
    var p, s := CommonEnds(a, b);
    EndsBound(a, b, p, s);
    EndsSlices(a, b, p, s);
    ghost var exact := !SearchCapped(a[p..|a|-s], b[p..|b|-s], costCap);
    ghost var del, ins := MarkMiddle(a[p..|a|-s], b[p..|b|-s], costCap, delA, insB, p);
    MarkedEnds(a, b, p, s, delA[..], insB[..], del, ins, exact);
    assert !Capped(a, b, costCap) ==> exact;
    ScriptLess(a, b, delA[..], insB[..], exact, !Capped(a, b, costCap));
  }

  lemma EndsBound(a: seq<Line>, b: seq<Line>, p: nat, s: nat)
    requires Ends(a, b, p, s)
    ensures p + s <= |a| && p + s <= |b|
  {
  }

  lemma ScriptLess(a: seq<Line>, b: seq<Line>, del: seq<bool>, ins: seq<bool>, exact: bool, exact': bool)
    requires Script(a, b, del, ins, exact) && (exact' ==> exact)
    ensures Script(a, b, del, ins, exact')
  {
  }

  /** Marks that are a script between the common ends and nothing on them. */
  lemma MarkedEnds(a: seq<Line>, b: seq<Line>, p: nat, s: nat, delA: seq<bool>, insB: seq<bool>,
                   del: seq<bool>, ins: seq<bool>, exact: bool)
    requires Ends(a, b, p, s) && |delA| == |a| && |insB| == |b| && MarksAt(delA, p, del) && MarksAt(insB, p, ins)
    requires Script(a[p..|a|-s], b[p..|b|-s], del, ins, exact)
    ensures Script(a, b, delA, insB, exact)
  {
    hide Ed; hide Keep; hide Count;
    EndsSlices(a, b, p, s);
    assert delA[p..|a|-s] == del && insB[p..|b|-s] == ins;
    ScriptPadded(a, b, p, s, delA, insB, exact);
  }

  // ------------------------------------------------------------ staying within the cap

  /** Lines b lacks lie between the common ends, and the middle of b lacks them
      too. */
  lemma MiddleLacks(a: seq<Line>, b: seq<Line>, p: nat, s: nat)
    requires Ends(a, b, p, s)
    ensures Lacking(a[p..|a|-s], b[p..|b|-s]) >= Lacking(a, b)
  {
    hide Keep; hide Count;
    var m := Absent(a, set l | l in b);
    assert NoneMarked(m[..p]) && NoneMarked(m[|a|-s..]) by {
      assert forall i :: 0 <= i < p ==> a[i] == b[i] && b[i] in b;
      assert forall i :: |a| - s <= i < |a| ==> a[i] == b[i + (|b| - |a|)] && b[i + (|b| - |a|)] in b;
    }
    KeepPadded(a, m, p, s);
    var middle := b[p..|b|-s];
    CountGrows(m[p..|a|-s], Absent(a[p..|a|-s], set l | l in middle));
  }

  lemma EndsSwapped(a: seq<Line>, b: seq<Line>, p: nat, s: nat)
    requires Ends(a, b, p, s)
    ensures Ends(b, a, p, s)
  {
    forall i | |b| - s <= i < |b| ensures b[i] == a[i + (|a| - |b|)] {
      var k := i + (|a| - |b|);
      assert a[k] == b[k + (|b| - |a|)];
    }
  }

  lemma {:induction false} CountGrows(m: seq<bool>, n: seq<bool>)
    requires |m| == |n| && forall i :: 0 <= i < |m| && m[i] ==> n[i]
    ensures Count(m) <= Count(n)
  {
    if m != [] {
      CountGrows(m[1..], n[1..]);
    }
  }

  /** A search that reaches the cap has a distance beyond twice the cap and,
      on top of it, all the lines only one side has: however many lines a text
      gains that the other never had, they do not bring the cap nearer. */
  lemma CappedDist(a: seq<Line>, b: seq<Line>, costCap: int)
    requires Capped(a, b, costCap)
    ensures Dist(a, b) > 2 * Differ.LeastCap(costCap) + Lacking(a, b) + Lacking(b, a)
  {
    hide Ed; hide Lacking; hide Shared;
    var p: nat, s: nat :| Ends(a, b, p, s) && SearchCapped(a[p..|a|-s], b[p..|b|-s], costCap);
    EndsSlices(a, b, p, s);
    TrimmedEnds(a, b, p, s);
    SharedDist(a[p..|a|-s], b[p..|b|-s]);
    MiddleLacks(a, b, p, s);
    EndsSwapped(a, b, p, s);
    MiddleLacks(b, a, p, s);
  }

  /** Texts that differ only in lines one of them lacks are never capped. */
  lemma OneSidedNeverCapped(a: seq<Line>, b: seq<Line>, costCap: int)
    requires Shared(a, b) == Shared(b, a)
    ensures !Capped(a, b, costCap)
  {
    hide Ed; hide Capped; hide Lacking; hide Shared;
    SharedDist(a, b);
    DistSame(Shared(a, b));
    if Capped(a, b, costCap) {
      CappedDist(a, b, costCap);
    }
  }

  // ---------------------------------------------------------------------- diffOps

  /** kind ' ' keeps the line, '-' deletes it from a, '+' inserts it into b. */
  datatype Op = Op(kind: char, line: Line)

  /** The lines of a that the operations spell. */
  ghost function OldLines(ops: seq<Op>): seq<Line> {
    if ops == [] then [] else
    OldLines(ops[..|ops|-1]) + (if ops[|ops|-1].kind == '+' then [] else [ops[|ops|-1].line])
  }

  ghost function NewLines(ops: seq<Op>): seq<Line> {
    if ops == [] then [] else
    NewLines(ops[..|ops|-1]) + (if ops[|ops|-1].kind == '-' then [] else [ops[|ops|-1].line])
  }

  ghost function Edits(ops: seq<Op>): nat {
    if ops == [] then 0 else Edits(ops[..|ops|-1]) + (if ops[|ops|-1].kind == ' ' then 0 else 1)
  }

  ghost predicate Kinds(ops: seq<Op>) {
    forall t :: 0 <= t < |ops| ==> ops[t].kind in {' ', '-', '+'}
  }

  /** Within a run of changes every deletion precedes every insertion. */
  ghost predicate DeletionsFirst(ops: seq<Op>) {
    forall t, t' :: 0 <= t < t' < |ops| && t' == t + 1 && ops[t].kind == '+' ==> ops[t'].kind != '-'
  }

  lemma OpsSnoc(ops: seq<Op>, o: Op)
    ensures OldLines(ops + [o]) == OldLines(ops) + (if o.kind == '+' then [] else [o.line])
    ensures NewLines(ops + [o]) == NewLines(ops) + (if o.kind == '-' then [] else [o.line])
    ensures Edits(ops + [o]) == Edits(ops) + (if o.kind == ' ' then 0 else 1)
  {
    assert (ops + [o])[..|ops|] == ops;
  }

  lemma KeepHead(s: seq<Line>, m: seq<bool>, i: nat)
    requires |s| == |m| && i < |s|
    ensures Keep(s[i..], m[i..]) == (if m[i] then [] else [s[i]]) + Keep(s[i+1..], m[i+1..])
    ensures Count(m[i..]) == (if m[i] then 1 else 0) + Count(m[i+1..])
  {
    assert s[i..][1..] == s[i+1..] && m[i..][1..] == m[i+1..];
  }

  /** How far the loop of diffOpsCap has got: i lines of a, j lines of b. */
  ghost predicate Emitted(a: seq<Line>, b: seq<Line>, del: seq<bool>, ins: seq<bool>, ops: seq<Op>, i: int, j: int)
  {
    && |del| == |a| && |ins| == |b| && 0 <= i <= |a| && 0 <= j <= |b|
    && OldLines(ops) == a[..i] && NewLines(ops) == b[..j]
    && Keep(a[i..], del[i..]) == Keep(b[j..], ins[j..])
    && Edits(ops) + Count(del[i..]) + Count(ins[j..]) == Count(del) + Count(ins)
    && Kinds(ops) && DeletionsFirst(ops)
    && (ops != [] && ops[|ops|-1].kind == '+' && i < |a| ==> !del[i])
  }

  lemma EmitDeletion(a: seq<Line>, b: seq<Line>, del: seq<bool>, ins: seq<bool>, ops: seq<Op>, i: int, j: int)
    requires Emitted(a, b, del, ins, ops, i, j) && i < |a| && del[i]
    ensures Emitted(a, b, del, ins, ops + [Op('-', a[i])], i + 1, j)
  {
    OpsSnoc(ops, Op('-', a[i]));
    KeepHead(a, del, i);
    assert a[..i+1] == a[..i] + [a[i]];
  }

  lemma EmitInsertion(a: seq<Line>, b: seq<Line>, del: seq<bool>, ins: seq<bool>, ops: seq<Op>, i: int, j: int)
    requires Emitted(a, b, del, ins, ops, i, j) && (i < |a| ==> !del[i]) && j < |b| && ins[j]
    ensures Emitted(a, b, del, ins, ops + [Op('+', b[j])], i, j + 1)
  {
    OpsSnoc(ops, Op('+', b[j]));
    KeepHead(b, ins, j);
    assert b[..j+1] == b[..j] + [b[j]];
  }

  /** In the default case both sides have a line left, and it is the same one. */
  lemma EmitEqual(a: seq<Line>, b: seq<Line>, del: seq<bool>, ins: seq<bool>, ops: seq<Op>, i: int, j: int)
    requires Emitted(a, b, del, ins, ops, i, j) && (i < |a| || j < |b|)
    requires (i < |a| ==> !del[i]) && (j < |b| ==> !ins[j])
    ensures i < |a| && j < |b| && a[i] == b[j]
    ensures Emitted(a, b, del, ins, ops + [Op(' ', a[i])], i + 1, j + 1)
  {
    if i < |a| { KeepHead(a, del, i); }
    if j < |b| { KeepHead(b, ins, j); }
    assert Keep(a[i..], del[i..])[0] == Keep(b[j..], ins[j..])[0];
    OpsSnoc(ops, Op(' ', a[i]));
    assert a[..i+1] == a[..i] + [a[i]] && b[..j+1] == b[..j] + [b[j]];
    assert Keep(a[i..], del[i..])[1..] == Keep(a[i+1..], del[i+1..]);
    assert Keep(b[j..], ins[j..])[1..] == Keep(b[j+1..], ins[j+1..]);
  }

  method DiffOpsCap(a: seq<Line>, b: seq<Line>, costCap: int) returns (ops: seq<Op>)
    requires |a| + |b| + 3 <= Differ.MAX_INT
    ensures OldLines(ops) == a && NewLines(ops) == b
    ensures Kinds(ops) && DeletionsFirst(ops)
    ensures !Capped(a, b, costCap) ==> Edits(ops) == Dist(a, b)
  {
    hide Ed; hide Keep; hide Count; hide Capped;
    var delA, insB := Changes(a, b, costCap);
    ops := [];
    var i, j := 0, 0;
    ghost var del, ins := delA[..], insB[..];
    assert a[0..] == a && b[0..] == b && del[0..] == del && ins[0..] == ins;
    while i < |a| || j < |b|
      invariant delA[..] == del && insB[..] == ins && Emitted(a, b, del, ins, ops, i, j)
      decreases |a| - i + |b| - j
    {
      if i < |a| && delA[i] {
        EmitDeletion(a, b, del, ins, ops, i, j);
        ops := ops + [Op('-', a[i])];
        i := i + 1;
      } else if j < |b| && insB[j] {
        EmitInsertion(a, b, del, ins, ops, i, j);
        ops := ops + [Op('+', b[j])];
        j := j + 1;
      } else {
        EmitEqual(a, b, del, ins, ops, i, j);
        ops := ops + [Op(' ', a[i])];
        i, j := i + 1, j + 1;
      }
    }
    NoneLeft(a, del);
    NoneLeft(b, ins);
  }

  lemma NoneLeft(s: seq<Line>, m: seq<bool>)
    requires |s| == |m|
    ensures s[..|s|] == s && Count(m[|s|..]) == 0
  {
  }
}
