/** What the grid distance means: the length of a shortest edit script, and so
    the part of two sequences outside their longest common subsequence. */
module Shortest {
  import opened EditGrid
  import opened EditScript

  /** The distance peeled from the front. */
  lemma DistFront<T>(a: seq<T>, b: seq<T>)
    ensures a == [] ==> Dist(a, b) == |b|
    ensures b == [] ==> Dist(a, b) == |a|
    ensures a != [] && b != [] && a[0] == b[0] ==> Dist(a, b) == Dist(a[1..], b[1..])
    ensures a != [] && b != [] && a[0] != b[0] ==> Dist(a, b) == 1 + Min(Dist(a[1..], b), Dist(a, b[1..]))
    ensures a != [] ==> Abs(Dist(a, b) - Dist(a[1..], b)) == 1
    ensures b != [] ==> Abs(Dist(a, b) - Dist(a, b[1..])) == 1
  {
    DistRev(a, b);
    BackStep(a, b, 0, 0);
    hide Ed;
    if a != [] && b != [] {
      CutDist(a, b, 1, 1);
    }
    if a != [] {
      CutDist(a, b, 1, 0);
      assert b[0..] == b;
    }
    if b != [] {
      CutDist(a, b, 0, 1);
      assert a[0..] == a;
    }
  }

  /** No script is shorter than the distance. */
  lemma {:induction false} NoShorterScript<T>(a: seq<T>, b: seq<T>, del: seq<bool>, ins: seq<bool>)
    requires |del| == |a| && |ins| == |b| && Keep(a, del) == Keep(b, ins)
    ensures Count(del) + Count(ins) >= Dist(a, b)
    decreases |a| + |b|
  {
    hide Ed;
    DistFront(a, b);
    KeepCount(a, del);
    KeepCount(b, ins);
    if a == [] || b == [] {
    } else if del[0] {
      NoShorterScript(a[1..], b, del[1..], ins);
    } else if ins[0] {
      NoShorterScript(a, b[1..], del, ins[1..]);
    } else {
      assert Keep(a, del)[0] == a[0] && Keep(b, ins)[0] == b[0];
      assert Keep(a, del)[1..] == Keep(a[1..], del[1..]);
      assert Keep(b, ins)[1..] == Keep(b[1..], ins[1..]);
      NoShorterScript(a[1..], b[1..], del[1..], ins[1..]);
    }
  }

  /** Some script is as short as the distance. */
  lemma {:induction false} ShortestScript<T>(a: seq<T>, b: seq<T>) returns (del: seq<bool>, ins: seq<bool>)
    ensures |del| == |a| && |ins| == |b| && Keep(a, del) == Keep(b, ins)
    ensures Count(del) + Count(ins) == Dist(a, b)
    decreases |a| + |b|
  {
    hide Ed;
    DistFront(a, b);
    if a == [] || b == [] {
      del, ins := seq(|a|, _ => true), seq(|b|, _ => true);
      KeepNone(a, del);
      KeepNone(b, ins);
    } else if a[0] == b[0] {
      var d, i := ShortestScript(a[1..], b[1..]);
      del, ins := [false] + d, [false] + i;
      assert del[1..] == d && ins[1..] == i;
    } else if Dist(a[1..], b) <= Dist(a, b[1..]) {
      var d, i := ShortestScript(a[1..], b);
      del, ins := [true] + d, i;
      assert del[1..] == d;
    } else {
      var d, i := ShortestScript(a, b[1..]);
      del, ins := d, [true] + i;
      assert ins[1..] == i;
    }
  }

  /** s is what is left of a after deleting some of its elements. */
  ghost predicate Subsequence<T(!new)>(s: seq<T>, a: seq<T>) {
    exists m: seq<bool> :: |m| == |a| && Keep(a, m) == s
  }

  /** The distance is what a longest common subsequence leaves over. */
  lemma LongestCommonSubsequence<T(!new)>(a: seq<T>, b: seq<T>) returns (s: seq<T>)
    ensures Subsequence(s, a) && Subsequence(s, b)
    ensures Dist(a, b) == |a| + |b| - 2 * |s|
    ensures forall s' :: Subsequence(s', a) && Subsequence(s', b) ==> |s'| <= |s|
  {
    var del, ins := ShortestScript(a, b);
    s := Keep(a, del);
    KeepCount(a, del);
    KeepCount(b, ins);
    forall s' | Subsequence(s', a) && Subsequence(s', b) ensures |s'| <= |s| {
      var d :| |d| == |a| && Keep(a, d) == s';
      var i :| |i| == |b| && Keep(b, i) == s';
      KeepCount(a, d);
      KeepCount(b, i);
      NoShorterScript(a, b, d, i);
    }
  }

  // ------------------------------------------------- renaming and dropping lines

  /** The distance only depends on which elements are equal. */
  lemma {:induction false} EdRenamed<S, T>(u: seq<S>, v: seq<S>, u': seq<T>, v': seq<T>, i: nat, j: nat)
    requires |u| == |u'| && |v| == |v'| && i <= |u| && j <= |v|
    requires forall p, q :: 0 <= p < |u| && 0 <= q < |v| ==> (u[p] == v[q] <==> u'[p] == v'[q])
    ensures Ed(u, v, i, j) == Ed(u', v', i, j)
    decreases i + j
  {
    if i > 0 && j > 0 {
      EdRenamed(u, v, u', v', i-1, j-1);
      EdRenamed(u, v, u', v', i-1, j);
      EdRenamed(u, v, u', v', i, j-1);
    }
  }

  lemma {:induction false} Unmatched<T>(a: seq<T>, b: seq<T>)
    requires a != [] && a[0] !in b
    ensures Dist(a, b) == 1 + Dist(a[1..], b)
    decreases |b|
  {
    hide Ed;
    DistFront(a, b);
    DistFront(a[1..], b);
    if b != [] {
      Unmatched(a, b[1..]);
    }
  }

  lemma {:induction false} UnmatchedRight<T>(a: seq<T>, b: seq<T>)
    requires b != [] && b[0] !in a
    ensures Dist(a, b) == 1 + Dist(a, b[1..])
    decreases |a|
  {
    hide Ed;
    DistFront(a, b);
    DistFront(a, b[1..]);
    if a != [] {
      UnmatchedRight(a[1..], b);
    }
  }

  /** Marks the elements of s that are not in the given set. */
  ghost function Absent<T>(s: seq<T>, other: set<T>): (m: seq<bool>)
    ensures |m| == |s|
  {
    seq(|s|, i requires 0 <= i < |s| => s[i] !in other)
  }

  lemma AbsentTail<T>(s: seq<T>, other: set<T>)
    requires s != []
    ensures Absent(s, other)[1..] == Absent(s[1..], other)
  {
  }

  /** Dropping elements the other side does not have costs exactly their
      number: a shortest script deletes them anyway. */
  lemma {:induction false} DropAbsent<T>(a: seq<T>, b: seq<T>, inA: set<T>, inB: set<T>)
    requires (forall e :: e in a ==> e in inA) && (forall e :: e in b ==> e in inB)
    ensures Dist(a, b) == Dist(Keep(a, Absent(a, inB)), Keep(b, Absent(b, inA)))
                          + Count(Absent(a, inB)) + Count(Absent(b, inA))
    decreases |a| + |b|
  {
    hide Ed;
    var ma, mb := Absent(a, inB), Absent(b, inA);
    var ka, kb := Keep(a, ma), Keep(b, mb);
    DistFront(a, b);
    DistFront(ka, kb);
    if a != [] { AbsentTail(a, inB); }
    if b != [] { AbsentTail(b, inA); }
    if a != [] && a[0] !in inB {
      Unmatched(a, b);
      assert ka == Keep(a[1..], ma[1..]);
      DropAbsent(a[1..], b, inA, inB);
    } else if b != [] && b[0] !in inA {
      UnmatchedRight(a, b);
      assert kb == Keep(b[1..], mb[1..]);
      DropAbsent(a, b[1..], inA, inB);
    } else if a == [] || b == [] {
      KeepCount(a, ma);
      KeepCount(b, mb);
    } else {
      assert ka[0] == a[0] && ka[1..] == Keep(a[1..], ma[1..]);
      assert kb[0] == b[0] && kb[1..] == Keep(b[1..], mb[1..]);
      DropAbsent(a[1..], b[1..], inA, inB);
      DropAbsent(a[1..], b, inA, inB);
      DropAbsent(a, b[1..], inA, inB);
    }
  }
}
