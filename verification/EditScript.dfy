/** Edit scripts as marks: a line is kept unless it is marked. */
module EditScript {

  /** The unmarked elements of s, in order. */
  ghost function Keep<T>(s: seq<T>, marks: seq<bool>): seq<T>
    requires |s| == |marks|
  {
    if s == [] then [] else
    (if marks[0] then [] else [s[0]]) + Keep(s[1..], marks[1..])
  }

  ghost function Count(marks: seq<bool>): nat {
    if marks == [] then 0 else (if marks[0] then 1 else 0) + Count(marks[1..])
  }

  lemma {:induction false} KeepConcat<T>(s: seq<T>, m: seq<bool>, s': seq<T>, m': seq<bool>)
    requires |s| == |m| && |s'| == |m'|
    ensures Keep(s + s', m + m') == Keep(s, m) + Keep(s', m')
    ensures Count(m + m') == Count(m) + Count(m')
  {
    if s == [] {
      assert s + s' == s' && m + m' == m';
    } else {
      assert (s + s')[1..] == s[1..] + s' && (m + m')[1..] == m[1..] + m';
      KeepConcat(s[1..], m[1..], s', m');
    }
  }

  ghost predicate NoneMarked(marks: seq<bool>) {
    forall t :: 0 <= t < |marks| ==> !marks[t]
  }

  ghost predicate AllMarked(marks: seq<bool>) {
    forall t :: 0 <= t < |marks| ==> marks[t]
  }

  lemma {:induction false} KeepAll<T>(s: seq<T>, m: seq<bool>)
    requires |s| == |m| && NoneMarked(m)
    ensures Keep(s, m) == s && Count(m) == 0
  {
    if s != [] {
      KeepAll(s[1..], m[1..]);
    }
  }

  lemma {:induction false} KeepNone<T>(s: seq<T>, m: seq<bool>)
    requires |s| == |m| && AllMarked(m)
    ensures Keep(s, m) == [] && Count(m) == |m|
  {
    if s != [] {
      KeepNone(s[1..], m[1..]);
    }
  }

  lemma {:induction false} KeepCount<T>(s: seq<T>, m: seq<bool>)
    requires |s| == |m|
    ensures |Keep(s, m)| + Count(m) == |s|
  {
    if s != [] {
      KeepCount(s[1..], m[1..]);
    }
  }

  // ------------------------------------------- marking what a first pass kept

  /** How many unmarked elements precede position i. */
  ghost function Rank(m: seq<bool>, i: nat): int
    requires i <= |m|
  {
    i - Count(m[..i])
  }

  /** The k-th unmarked element of s is the k-th element of Keep. */
  lemma {:induction false} KeepAt<T>(s: seq<T>, m: seq<bool>, i: nat)
    requires |s| == |m| && i < |m| && !m[i]
    ensures 0 <= Rank(m, i) < |Keep(s, m)| && Keep(s, m)[Rank(m, i)] == s[i]
  {
    if i == 0 {
      assert m[..0] == [];
    } else {
      KeepAt(s[1..], m[1..], i - 1);
      assert m[..i][1..] == m[1..][..i-1];
    }
  }

  /** Marks m2 what is left of the marks m1. */
  ghost function Compose(m1: seq<bool>, m2: seq<bool>): (m: seq<bool>)
    requires |m2| == |m1| - Count(m1)
    ensures |m| == |m1|
  {
    if m1 == [] then []
    else if m1[0] then [true] + Compose(m1[1..], m2)
    else
      assert |m2| > 0 by { CountBound(m1[1..]); }
      [m2[0]] + Compose(m1[1..], m2[1..])
  }

  lemma CountBound(m: seq<bool>)
    ensures Count(m) <= |m|
  {
  }

  lemma {:induction false} ComposeKeep<T>(s: seq<T>, m1: seq<bool>, m2: seq<bool>)
    requires |s| == |m1| && |m2| == |m1| - Count(m1)
    ensures |Keep(s, m1)| == |m2|
    ensures Keep(s, Compose(m1, m2)) == Keep(Keep(s, m1), m2)
    ensures Count(Compose(m1, m2)) == Count(m1) + Count(m2)
  {
    KeepCount(s, m1);
    if s != [] {
      var m := Compose(m1, m2);
      if m1[0] {
        ComposeKeep(s[1..], m1[1..], m2);
        assert m[1..] == Compose(m1[1..], m2);
        assert Keep(s, m1) == Keep(s[1..], m1[1..]);
      } else {
        CountBound(m1[1..]);
        ComposeKeep(s[1..], m1[1..], m2[1..]);
        assert m[1..] == Compose(m1[1..], m2[1..]);
        assert Keep(s, m1)[1..] == Keep(s[1..], m1[1..]);
      }
    }
  }

  lemma {:induction false} ComposeAt(m1: seq<bool>, m2: seq<bool>, i: nat)
    requires |m2| == |m1| - Count(m1) && i < |m1|
    ensures m1[i] ==> Compose(m1, m2)[i]
    ensures !m1[i] ==> 0 <= Rank(m1, i) < |m2| && Compose(m1, m2)[i] == m2[Rank(m1, i)]
  {
    CountBound(m1[1..]);
    if i == 0 {
      assert m1[..0] == [];
    } else {
      assert m1[..i][1..] == m1[1..][..i-1];
      if m1[0] {
        ComposeAt(m1[1..], m2, i - 1);
      } else {
        ComposeAt(m1[1..], m2[1..], i - 1);
      }
    }
  }

  /** Marks commute with renaming. */
  lemma {:induction false} KeepRenamed<S, T>(s: seq<S>, t: seq<T>, m: seq<bool>, f: S -> T)
    requires |s| == |t| == |m|
    requires forall i :: 0 <= i < |s| ==> t[i] == f(s[i])
    ensures |Keep(t, m)| == |Keep(s, m)|
    ensures forall i :: 0 <= i < |Keep(s, m)| ==> Keep(t, m)[i] == f(Keep(s, m)[i])
  {
    if s != [] {
      KeepRenamed(s[1..], t[1..], m[1..], f);
    }
  }
}
