/** The names of writable volumes, and the search for one no row has used. */
module Names {
  import opened Wrappers
  import opened Decimal

  const MAX_LAYER_GENERATIONS := 10000

  function RwVolumeName(branch: string): string {
    "pgoverlay-br-" + branch + "-rw"
  }

  /** Generation gen of a branch's writable volume; generation 1 keeps the
      plain name. */
  function RwVolumeNameGen(branch: string, gen: int): string {
    if gen <= 1 then RwVolumeName(branch) else RwVolumeName(branch) + "-g" + Dec(gen)
  }

  lemma DecInjective(m: nat, n: nat)
    requires Dec(m) == Dec(n)
    ensures m == n
  {
    ValueOfDec(m);
    ValueOfDec(n);
  }

  /** A text ending in a numeral after a letter splits in one way. */
  lemma NumberedInjective(p: string, d: string, q: string, e: string)
    requires p != "" && q != "" && !IsDigit(p[|p| - 1]) && !IsDigit(q[|q| - 1])
    requires forall i :: 0 <= i < |d| ==> IsDigit(d[i])
    requires forall i :: 0 <= i < |e| ==> IsDigit(e[i])
    requires p + d == q + e
    ensures p == q && d == e
  {
    var s := p + d;
    assert !IsDigit(s[|p| - 1]) && forall i :: |p| <= i < |s| ==> IsDigit(s[i]);
    assert !IsDigit(s[|q| - 1]) && forall i :: |q| <= i < |s| ==> IsDigit(s[i]) by {
      assert s == q + e;
    }
    assert p == s[..|p|] && q == (q + e)[..|q|];
    assert d == s[|p|..] && e == (q + e)[|q|..];
  }

  /** Different (branch, generation) pairs never share a volume name, whatever
      the branch names are: a name may itself end in "-rw" or "-rw-g2". */
  lemma RwVolumeNamesDistinct(a: string, g: int, b: string, h: int)
    requires 1 <= g && 1 <= h && RwVolumeNameGen(a, g) == RwVolumeNameGen(b, h)
    ensures a == b && g == h
  {
    var d, e := if g == 1 then "" else Dec(g), if h == 1 then "" else Dec(h);
    var p := RwVolumeName(a) + if g == 1 then "" else "-g";
    var q := RwVolumeName(b) + if h == 1 then "" else "-g";
    assert p + d == RwVolumeNameGen(a, g) && q + e == RwVolumeNameGen(b, h);
    NumberedInjective(p, d, q, e);
    if g > 1 {
      DecInjective(g, h);
    }
    assert RwVolumeName(a) == p[..|p| - if g == 1 then 0 else 2];
    assert RwVolumeName(b) == q[..|q| - if h == 1 then 0 else 2];
    assert a == RwVolumeName(a)[13..13 + |a|] && b == RwVolumeName(b)[13..13 + |b|];
  }

  /** The names of generations lo..hi. */
  ghost function NamesOf(branch: string, lo: int, hi: int): (s: set<string>)
  {
    set g | lo <= g < hi :: RwVolumeNameGen(branch, g)
  }

  lemma {:induction false} NamesCount(branch: string, lo: int, hi: int)
    requires 1 <= lo <= hi
    ensures |NamesOf(branch, lo, hi)| == hi - lo
    decreases hi - lo
  {
    if lo < hi {
      NamesCount(branch, lo, hi - 1);
      var last := RwVolumeNameGen(branch, hi - 1);
      forall g | lo <= g < hi - 1 ensures RwVolumeNameGen(branch, g) != last {
        if RwVolumeNameGen(branch, g) == last {
          RwVolumeNamesDistinct(branch, g, branch, hi - 1);
        }
      }
      assert NamesOf(branch, lo, hi) == NamesOf(branch, lo, hi - 1) + {last};
    } else {
      assert NamesOf(branch, lo, hi) == {};
    }
  }

  lemma SubsetCount(a: set<string>, b: set<string>)
    requires a <= b
    ensures |a| <= |b|
  {
    assert b == a + (b - a);
  }

  /** freshBranchLayer: the lowest generation, from minGen up, whose name no row
      has used.  It gives up only when that many names really are in use. */
  method FreshBranchLayer(branch: string, minGen: int, used: set<string>) returns (out: Option<string>, ghost gen: int)
    ensures out.Some? ==>
      && 1 <= gen && minGen <= gen < minGen + MAX_LAYER_GENERATIONS
      && out.value == RwVolumeNameGen(branch, gen) && out.value !in used
      && forall g :: minGen <= g < gen && 1 <= g ==> RwVolumeNameGen(branch, g) in used
    ensures out.None? <==> forall g :: minGen <= g < minGen + MAX_LAYER_GENERATIONS && 1 <= g ==>
        RwVolumeNameGen(branch, g) in used
    ensures minGen >= 1 && |used| < MAX_LAYER_GENERATIONS ==> out.Some?
  {
    var first := if minGen < 1 then 1 else minGen;
    var g := first;
    while g < minGen + MAX_LAYER_GENERATIONS
      invariant first <= g && (minGen >= 1 ==> g <= minGen + MAX_LAYER_GENERATIONS)
      invariant NamesOf(branch, first, g) <= used
      invariant forall h :: first <= h < g ==> RwVolumeNameGen(branch, h) in used
    {
      var v := RwVolumeNameGen(branch, g);
      if v !in used {
        return Some(v), g;
      }
      g := g + 1;
    }
    if minGen >= 1 {
      NamesCount(branch, first, g);
      SubsetCount(NamesOf(branch, first, g), used);
    }
    return None, g;
  }
}
