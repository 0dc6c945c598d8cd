/** Rendering: grouping an edit script into hunks with context, and the
    complete Unified, from two texts to a diff that patches one into the
    other. */
module Unified {
  import opened EditGrid
  import opened LineDiff
  import opened Wrappers
  import opened Decimal
  import opened Hunks
  import Differ

  const CONTEXT: nat := 3

  /** The operations start..end, printed as one hunk; first and last are its
      outermost changes. */
  datatype Span = Span(start: nat, end: nat, first: nat, last: nat)

  ghost predicate Changed(ops: seq<Op>, t: int) {
    0 <= t < |ops| && ops[t].kind != ' '
  }

  ghost predicate Quiet(ops: seq<Op>, i: int, j: int) {
    forall t :: i <= t < j && 0 <= t < |ops| ==> ops[t].kind == ' '
  }

  ghost function HunkAt(ops: seq<Op>, sp: Span): Hunk
    requires sp.start <= sp.end <= |ops|
  {
    var a0, b0 := |OldLines(ops[..sp.start])|, |NewLines(ops[..sp.start])|;
    var an, bn := |OldLines(ops[sp.start..sp.end])|, |NewLines(ops[sp.start..sp.end])|;
    Hunk(if an == 0 then a0 else a0 + 1, an, if bn == 0 then b0 else b0 + 1, bn, ops[sp.start..sp.end])
  }

  ghost predicate Covered(spans: seq<Span>, t: int) {
    exists k :: 0 <= k < |spans| && spans[k].start <= t < spans[k].end
  }

  /** The spans follow each other from position from, without overlapping, and
      cover every change there is from there on. */
  ghost predicate Tiled(ops: seq<Op>, from: nat, spans: seq<Span>) {
    && InRange(ops, spans)
    && (forall k :: 0 <= k < |spans| ==> from <= spans[k].start)
    && (forall j, k :: 0 <= j < k < |spans| ==> spans[j].end <= spans[k].start)
    && (forall t :: from <= t && Changed(ops, t) ==> Covered(spans, t))
  }

  lemma TiledTail(ops: seq<Op>, from: nat, spans: seq<Span>)
    requires Tiled(ops, from, spans) && spans != []
    ensures Quiet(ops, from, spans[0].start) && Tiled(ops, spans[0].end, spans[1..])
  {
    forall t | from <= t < spans[0].start && 0 <= t < |ops| ensures ops[t].kind == ' ' {
      assert !Covered(spans, t);
    }
    forall t | spans[0].end <= t && Changed(ops, t) ensures Covered(spans[1..], t) {
      assert Covered(spans, t);
      var k :| 0 <= k < |spans| && spans[k].start <= t < spans[k].end;
      assert spans[1..][k-1] == spans[k];
    }
  }

  ghost predicate InRange(ops: seq<Op>, spans: seq<Span>) {
    forall k :: 0 <= k < |spans| ==> spans[k].start <= spans[k].end <= |ops|
  }

  ghost function HunksOf(ops: seq<Op>, spans: seq<Span>): (hs: seq<Hunk>)
    requires InRange(ops, spans)
    ensures |hs| == |spans|
    ensures forall k :: 0 <= k < |spans| ==> hs[k] == HunkAt(ops, spans[k])
  {
    seq(|spans|, k requires 0 <= k < |spans| => HunkAt(ops, spans[k]))
  }

  // ---------------------------------------------------------------- patching back

  lemma {:induction false} QuietLines(ops: seq<Op>)
    requires Quiet(ops, 0, |ops|)
    ensures OldLines(ops) == NewLines(ops)
    decreases |ops|
  {
    if ops != [] {
      QuietLines(ops[..|ops|-1]);
    }
  }

  lemma LinesCut(ops: seq<Op>, j: nat)
    requires j <= |ops|
    ensures OldLines(ops) == OldLines(ops[..j]) + OldLines(ops[j..])
    ensures NewLines(ops) == NewLines(ops[..j]) + NewLines(ops[j..])
  {
    hide OldLines; hide NewLines;
    assert ops == ops[..j] + ops[j..];
    OpsConcat(ops[..j], ops[j..]);
  }

  lemma LinesSplit(ops: seq<Op>, i: nat, j: nat)
    requires i <= j <= |ops|
    ensures OldLines(ops[..j]) == OldLines(ops[..i]) + OldLines(ops[i..j])
    ensures NewLines(ops[..j]) == NewLines(ops[..i]) + NewLines(ops[i..j])
    ensures OldLines(ops) == OldLines(ops[..j]) + OldLines(ops[j..])
    ensures NewLines(ops) == NewLines(ops[..j]) + NewLines(ops[j..])
  {
    hide OldLines; hide NewLines;
    LinesCut(ops, j);
    LinesCut(ops[..j], i);
    assert ops[..j][..i] == ops[..i] && ops[..j][i..] == ops[i..j];
  }

  /** Applying the hunks of a tiling turns the old lines into the new ones. */
  lemma {:induction false} PatchTiled(ops: seq<Op>, from: nat, spans: seq<Span>)
    requires from <= |ops| && Tiled(ops, from, spans)
    ensures Patch(HunksOf(ops, spans), OldLines(ops), |OldLines(ops[..from])|, NewLines(ops[..from])) ==
        Some(NewLines(ops))
    decreases |spans|
  {
    hide OldLines; hide NewLines;
    if spans == [] {
      forall t | from <= t < |ops| ensures ops[t].kind == ' ' {
        assert !Covered(spans, t);
      }
      LinesSplit(ops, from, from);
      QuietLines(ops[from..]);
      assert OldLines(ops)[|OldLines(ops[..from])|..] == OldLines(ops[from..]);
    } else {
      TiledTail(ops, from, spans);
      PatchTiled(ops, spans[0].end, spans[1..]);
      PatchStep(ops, from, spans);
    }
  }

  lemma PatchStep(ops: seq<Op>, from: nat, spans: seq<Span>)
    requires from <= |ops| && spans != []
    requires InRange(ops, spans)
    requires from <= spans[0].start && Quiet(ops, from, spans[0].start)
    ensures Patch(HunksOf(ops, spans), OldLines(ops), |OldLines(ops[..from])|, NewLines(ops[..from]))
         == Patch(HunksOf(ops, spans[1..]), OldLines(ops), |OldLines(ops[..spans[0].end])|,
             NewLines(ops[..spans[0].end]))
  {
    hide OldLines; hide NewLines;
    var sp := spans[0];
    var lines, out, pos := OldLines(ops), NewLines(ops[..from]), |OldLines(ops[..from])|;
    LinesSplit(ops, from, sp.start);
    LinesSplit(ops, sp.start, sp.end);
    QuietLines(ops[from..sp.start]);
    var at := |OldLines(ops[..sp.start])|;
    var n := |OldLines(ops[sp.start..sp.end])|;
    assert lines[pos..at] == OldLines(ops[from..sp.start]);
    assert lines[at..at + n] == OldLines(ops[sp.start..sp.end]);
    assert NewLines(ops[..sp.end]) == out + lines[pos..at] + NewLines(ops[sp.start..sp.end]);
    assert HunksOf(ops, spans)[1..] == HunksOf(ops, spans[1..]);
  }

  // -------------------------------------------------------------------- rendering

  /** Lines of a, and of b, consumed before operation t. */
  ghost function OldAt(ops: seq<Op>, t: nat): nat requires t <= |ops| { |OldLines(ops[..t])| }
  ghost function NewAt(ops: seq<Op>, t: nat): nat requires t <= |ops| { |NewLines(ops[..t])| }

  lemma CountStep(ops: seq<Op>, i: nat)
    requires i < |ops|
    ensures OldAt(ops, i + 1) == OldAt(ops, i) + OldSize(ops[i])
    ensures NewAt(ops, i + 1) == NewAt(ops, i) + NewSize(ops[i])
  {
    hide OldLines; hide NewLines;
    assert ops[..i+1] == ops[..i] + [ops[i]];
    OpsSnoc(ops[..i], ops[i]);
  }

  ghost predicate CountsOf(ops: seq<Op>, aAt: seq<int>, bAt: seq<int>) {
    && |aAt| == |bAt| == |ops| + 1
    && forall t :: 0 <= t <= |ops| ==> aAt[t] == OldAt(ops, t) && bAt[t] == NewAt(ops, t)
  }

  method LinesBefore(ops: seq<Op>) returns (aAt: array<int>, bAt: array<int>)
    ensures fresh(aAt) && fresh(bAt) && CountsOf(ops, aAt[..], bAt[..])
  {
    assert OldAt(ops, 0) == 0 == NewAt(ops, 0);
    hide OldAt; hide NewAt;
    aAt, bAt := new int[|ops| + 1](_ => 0), new int[|ops| + 1](_ => 0);
    for i := 0 to |ops|
      invariant forall t :: 0 <= t <= i ==> aAt[t] == OldAt(ops, t)
      invariant forall t :: 0 <= t <= i ==> bAt[t] == NewAt(ops, t)
    {
      CountStep(ops, i);
      aAt[i+1], bAt[i+1] := aAt[i], bAt[i];
      if ops[i].kind != '+' {
        aAt[i+1] := aAt[i+1] + 1;
      }
      if ops[i].kind != '-' {
        bAt[i+1] := bAt[i+1] + 1;
      }
    }
  }

  ghost predicate ChangeList(ops: seq<Op>, cs: seq<int>) {
    && (forall i :: 0 <= i < |cs| ==> 0 <= cs[i] < |ops| && ops[cs[i]].kind != ' ')
    && (forall i, j :: 0 <= i < j < |cs| ==> cs[i] < cs[j])
    && (forall t :: Changed(ops, t) ==> t in cs)
  }

  method ListChanges(ops: seq<Op>) returns (cs: seq<int>)
    ensures ChangeList(ops, cs)
  {
    cs := [];
    for i := 0 to |ops|
      invariant forall k :: 0 <= k < |cs| ==> 0 <= cs[k] < i && ops[cs[k]].kind != ' '
      invariant forall j, k :: 0 <= j < k < |cs| ==> cs[j] < cs[k]
      invariant forall t :: Changed(ops, t) && t < i ==> t in cs
    {
      if ops[i].kind != ' ' {
        cs := cs + [i];
      }
    }
  }

  /** A span holds the changes first..last, none more than twice the context
      apart, and the context around them. */
  ghost predicate Grouped(ops: seq<Op>, sp: Span) {
    && sp.first <= sp.last && Changed(ops, sp.first) && Changed(ops, sp.last)
    && sp.start == Max(0, sp.first - CONTEXT) && sp.end == Min(|ops|, sp.last + CONTEXT + 1)
    && Quiet(ops, sp.start, sp.first) && Quiet(ops, sp.last + 1, sp.end)
    && forall t :: sp.first <= t < sp.last && Changed(ops, t) ==> FollowedSoon(ops, t, sp.last)
  }

  ghost predicate FollowedSoon(ops: seq<Op>, t: int, last: int) {
    exists t' :: t < t' <= t + 2 * CONTEXT && t' <= last && Changed(ops, t')
  }

  /** The whole grouping: tiled, grouped, and cut only where more than twice
      the context separates two changes. */
  ghost predicate Grouping(ops: seq<Op>, spans: seq<Span>) {
    && Tiled(ops, 0, spans)
    && (forall k :: 0 <= k < |spans| ==> Grouped(ops, spans[k]))
    && (forall j, k :: 0 <= j < k < |spans| ==> spans[k].first - spans[j].last > 2 * CONTEXT)
  }

  /** The inner loop: the last change of the group that starts at c. */
  method GroupEnd(ops: seq<Op>, cs: seq<int>, c: nat) returns (last: nat)
    requires ChangeList(ops, cs) && c < |cs|
    ensures c <= last < |cs| && 0 <= cs[c] <= cs[last] < |ops|
    ensures forall j, k :: c <= j < k <= last && k == j + 1 ==> cs[k] - cs[j] <= 2 * CONTEXT
    ensures last + 1 < |cs| ==> cs[last+1] - cs[last] > 2 * CONTEXT
  {
    last := c;
    while last + 1 < |cs| && cs[last+1] - cs[last] <= 2 * CONTEXT
      invariant c <= last < |cs|
      invariant forall j, k :: c <= j < k <= last && k == j + 1 ==> cs[k] - cs[j] <= 2 * CONTEXT
    {
      last := last + 1;
    }
  }

  lemma BetweenChanges(ops: seq<Op>, cs: seq<int>, i: nat)
    requires ChangeList(ops, cs) && i <= |cs|
    ensures Quiet(ops, if i == 0 then 0 else cs[i-1] + 1, if i == |cs| then |ops| else cs[i])
  {
    var lo, hi := if i == 0 then 0 else cs[i-1] + 1, if i == |cs| then |ops| else cs[i];
    forall t | lo <= t < hi && 0 <= t < |ops| ensures ops[t].kind == ' ' {
      forall k | 0 <= k < |cs| ensures cs[k] != t {
        assert k < i ==> cs[k] <= cs[i-1];
        assert k >= i ==> cs[k] >= cs[i];
      }
      assert t !in cs;
    }
  }

  lemma DenseChanges(ops: seq<Op>, cs: seq<int>, c: nat, last: nat, t: int)
    requires ChangeList(ops, cs) && c <= last < |cs|
    requires forall j, k :: c <= j < k <= last && k == j + 1 ==> cs[k] - cs[j] <= 2 * CONTEXT
    requires cs[c] <= t < cs[last] && Changed(ops, t)
    ensures FollowedSoon(ops, t, cs[last])
  {
    var i :| 0 <= i < |cs| && cs[i] == t;
    assert c <= i < last;
    assert cs[i+1] <= cs[last] && Changed(ops, cs[i+1]);
  }

  lemma GroupIsGrouped(ops: seq<Op>, cs: seq<int>, c: nat, last: nat, sp: Span)
    requires ChangeList(ops, cs) && c <= last < |cs|
    requires forall j, k :: c <= j < k <= last && k == j + 1 ==> cs[k] - cs[j] <= 2 * CONTEXT
    requires last + 1 < |cs| ==> cs[last+1] - cs[last] > 2 * CONTEXT
    requires c > 0 ==> cs[c] - cs[c-1] > 2 * CONTEXT
    requires 0 <= cs[c] && 0 <= cs[last] < |ops|
    requires sp == Span(Max(0, cs[c] - CONTEXT), Min(|ops|, cs[last] + CONTEXT + 1), cs[c], cs[last])
    ensures Grouped(ops, sp)
  {
    BetweenChanges(ops, cs, c);
    BetweenChanges(ops, cs, last + 1);
    forall t | sp.first <= t < sp.last && Changed(ops, t) ensures FollowedSoon(ops, t, sp.last) {
      DenseChanges(ops, cs, c, last, t);
    }
  }

  // ---------------------------------------------------------- the rendering loop

  lemma {:induction false} RenderAllSnoc(hs: seq<Hunk>, h: Hunk)
    ensures RenderAll(hs + [h]) == RenderAll(hs) + RenderHunk(h)
    decreases |hs|
  {
    hide RenderHunk;
    if hs == [] {
      assert [h][1..] == [] && hs + [h] == [h];
    } else {
      assert (hs + [h])[1..] == hs[1..] + [h];
      RenderAllSnoc(hs[1..], h);
    }
  }

  /** The spans so far are hunks in order, cut only at long gaps. */
  ghost predicate Chain(ops: seq<Op>, spans: seq<Span>) {
    && InRange(ops, spans)
    && (forall k :: 0 <= k < |spans| ==> spans[k].first <= spans[k].last && Grouped(ops, spans[k]))
    && (forall j, k :: 0 <= j < k < |spans| ==> spans[j].end <= spans[k].start)
    && (forall j, k :: 0 <= j < k < |spans| ==> spans[k].first - spans[j].last > 2 * CONTEXT)
  }

  lemma ChainSnoc(ops: seq<Op>, spans: seq<Span>, sp: Span)
    requires Chain(ops, spans) && sp.start <= sp.end <= |ops| && sp.first <= sp.last && Grouped(ops, sp)
    requires spans != [] ==> spans[|spans|-1].end <= sp.start && sp.first - spans[|spans|-1].last > 2 * CONTEXT
    ensures Chain(ops, spans + [sp])
  {
    hide Grouped;
    forall j | 0 <= j < |spans| ensures spans[j].end <= sp.start && sp.first - spans[j].last > 2 * CONTEXT {
      if j < |spans| - 1 {
        assert spans[j].end <= spans[|spans|-1].start;
        assert spans[|spans|-1].first - spans[j].last > 2 * CONTEXT;
      }
    }
  }

  /** Where the rendering loop stands: the spans so far hold the changes before
      cs[c]. */
  ghost predicate Rendered(ops: seq<Op>, cs: seq<int>, spans: seq<Span>, c: int) {
    && ChangeList(ops, cs) && 0 <= c <= |cs| && InRange(ops, spans) && Chain(ops, spans)
    && (forall i :: 0 <= i < c ==> Covered(spans, cs[i]))
    && (c == 0 <==> spans == [])
    && (c > 0 ==> spans[|spans|-1].last == cs[c-1] && spans[|spans|-1].end <= cs[c-1] + CONTEXT + 1
                  && (c < |cs| ==> cs[c] - cs[c-1] > 2 * CONTEXT))
  }

  lemma RenderedStep(ops: seq<Op>, cs: seq<int>, spans: seq<Span>, c: int, last: int, sp: Span)
    requires Rendered(ops, cs, spans, c) && c <= last < |cs|
    requires forall j, k :: c <= j < k <= last && k == j + 1 ==> cs[k] - cs[j] <= 2 * CONTEXT
    requires last + 1 < |cs| ==> cs[last+1] - cs[last] > 2 * CONTEXT
    requires 0 <= cs[c] <= cs[last] < |ops|
    requires sp == Span(Max(0, cs[c] - CONTEXT), Min(|ops|, cs[last] + CONTEXT + 1), cs[c], cs[last])
    ensures Rendered(ops, cs, spans + [sp], last + 1)
  {
    hide Grouped; hide Covered;
    GroupIsGrouped(ops, cs, c, last, sp);
    CoveredSnoc(cs, spans, c, last, sp);
    ChainSnoc(ops, spans, sp);
  }

  lemma CoveredSnoc(cs: seq<int>, spans: seq<Span>, c: int, last: int, sp: Span)
    requires 0 <= c <= last < |cs| && (forall i, j :: 0 <= i < j < |cs| ==> cs[i] < cs[j])
    requires forall i :: 0 <= i < c ==> Covered(spans, cs[i])
    requires sp.start <= cs[c] && cs[last] < sp.end
    ensures forall i :: 0 <= i < last + 1 ==> Covered(spans + [sp], cs[i])
  {
    var spans' := spans + [sp];
    forall i | 0 <= i < last + 1 ensures Covered(spans', cs[i]) {
      if i < c {
        assert Covered(spans, cs[i]);
        var k :| 0 <= k < |spans| && spans[k].start <= cs[i] < spans[k].end;
        assert spans'[k] == spans[k];
      } else {
        assert cs[c] <= cs[i] <= cs[last];
        assert spans'[|spans|] == sp;
      }
    }
  }

  lemma RenderedAll(ops: seq<Op>, cs: seq<int>, spans: seq<Span>)
    requires Rendered(ops, cs, spans, |cs|)
    ensures Grouping(ops, spans)
  {
    hide Grouped;
  }

  method RenderSpan(ops: seq<Op>, start: nat, end: nat, aAt: array<int>, bAt: array<int>, ghost sp: Span)
    returns (out: string)
    requires sp.start == start && sp.end == end && start <= end <= |ops|
    requires CountsOf(ops, aAt[..], bAt[..])
    ensures out == RenderHunk(HunkAt(ops, sp))
  {
    hide OldLines; hide NewLines; hide RenderHunk;
    LinesSplit(ops, start, end);
    assert aAt[..][start] == aAt[start] && aAt[..][end] == aAt[end];
    assert bAt[..][start] == bAt[start] && bAt[..][end] == bAt[end];
    var aCount, bCount := aAt[end] - aAt[start], bAt[end] - bAt[start];
    var aStart, bStart := aAt[start] + 1, bAt[start] + 1;
    if aCount == 0 {
      aStart := aStart - 1;
    }
    if bCount == 0 {
      bStart := bStart - 1;
    }
    out := RenderHunk(Hunk(aStart, aCount, bStart, bCount, ops[start..end]));
  }

  lemma HunksOfSnoc(ops: seq<Op>, spans: seq<Span>, sp: Span)
    requires InRange(ops, spans + [sp]) && InRange(ops, spans) && sp.start <= sp.end <= |ops|
    ensures RenderAll(HunksOf(ops, spans + [sp])) == RenderAll(HunksOf(ops, spans)) + RenderHunk(HunkAt(ops, sp))
  {
    hide HunkAt; hide RenderAll; hide RenderHunk;
    RenderAllSnoc(HunksOf(ops, spans), HunkAt(ops, sp));
    assert HunksOf(ops, spans + [sp]) == HunksOf(ops, spans) + [HunkAt(ops, sp)];
  }

  /** Groups the changes into hunks and prints them. */
  method RenderHunks(ops: seq<Op>) returns (out: string, ghost spans: seq<Span>)
    ensures Grouping(ops, spans) && out == RenderAll(HunksOf(ops, spans))
  {
    hide HunkAt; hide RenderHunk; hide Chain; hide ChangeList; hide CountsOf; hide Covered; hide Grouping;
    var aAt, bAt := LinesBefore(ops);
    var cs := ListChanges(ops);
    out, spans := "", [];
    var c := 0;
    NothingRendered(ops, cs);
    while c < |cs|
      invariant Rendered(ops, cs, spans, c) && CountsOf(ops, aAt[..], bAt[..])
      invariant out == RenderAll(HunksOf(ops, spans))
    {
      var last := GroupEnd(ops, cs, c);
      var start := Max(0, cs[c] - CONTEXT);
      var end := Min(|ops| - 1, cs[last] + CONTEXT);
      ghost var sp := Span(start, end + 1, cs[c], cs[last]);
      RenderedStep(ops, cs, spans, c, last, sp);
      HunksOfSnoc(ops, spans, sp);
      var h := RenderSpan(ops, start, end + 1, aAt, bAt, sp);
      out := out + h;
      spans := spans + [sp];
      c := last + 1;
    }
    RenderedAll(ops, cs, spans);
  }

  lemma NothingRendered(ops: seq<Op>, cs: seq<int>)
    requires ChangeList(ops, cs)
    ensures Rendered(ops, cs, [], 0) && RenderAll(HunksOf(ops, [])) == ""
  {
  }

  // ------------------------------------------------------------------ the whole diff

  lemma {:induction false} OpLineIn(ops: seq<Op>, t: nat)
    requires t < |ops|
    ensures ops[t].kind != '+' ==> ops[t].line in OldLines(ops)
    ensures ops[t].kind != '-' ==> ops[t].line in NewLines(ops)
    decreases |ops|
  {
    if t < |ops| - 1 {
      OpLineIn(ops[..|ops|-1], t);
    }
  }

  lemma PrintableOps(ops: seq<Op>)
    requires Kinds(ops) && NoNewlines(OldLines(ops)) && NoNewlines(NewLines(ops))
    ensures Printable(ops)
  {
    hide OldLines; hide NewLines;
    forall t | 0 <= t < |ops| ensures '\n' !in ops[t].line {
      OpLineIn(ops, t);
    }
  }

  lemma {:induction false} NoEdits(ops: seq<Op>)
    ensures Edits(ops) == 0 <==> Quiet(ops, 0, |ops|)
    decreases |ops|
  {
    if ops != [] {
      NoEdits(ops[..|ops|-1]);
    }
  }

  /** Reading the rendered hunks back and applying them. */
  lemma RenderedPatch(ops: seq<Op>, spans: seq<Span>)
    requires Printable(ops) && Tiled(ops, 0, spans)
    ensures var r := ReadHunks(RenderAll(HunksOf(ops, spans)));
            r.Some? && Patch(r.value, OldLines(ops), 0, []) == Some(NewLines(ops))
  {
    hide OldLines; hide NewLines; hide Patch; hide ReadHunks; hide RenderAll; hide WellFormed; hide HunksOf;
    WellFormedHunks(ops, spans);
    ReadHunksOf(HunksOf(ops, spans));
    PatchTiled(ops, 0, spans);
    StartOfPatch(ops);
  }

  lemma WellFormedHunks(ops: seq<Op>, spans: seq<Span>)
    requires Printable(ops) && InRange(ops, spans)
    ensures forall k :: 0 <= k < |spans| ==> WellFormed(HunksOf(ops, spans)[k])
  {
    hide OldLines; hide NewLines;
  }

  lemma StartOfPatch(ops: seq<Op>)
    ensures |OldLines(ops[..0])| == 0 && NewLines(ops[..0]) == []
  {
  }

  /** The unified diff of two texts.  It is empty exactly when the texts have
      the same lines; reading it back and applying it to the lines of a gives
      the lines of b.  The ghost results are the script it prints and the way
      it is cut into hunks. */
  method Unified(a: string, b: string) returns (out: string, ghost ops: seq<Op>, ghost spans: seq<Span>)
    requires |a| + |b| + 5 <= Differ.MAX_INT
    ensures out == "" <==> SplitLines(a) == SplitLines(b)
    ensures ReadHunks(out).Some? && Patch(ReadHunks(out).value, SplitLines(a), 0, []) == Some(SplitLines(b))
    ensures OldLines(ops) == SplitLines(a) && NewLines(ops) == SplitLines(b) && DeletionsFirst(ops)
    ensures Grouping(ops, spans) && out == RenderAll(HunksOf(ops, spans))
    ensures !Capped(SplitLines(a), SplitLines(b), 0) ==> Edits(ops) == Dist(SplitLines(a), SplitLines(b))
  {
    hide Ed; hide OldLines; hide NewLines; hide Edits; hide SplitLines; hide Patch; hide ReadHunks; hide Grouped;
    hide Capped;
    SplitLinesText(a);
    SplitLinesText(b);
    var os := DiffOpsCap(SplitLines(a), SplitLines(b), 0);
    ops := os;
    NoEdits(ops);
    PrintableOps(ops);
    var changed := false;
    for i := 0 to |os|
      invariant !changed ==> Quiet(ops, 0, i)
      invariant changed ==> !Quiet(ops, 0, |ops|)
    {
      if os[i].kind != ' ' {
        changed := true;
        break;
      }
    }
    if !changed {
      out, spans := "", [];
      QuietLines(ops);
    } else {
      out, spans := RenderHunks(os);
      if SplitLines(a) == SplitLines(b) {
        DistSame(SplitLines(a));
        OneSidedNeverCapped(SplitLines(a), SplitLines(b), 0);
      }
      NonEmpty(ops, spans);
    }
    RenderedPatch(ops, spans);
  }

  lemma NonEmpty(ops: seq<Op>, spans: seq<Span>)
    requires Tiled(ops, 0, spans) && !Quiet(ops, 0, |ops|)
    ensures RenderAll(HunksOf(ops, spans)) != ""
  {
    var t :| 0 <= t < |ops| && ops[t].kind != ' ';
    assert Changed(ops, t);
    assert Covered(spans, t);
    assert RenderHunk(HunkAt(ops, spans[0])) != "";
  }
}
