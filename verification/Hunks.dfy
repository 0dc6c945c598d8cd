/** Text forms: splitting a text into lines, and the reader for the
    "@@ -i,n +j,m @@" hunks of a unified diff, with the patch it describes. */
module Hunks {
  import opened Wrappers
  import opened Decimal
  import opened LineDiff

  // ------------------------------------------------------------------------ lines

  /** Position of the first newline, or the length. */
  function Newline(s: string): (k: nat)
    ensures k <= |s| && (forall t :: 0 <= t < k ==> s[t] != '\n') && (k < |s| ==> s[k] == '\n')
  {
    if s == "" || s[0] == '\n' then 0 else 1 + Newline(s[1..])
  }

  /** strings.Split(s, "\n"). */
  function SplitOn(s: string): (ls: seq<Line>)
    ensures |ls| > 0
    decreases |s|
  {
    var k := Newline(s);
    if k == |s| then [s] else [s[..k]] + SplitOn(s[k+1..])
  }

  function SplitLines(s: string): seq<Line> {
    DropEmptyTail(SplitOn(s))
  }

  function DropEmptyTail(ls: seq<Line>): seq<Line>
    requires |ls| > 0
  {
    if ls[|ls|-1] == "" then ls[..|ls|-1] else ls
  }

  ghost function Unlines(ls: seq<Line>): string {
    if ls == [] then "" else ls[0] + "\n" + Unlines(ls[1..])
  }

  /** s with its last line terminated. */
  ghost function Terminated(s: string): string {
    if s == "" || s[|s|-1] == '\n' then s else s + "\n"
  }

  ghost predicate NoNewlines(ls: seq<Line>) {
    forall i :: 0 <= i < |ls| ==> '\n' !in ls[i]
  }

  lemma DropEmptyTailCons(l: Line, ls: seq<Line>)
    requires |ls| > 0
    ensures DropEmptyTail([l] + ls) == [l] + DropEmptyTail(ls)
  {
    assert ([l] + ls)[..|ls|] == [l] + ls[..|ls|-1];
  }

  lemma TerminatedStep(s: string, k: nat)
    requires k < |s| && s[k] == '\n'
    ensures Terminated(s) == s[..k] + "\n" + Terminated(s[k+1..])
  {
  }

  lemma UnlinesCons(l: Line, ls: seq<Line>)
    ensures Unlines([l] + ls) == l + "\n" + Unlines(ls)
  {
    assert ([l] + ls)[1..] == ls;
  }

  /** The lines are newline-free and spell the text, up to the final newline. */
  lemma {:induction false} SplitLinesText(s: string)
    ensures NoNewlines(SplitLines(s)) && Unlines(SplitLines(s)) == Terminated(s)
    ensures |SplitLines(s)| <= |s| + 1
    decreases |s|
  {
    var k := Newline(s);
    if k < |s| {
      var rest := s[k+1..];
      hide SplitLines; hide Unlines; hide Terminated;
      SplitLinesStep(s);
      SplitLinesText(rest);
      TerminatedStep(s, k);
      UnlinesCons(s[..k], SplitLines(rest));
    } else {
      SplitLinesLast(s);
    }
  }

  lemma SplitLinesStep(s: string)
    requires Newline(s) < |s|
    ensures SplitLines(s) == [s[..Newline(s)]] + SplitLines(s[Newline(s)+1..])
  {
    hide Newline; hide DropEmptyTail;
    DropEmptyTailCons(s[..Newline(s)], SplitOn(s[Newline(s)+1..]));
  }

  lemma SplitLinesLast(s: string)
    requires Newline(s) == |s|
    ensures NoNewlines(SplitLines(s)) && Unlines(SplitLines(s)) == Terminated(s) && |SplitLines(s)| <= 1
  {
    if s != "" {
      assert SplitLines(s) == [s];
      assert Unlines([s]) == s + "\n" + Unlines([]);
    }
  }

  /** Texts with the same lines differ at most in the final newline. */
  lemma SameLines(s: string, t: string)
    ensures SplitLines(s) == SplitLines(t) ==> Terminated(s) == Terminated(t)
  {
    SplitLinesText(s);
    SplitLinesText(t);
  }

  // ------------------------------------------------------------------------ hunks

  datatype Hunk = Hunk(aStart: nat, aCount: nat, bStart: nat, bCount: nat, ops: seq<Op>)

  function RenderOps(ops: seq<Op>): string {
    if ops == [] then "" else [ops[0].kind] + ops[0].line + "\n" + RenderOps(ops[1..])
  }

  function RenderHunk(h: Hunk): string {
    "@@ -" + (Dec(h.aStart) + ("," + (Dec(h.aCount) + (" +" + (Dec(h.bStart) + ("," + (Dec(h.bCount)
      + (" @@\n" + RenderOps(h.ops)))))))))
  }

  function RenderAll(hs: seq<Hunk>): string {
    if hs == [] then "" else RenderHunk(hs[0]) + RenderAll(hs[1..])
  }

  /** Strips an expected piece of text. */
  function Eat(s: string, lit: string): (r: Option<string>)
    ensures r.Some? ==> |r.value| == |s| - |lit|
  {
    if lit <= s then Some(s[|lit|..]) else None
  }

  /** Reads one operation: its kind, then its line up to the newline. */
  function ReadOp(s: string): (r: Option<(Op, string)>)
    ensures r.Some? ==> |r.value.1| < |s|
  {
    if s == "" || s[0] !in {' ', '-', '+'} then None
    else
      var k := Newline(s[1..]);
      if k == |s[1..]| then None else Some((Op(s[0], s[1..][..k]), s[1..][k+1..]))
  }

  function OldSize(o: Op): nat { if o.kind == '+' then 0 else 1 }
  function NewSize(o: Op): nat { if o.kind == '-' then 0 else 1 }

  /** Reads the operations that spell an lines of a and bn lines of b. */
  function ReadOps(s: string, an: nat, bn: nat): (r: Option<(seq<Op>, string)>)
    ensures r.Some? ==> |r.value.1| <= |s|
    decreases |s|
  {
    if an == 0 && bn == 0 then Some(([], s))
    else
      var (op, rest) :- ReadOp(s);
      if an < OldSize(op) || bn < NewSize(op) then None
      else
        var (ops, tail) :- ReadOps(rest, an - OldSize(op), bn - NewSize(op));
        Some(([op] + ops, tail))
  }

  function ReadHunk(s: string): (r: Option<(Hunk, string)>)
    ensures r.Some? ==> |r.value.1| < |s|
  {
    var s :- Eat(s, "@@ -");
    var (aStart, s) :- ReadDec(s);
    var s :- Eat(s, ",");
    var (aCount, s) :- ReadDec(s);
    var s :- Eat(s, " +");
    var (bStart, s) :- ReadDec(s);
    var s :- Eat(s, ",");
    var (bCount, s) :- ReadDec(s);
    var s :- Eat(s, " @@\n");
    var (ops, s) :- ReadOps(s, aCount, bCount);
    Some((Hunk(aStart, aCount, bStart, bCount, ops), s))
  }

  function ReadHunks(s: string): Option<seq<Hunk>>
    decreases |s|
  {
    if s == "" then Some([])
    else
      var (h, rest) :- ReadHunk(s);
      var hs :- ReadHunks(rest);
      Some([h] + hs)
  }

  /** Applies hunks to lines, with pos lines already consumed and out already
      produced.  Fails unless the hunks come in order without overlapping, the
      old lines match, and every number in the headers is right.  An empty
      range names the line before it. */
  ghost function Patch(hs: seq<Hunk>, lines: seq<Line>, pos: nat, out: seq<Line>): Option<seq<Line>> {
    if hs == [] then (if pos <= |lines| then Some(out + lines[pos..]) else None)
    else
      var h := hs[0];
      var at := if h.aCount == 0 then h.aStart else h.aStart - 1;
      var bt := if h.bCount == 0 then h.bStart else h.bStart - 1;
      if && pos <= at && at + h.aCount <= |lines|
         && lines[at..at + h.aCount] == OldLines(h.ops)
         && |NewLines(h.ops)| == h.bCount
         && bt == |out| + (at - pos)
      then Patch(hs[1..], lines, at + h.aCount, out + lines[pos..at] + NewLines(h.ops))
      else None
  }

  // ---------------------------------------------------------- reading what was written

  ghost predicate Printable(ops: seq<Op>) {
    Kinds(ops) && forall t :: 0 <= t < |ops| ==> '\n' !in ops[t].line
  }

  ghost predicate WellFormed(h: Hunk) {
    Printable(h.ops) && h.aCount == |OldLines(h.ops)| && h.bCount == |NewLines(h.ops)|
  }

  lemma {:induction false} OpsConcat(p: seq<Op>, q: seq<Op>)
    ensures OldLines(p + q) == OldLines(p) + OldLines(q)
    ensures NewLines(p + q) == NewLines(p) + NewLines(q)
    decreases |q|
  {
    if q == [] {
      assert p + q == p;
    } else {
      var q', o := q[..|q|-1], q[|q|-1];
      assert p + q == (p + q') + [o] && q == q' + [o];
      OpsConcat(p, q');
      OpsSnoc(p + q', o);
      OpsSnoc(q', o);
    }
  }

  lemma OpsCons(o: Op, ops: seq<Op>)
    ensures OldLines([o] + ops) == (if o.kind == '+' then [] else [o.line]) + OldLines(ops)
    ensures NewLines([o] + ops) == (if o.kind == '-' then [] else [o.line]) + NewLines(ops)
  {
    OpsConcat([o], ops);
    OpsSnoc([], o);
    assert [] + [o] == [o];
  }

  lemma NewlineAt(line: Line, rest: string)
    requires '\n' !in line
    ensures Newline(line + "\n" + rest) == |line|
  {
    var s := line + "\n" + rest;
    assert s[|line|] == '\n';
    assert forall t :: 0 <= t < |line| ==> s[t] == line[t];
  }

  lemma ReadOpOf(o: Op, more: string)
    requires o.kind in {' ', '-', '+'} && '\n' !in o.line
    ensures ReadOp([o.kind] + (o.line + "\n" + more)) == Some((o, more))
  {
    var s := [o.kind] + (o.line + "\n" + more);
    assert s[1..] == o.line + "\n" + more;
    NewlineAt(o.line, more);
    assert s[1..][..|o.line|] == o.line && s[1..][|o.line|+1..] == more;
  }

  lemma {:induction false} ReadOpsOf(ops: seq<Op>, rest: string)
    requires Printable(ops)
    ensures ReadOps(RenderOps(ops) + rest, |OldLines(ops)|, |NewLines(ops)|) == Some((ops, rest))
    decreases |ops|
  {
    hide ReadOps; hide RenderOps; hide OldLines; hide NewLines; hide ReadOp;
    if ops == [] {
      ReadNoOps(rest);
    } else {
      var o, tail := ops[0], ops[1..];
      ReadOpsOf(tail, rest);
      ReadOpOf(o, RenderOps(tail) + rest);
      RenderOpsCons(ops, rest);
      ReadOpsStep(RenderOps(ops) + rest, o, RenderOps(tail) + rest, |OldLines(tail)|, |NewLines(tail)|, tail, rest);
      OpsSizes(ops);
    }
  }

  lemma ReadNoOps(rest: string)
    ensures ReadOps(RenderOps([]) + rest, |OldLines([])|, |NewLines([])|) == Some(([], rest))
  {
    assert RenderOps([]) + rest == rest;
  }

  lemma OpsSizes(ops: seq<Op>)
    requires ops != []
    ensures ops == [ops[0]] + ops[1..]
    ensures |OldLines(ops)| == |OldLines(ops[1..])| + OldSize(ops[0])
    ensures |NewLines(ops)| == |NewLines(ops[1..])| + NewSize(ops[0])
  {
    assert ops == [ops[0]] + ops[1..];
    OpsCons(ops[0], ops[1..]);
  }

  lemma ReadOpsStep(s: string, o: Op, more: string, an: nat, bn: nat, ops: seq<Op>, tail: string)
    requires ReadOp(s) == Some((o, more)) && o.kind in {' ', '-', '+'}
    requires ReadOps(more, an, bn) == Some((ops, tail))
    ensures ReadOps(s, an + OldSize(o), bn + NewSize(o)) == Some(([o] + ops, tail))
  {
    hide ReadOp;
  }

  lemma RenderOpsCons(ops: seq<Op>, rest: string)
    requires ops != []
    ensures RenderOps(ops) + rest == [ops[0].kind] + (ops[0].line + "\n" + (RenderOps(ops[1..]) + rest))
  {
  }

  lemma EatPrefix(lit: string, rest: string)
    ensures Eat(lit + rest, lit) == Some(rest)
  {
    assert (lit + rest)[|lit|..] == rest;
  }

  lemma ReadHunkOf(h: Hunk, rest: string)
    requires WellFormed(h)
    ensures ReadHunk(RenderHunk(h) + rest) == Some((h, rest))
  {
    var s9 := RenderOps(h.ops) + rest;
    var s8 := " @@\n" + s9;
    var s7 := Dec(h.bCount) + s8;
    var s6 := "," + s7;
    var s5 := Dec(h.bStart) + s6;
    var s4 := " +" + s5;
    var s3 := Dec(h.aCount) + s4;
    var s2 := "," + s3;
    var s1 := Dec(h.aStart) + s2;
    assert RenderHunk(h) + rest == "@@ -" + s1;
    EatPrefix("@@ -", s1);
    ReadDecOf(h.aStart, s2);
    EatPrefix(",", s3);
    ReadDecOf(h.aCount, s4);
    EatPrefix(" +", s5);
    ReadDecOf(h.bStart, s6);
    EatPrefix(",", s7);
    ReadDecOf(h.bCount, s8);
    EatPrefix(" @@\n", s9);
    ReadOpsOf(h.ops, rest);
  }

  lemma ReadHunksStep(s: string, h: Hunk, rest: string, hs: seq<Hunk>)
    requires s != "" && ReadHunk(s) == Some((h, rest)) && ReadHunks(rest) == Some(hs)
    ensures ReadHunks(s) == Some([h] + hs)
  {
    hide ReadHunk;
  }

  /** Reading undoes rendering. */
  lemma {:induction false} ReadHunksOf(hs: seq<Hunk>)
    requires forall i :: 0 <= i < |hs| ==> WellFormed(hs[i])
    ensures ReadHunks(RenderAll(hs)) == Some(hs)
    decreases |hs|
  {
    if hs != [] {
      var s, rest := RenderAll(hs), RenderAll(hs[1..]);
      assert s == RenderHunk(hs[0]) + rest && s != "" by {
        assert RenderHunk(hs[0]) != "";
      }
      hide ReadHunks; hide RenderAll; hide RenderHunk;
      ReadHunksOf(hs[1..]);
      ReadHunkOf(hs[0], rest);
      ReadHunksStep(s, hs[0], rest, hs[1..]);
      assert [hs[0]] + hs[1..] == hs;
    }
  }
}
