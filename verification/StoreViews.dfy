/** What branches see.  A write is seen by the branch that made it and by no
    other.  A freeze changes no data: the stacks it records are the ones its
    containers run on, and from the moment the parent stops until the commit
    nothing the parent had is touched. */
module StoreViews {
  import opened Wrappers
  import opened Layers
  import opened Overlay
  import opened Store
  import opened StoreInv
  import opened StoreSafety

  /** What the volumes of a stack hold; a volume that is gone reads as empty. */
  ghost function Contents(vols: map<Vol, Content>, stack: seq<Vol>): (cs: seq<Content>)
    ensures |cs| == |stack|
  {
    seq(|stack|, i requires 0 <= i < |stack| => if stack[i] in vols then vols[stack[i]] else map[])
  }

  /** What a branch sees at a path. */
  ghost function View(s: Store, b: Branch, p: Path): Option<Data> {
    Lookup(Contents(s.vols, Stack(PlanOf(s.layers, b))), p)
  }

  /** What a fresh volume on top of a view shows. */
  ghost function Over(s: Store, v: Vol, below: Option<Data>, p: Path): Option<Data> {
    if v in s.vols && p in s.vols[v] then (if s.vols[v][p].File? then Some(s.vols[v][p].data) else None) else below
  }

  lemma ViewOnTop(s: Store, v: Vol, stack: seq<Vol>, p: Path)
    ensures Lookup(Contents(s.vols, [v] + stack), p) == Over(s, v, Lookup(Contents(s.vols, stack), p), p)
  {
    var top := if v in s.vols then s.vols[v] else map[];
    assert Contents(s.vols, [v] + stack) == [top] + Contents(s.vols, stack);
    OnTop(top, Contents(s.vols, stack), p);
  }

  // ------------------------------------------------------------------------ writes

  /** A write through a ready branch's container is what that branch then sees
      at the path, and nothing else changes for anyone. */
  lemma WriteIsolated(ss: seq<Store>, es: seq<Event>, i: nat, id: Bid, q: Path)
    requires Run(ss, es) && i < |es| && es[i].Write? && IsLive(ss[i].branches, id)
    ensures IsLive(ss[i + 1].branches, id)
    ensures ss[i].branches[id].name != es[i].name ==>
      View(ss[i + 1], ss[i + 1].branches[id], q) == View(ss[i], ss[i].branches[id], q)
    ensures ss[i].branches[id].name == es[i].name && ss[i].branches[id].state.Ready? ==>
      View(ss[i + 1], ss[i + 1].branches[id], q) ==
      if q == es[i].path then es[i].data else View(ss[i], ss[i].branches[id], q)
  {
    hide Walk; hide VolsOf; hide Frozen; hide Inv;
    RunInv(ss, es, i);
    var s, t, e := ss[i], ss[i + 1], es[i];
    var b := s.branches[id];
    assert t.branches == s.branches && t.layers == s.layers;
    var stack, rest := Stack(PlanOf(s.layers, b)), PlanOf(s.layers, b).layers + [b.src];
    assert stack == [b.rw] + rest;
    if b.name != e.name {
      forall k | 0 <= k < |stack| ensures Contents(t.vols, stack)[k] == Contents(s.vols, stack)[k] {
        Undisturbed(ss, es, i, id, stack[k]);
      }
      assert Contents(t.vols, stack) == Contents(s.vols, stack);
    } else if b.state.Ready? {
      MountedAt(s, id);
      forall k | 0 <= k < |rest| ensures Contents(t.vols, rest)[k] == Contents(s.vols, rest)[k] {
        assert rest[k] == stack[k + 1];
        OwnedForeign(s, id, b.rw, id);
      }
      assert Contents(t.vols, rest) == Contents(s.vols, rest);
      assert Contents(t.vols, stack) == [Written(s.vols[b.rw], e.path, e.data)] + Contents(s.vols, rest);
      assert Contents(s.vols, stack) == [s.vols[b.rw]] + Contents(s.vols, rest);
      WriteSeen(s.vols[b.rw], Contents(s.vols, rest), e.path, e.data, q);
    }
  }

  // ------------------------------------------------------------------------ freeze

  /** A committed freeze, at the commit: parent and child each get a volume of
      their own over exactly the stack the parent had, the containers already
      run on what the registry now records, and both see what the parent saw,
      plus what their own fresh volume says. */
  lemma CommitChangesNoData(ss: seq<Store>, es: seq<Event>, i: nat, id: Bid, l: Lid)
    requires Run(ss, es) && i < |es| && es[i] == Commit(id, l)
    ensures var s, t := ss[i], ss[i + 1];
      && Freezing(s, id)
      && var p, child := s.branches[id], s.branches[id].job.value.kind.child;
      && child in s.branches && id in t.branches && child in t.branches
      && var p', c' := t.branches[id], t.branches[child];
      && p'.state.Ready? && p'.rw != p.rw && c'.rw != p.rw && p'.rw != c'.rw
      && Stack(PlanOf(t.layers, p')) == [p'.rw] + Stack(PlanOf(s.layers, p))
      && Stack(PlanOf(t.layers, c')) == [c'.rw] + Stack(PlanOf(s.layers, p))
      && (p.name in t.cons ==> t.cons[p.name] == PlanOf(t.layers, p'))
      && (c'.name in t.cons ==> t.cons[c'.name] == PlanOf(t.layers, c'))
      && forall q :: View(t, p', q) == Over(t, p'.rw, View(s, p, q), q) &&
          View(t, c', q) == Over(t, c'.rw, View(s, p, q), q)
  {
    hide NextRows; hide NextCons; hide NextDoomed; hide Walk; hide VolsOf; hide Frozen; hide Structure; hide Contained;
    hide Linked; hide DoomedNoSource;
    RunInv(ss, es, i);
    RunInv(ss, es, i + 1);
    var s, t := ss[i], ss[i + 1];
    CommitStacks(s, id, l);
    CommitApart(s, id, l);
    var p, child := s.branches[id], s.branches[id].job.value.kind.child;
    var p', c' := t.branches[id], t.branches[child];
    MountedAt(t, id);
    MountedAt(t, child);
    MountedAt(s, child);
    FreezePair(s, id);
    MountedAt(s, id);
    var below := Stack(PlanOf(s.layers, p));
    assert Stack(PlanOf(t.layers, p')) == [p'.rw] + below;
    assert Stack(PlanOf(t.layers, c')) == [c'.rw] + below;
    forall q ensures View(t, p', q) == Over(t, p'.rw, View(s, p, q), q) &&
        View(t, c', q) == Over(t, c'.rw, View(s, p, q), q) {
      ViewOnTop(t, p'.rw, below, q);
      ViewOnTop(t, c'.rw, below, q);
    }
  }

  lemma CommitApart(s: Store, id: Bid, l: Lid)
    requires Inv(s) && Enabled(s, Commit(id, l))
    ensures var p, child := s.branches[id], s.branches[id].job.value.kind.child;
      child in s.branches && p.job.value.plan.rw != p.rw && s.branches[child].rw !in Owned(p)
  {
    hide Walk; hide VolsOf; hide DoomedUnneeded; hide DoomedNoSource; hide CondemnedUnused; hide Mounted; hide Linked;
    hide OneLive; hide Chains;
    hide LayersApart; hide Contained; hide Sourced;
    FreezePair(s, id);
    var child := s.branches[id].job.value.kind.child;
    assert WellNamed(s.branches[id]) && Owned(s.branches[id]) !! Owned(s.branches[child]);
    assert s.branches[child].rw in Owned(s.branches[child]);
  }

  // ------------------------------------------------------- the recorded stack stays

  /** The rows a commit moves. */
  predicate CommitOf(s: Store, e: Event, id: Bid) {
    e.Commit? && (e.id == id || (Freezing(s, e.id) && s.branches[e.id].job.value.kind.child == id))
  }

  /** Same name, volumes and base. */
  predicate SameRecord(b: Branch, b': Branch) {
    b'.name == b.name && b'.rw == b.rw && b'.src == b.src && b'.base == b.base
  }

  lemma RowStays(s: Store, e: Event, id: Bid)
    requires Enabled(s, e) && id in s.branches && !CommitOf(s, e, id)
    ensures id in Next(s, e).branches && SameRecord(s.branches[id], Next(s, e).branches[id])
  {
    if IsRowEvent(e) {
      hide Enabled; hide Next; hide AfterStep;
      RowEventNext(s, e);
      assert SameRecord(s.branches[e.id], AfterStep(s, e)) by { RowEventSame(s, e); }
    } else if e.Commit? || e.BeginFreeze? || e.Crash? || e.Abort? {
      hide Enabled; hide NextRows;
      PairRowStays(s, e, id);
    } else {
      hide Enabled; hide NextRows;
      OtherRowStays(s, e, id);
    }
  }

  lemma PairRowStays(s: Store, e: Event, id: Bid)
    requires Enabled(s, e) && id in s.branches && !CommitOf(s, e, id)
    requires (e.Commit? || e.BeginFreeze? || e.Crash? || e.Abort?)
    ensures id in NextRows(s, e) && SameRecord(s.branches[id], NextRows(s, e)[id])
  {
    hide PlanOf; hide Frozen; hide Used;
  }

  lemma RowEventSame(s: Store, e: Event)
    requires Enabled(s, e) && IsRowEvent(e)
    ensures e.id in s.branches && SameRecord(s.branches[e.id], AfterStep(s, e))
  {
  }

  lemma OtherRowStays(s: Store, e: Event, id: Bid)
    requires Enabled(s, e) && id in s.branches && !IsRowEvent(e) && !e.Commit? && !e.BeginFreeze? && !e.Crash?
    requires !e.Abort?
    ensures id in NextRows(s, e) && SameRecord(s.branches[id], NextRows(s, e)[id])
  {
    hide PlanOf; hide Frozen; hide NextVols; hide NextReused; hide Used; hide NoDependent; hide InLiveSet;
    hide ZeroRefs; hide NameFree;
  }

  lemma LayersStay(s: Store, e: Event)
    requires Enabled(s, e) && !e.Commit? && !e.DropLayer?
    ensures Next(s, e).layers == s.layers
  {
    hide Enabled; hide NextRows; hide NextCons; hide NextDoomed; hide NextVols; hide NextReused;
  }

  /** The stack the registry records for a live branch is changed by no step
      but the commit of a freeze the branch takes part in. */
  lemma StackStays(s: Store, e: Event, id: Bid)
    requires Inv(s) && Enabled(s, e) && IsLive(s.branches, id) && !CommitOf(s, e, id)
    ensures id in Next(s, e).branches
    ensures PlanOf(Next(s, e).layers, Next(s, e).branches[id]) == PlanOf(s.layers, s.branches[id])
  {
    hide Walk; hide VolsOf; hide NextRows; hide NextCons; hide NextDoomed; hide NextVols; hide NextReused;
    hide Enabled; hide Structure;
    RowStays(s, e, id);
    if e.Commit? {
      CommitOther(s, e.id, e.l, id);
    } else if e.DropLayer? {
      DropOther(s, e.l, id);
    } else {
      LayersStay(s, e);
    }
  }

  lemma CommitOther(s: Store, parent: Bid, l: Lid, id: Bid)
    requires Inv(s) && Enabled(s, Commit(parent, l)) && IsLive(s.branches, id)
    ensures Frozen(Next(s, Commit(parent, l)).layers, s.branches[id]) == Frozen(s.layers, s.branches[id])
  {
    hide Walk; hide VolsOf; hide Frozen; hide Named; hide Apart; hide OneLive; hide LayersApart; hide Sourced;
    hide DoomedUnneeded; hide CondemnedUnused;
    hide Linked; hide DoomedNoSource; hide Contained; hide Mounted;
    MountedLive(s, parent);
    FrozenInsert(s.layers, l, Layer(s.branches[parent].rw, s.branches[parent].base), s.branches[id]);
  }

  lemma DropOther(s: Store, l: Lid, id: Bid)
    requires Inv(s) && Enabled(s, DropLayer(l)) && IsLive(s.branches, id)
    ensures Frozen(Next(s, DropLayer(l)).layers, s.branches[id]) == Frozen(s.layers, s.branches[id])
  {
    hide Inv; hide Walk; hide Frozen;
    DropStacks(s, l);
  }

  // ------------------------------------------------------------------ sealed volumes

  /** A freeze past the stop: the parent's old container is gone. */
  predicate Sealed(s: Store, id: Bid) {
    Freezing(s, id) && (s.branches[id].job.value.up || s.branches[id].name !in s.cons)
  }

  /** From then on no step reaches the parent's old stack, unless it acts on an
      outdated check. */
  lemma SealedStep(s: Store, e: Event, id: Bid, v: Vol)
    requires Inv(s) && Enabled(s, e) && Sealed(s, id) && v in Stack(PlanOf(s.layers, s.branches[id]))
    requires !Outdated(s, e)
    ensures Target(s, e) != Some(v)
  {
    hide Inv; hide Walk; hide VolsOf; hide Frozen; hide Outdated; hide Target; hide Enabled;
    MountedLive(s, id);
    assert Needs(s.layers, s.branches[id], v);
    if Target(s, e) == Some(v) {
      Reaches(s, e, id, v);
      OwnedForeign(s, id, v, id);
      SealedOwn(s, e, id);
    }
  }

  lemma SealedOwn(s: Store, e: Event, id: Bid)
    requires Inv(s) && Enabled(s, e) && Sealed(s, id) && !Outdated(s, e)
    ensures OwnStep(s.branches[id], id, e) ==> Target(s, e) != Some(s.branches[id].rw)
  {
    hide Inv; hide Walk; hide VolsOf; hide NoDependent;
    MountedAt(s, id);
    assert s.branches[id].job.value.plan.rw in Fresh(s.branches[id]);
    if OwnStep(s.branches[id], id, e) {
      match e {
        case Write(_, _, _) =>
        case MakeVol(_) =>
        case DropVol(_) =>
        case RemoveStuck(w) =>
          ClearedAt(s, w);
          SweepAt(s, w);
        case Teardown(_) =>
      }
    }
  }

  /** No removal acts on an outdated check from step i on up to step k. */
  ghost predicate NoneOutdated(ss: seq<Store>, es: seq<Event>, i: nat, k: nat) {
    |ss| == |es| + 1 && forall j :: i <= j < k && j < |es| ==> !Outdated(ss[j], es[j])
  }

  /** A stretch of a run over which a freeze is past its stop. */
  ghost predicate SealedThrough(ss: seq<Store>, es: seq<Event>, i: nat, k: nat, id: Bid) {
    && Run(ss, es) && i <= k <= |es|
    && (forall j :: i <= j <= k ==> Sealed(ss[j], id))
  }

  lemma SealedNext(s: Store, e: Event, id: Bid)
    requires Inv(s) && Enabled(s, e) && Sealed(s, id) && Sealed(Next(s, e), id) && !Outdated(s, e)
    ensures var t := Next(s, e); PlanOf(t.layers, t.branches[id]) == PlanOf(s.layers, s.branches[id])
    ensures var stack := Stack(PlanOf(s.layers, s.branches[id]));
      Contents(Next(s, e).vols, stack) == Contents(s.vols, stack)
  {
    hide Walk; hide VolsOf; hide Frozen; hide NextRows; hide NextCons; hide NextDoomed; hide NextVols; hide NextReused;
    hide Inv; hide Target; hide Outdated;
    MountedLive(s, id);
    SealedNoCommit(s, e, id);
    StackStays(s, e, id);
    var t, stack := Next(s, e), Stack(PlanOf(s.layers, s.branches[id]));
    forall i | 0 <= i < |stack| ensures Contents(t.vols, stack)[i] == Contents(s.vols, stack)[i] {
      SealedStep(s, e, id, stack[i]);
      OnlyTarget(s, e, stack[i]);
    }
  }

  /** A commit would end the freeze. */
  lemma SealedNoCommit(s: Store, e: Event, id: Bid)
    requires Inv(s) && Enabled(s, e) && Sealed(s, id) && Sealed(Next(s, e), id)
    ensures !CommitOf(s, e, id)
  {
    hide Walk; hide VolsOf; hide PlanOf; hide Structure; hide Contained; hide DoomedNoSource; hide Mounted;
    hide NextVols; hide NextReused;
    if e.Commit? {
      CommitStacks(s, e.id, e.l);
      FreezePair(s, e.id);
    }
  }

  /** Over such a stretch the parent's recorded stack and all it holds stay. */
  lemma {:induction false} SealedView(ss: seq<Store>, es: seq<Event>, i: nat, k: nat, id: Bid)
    requires SealedThrough(ss, es, i, k, id) && NoneOutdated(ss, es, i, k)
    ensures var stack := Stack(PlanOf(ss[i].layers, ss[i].branches[id]));
      && PlanOf(ss[k].layers, ss[k].branches[id]) == PlanOf(ss[i].layers, ss[i].branches[id])
      && Contents(ss[k].vols, stack) == Contents(ss[i].vols, stack)
    decreases k
  {
    hide Inv; hide Enabled; hide Next; hide PlanOf; hide Freezing; hide Outdated; hide Contents; hide Stack;
    if i < k {
      assert Sealed(ss[k - 1], id) && Sealed(ss[k], id) && !Outdated(ss[k - 1], es[k - 1]);
      assert ss[k] == Next(ss[k - 1], es[k - 1]);
      SealedView(ss, es, i, k - 1, id);
      RunInv(ss, es, k - 1);
      SealedNext(ss[k - 1], es[k - 1], id);
    }
  }

  // ------------------------------------------------------------------- fresh volumes

  /** A saga with the same plan as the other. */
  predicate Continues(b: Branch, b': Branch) {
    b.job.Some? && b'.job.Some? && b'.job.value.kind == b.job.value.kind && b'.job.value.plan == b.job.value.plan
  }

  /** Where a freeze, a freeze's child or a build comes from: it goes on from
      before the step, having made its volume before or just now, or it begins
      and has made nothing. */
  predicate JobFrom(s: Store, e: Event, id: Bid, b': Branch)
    requires b'.job.Some?
  {
    || (id in s.branches && Continues(s.branches[id], b') &&
        (b'.job.value.made ==> s.branches[id].job.value.made || e == MakeVol(id)))
    || (!b'.job.value.made &&
        (b'.job.value.kind.Freeze? ==> e.BeginFreeze? && e.id == id && e.child == b'.job.value.kind.child))
  }

  lemma RowJobFrom(s: Store, e: Event, id: Bid)
    requires Enabled(s, e) && IsRowEvent(e) && id in Next(s, e).branches && Next(s, e).branches[id].job.Some?
    ensures JobFrom(s, e, id, Next(s, e).branches[id])
  {
    hide Enabled; hide Next; hide AfterStep;
    RowEventNext(s, e);
    if id == e.id {
      RowEventJob(s, e);
    }
  }

  lemma RowEventJob(s: Store, e: Event)
    requires Enabled(s, e) && IsRowEvent(e) && e.id in s.branches && AfterStep(s, e).job.Some?
    ensures AfterStep(s, e) == s.branches[e.id].(state := AfterStep(s, e).state)
      || (!AfterStep(s, e).job.value.made && !AfterStep(s, e).job.value.kind.Freeze?)
  {
  }

  lemma StepJobFrom(s: Store, e: Event, id: Bid)
    requires Inv(s) && Enabled(s, e) && id in Next(s, e).branches
    requires Next(s, e).branches[id].job.Some? && !Next(s, e).branches[id].job.value.kind.Keep?
    ensures JobFrom(s, e, id, Next(s, e).branches[id])
  {
    hide Inv;
    if IsRowEvent(e) {
      RowJobFrom(s, e, id);
    } else if e.Commit? {
      CommitStacks(s, e.id, e.l);
      hide NextVols; hide NextReused; hide NextLayers; hide PlanOf; hide Frozen;
    } else if e.Crash? || e.Abort? {
      EndJobFrom(s, e, id);
    } else {
      OtherJobFrom(s, e, id);
    }
  }

  lemma EndJobFrom(s: Store, e: Event, id: Bid)
    requires Enabled(s, e) && (e.Crash? || e.Abort?) && id in Next(s, e).branches
    requires Next(s, e).branches[id].job.Some? && !Next(s, e).branches[id].job.value.kind.Keep?
    ensures JobFrom(s, e, id, Next(s, e).branches[id])
  {
    hide NextVols; hide NextReused; hide NextLayers; hide PlanOf; hide Frozen;
  }

  lemma OtherJobFrom(s: Store, e: Event, id: Bid)
    requires Enabled(s, e) && !IsRowEvent(e) && !e.Commit? && !e.Crash? && !e.Abort? && id in Next(s, e).branches
    requires Next(s, e).branches[id].job.Some?
    ensures JobFrom(s, e, id, Next(s, e).branches[id])
  {
    hide PlanOf; hide Frozen; hide NextVols; hide NextReused; hide NextLayers; hide Used; hide NoDependent;
    hide InLiveSet; hide ZeroRefs; hide NameFree;
  }

  /** The stretch of a run over which a row's saga works on its volume v. */
  ghost predicate MadeThrough(ss: seq<Store>, es: seq<Event>, m: nat, k: nat, id: Bid, v: Vol) {
    && Run(ss, es) && m < k <= |es| && es[m] == MakeVol(id)
    && forall j :: m < j <= k ==> MadeAt(ss[j], id, v)
  }

  predicate MadeAt(s: Store, id: Bid, v: Vol) {
    Runs(s, id) && s.branches[id].job.value.made && s.branches[id].job.value.plan.rw == v
  }

  /** A saga that has made its volume made it at some step, and has worked on it
      since. */
  lemma {:induction false} MadeSince(ss: seq<Store>, es: seq<Event>, k: nat, id: Bid, v: Vol) returns (m: nat)
    requires Run(ss, es) && k <= |es| && MadeAt(ss[k], id, v)
    ensures MadeThrough(ss, es, m, k, id, v)
    decreases k
  {
    hide Inv; hide Enabled; hide Next;
    RunInv(ss, es, k);
    MountedAt(ss[k], id);
    assert k > 0;
    RunInv(ss, es, k - 1);
    assert ss[k] == Next(ss[k - 1], es[k - 1]);
    StepJobFrom(ss[k - 1], es[k - 1], id);
    m := k - 1;
    if id in ss[k - 1].branches && MadeAt(ss[k - 1], id, v) {
      m := MadeSince(ss, es, k - 1, id, v);
    }
  }

  /** The writes that went to v from step i on up to step k, as a volume holds
      them. */
  ghost function WritesTo(ss: seq<Store>, es: seq<Event>, i: nat, k: nat, v: Vol): Content
    requires |ss| == |es| + 1 && k <= |es|
    decreases k
  {
    if k <= i then map[]
    else
      var before := WritesTo(ss, es, i, k - 1, v);
      var e := es[k - 1];
      if e.Write? && e.name in ss[k - 1].cons && ss[k - 1].cons[e.name].rw == v then Written(before, e.path, e.data)
      else before
  }

  /** What a saga has made changes only by writes through its row's container. */
  lemma MadeStep(s: Store, e: Event, id: Bid, v: Vol)
    requires Inv(s) && Enabled(s, e) && MadeAt(s, id, v) && MadeAt(Next(s, e), id, v) && !Outdated(s, e) && v in s.vols
    ensures v in Next(s, e).vols
    ensures Next(s, e).vols[v] ==
      if e.Write? && s.cons[e.name].rw == v then Written(s.vols[v], e.path, e.data) else s.vols[v]
  {
    hide Walk; hide VolsOf; hide Frozen; hide Outdated; hide NextRows; hide NextCons; hide NextDoomed;
    MountedAt(s, id);
    MountedLive(s, id);
    assert Needs(s.layers, s.branches[id], v);
    if Target(s, e) == Some(v) && !e.Write? {
      Reaches(s, e, id, v);
      MadeOwn(s, e, id, v);
    } else if !e.Write? {
      OnlyTarget(s, e, v);
    }
  }

  lemma MadeOwn(s: Store, e: Event, id: Bid, v: Vol)
    requires Inv(s) && Enabled(s, e) && MadeAt(s, id, v) && MadeAt(Next(s, e), id, v) && !Outdated(s, e)
    ensures OwnStep(s.branches[id], id, e) ==> e.Write?
  {
    MountedAt(s, id);
    if e.RemoveStuck? {
      ClearedAt(s, e.w);
      SweepAt(s, e.w);
    }
    hide Walk; hide VolsOf; hide Structure; hide Linked; hide DoomedNoSource; hide Contained; hide Mounted;
    hide Sweeping; hide NextVols;
    hide NextReused; hide NextLayers;
  }

  /** A volume a saga has made holds exactly what was written to it since, in the
      order it was written. */
  lemma {:induction false} MadeContent(ss: seq<Store>, es: seq<Event>, m: nat, k: nat, id: Bid, v: Vol)
    requires MadeThrough(ss, es, m, k, id, v) && NoneOutdated(ss, es, m, k)
    ensures v in ss[k].vols && ss[k].vols[v] == WritesTo(ss, es, m + 1, k, v)
    decreases k
  {
    hide Inv; hide Enabled; hide Outdated; hide Next; hide MadeAt; hide Written;
    assert ss[k] == Next(ss[k - 1], es[k - 1]);
    if k == m + 1 {
      assert MadeAt(ss[m + 1], id, v);
      JustMade(ss[m], id, v);
    } else {
      assert MadeAt(ss[k - 1], id, v) && MadeAt(ss[k], id, v);
      MadeContent(ss, es, m, k - 1, id, v);
      RunInv(ss, es, k - 1);
      WriterUp(ss[k - 1], es[k - 1]);
      MadeStep(ss[k - 1], es[k - 1], id, v);
    }
  }

  lemma JustMade(s: Store, id: Bid, v: Vol)
    requires Enabled(s, MakeVol(id)) && MadeAt(Next(s, MakeVol(id)), id, v)
    ensures v in Next(s, MakeVol(id)).vols && Next(s, MakeVol(id)).vols[v] == map[]
  {
  }

  lemma WriterUp(s: Store, e: Event)
    requires Enabled(s, e)
    ensures e.Write? ==> e.name in s.cons
  {
  }

  /** Writes to a volume of a branch's name go through that branch's container,
      so where it writes nothing the volume stays empty. */
  lemma {:induction false} NoWritesTo(ss: seq<Store>, es: seq<Event>, i: nat, k: nat, v: Vol)
    requires Run(ss, es) && k <= |es| && v.Rw?
    requires forall j :: i <= j < k && es[j].Write? ==> es[j].name != v.name
    ensures WritesTo(ss, es, i, k, v) == map[]
    decreases k
  {
    hide Inv; hide Enabled; hide Next;
    if i < k {
      NoWritesTo(ss, es, i, k - 1, v);
      RunInv(ss, es, k - 1);
      WriterNamed(ss[k - 1]);
    }
  }

  lemma WriterNamed(s: Store)
    requires Inv(s)
    ensures forall n :: n in s.cons ==> s.cons[n].rw.Rw? && s.cons[n].rw.name == n
  {
    hide Structure; hide Linked; hide DoomedNoSource; hide Mounted; hide Sweeping;
  }

  // ------------------------------------------------------------------ the whole freeze

  /** A freeze under way began at some step, with the same child and plan. */
  lemma {:induction false} FreezeSince(ss: seq<Store>, es: seq<Event>, k: nat, id: Bid) returns (b: nat)
    requires Run(ss, es) && k <= |es| && Freezing(ss[k], id)
    ensures b < k && es[b].BeginFreeze? && es[b].id == id && es[b].child == ss[k].branches[id].job.value.kind.child
    ensures forall j :: b < j <= k ==> Freezing(ss[j], id) && Continues(ss[j].branches[id], ss[k].branches[id])
    decreases k
  {
    hide Inv; hide Enabled; hide Next;
    assert k > 0;
    RunInv(ss, es, k - 1);
    assert ss[k] == Next(ss[k - 1], es[k - 1]);
    StepJobFrom(ss[k - 1], es[k - 1], id);
    b := k - 1;
    if id in ss[k - 1].branches && Continues(ss[k - 1].branches[id], ss[k].branches[id]) {
      b := FreezeSince(ss, es, k - 1, id);
    }
  }

  /** The moment the parent stops: from there on the freeze is sealed. */
  lemma StopOf(ss: seq<Store>, es: seq<Event>, b: nat, m: nat, k: nat, id: Bid) returns (i: nat)
    requires b < m && SealedThrough(ss, es, m, k, id)
    ensures b < i <= m && SealedThrough(ss, es, i, k, id) && (i == b + 1 || !Sealed(ss[i - 1], id))
  {
    hide Enabled; hide Next; hide Sealed;
    i := m;
    while b + 1 < i && Sealed(ss[i - 1], id)
      invariant b < i <= m && forall j :: i <= j <= k ==> Sealed(ss[j], id)
    {
      i := i - 1;
    }
  }

  /** A commit touches no volume. */
  lemma CommitVols(s: Store, id: Bid, l: Lid)
    requires Enabled(s, Commit(id, l))
    ensures Next(s, Commit(id, l)).vols == s.vols
  {
    hide NextRows;
  }

  /** The indices of a freeze that commits at step k: it begins at b, the parent
      stops at i, and the two fresh volumes are made at mp and mc. */
  ghost predicate FreezeAt(ss: seq<Store>, es: seq<Event>, b: nat, i: nat, mp: nat, mc: nat, k: nat, id: Bid,
                           child: Bid) {
    && Run(ss, es) && b < i <= mp < k < |es| && b < mc < k
    && es[b].BeginFreeze? && es[b].id == id && es[b].child == child
    && SealedThrough(ss, es, i, k, id) && (i == b + 1 || !Sealed(ss[i - 1], id))
    && es[mp] == MakeVol(id) && es[mc] == MakeVol(child)
  }

  /** Every freeze that commits, in every run, whatever else runs beside it: what
      parent and child see afterwards is what the parent saw when it stopped,
      under the writes each has made itself since its fresh volume was made; and
      where it has made none, exactly what the parent saw.  The one exception is
      a removal during the freeze that acts on an outdated check. */
  lemma FreezeChangesNoData(ss: seq<Store>, es: seq<Event>, k: nat, id: Bid, l: Lid)
    returns (child: Bid, b: nat, i: nat, mp: nat, mc: nat)
    requires Run(ss, es) && k < |es| && es[k] == Commit(id, l)
    ensures FreezeAt(ss, es, b, i, mp, mc, k, id, child) && id in ss[k + 1].branches && child in ss[k + 1].branches
    ensures NoneOutdated(ss, es, b, k) ==>
        SeenAtStop(ss, es, i, mp, k, id, id) && SeenAtStop(ss, es, i, mc, k, id, child)
  {
    hide Inv; hide Enabled; hide Next; hide View; hide WritesTo; hide Contents; hide MadeThrough;
    child, b, i, mp, mc := FreezeIndices(ss, es, k, id, l);
    CommitChangesNoData(ss, es, k, id, l);
    if NoneOutdated(ss, es, b, k) {
      FreezeViews(ss, es, k, id, l, child, b, i, mp, mc);
      SeenSo(ss, es, i, mp, k, id, id);
      SeenSo(ss, es, i, mc, k, id, child);
    }
  }

  /** After step k branch c sees what the parent saw at the stop i under its own
      writes since step m, and exactly that if it has written nothing. */
  ghost predicate SeenAtStop(ss: seq<Store>, es: seq<Event>, i: nat, m: nat, k: nat, id: Bid, c: Bid)
    requires |ss| == |es| + 1 && i <= k < |es| && id in ss[i].branches && c in ss[k + 1].branches
  {
    var t, was := ss[k + 1], ss[i];
    var b := t.branches[c];
    var held := Contents(was.vols, Stack(PlanOf(was.layers, was.branches[id])));
    && (forall q :: View(t, b, q) == Lookup([WritesTo(ss, es, m + 1, k, b.rw)] + held, q))
    && (NoWriteBy(es, m, k, b.name) ==> forall q :: View(t, b, q) == View(was, was.branches[id], q))
  }

  lemma SeenSo(ss: seq<Store>, es: seq<Event>, i: nat, m: nat, k: nat, id: Bid, c: Bid)
    requires Run(ss, es) && i <= k < |es| && id in ss[i].branches && c in ss[k + 1].branches
    requires ss[k + 1].branches[c].rw.Rw? && ss[k + 1].branches[c].rw.name == ss[k + 1].branches[c].name
    requires OverHeld(ss[k + 1], ss[k + 1].branches[c], WritesTo(ss, es, m + 1, k, ss[k + 1].branches[c].rw),
                      Contents(ss[i].vols, Stack(PlanOf(ss[i].layers, ss[i].branches[id]))))
    ensures SeenAtStop(ss, es, i, m, k, id, c)
  {
    hide Enabled; hide Next; hide Contents; hide WritesTo;
    if NoWriteBy(es, m, k, ss[k + 1].branches[c].name) {
      NoWritesTo(ss, es, m + 1, k, ss[k + 1].branches[c].rw);
    }
  }

  /** No write goes through the named container from step i on up to step k. */
  predicate NoWriteBy(es: seq<Event>, i: nat, k: nat, name: Name) {
    forall j :: i <= j < k && j < |es| && es[j].Write? ==> es[j].name != name
  }

  lemma FreezeIndices(ss: seq<Store>, es: seq<Event>, k: nat, id: Bid, l: Lid)
    returns (child: Bid, b: nat, i: nat, mp: nat, mc: nat)
    requires Run(ss, es) && k < |es| && es[k] == Commit(id, l)
    ensures FreezeAt(ss, es, b, i, mp, mc, k, id, child)
    ensures Freezing(ss[k], id) && child == ss[k].branches[id].job.value.kind.child && Runs(ss[k], child)
    ensures MadeThrough(ss, es, mp, k, id, ss[k].branches[id].job.value.plan.rw)
    ensures MadeThrough(ss, es, mc, k, child, ss[k].branches[child].job.value.plan.rw)
  {
    RunInv(ss, es, k);
    assert Enabled(ss[k], es[k]);
    hide Inv; hide Next; hide Walk; hide VolsOf;
    FreezePair(ss[k], id);
    child := ss[k].branches[id].job.value.kind.child;
    MountedAt(ss[k], id);
    MountedAt(ss[k], child);
    hide Enabled;
    b := FreezeSince(ss, es, k, id);
    mp := MadeSince(ss, es, k, id, ss[k].branches[id].job.value.plan.rw);
    mc := MadeSince(ss, es, k, child, ss[k].branches[child].job.value.plan.rw);
    BeganUnmade(ss[b], es[b]);
    assert ss[b + 1] == Next(ss[b], es[b]);
    assert !MadeAt(ss[b + 1], id, ss[k].branches[id].job.value.plan.rw);
    assert !MadeAt(ss[b + 1], child, ss[k].branches[child].job.value.plan.rw);
    forall j | mp <= j <= k ensures Sealed(ss[j], id) {
      RunInv(ss, es, j);
      MakerSealed(ss[j], id, j == mp);
    }
    i := StopOf(ss, es, b, mp, k, id);
  }

  lemma BeganUnmade(s: Store, e: Event)
    requires Enabled(s, e) && e.BeginFreeze?
    ensures Runs(Next(s, e), e.id) && !Next(s, e).branches[e.id].job.value.made
    ensures Runs(Next(s, e), e.child) && !Next(s, e).branches[e.child].job.value.made
  {
    hide PlanOf; hide Frozen; hide Used; hide NextVols; hide NextReused;
  }

  /** A freeze makes its volume only once the parent has stopped. */
  lemma MakerSealed(s: Store, id: Bid, making: bool)
    requires Inv(s) && Freezing(s, id) && if making then Enabled(s, MakeVol(id)) else s.branches[id].job.value.made
    ensures Sealed(s, id)
  {
    hide Walk; hide VolsOf;
    MountedAt(s, id);
  }

  lemma FreezeViews(ss: seq<Store>, es: seq<Event>, k: nat, id: Bid, l: Lid, child: Bid, b: nat, i: nat, mp: nat,
                    mc: nat)
    requires FreezeAt(ss, es, b, i, mp, mc, k, id, child) && es[k] == Commit(id, l) && NoneOutdated(ss, es, b, k)
    requires Freezing(ss[k], id) && child == ss[k].branches[id].job.value.kind.child && Runs(ss[k], child)
    requires MadeThrough(ss, es, mp, k, id, ss[k].branches[id].job.value.plan.rw)
    requires MadeThrough(ss, es, mc, k, child, ss[k].branches[child].job.value.plan.rw)
    ensures id in ss[k + 1].branches && child in ss[k + 1].branches
    ensures var t, was := ss[k + 1], ss[i];
      var held := Contents(was.vols, Stack(PlanOf(was.layers, was.branches[id])));
      && OverHeld(t, t.branches[id], WritesTo(ss, es, mp + 1, k, t.branches[id].rw), held)
      && OverHeld(t, t.branches[child], WritesTo(ss, es, mc + 1, k, t.branches[child].rw), held)
    ensures ss[k + 1].branches[id].rw.Rw? && ss[k + 1].branches[id].rw.name == ss[k + 1].branches[id].name
    ensures ss[k + 1].branches[child].rw.Rw? && ss[k + 1].branches[child].rw.name == ss[k + 1].branches[child].name
  {
    var v, w := ss[k].branches[id].job.value.plan.rw, ss[k].branches[child].job.value.plan.rw;
    MadeContent(ss, es, mp, k, id, v);
    MadeContent(ss, es, mc, k, child, w);
    SealedView(ss, es, i, k, id);
    CommitChangesNoData(ss, es, k, id, l);
    CommitVols(ss[k], id, l);
    RunInv(ss, es, k);
    RunInv(ss, es, k + 1);
    CommitStacks(ss[k], id, l);
    MountedAt(ss[k], child);
    MountedAt(ss[k + 1], id);
    MountedAt(ss[k + 1], child);
    hide Inv; hide Enabled; hide Next; hide View; hide WritesTo; hide Contents;
    var t := ss[k + 1];
    var stack := Stack(PlanOf(ss[i].layers, ss[i].branches[id]));
    TopOver(t, t.branches[id], stack);
    TopOver(t, t.branches[child], stack);
  }

  /** A branch sees the entries of top over what the layers below held, and
      nothing but what they held if top has no entries. */
  ghost predicate OverHeld(t: Store, b: Branch, top: Content, held: seq<Content>) {
    && (forall q :: View(t, b, q) == Lookup([top] + held, q))
    && (top == map[] ==> forall q :: View(t, b, q) == Lookup(held, q))
  }

  lemma TopOver(t: Store, b: Branch, stack: seq<Vol>)
    requires Stack(PlanOf(t.layers, b)) == [b.rw] + stack && b.rw in t.vols
    ensures OverHeld(t, b, t.vols[b.rw], Contents(t.vols, stack))
  {
    assert Contents(t.vols, [b.rw] + stack) == [t.vols[b.rw]] + Contents(t.vols, stack);
    EmptyOnTop(Contents(t.vols, stack));
  }
}
