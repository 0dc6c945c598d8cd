/** What the store promises its branches over whole runs: isolation of writes,
    a freeze that changes no data, and collectors that remove nothing anyone
    depends on. */
module StoreSafety {
  import opened Wrappers
  import opened Layers
  import opened Overlay
  import opened Store
  import opened StoreInv

  // -------------------------------------------------------------------- isolation

  /** The volumes of a stack, topmost first. */
  function Stack(m: Mount): seq<Vol> { [m.rw] + m.layers + [m.src] }

  /** In every state of every run a live branch's writable volume is nobody
      else's: not another branch's, live or not, nor claimed by one, not a
      frozen layer, not a source volume. */
  lemma WritableApart(ss: seq<Store>, es: seq<Event>, i: nat, id: Bid)
    requires Run(ss, es) && i <= |es| && IsLive(ss[i].branches, id)
    ensures var s := ss[i]; var v := s.branches[id].rw;
      && (forall j :: j in s.branches && j != id ==>
          v !in Stack(PlanOf(s.layers, s.branches[j])) && s.branches[j].pending != Some(v))
      && (forall l :: l in s.layers ==> s.layers[l].vol != v)
      && (forall sid :: !SourceHas(s.sources, sid, v))
  {
    hide Enabled; hide Next; hide Walk;
    RunInv(ss, es, i);
    var s := ss[i];
    MountedAt(s, id);
    assert s.branches[id].rw in Owned(s.branches[id]);
    forall j | j in s.branches && j != id
      ensures s.branches[id].rw !in Stack(PlanOf(s.layers, s.branches[j]))
      ensures s.branches[j].pending != Some(s.branches[id].rw)
    {
      OwnedForeign(s, id, s.branches[id].rw, j);
    }
    forall l | l in s.layers ensures s.layers[l].vol != s.branches[id].rw {
      assert s.layers[l].vol !in Owned(s.branches[id]);
    }
  }

  /** A volume one row owns is in no other row's stack, and in its own only as
      the writable one. */
  lemma OwnedForeign(s: Store, id: Bid, v: Vol, j: Bid)
    requires Inv(s) && id in s.branches && j in s.branches && v in Owned(s.branches[id])
    ensures v !in Frozen(s.layers, s.branches[j]) && v != s.branches[j].src
    ensures j != id ==> v != s.branches[j].rw && s.branches[j].pending != Some(v)
  {
    hide Walk; hide DoomedUnneeded; hide DoomedNoSource; hide CondemnedUnused; hide Mounted; hide Linked; hide OneLive;
    hide Chains;
    assert WellNamed(s.branches[id]) && FromSource(s.sources, s.branches[j].src);
    FrozenAvoids(s.layers, s.branches[j], v);
    if j != id {
      assert Owned(s.branches[id]) !! Owned(s.branches[j]);
    }
  }

  lemma OnlyTarget(s: Store, e: Event, v: Vol)
    requires Enabled(s, e) && Target(s, e) != Some(v)
    ensures v in Next(s, e).vols <==> v in s.vols
    ensures v in s.vols ==> Next(s, e).vols[v] == s.vols[v]
  {
    hide Enabled; hide NextRows; hide NextCons; hide NextDoomed; hide NextReused; hide NextLayers; hide Target;
    hide Holds;
  }

  /** A branch's own doing: a write through its container, or a step of its own
      saga, teardown or stuck handling. */
  predicate OwnStep(b: Branch, id: Bid, e: Event) {
    match e
    case Write(name, _, _) => name == b.name
    case MakeVol(i) => i == id
    case DropVol(i) => i == id
    case RemoveStuck(w) => w.id == id
    case Teardown(i) => i == id
    case _ => false
  }

  /** What a saga builds or drops belongs to its row. */
  lemma PlanOwned(s: Store, id: Bid)
    requires Inv(s) && Runs(s, id)
    ensures s.branches[id].job.value.plan.rw in Owned(s.branches[id])
  {
    hide Walk; hide VolsOf;
    MountedAt(s, id);
  }

  lemma FrozenIsLayer(s: Store, b: Branch, v: Vol)
    requires v in Frozen(s.layers, b)
    ensures exists l :: l in s.layers && s.layers[l].vol == v
  {
    var i :| 0 <= i < |Frozen(s.layers, b)| && Frozen(s.layers, b)[i] == v;
    assert Walk(s.layers, b.base)[i] in s.layers;
  }

  /** A step reaches a volume a live branch depends on only as the branch's own
      step on a volume of its own, or by acting on an outdated check. */
  lemma Reaches(s: Store, e: Event, id: Bid, v: Vol)
    requires Inv(s) && Enabled(s, e) && id in s.branches && Needs(s.layers, s.branches[id], v)
    requires Target(s, e) == Some(v)
    ensures (v in Owned(s.branches[id]) && OwnStep(s.branches[id], id, e)) || Outdated(s, e)
  {
    hide Walk; hide VolsOf; hide Frozen; hide Inv; hide Used; hide NoDependent; hide NoChildInFlight; hide InLiveSet;
    hide ZeroRefs; hide NameFree;
    match e {
      case AddSource(_, _) => SourceTarget(s, e, id, v);
      case SeedNext(_, _) => SourceTarget(s, e, id, v);
      case DropNext(_) => SourceTarget(s, e, id, v);
      case MakeVol(i) => PlanOwned(s, i); OwnedForeign(s, i, v, id);
      case DropVol(i) => PlanOwned(s, i); OwnedForeign(s, i, v, id);
      case RemoveStuck(w) => SweepTarget(s, w, id, v);
      case Teardown(i) => OwnedForeign(s, i, v, id);
      case Write(name, _, _) => WriteTarget(s, name, id, v);
      case Collect(_) => CollectTarget(s, id, v);
    }
  }

  lemma SourceTarget(s: Store, e: Event, id: Bid, v: Vol)
    requires Inv(s) && Enabled(s, e) && id in s.branches && Target(s, e) == Some(v)
    requires e.AddSource? || e.SeedNext? || e.DropNext?
    ensures !Needs(s.layers, s.branches[id], v)
  {
    hide Walk; hide DoomedUnneeded; hide DoomedNoSource; hide CondemnedUnused; hide Mounted; hide Linked; hide OneLive;
    hide Chains; hide Sweeping;
    assert WellNamed(s.branches[id]) && v !in Owned(s.branches[id]) && FromSource(s.sources, s.branches[id].src);
    FrozenAvoids(s.layers, s.branches[id], v);
  }

  lemma WriteTarget(s: Store, name: Name, id: Bid, v: Vol)
    requires Inv(s) && name in s.cons && v == s.cons[name].rw && id in s.branches && Needs(s.layers, s.branches[id], v)
    ensures v in Owned(s.branches[id]) && s.branches[id].name == name
  {
    hide Walk; hide VolsOf; hide DoomedUnneeded; hide DoomedNoSource; hide CondemnedUnused; hide Mounted; hide Linked;
    hide OneLive; hide Chains;
    hide Sweeping;
    assert WellNamed(s.branches[id]) && FromSource(s.sources, s.branches[id].src);
    if v in Frozen(s.layers, s.branches[id]) {
      FrozenIsLayer(s, s.branches[id], v);
    }
  }

  lemma CollectTarget(s: Store, id: Bid, v: Vol)
    requires Inv(s) && v in s.doomed && id in s.branches && Needs(s.layers, s.branches[id], v)
    ensures v in s.reused
  {
    hide Needs; hide Named; hide Apart; hide OneLive; hide LayersApart; hide Chains; hide Sourced; hide CondemnedUnused;
  }

  lemma SweepAt(s: Store, w: Sweep)
    requires Inv(s) && w in s.sweeps
    ensures w.id in s.branches && SweepOk(s.branches[w.id], w)
  {
    hide Structure; hide Linked; hide Mounted; hide DoomedNoSource; hide Contained; hide Unclaimed;
  }

  lemma ClearedAt(s: Store, w: Sweep)
    requires Inv(s) && w in s.cleared
    ensures w in s.sweeps && w.id in s.branches
    ensures Current(s, w) && Live(s.branches[w.id]) ==> NoDependent(s.branches, s.branches[w.id].name, w.vol)
  {
    hide Structure; hide Linked; hide Mounted; hide DoomedNoSource; hide Contained; hide NoDependent;
  }

  lemma SweepTarget(s: Store, w: Sweep, id: Bid, v: Vol)
    requires Inv(s) && w in s.cleared && w.vol == v && id in s.branches && Needs(s.layers, s.branches[id], v)
    ensures (v in Owned(s.branches[id]) && w.id == id) || !Current(s, w)
  {
    hide Inv; hide Walk; hide VolsOf; hide Frozen;
    ClearedAt(s, w);
    SweepAt(s, w);
    if Current(s, w) {
      OwnedForeign(s, w.id, v, id);
    }
  }

  /** Isolation over whole runs: whatever step comes next, the frozen layers and
      the source under a live branch stay as they are, and so does its writable
      volume unless the step is its own.  The one exception is a removal that
      acts on an outdated check. */
  lemma Undisturbed(ss: seq<Store>, es: seq<Event>, i: nat, id: Bid, v: Vol)
    requires Run(ss, es) && i < |es| && IsLive(ss[i].branches, id) && !Outdated(ss[i], es[i])
    requires v in Stack(PlanOf(ss[i].layers, ss[i].branches[id]))
    requires v == ss[i].branches[id].rw ==> !OwnStep(ss[i].branches[id], id, es[i])
    ensures v in ss[i + 1].vols <==> v in ss[i].vols
    ensures v in ss[i].vols ==> ss[i + 1].vols[v] == ss[i].vols[v]
  {
    hide Inv; hide Walk; hide VolsOf; hide Frozen; hide Target; hide Enabled; hide Next; hide OwnStep; hide Outdated;
    RunInv(ss, es, i);
    var b := ss[i].branches[id];
    assert Needs(ss[i].layers, b, v);
    if Target(ss[i], es[i]) == Some(v) {
      Reaches(ss[i], es[i], id, v);
      OwnedForeign(ss[i], id, v, id);
    } else {
      OnlyTarget(ss[i], es[i], v);
    }
  }

  // ------------------------------------------------------------ collectors are safe

  /** Somebody depends on a volume: a live branch through its stack or its
      freeze's claim, or a source through its current or claimed generation. */
  ghost predicate Needed(s: Store, v: Vol) {
    || (exists id :: id in s.branches && Needs(s.layers, s.branches[id], v))
    || (exists sid :: sid in s.sources && SourceHas(s.sources, sid, v))
  }

  /** A branch whose container counts: it is ready, a live saga has started it,
      or a freeze has yet to stop it. */
  predicate Serving(b: Branch) { b.state.Ready? || (b.job.Some? && (b.job.value.up || b.job.value.kind.Freeze?)) }

  /** Every volume such a container mounts is one that a ready branch or one with
      a live saga depends on, in a freeze too, whose containers run on stacks no
      row records yet. */
  lemma MountsNeeded(s: Store, id: Bid, v: Vol) returns (j: Bid)
    requires Inv(s) && id in s.branches && Serving(s.branches[id]) && s.branches[id].name in s.cons
    requires v in Stack(s.cons[s.branches[id].name])
    ensures j in s.branches && !Idle(s.branches[j]) && Needs(s.layers, s.branches[j], v)
    ensures Needed(s, v)
  {
    hide Walk; hide VolsOf; hide Structure; hide DoomedNoSource; hide Contained; hide Linked; hide Sweeping;
    MountedAt(s, id);
    var b := s.branches[id];
    j := id;
    if b.job.Some? && b.job.value.kind.Child? {
      ChildPair(s, id);
      MountedAt(s, b.job.value.kind.parent);
      if !Needs(s.layers, b, v) {
        j := b.job.value.kind.parent;
      }
    }
  }

  lemma ChildPair(s: Store, id: Bid)
    requires Inv(s) && Runs(s, id) && s.branches[id].job.value.kind.Child?
    ensures ChildOf(s.branches, id, s.branches[id].job.value.kind.parent)
  {
    hide Structure; hide DoomedNoSource; hide Contained; hide Mounted;
  }

  /** A row that serves, with its container running. */
  predicate ServedAt(s: Store, id: Bid) {
    id in s.branches && Serving(s.branches[id]) && s.branches[id].name in s.cons
  }

  /** Collection is safe over whole runs: whichever check condemned it (a layer
      without references, an old source generation, a volume outside the live
      set) and whatever happened since, a volume removed is one nobody depends
      on, unless its name was recorded again in between. */
  lemma CollectSafe(ss: seq<Store>, es: seq<Event>, i: nat, v: Vol)
    requires Run(ss, es) && i < |es| && es[i] == Collect(v) && v !in ss[i].reused
    ensures !Needed(ss[i], v)
    ensures forall id :: ServedAt(ss[i], id) ==> v !in Stack(ss[i].cons[ss[i].branches[id].name])
  {
    hide Walk; hide Stack; hide Linked; hide Contained; hide Mounted; hide Named; hide Apart; hide OneLive;
    hide LayersApart; hide Chains;
    hide Sourced; hide CondemnedUnused; hide Needs; hide SourceHas; hide Next;
    RunInv(ss, es, i);
    var s := ss[i];
    forall id | id in s.branches && Serving(s.branches[id]) && s.branches[id].name in s.cons
      ensures v !in Stack(s.cons[s.branches[id].name])
    {
      if v in Stack(s.cons[s.branches[id].name]) {
        var j := MountsNeeded(s, id, v);
      }
    }
  }

  /** A step makes some row record a name a collector holds. */
  ghost predicate RecordsDoomed(s: Store, e: Event)
    requires Enabled(s, e)
  {
    Records(s, e).Some? && Records(s, e).value in s.doomed
  }

  /** Where no row ever records a name some collector still holds, every
      removal is safe. */
  lemma {:induction false} ClearRunsReuseNothing(ss: seq<Store>, es: seq<Event>, i: nat)
    requires Run(ss, es) && i <= |es|
    requires forall k :: 0 <= k < i ==> Enabled(ss[k], es[k]) && !RecordsDoomed(ss[k], es[k])
    ensures ss[i].reused == {}
    decreases i
  {
    hide Enabled; hide NextRows; hide NextCons; hide NextDoomed; hide NextVols; hide Records;
    if i > 0 {
      ClearRunsReuseNothing(ss, es, i - 1);
      assert ss[i].reused == NextReused(ss[i - 1], es[i - 1]);
    }
  }

  /** And the condition is tight: a step that records a name a collector holds
      makes that very volume one somebody depends on, with the collector still
      set on removing it. */
  lemma RecordingIsUnsafe(ss: seq<Store>, es: seq<Event>, i: nat, v: Vol)
    requires Run(ss, es) && i < |es| && Records(ss[i], es[i]) == Some(v) && v in ss[i].doomed
    ensures Needed(ss[i + 1], v) && v in ss[i + 1].doomed && v in ss[i + 1].reused
  {
    hide Enabled; hide Next; hide Records; hide Needed;
    if es[i].AddSource? || es[i].ClaimNext? {
      SourceRecorded(ss[i], es[i], v);
    } else {
      RowRecorded(ss[i], es[i], v);
    }
  }

  lemma SourceRecorded(s: Store, e: Event, v: Vol)
    requires Enabled(s, e) && (e.AddSource? || e.ClaimNext?) && Records(s, e) == Some(v) && v in s.doomed
    ensures Needed(Next(s, e), v) && v in Next(s, e).doomed && v in Next(s, e).reused
  {
    hide NextVols;
    assert SourceHas(Next(s, e).sources, e.sid, v);
  }

  lemma RowRecorded(s: Store, e: Event, v: Vol)
    requires Enabled(s, e) && !e.AddSource? && !e.ClaimNext? && Records(s, e) == Some(v) && v in s.doomed
    ensures Needed(Next(s, e), v) && v in Next(s, e).doomed && v in Next(s, e).reused
  {
    hide Walk; hide VolsOf; hide Frozen; hide Used; hide NameFree; hide NextVols;
    assert Needs(Next(s, e).layers, Next(s, e).branches[e.id], v);
  }

  // ----------------------------------------------------------- stuck rows are safe

  /** The removal that ends the stuck handling, however long after its swap and
      its count: if nobody has taken the row up again, the row is still at rest
      on that volume, no other branch has it in its stack or claim, no container
      that counts mounts it, and no child is waiting for it. */
  lemma SweepSafe(ss: seq<Store>, es: seq<Event>, i: nat, w: Sweep)
    requires Run(ss, es) && i < |es| && es[i] == RemoveStuck(w) && Current(ss[i], w)
    ensures Idle(ss[i].branches[w.id]) && ss[i].branches[w.id].rw == w.vol
    ensures forall j :: j in ss[i].branches && j != w.id ==> !Needs(ss[i].layers, ss[i].branches[j], w.vol)
    ensures forall j :: j in ss[i].branches && Serving(ss[i].branches[j]) && ss[i].branches[j].name in ss[i].cons ==>
      w.vol !in Stack(ss[i].cons[ss[i].branches[j].name])
    ensures Live(ss[i].branches[w.id]) ==> NoDependent(ss[i].branches, ss[i].branches[w.id].name, w.vol)
  {
    hide Inv; hide Walk; hide VolsOf; hide Frozen; hide Next; hide Stack; hide NoDependent;
    RunInv(ss, es, i);
    var s := ss[i];
    ClearedAt(s, w);
    SweepAt(s, w);
    forall j | j in s.branches && j != w.id ensures !Needs(s.layers, s.branches[j], w.vol) {
      OwnedForeign(s, w.id, w.vol, j);
    }
    forall j | j in s.branches && Serving(s.branches[j]) && s.branches[j].name in s.cons
      ensures w.vol !in Stack(s.cons[s.branches[j].name])
    {
      if w.vol in Stack(s.cons[s.branches[j].name]) {
        var k := MountsNeeded(s, j, w.vol);
      }
    }
  }

  /** And only then: once a reset or recover takes the row up, a live saga works
      on that very volume while the removal is still to come. */
  lemma TakingUpIsUnsafe(ss: seq<Store>, es: seq<Event>, i: nat, w: Sweep)
    requires Run(ss, es) && i < |es| && w in ss[i].cleared && Current(ss[i], w)
    requires es[i] == Reset(w.id) || es[i] == Recover(w.id)
    ensures !Current(ss[i + 1], w) && w in ss[i + 1].cleared
    ensures Runs(ss[i + 1], w.id) && ss[i + 1].branches[w.id].job.value.plan.rw == w.vol
  {
    RunInv(ss, es, i);
    hide Inv; hide Walk; hide VolsOf; hide NoChildInFlight; hide NextVols; hide NextLayers; hide NextReused;
    ClearedAt(ss[i], w);
    SweepAt(ss[i], w);
  }

  /** A row's round moves only when a reset or recover takes it up. */
  lemma RoundStays(s: Store, e: Event, id: Bid)
    requires Enabled(s, e) && id in s.branches && !((e.Reset? || e.Recover?) && e.id == id)
    ensures id in Next(s, e).branches && Next(s, e).branches[id].round == s.branches[id].round
  {
    if IsRowEvent(e) {
      hide Enabled; hide Next; hide AfterStep;
      RowEventNext(s, e);
      if !e.Reset? && !e.Recover? {
        RowEventRound(s, e);
      }
    } else {
      hide PlanOf; hide Frozen; hide NextVols; hide NextReused; hide NextLayers; hide Used; hide NoDependent;
      hide InLiveSet; hide ZeroRefs;
      hide NameFree; hide NoChildInFlight;
    }
  }

  lemma RowEventRound(s: Store, e: Event)
    requires Enabled(s, e) && IsRowEvent(e) && e.id in s.branches && !e.Reset? && !e.Recover?
    ensures AfterStep(s, e).round == s.branches[e.id].round
  {
  }

  /** Where no row is taken up while its stuck volume may still go, no such
      removal is ever outdated. */
  lemma {:induction false} SweepsStayCurrent(ss: seq<Store>, es: seq<Event>, i: nat, w: Sweep)
    requires Run(ss, es) && i <= |es| && w in ss[i].sweeps
    requires forall k :: 0 <= k < i && (es[k] == Reset(w.id) || es[k] == Recover(w.id)) ==> w !in ss[k].sweeps
    ensures Current(ss[i], w)
    decreases i
  {
    hide Inv; hide Enabled; hide Next;
    RunInv(ss, es, i);
    SweepAt(ss[i], w);
    if i > 0 {
      SweepOrigin(ss[i - 1], es[i - 1], w);
      if w in ss[i - 1].sweeps {
        SweepsStayCurrent(ss, es, i - 1, w);
        RoundStays(ss[i - 1], es[i - 1], w.id);
      }
    }
  }

  lemma SweepOrigin(s: Store, e: Event, w: Sweep)
    requires Enabled(s, e) && w in Next(s, e).sweeps
    ensures w in s.sweeps || (e == FailStuck(w.id) && Current(Next(s, e), w))
  {
    hide PlanOf; hide Frozen; hide NextVols; hide NextReused; hide NextLayers; hide Used; hide NoDependent;
    hide InLiveSet; hide ZeroRefs;
    hide NameFree; hide NoChildInFlight;
  }

  // ------------------------------------------------------ destroying under a saga

  /** DestroyBranch on a row whose saga still runs: the row is forced out of its
      transient state under it. */
  function Forced(s: Store, id: Bid, state: State): Store
    requires id in s.branches
  {
    SetRow(s, id, s.branches[id].(state := state))
  }

  /** A child whose saga has its container running. */
  predicate ChildUp(s: Store, c: Bid) {
    Runs(s, c) && s.branches[c].job.value.up && s.branches[c].name in s.cons
  }

  /** Names, chains and collectors stay in order: writable volumes are as
      separate as before. */
  lemma ForcedStaysApart(s: Store, id: Bid, state: State)
    requires Inv(s) && Runs(s, id) && (state.Failed? || state.Destroying? || state.Destroyed?)
    ensures Structured(Forced(s, id, state))
  {
    MountedLive(s, id);
    assert SameBranch(s.branches[id], s.branches[id].(state := state));
    hide Structure; hide SameBranch; hide Sweeping; hide Linked; hide Mounted; hide DoomedNoSource; hide Contained;
    SetRowKeeps(s, id, s.branches[id].(state := state));
  }

  /** But a layer only a freezing parent refers to loses its last reference when
      that parent is destroyed, while the child's container mounts it. */
  lemma ForcedExposesLayer(s: Store, id: Bid, l: Lid)
    requires Inv(s) && Freezing(s, id) && l in s.layers && l in Walk(s.layers, s.branches[id].base)
    requires forall j :: IsLive(s.branches, j) && j != id ==> l !in Walk(s.layers, s.branches[j].base)
    requires ChildUp(s, s.branches[id].job.value.kind.child)
    ensures var t, c := Forced(s, id, Destroyed), s.branches[id].job.value.kind.child;
      && ZeroRefs(t.branches, t.layers, l) && Serving(t.branches[c])
      && s.layers[l].vol in Stack(t.cons[t.branches[c].name])
  {
    hide Inv; hide Walk; hide Stack;
    var c := s.branches[id].job.value.kind.child;
    FreezePair(s, id);
    ChildMounts(s, id, l);
  }

  /** The child of a freeze runs on every layer of the parent's chain. */
  lemma ChildMounts(s: Store, id: Bid, l: Lid)
    requires Inv(s) && Freezing(s, id) && l in s.layers && l in Walk(s.layers, s.branches[id].base)
    requires ChildUp(s, s.branches[id].job.value.kind.child)
    ensures s.layers[l].vol in Stack(s.cons[s.branches[s.branches[id].job.value.kind.child].name])
  {
    hide Inv; hide Walk;
    var c := s.branches[id].job.value.kind.child;
    FreezePair(s, id);
    MountedAt(s, id);
    MountedAt(s, c);
    var w, m := Walk(s.layers, s.branches[id].base), s.cons[s.branches[c].name];
    var k :| 0 <= k < |w| && w[k] == l;
    assert Frozen(s.layers, s.branches[id])[k] == s.layers[l].vol;
    assert m.layers[k + 1] == s.layers[l].vol && Stack(m)[k + 2] == s.layers[l].vol;
  }

  /** A collected layer's name cannot come back while its row stands: the
      search for a fresh name asks the registry. */
  lemma StandingRowKeepsName(ss: seq<Store>, es: seq<Event>, i: nat, l: Lid)
    requires Run(ss, es) && i < |es| && l in ss[i].layers
    ensures Records(ss[i], es[i]) != Some(ss[i].layers[l].vol)
  {
    hide Walk; hide DoomedUnneeded; hide DoomedNoSource; hide CondemnedUnused; hide Mounted; hide Linked; hide OneLive;
    hide Chains; hide Next;
    RunInv(ss, es, i);
    var s := ss[i];
    if es[i].Claim? {
      assert s.layers[l].vol !in Owned(s.branches[es[i].id]);
    }
  }
}
