/** What every step of the store keeps. */
module StoreInv {
  import opened Wrappers
  import opened Layers
  import opened Overlay
  import opened Store

  /** Names a row has claimed, or its freeze has picked, beside its own. */
  function Fresh(b: Branch): set<Vol> {
    (if b.pending.Some? then {b.pending.value} else {})
    + (if b.job.Some? && b.job.value.kind.Freeze? then {b.job.value.plan.rw} else {})
  }

  function Owned(b: Branch): set<Vol> { {b.rw} + Fresh(b) }

  /** A row's volumes carry its name, and its own is none of its fresh ones. */
  predicate WellNamed(b: Branch) {
    && b.rw !in Fresh(b)
    && forall v :: v in Owned(b) ==> v.Rw? && v.name == b.name
  }

  ghost predicate Named(rows: Rows) {
    forall id :: id in rows ==> WellNamed(rows[id])
  }

  /** No volume belongs to two rows. */
  ghost predicate Apart(rows: Rows) {
    forall i, j :: i in rows && j in rows && i != j ==> Owned(rows[i]) !! Owned(rows[j])
  }

  ghost predicate OneLive(rows: Rows) {
    forall i, j :: IsLive(rows, i) && IsLive(rows, j) && i != j ==> rows[i].name != rows[j].name
  }

  /** The two rows of a freeze name each other and stack on the same layers. */
  ghost predicate Linked(rows: Rows) {
    && (forall id :: id in rows && rows[id].job.Some? && rows[id].job.value.kind.Freeze? ==>
        var c := rows[id].job.value.kind.child;
        c in rows && rows[c].job.Some? && rows[c].job.value.kind == Child(id))
    && (forall id :: id in rows && rows[id].job.Some? && rows[id].job.value.kind.Child? ==>
        ChildOf(rows, id, rows[id].job.value.kind.parent))
  }

  predicate ChildOf(rows: Rows, id: Bid, p: Bid) {
    && id in rows && rows[id].job.Some?
    && p in rows && rows[p].job.Some? && rows[p].job.value.kind == Freeze(id)
    && rows[id].job.value.plan.layers == rows[p].job.value.plan.layers && rows[id].src == rows[p].src
  }

  /** A frozen volume belongs to its layer alone. */
  ghost predicate LayersApart(rows: Rows, layers: Table<Vol>) {
    && (forall l :: l in layers ==> layers[l].vol.Rw?)
    && (forall l, id :: l in layers && id in rows ==> layers[l].vol !in Owned(rows[id]))
    && (forall l, m :: l in layers && m in layers && l != m ==> layers[l].vol != layers[m].vol)
  }

  ghost predicate Acyclic(t: Table<Vol>) {
    exists rank: map<Lid, nat> :: Ranked(t, rank)
  }

  ghost predicate Chains(rows: Rows, layers: Table<Vol>) {
    && Acyclic(layers)
    && forall id :: IsLive(rows, id) ==> Resolves(layers, rows[id].base)
  }

  ghost predicate Sourced(rows: Rows, sources: map<Sid, Source>) {
    forall id :: id in rows ==> FromSource(sources, rows[id].src)
  }

  predicate FromSource(sources: map<Sid, Source>, v: Vol) {
    v.Src? && v.sid in sources && v.gen <= sources[v.sid].gen
  }

  /** A container writes to a volume of its own name, never to a frozen one. */
  ghost predicate Contained(layers: Table<Vol>, cons: map<Name, Mount>) {
    && (forall n :: n in cons ==> cons[n].rw.Rw? && cons[n].rw.name == n)
    && (forall n, l :: n in cons && l in layers ==> cons[n].rw != layers[l].vol)
  }

  /** The container of a ready branch runs on the stack the registry records,
      and a saga's container on the stack the saga computed; that stack is the
      recorded one, or for a freeze the one about to be recorded. */
  ghost predicate RowMount(layers: Table<Vol>, cons: map<Name, Mount>, b: Branch) {
    && (b.state.Ready? && b.name in cons ==> cons[b.name] == PlanOf(layers, b))
    && (b.job.Some? ==> b.state.Creating? || b.state.Resetting?)
    && (b.job.Some? && b.job.value.up && b.name in cons ==> cons[b.name] == b.job.value.plan)
    && (b.job.Some? ==> JobPlan(layers, cons, b, b.job.value) && MadeOk(b, b.job.value))
  }

  /** A saga that makes a volume owns it, and starts a container only on one it
      has made. */
  predicate MadeOk(b: Branch, j: Job) {
    && (j.made ==> OwnsPlan(b))
    && (j.up && !j.kind.Keep? ==> j.made)
  }

  ghost predicate JobPlan(layers: Table<Vol>, cons: map<Name, Mount>, b: Branch, j: Job) {
    match j.kind
    case Build => b.state != Resetting(true) && j.plan == PlanOf(layers, b)
    case Keep => b.state != Resetting(true) && j.plan == PlanOf(layers, b)
    case Freeze(c) =>
      && b.state.Resetting? && j.plan.layers == [b.rw] + Frozen(layers, b) && j.plan.src == b.src
      && (!j.up && b.name in cons ==> cons[b.name] == PlanOf(layers, b))
      && (b.state.claimed ==> b.pending == Some(j.plan.rw) && (j.up || b.name !in cons))
    case Child(p) => b.state.Creating? && b.base.None? && j.plan.rw == b.rw && j.plan.src == b.src
  }

  ghost predicate Mounted(rows: Rows, layers: Table<Vol>, cons: map<Name, Mount>) {
    forall id :: id in rows ==> RowMount(layers, cons, rows[id])
  }

  /** A layer found without a reference stays without one. */
  ghost predicate CondemnedUnused(rows: Rows, layers: Table<Vol>, condemned: set<Lid>) {
    forall l :: l in condemned && l in layers ==> ZeroRefs(rows, layers, l)
  }

  /** A live branch depends on a volume: its stack, and what its freeze has
      claimed while it is resetting. */
  ghost predicate Needs(layers: Table<Vol>, b: Branch, v: Vol) {
    Live(b) && (v == b.rw || v == b.src || v in Frozen(layers, b) ||
        (b.state == Resetting(true) && b.pending == Some(v)))
  }

  /** What a collector has decided to remove nobody needs, unless its name has
      been recorded again. */
  ghost predicate DoomedUnneeded(rows: Rows, layers: Table<Vol>, doomed: multiset<Vol>, reused: set<Vol>) {
    forall v, id :: v in doomed && v !in reused && id in rows ==> !Needs(layers, rows[id], v)
  }

  ghost predicate DoomedNoSource(sources: map<Sid, Source>, doomed: multiset<Vol>, reused: set<Vol>) {
    forall v, sid :: v in doomed && v !in reused && sid in sources ==> !SourceHas(sources, sid, v)
  }

  /** What is said about rows, layers and collectors, jobs and containers
      aside. */
  ghost predicate Structure(rows: Rows, layers: Table<Vol>, sources: map<Sid, Source>,
                            condemned: set<Lid>, doomed: multiset<Vol>, reused: set<Vol>) {
    && Named(rows) && Apart(rows) && OneLive(rows) && LayersApart(rows, layers) && Chains(rows, layers)
    && Sourced(rows, sources) && CondemnedUnused(rows, layers, condemned)
    && DoomedUnneeded(rows, layers, doomed, reused)
  }

  /** A row at rest after a failure or on its way out. */
  predicate Idle(b: Branch) { b.job.None? && (b.state.Failed? || b.state.Destroying? || b.state.Destroyed?) }

  /** A row failed as stuck and not taken up again is idle on the same volume. */
  predicate SweepOk(b: Branch, w: Sweep) {
    w.round <= b.round && (w.round == b.round ==> Idle(b) && b.rw == w.vol)
  }

  ghost predicate Swept(rows: Rows, sweeps: set<Sweep>) {
    forall w :: w in sweeps ==> w.id in rows && SweepOk(rows[w.id], w)
  }

  /** What the reference count said of a stuck row holds while the row lives and
      is not taken up again. */
  ghost predicate Unclaimed(rows: Rows, cleared: set<Sweep>) {
    && (forall w :: w in cleared ==> w.id in rows)
    && (forall w :: w in cleared && rows[w.id].round == w.round && Live(rows[w.id]) ==>
        NoDependent(rows, rows[w.id].name, w.vol))
  }

  ghost predicate Sweeping(rows: Rows, sweeps: set<Sweep>, cleared: set<Sweep>) {
    cleared <= sweeps && Swept(rows, sweeps) && Unclaimed(rows, cleared)
  }

  ghost predicate Structured(s: Store) {
    && Structure(s.branches, s.layers, s.sources, s.condemned, s.doomed, s.reused)
    && Sweeping(s.branches, s.sweeps, s.cleared)
  }

  ghost predicate Inv(s: Store) {
    && Structured(s) && Linked(s.branches) && DoomedNoSource(s.sources, s.doomed, s.reused)
    && Contained(s.layers, s.cons) && Mounted(s.branches, s.layers, s.cons)
  }

  lemma EmptyInv()
    ensures Inv(EMPTY)
  {
    var rank: map<Lid, nat> := map[];
    assert Ranked(EMPTY.layers, rank);
  }

  // ------------------------------------------------------------ changing one row

  /** The new row is the old branch: same name, volumes and base, no more
      claimed than before, no more alive. */
  predicate SameBranch(b: Branch, b': Branch) {
    && b'.name == b.name && b'.rw == b.rw && b'.src == b.src && b'.base == b.base
    && Fresh(b') <= Fresh(b) && (Live(b') ==> Live(b))
    && (b'.state == Resetting(true) ==> b.state == Resetting(true) && b'.pending == b.pending)
    && Sweepable(b, b')
  }

  /** A change that a pending sweep of the row survives: an idle row stays idle
      on its volume or enters a new round. */
  predicate Sweepable(b: Branch, b': Branch) {
    && b'.name == b.name && b'.src == b.src && b'.parent == b.parent && (b.base.Some? ==> b'.base.Some?)
    && (Live(b') ==> Live(b)) && b.round <= b'.round
    && (Idle(b) && b'.round == b.round ==> Idle(b') && b'.rw == b.rw)
  }

  lemma SweepableKeeps(rows: Rows, sweeps: set<Sweep>, cleared: set<Sweep>, id: Bid, b': Branch)
    requires Sweeping(rows, sweeps, cleared) && id in rows && Sweepable(rows[id], b')
    ensures Sweeping(rows[id := b'], sweeps, cleared)
  {
    var rows' := rows[id := b'];
    forall w | w in sweeps ensures w.id in rows' && SweepOk(rows'[w.id], w) {
      assert SweepOk(rows[w.id], w);
    }
    forall w | w in cleared && rows'[w.id].round == w.round && Live(rows'[w.id])
      ensures NoDependent(rows', rows'[w.id].name, w.vol)
    {
      assert SweepOk(rows[w.id], w) && SweepOk(rows'[w.id], w);
      assert NoDependent(rows, rows[w.id].name, w.vol);
    }
  }

  /** A change of one row that leaves the branch itself alone keeps everything
      but what is said about jobs and containers. */
  lemma SameBranchKeeps(rows: Rows, layers: Table<Vol>, sources: map<Sid, Source>,
                        condemned: set<Lid>, doomed: multiset<Vol>, reused: set<Vol>, id: Bid, b': Branch)
    requires Structure(rows, layers, sources, condemned, doomed, reused) && id in rows && SameBranch(rows[id], b')
    ensures Structure(rows[id := b'], layers, sources, condemned, doomed, reused)
  {
    hide Walk;
  }

  /** The naming part, for a row that may also take names that are nobody's. */
  lemma NamesKeep(rows: Rows, layers: Table<Vol>, id: Bid, b': Branch, more: set<Vol>)
    requires Named(rows) && Apart(rows) && LayersApart(rows, layers) && id in rows && WellNamed(b')
    requires Owned(b') <= Owned(rows[id]) + more
    requires forall v, j :: v in more && j in rows ==> v !in Owned(rows[j])
    requires forall v, l :: v in more && l in layers ==> layers[l].vol != v
    ensures Named(rows[id := b']) && Apart(rows[id := b']) && LayersApart(rows[id := b'], layers)
  {
    hide Owned; hide WellNamed;
  }

  /** The rest, for a row that may come to need volumes collectors spare. */
  lemma RestKeeps(s: Store, id: Bid, b': Branch, reused: set<Vol>)
    requires Structured(s) && id in s.branches && s.reused <= reused
    requires b'.name == s.branches[id].name && b'.src == s.branches[id].src && b'.base == s.branches[id].base
    requires Live(b') ==> Live(s.branches[id])
    requires forall v :: v in s.doomed && v !in reused ==> !Needs(s.layers, b', v)
    ensures var rows := s.branches[id := b'];
      && OneLive(rows) && Chains(rows, s.layers) && Sourced(rows, s.sources)
      && CondemnedUnused(rows, s.layers, s.condemned) && DoomedUnneeded(rows, s.layers, s.doomed, reused)
  {
    hide Walk; hide Needs; hide Named; hide Apart; hide LayersApart;
  }

  lemma SetRowKeeps(s: Store, id: Bid, b': Branch)
    requires Structured(s) && id in s.branches && SameBranch(s.branches[id], b')
    ensures Structured(SetRow(s, id, b'))
  {
    assert Sweepable(s.branches[id], b');
    hide Structure; hide SameBranch; hide Sweeping; hide Sweepable;
    SameBranchKeeps(s.branches, s.layers, s.sources, s.condemned, s.doomed, s.reused, id, b');
    SweepableKeeps(s.branches, s.sweeps, s.cleared, id, b');
  }

  /** Not one of a freeze's two rows. */
  predicate Unlinked(b: Branch) {
    b.job.None? || b.job.value.kind.Build? || b.job.value.kind.Keep?
  }

  lemma UnlinkedKeeps(rows: Rows, id: Bid, b': Branch)
    requires Linked(rows) && id in rows && Unlinked(rows[id]) && Unlinked(b')
    ensures Linked(rows[id := b'])
  {
  }

  /** Steps that change only one row's state or job. */
  lemma RowStep(s: Store, id: Bid, b': Branch)
    requires Inv(s) && id in s.branches && SameBranch(s.branches[id], b')
    requires Unlinked(s.branches[id]) && Unlinked(b') && RowMount(s.layers, s.cons, b')
    ensures Inv(SetRow(s, id, b'))
  {
    hide Structure; hide Linked; hide DoomedNoSource; hide Contained; hide RowMount; hide SameBranch; hide Unlinked;
    SetRowKeeps(s, id, b');
    UnlinkedKeeps(s.branches, id, b');
  }

  lemma MountedAt(s: Store, id: Bid)
    requires Inv(s) && id in s.branches
    ensures RowMount(s.layers, s.cons, s.branches[id]) && WellNamed(s.branches[id])
  {
    hide Walk; hide VolsOf; hide DoomedUnneeded; hide DoomedNoSource; hide CondemnedUnused; hide RowMount;
    hide WellNamed;
  }

  /** The row a one-row step leaves. */
  ghost function AfterStep(s: Store, e: Event): Branch
    requires Enabled(s, e) && IsRowEvent(e)
  {
    var b := s.branches[e.id];
    match e
    case Reset(_) => TakenUp(b, Began(Build, PlanOf(s.layers, b)))
    case Recover(_) => TakenUp(b, Began(Keep, PlanOf(s.layers, b)))
    case Finish(_) => b.(state := Ready, job := None)
    case Fail(_) => b.(state := Failed, job := None)
    case FailReady(_) => b.(state := Failed)
    case Destroy(_) => b.(state := Destroying)
    case Bury(_) => b.(state := Destroyed)
  }

  predicate IsRowEvent(e: Event) {
    e.Reset? || e.Recover? || e.Finish? || e.Fail? || e.FailReady? || e.Destroy? || e.Bury?
  }

  lemma RowEventRest(s: Store, e: Event)
    requires Enabled(s, e) && IsRowEvent(e)
    ensures NextVols(s, e) == s.vols && NextLayers(s, e) == s.layers && NextReused(s, e) == s.reused
  {
    hide Enabled;
  }

  lemma RowEventNext(s: Store, e: Event)
    requires Enabled(s, e) && IsRowEvent(e)
    ensures e.id in s.branches && Next(s, e) == SetRow(s, e.id, AfterStep(s, e))
  {
    RowEventRest(s, e);
    hide PlanOf; hide NoChildInFlight; hide NextVols; hide NextLayers; hide NextReused;
    match e {
      case Reset(_) =>
      case Recover(_) =>
      case Finish(_) =>
      case Fail(_) =>
      case FailReady(_) =>
      case Destroy(_) =>
      case Bury(_) =>
    }
  }

  lemma RowEventRow(s: Store, e: Event)
    requires Enabled(s, e) && IsRowEvent(e) && e.id in s.branches && RowMount(s.layers, s.cons, s.branches[e.id])
    ensures SameBranch(s.branches[e.id], AfterStep(s, e)) && Unlinked(s.branches[e.id]) && Unlinked(AfterStep(s, e))
    ensures RowMount(s.layers, s.cons, AfterStep(s, e))
  {
    hide Walk; hide VolsOf; hide NoChildInFlight;
  }

  lemma RowEventKeeps(s: Store, e: Event)
    requires Inv(s) && Enabled(s, e) && IsRowEvent(e)
    ensures Inv(Next(s, e))
  {
    hide Inv; hide Enabled; hide Next; hide AfterStep; hide SameBranch; hide RowMount; hide Unlinked;
    RowEventNext(s, e);
    MountedAt(s, e.id);
    RowEventRow(s, e);
    RowStep(s, e.id, AfterStep(s, e));
  }

  /** Volumes come and go without touching what is kept. */
  lemma VolsFree(s: Store, vols: map<Vol, Content>)
    requires Inv(s)
    ensures Inv(s.(vols := vols))
  {
    hide Structure; hide Linked; hide Mounted; hide DoomedNoSource; hide Contained;
  }

  lemma VolumeEventKeeps(s: Store, e: Event)
    requires Inv(s) && Enabled(s, e) && (e.Teardown? || e.Write? || e.SeedNext? || e.DropNext?)
    ensures Inv(Next(s, e))
  {
    hide Inv; hide Walk; hide VolsOf;
    VolsFree(s, Next(s, e).vols);
  }

  /** A job that goes on with the same plan. */
  lemma SamePlanLinked(rows: Rows, id: Bid, b': Branch)
    requires Linked(rows) && id in rows && rows[id].job.Some? && b'.job.Some? && b'.src == rows[id].src
    requires b'.job.value.kind == rows[id].job.value.kind && b'.job.value.plan == rows[id].job.value.plan
    ensures Linked(rows[id := b'])
  {
    var rows' := rows[id := b'];
    forall j | j in rows' && rows'[j].job.Some? && rows'[j].job.value.kind.Child?
      ensures ChildOf(rows', j, rows'[j].job.value.kind.parent)
    {
      assert ChildOf(rows, j, rows[j].job.value.kind.parent);
    }
  }

  lemma JobStep(s: Store, id: Bid, b': Branch)
    requires Inv(s) && id in s.branches && SameBranch(s.branches[id], b') && RowMount(s.layers, s.cons, b')
    requires s.branches[id].job.Some? && b'.job.Some?
    requires b'.job.value.kind == s.branches[id].job.value.kind && b'.job.value.plan == s.branches[id].job.value.plan
    ensures Inv(SetRow(s, id, b'))
  {
    assert b'.src == s.branches[id].src;
    hide Structure; hide Linked; hide DoomedNoSource; hide Contained; hide RowMount; hide SameBranch;
    SetRowKeeps(s, id, b');
    SamePlanLinked(s.branches, id, b');
  }

  lemma MakeEventKeeps(s: Store, e: Event)
    requires Inv(s) && Enabled(s, e) && (e.MakeVol? || e.DropVol?)
    ensures Inv(Next(s, e))
  {
    hide Inv; hide Walk; hide VolsOf; hide NextVols; hide NextReused; hide NextLayers;
    MountedAt(s, e.id);
    var b := s.branches[e.id];
    var j := b.job.value;
    var b' := b.(job := Some(if e.MakeVol? then j.(made := true) else j.(made := false, up := false)));
    JobStep(s, e.id, b');
    assert NextReused(s, e) == s.reused && NextLayers(s, e) == s.layers by { MakeRest(s, e); }
    VolsFree(SetRow(s, e.id, b'), NextVols(s, e));
  }

  lemma MakeRest(s: Store, e: Event)
    requires Enabled(s, e) && (e.MakeVol? || e.DropVol?)
    ensures NextReused(s, e) == s.reused && NextLayers(s, e) == s.layers
  {
    hide Enabled;
  }

  // ------------------------------------------------------------------- stuck rows

  lemma FailStuckKeeps(s: Store, e: Event)
    requires Inv(s) && Enabled(s, e) && e.FailStuck?
    ensures Inv(Next(s, e))
  {
    hide Inv; hide Walk; hide VolsOf;
    MountedAt(s, e.id);
    var b := s.branches[e.id];
    var t := SetRow(s, e.id, b.(state := Failed));
    RowStep(s, e.id, b.(state := Failed));
    SweepAdds(t, Sweep(e.id, b.rw, b.round));
    assert Next(s, e) == t.(sweeps := t.sweeps + {Sweep(e.id, b.rw, b.round)});
  }

  lemma SweepAdds(s: Store, w: Sweep)
    requires Inv(s) && w.id in s.branches && SweepOk(s.branches[w.id], w)
    ensures Inv(s.(sweeps := s.sweeps + {w}))
  {
    hide Structure; hide Linked; hide Mounted; hide DoomedNoSource; hide Contained; hide Unclaimed; hide SweepOk;
  }

  lemma CheckStuckKeeps(s: Store, e: Event)
    requires Inv(s) && Enabled(s, e) && (e.CheckStuck? || e.RemoveStuck?)
    ensures Inv(Next(s, e))
  {
    hide Structure; hide Linked; hide Mounted; hide DoomedNoSource; hide Contained; hide SweepOk; hide NextVols;
    hide NoDependent;
  }

  // ------------------------------------------------------------------- containers

  lemma BootMounted(rows: Rows, layers: Table<Vol>, cons: map<Name, Mount>, id: Bid, b': Branch, m: Mount)
    requires Mounted(rows, layers, cons) && OneLive(rows) && IsLive(rows, id) && b'.name == rows[id].name
    requires RowMount(layers, cons[b'.name := m], b')
    ensures Mounted(rows[id := b'], layers, cons[b'.name := m])
  {
    hide Walk; hide VolsOf;
    forall j | j in rows && j != id ensures RowMount(layers, cons[b'.name := m], rows[j]) {
      assert RowMount(layers, cons, rows[j]);
      if Live(rows[j]) {
        assert rows[j].name != b'.name;
      }
    }
  }

  /** The writable volume of the stack a row is started on is the row's own. */
  lemma BootContained(s: Store, id: Bid, m: Mount)
    requires Inv(s) && id in s.branches && m.rw in Owned(s.branches[id])
    ensures Contained(s.layers, s.cons[s.branches[id].name := m])
  {
    hide Walk; hide VolsOf; hide DoomedUnneeded; hide DoomedNoSource; hide CondemnedUnused; hide Mounted; hide Linked;
    hide Apart; hide OneLive;
    hide Chains; hide Sourced; hide Sweeping;
    assert WellNamed(s.branches[id]);
  }

  lemma BootKeeps(s: Store, e: Event)
    requires Inv(s) && Enabled(s, e) && e.Boot?
    ensures Inv(Next(s, e))
  {
    hide Named; hide Apart; hide LayersApart; hide Chains; hide Sourced; hide Linked; hide OneLive;
    hide CondemnedUnused; hide DoomedUnneeded; hide DoomedNoSource; hide Contained; hide Walk; hide VolsOf;
    var b := s.branches[e.id];
    var j := b.job.value;
    var b' := b.(job := Some(j.(up := true)));
    assert RowMount(s.layers, s.cons, b);
    SetRowKeeps(s, e.id, b');
    BootMounted(s.branches, s.layers, s.cons, e.id, b', j.plan);
    SamePlanLinked(s.branches, e.id, b');
    BootContained(s, e.id, j.plan);
  }

  lemma RestartKeeps(s: Store, e: Event)
    requires Inv(s) && Enabled(s, e) && e.Restart?
    ensures Inv(Next(s, e))
  {
    hide Named; hide Apart; hide LayersApart; hide Chains; hide Sourced; hide Linked; hide OneLive;
    hide CondemnedUnused; hide DoomedUnneeded; hide DoomedNoSource; hide Contained; hide Walk; hide VolsOf;
    var b := s.branches[e.id];
    assert RowMount(s.layers, s.cons, b);
    assert s.branches[e.id := b] == s.branches;
    BootMounted(s.branches, s.layers, s.cons, e.id, b, PlanOf(s.layers, b));
    BootContained(s, e.id, PlanOf(s.layers, b));
  }

  lemma VanishKeeps(s: Store, e: Event)
    requires Inv(s) && Enabled(s, e) && e.Vanish?
    ensures Inv(Next(s, e))
  {
    hide Named; hide Apart; hide LayersApart; hide Chains; hide Sourced; hide Linked; hide OneLive;
    hide CondemnedUnused; hide DoomedUnneeded; hide DoomedNoSource; hide Walk; hide VolsOf;
    forall id | id in s.branches ensures RowMount(s.layers, s.cons - {e.name}, s.branches[id]) {
      assert RowMount(s.layers, s.cons, s.branches[id]);
    }
  }

  // ---------------------------------------------------------------------- sources

  lemma SourcesKeep(s: Store, sources: map<Sid, Source>, reused: set<Vol>)
    requires Inv(s) && Sourced(s.branches, sources) && DoomedNoSource(sources, s.doomed, reused) && s.reused <= reused
    ensures Inv(s.(sources := sources, reused := reused))
  {
    hide Named; hide Apart; hide OneLive; hide LayersApart; hide Chains; hide Sourced; hide Linked; hide Mounted;
    hide CondemnedUnused; hide DoomedNoSource; hide Contained; hide Needs;
  }

  lemma SourceEventKeeps(s: Store, e: Event)
    requires Inv(s) && Enabled(s, e) && (e.AddSource? || e.ClaimNext? || e.ReleaseNext? || e.BumpSource?)
    ensures Inv(Next(s, e))
  {
    hide Named; hide Apart; hide OneLive; hide LayersApart; hide Chains; hide Linked; hide Mounted;
    hide CondemnedUnused; hide Contained; hide DoomedUnneeded;
    var t := Next(s, e);
    assert Sourced(s.branches, t.sources);
    assert DoomedNoSource(t.sources, s.doomed, t.reused) by {
      forall v, sid | v in s.doomed && v !in t.reused && sid in t.sources ensures !SourceHas(t.sources, sid, v) {
        if sid in s.sources {
          assert !SourceHas(s.sources, sid, v);
        }
      }
    }
    SourcesKeep(s, t.sources, t.reused);
    VolsFree(s.(sources := t.sources, reused := t.reused), t.vols);
  }

  // --------------------------------------------------------------------- new rows

  /** A name no row or layer records belongs to nobody: what a live freeze has
      picked carries a live branch's name. */
  lemma UnusedApart(s: Store, name: Name, gen: nat, j: Bid)
    requires Inv(s) && j in s.branches && !Used(s.branches, s.layers, Rw(name, gen))
    requires s.branches[j].name == name ==> s.branches[j].job.None?
    ensures Rw(name, gen) !in Owned(s.branches[j])
  {
    hide Walk; hide VolsOf; hide DoomedUnneeded; hide DoomedNoSource; hide CondemnedUnused;
    var b := s.branches[j];
    assert WellNamed(b);
    assert b.rw != Rw(name, gen) && b.pending != Some(Rw(name, gen));
  }

  lemma NameFreeUnused(s: Store, name: Name, gen: nat, j: Bid)
    requires Inv(s) && j in s.branches && !Used(s.branches, s.layers, Rw(name, gen)) && NameFree(s.branches, name)
    ensures Rw(name, gen) !in Owned(s.branches[j])
  {
    hide Walk; hide VolsOf; hide Used; hide Inv;
    assert RowMount(s.layers, s.cons, s.branches[j]) by { MountedAt(s, j); }
    UnusedApart(s, name, gen, j);
  }

  /** The row of a branch being created. */
  predicate NewRow(s: Store, id: Bid, b: Branch) {
    && id !in s.branches && NameFree(s.branches, b.name) && b.rw == Rw(b.name, b.rw.gen)
    && !Used(s.branches, s.layers, b.rw)
    && b.state.Creating? && b.base.None? && b.pending.None? && Unlinked(b) && FromSource(s.sources, b.src)
    && (b.parent.Some? ==>
        exists p :: p in s.branches && s.branches[p].state.Ready? && s.branches[p].name == b.parent.value)
  }

  /** A new row is no stuck row's dependent: it is the child of a ready one. */
  lemma NewRowSweeping(s: Store, id: Bid, b: Branch)
    requires Inv(s) && b.rw.Rw? && NewRow(s, id, b)
    ensures Sweeping(s.branches[id := b], s.sweeps, s.cleared)
  {
    hide Walk; hide VolsOf; hide DoomedUnneeded; hide DoomedNoSource; hide CondemnedUnused; hide Mounted; hide Linked;
    hide Apart; hide LayersApart;
    hide Chains; hide Contained; hide Used;
    var rows := s.branches[id := b];
    forall w | w in s.cleared && rows[w.id].round == w.round && Live(rows[w.id])
        ensures NoDependent(rows, rows[w.id].name, w.vol) {
      assert SweepOk(s.branches[w.id], w) && WellNamed(s.branches[w.id]) &&
          s.branches[w.id].rw in Owned(s.branches[w.id]);
      assert NoDependent(s.branches, s.branches[w.id].name, w.vol);
      if b.parent.Some? {
        var p :| p in s.branches && s.branches[p].state.Ready? && s.branches[p].name == b.parent.value;
        assert IsLive(s.branches, p) && IsLive(s.branches, w.id) && p != w.id;
      }
    }
  }

  lemma NewNames(rows: Rows, layers: Table<Vol>, id: Bid, b: Branch)
    requires Named(rows) && Apart(rows) && LayersApart(rows, layers) && id !in rows && WellNamed(b)
    requires forall v, j :: v in Owned(b) && j in rows ==> v !in Owned(rows[j])
    requires forall v, l :: v in Owned(b) && l in layers ==> layers[l].vol != v
    ensures Named(rows[id := b]) && Apart(rows[id := b]) && LayersApart(rows[id := b], layers)
  {
    hide Owned; hide WellNamed;
  }

  lemma NewRowStructure(s: Store, id: Bid, b: Branch)
    requires Inv(s) && b.rw.Rw? && NewRow(s, id, b)
    ensures var rows := s.branches[id := b]; Named(rows) && Apart(rows) && LayersApart(rows, s.layers)
  {
    assert Named(s.branches) && Apart(s.branches) && LayersApart(s.branches, s.layers);
    hide Inv;
    assert Owned(b) == {b.rw};
    forall j | j in s.branches ensures b.rw !in Owned(s.branches[j]) {
      NameFreeUnused(s, b.name, b.rw.gen, j);
    }
    forall l | l in s.layers ensures s.layers[l].vol != b.rw {
      assert Used(s.branches, s.layers, s.layers[l].vol);
    }
    hide NewRow;
    NewNames(s.branches, s.layers, id, b);
  }

  lemma NewRowLives(s: Store, id: Bid, b: Branch)
    requires Inv(s) && b.rw.Rw? && NewRow(s, id, b)
    ensures var rows := s.branches[id := b];
      && OneLive(rows) && Linked(rows) && Chains(rows, s.layers)
      && Sourced(rows, s.sources) && CondemnedUnused(rows, s.layers, s.condemned)
  {
    hide DoomedUnneeded; hide DoomedNoSource; hide Mounted; hide Named; hide Apart; hide LayersApart; hide Used;
    assert Walk(s.layers, b.base) == [];
    hide Walk;
  }

  lemma NewRowKeeps(s: Store, id: Bid, b: Branch)
    requires Inv(s) && b.rw.Rw? && NewRow(s, id, b) && RowMount(s.layers, s.cons, b)
    requires b.src in s.doomed ==> b.src in s.reused
    ensures Inv(SetRow(s, id, b).(reused := Reuse(s, b.rw)))
  {
    hide Named; hide Apart; hide OneLive; hide LayersApart; hide Chains; hide Sourced; hide Linked;
    hide CondemnedUnused; hide Contained; hide RowMount;
    NewRowStructure(s, id, b);
    NewRowLives(s, id, b);
    NewRowSweeping(s, id, b);
    assert Frozen(s.layers, b) == [];
  }

  lemma CreateKeeps(s: Store, e: Event)
    requires Inv(s) && Enabled(s, e) && e.Create?
    ensures Inv(Next(s, e))
  {
    hide Named; hide Apart; hide OneLive; hide LayersApart; hide Chains; hide Sourced; hide Linked;
    hide CondemnedUnused; hide Contained; hide DoomedUnneeded; hide Mounted; hide Walk; hide VolsOf; hide Used;
    hide NameFree;
    var b := Branch(e.name, Creating, Rw(e.name, e.gen), Src(e.sid, s.sources[e.sid].gen), None, None, None, 0, None);
    assert SourceHas(s.sources, e.sid, b.src);
    var b' := b.(job := Some(Began(Build, PlanOf(s.layers, b))));
    assert PlanOf(s.layers, b') == PlanOf(s.layers, b);
    NewRowKeeps(s, e.id, b');
  }

  lemma CreateChildKeeps(s: Store, e: Event)
    requires Inv(s) && Enabled(s, e) && e.CreateChild?
    ensures Inv(Next(s, e))
  {
    hide Named; hide Apart; hide OneLive; hide LayersApart; hide Chains; hide Linked;
    hide CondemnedUnused; hide Contained; hide DoomedNoSource; hide Mounted; hide Walk; hide VolsOf; hide Used;
    hide NameFree;
    var p := s.branches[e.of];
    var b := Branch(e.name, Creating, Rw(e.name, e.gen), p.src, None, Some(p.name), None, 0, None);
    assert IsLive(s.branches, e.of) && Needs(s.layers, p, p.src);
    NewRowKeeps(s, e.id, b);
  }

  // -------------------------------------------------------------- ending a freeze

  lemma FreezePair(s: Store, id: Bid)
    requires Inv(s) && Freezing(s, id)
    ensures var c := s.branches[id].job.value.kind.child;
      c in s.branches && c != id && s.branches[c].job.Some? && s.branches[c].job.value.kind == Child(id) &&
          ChildOf(s.branches, c, id)
  {
    hide Walk; hide VolsOf; hide DoomedUnneeded; hide DoomedNoSource; hide CondemnedUnused; hide Mounted;
    hide Named; hide Apart; hide OneLive; hide LayersApart; hide Chains; hide Sourced; hide Contained;
  }

  lemma PairUnlinked(rows: Rows, id: Bid, p': Branch, c: Bid, c': Branch)
    requires Linked(rows) && id in rows && c in rows && c != id && Unlinked(p') && Unlinked(c')
    requires rows[id].job.Some? && rows[id].job.value.kind == Freeze(c)
    ensures Linked(rows[id := p'][c := c'])
  {
    assert ChildOf(rows, c, id);
  }

  /** Both rows of a freeze change together and part. */
  lemma PairKeeps(s: Store, id: Bid, p': Branch, c: Bid, c': Branch)
    requires Inv(s) && Freezing(s, id) && SameBranch(s.branches[id], p') && Unlinked(p')
    requires RowMount(s.layers, s.cons, p')
    requires c == s.branches[id].job.value.kind.child && c in s.branches && c != id
    requires SameBranch(s.branches[c], c') && Unlinked(c') && RowMount(s.layers, s.cons, c')
    ensures Inv(SetRow(SetRow(s, id, p'), c, c'))
  {
    hide Structure; hide Linked; hide DoomedNoSource; hide Contained; hide RowMount; hide SameBranch; hide Unlinked;
    SetRowKeeps(s, id, p');
    SetRowKeeps(SetRow(s, id, p'), c, c');
    PairUnlinked(s.branches, id, p', c, c');
  }

  /** A child left without its saga. */
  lemma OrphanMount(s: Store, c: Bid)
    requires Inv(s) && c in s.branches
    ensures var c' := s.branches[c].(job := None);
      SameBranch(s.branches[c], c') && Unlinked(c') && RowMount(s.layers, s.cons, c')
  {
    hide Walk; hide VolsOf;
    MountedAt(s, c);
  }

  lemma CrashKeeps(s: Store, e: Event)
    requires Inv(s) && Enabled(s, e) && e.Crash?
    ensures Inv(Next(s, e))
  {
    hide Inv; hide Walk; hide VolsOf;
    MountedAt(s, e.id);
    var b := s.branches[e.id];
    if Freezing(s, e.id) {
      FreezePair(s, e.id);
      var c := b.job.value.kind.child;
      OrphanMount(s, c);
      PairKeeps(s, e.id, b.(job := None), c, s.branches[c].(job := None));
    } else {
      RowStep(s, e.id, b.(job := None));
    }
  }

  lemma AbortKeeps(s: Store, e: Event)
    requires Inv(s) && Enabled(s, e) && e.Abort?
    ensures Inv(Next(s, e))
  {
    hide Inv; hide Walk; hide VolsOf;
    MountedAt(s, e.id);
    var b := s.branches[e.id];
    FreezePair(s, e.id);
    var c := b.job.value.kind.child;
    OrphanMount(s, c);
    match e.ending {
      case BackToReady => PairKeeps(s, e.id, b.(state := Ready, job := None), c, s.branches[c].(job := None));
      case ToFailed => PairKeeps(s, e.id, b.(state := Failed, job := None), c, s.branches[c].(job := None));
      case ToRestore =>
        var p' := b.(state := Resetting(false), pending := None, job := Some(Began(Keep, PlanOf(s.layers, b))));
        PairKeeps(s, e.id, p', c, s.branches[c].(job := None));
    }
  }

  // ------------------------------------------------------------ starting a freeze

  /** A row takes one more name that is nobody's. */
  predicate Takes(b: Branch, b': Branch, v: Vol) {
    && b'.name == b.name && b'.rw == b.rw && b'.src == b.src && b'.base == b.base
    && Fresh(b') <= Fresh(b) + {v} && (Live(b') ==> Live(b)) && b'.state != Resetting(true)
    && v.Rw? && v.name == b.name && Sweepable(b, b')
  }

  lemma TakeKeeps(s: Store, id: Bid, b': Branch, v: Vol)
    requires Structured(s) && id in s.branches && Takes(s.branches[id], b', v)
    requires forall j :: j in s.branches ==> v !in Owned(s.branches[j])
    requires forall l :: l in s.layers ==> s.layers[l].vol != v
    ensures Structured(SetRow(s, id, b'))
  {
    hide Walk; hide VolsOf;
    assert WellNamed(s.branches[id]);
    NamesKeep(s.branches, s.layers, id, b', {v});
    RestKeeps(s, id, b', s.reused);
    SweepableKeeps(s.branches, s.sweeps, s.cleared, id, b');
  }

  /** What a ready branch's freeze picks is nobody's. */
  lemma PickedApart(s: Store, id: Bid, gen: nat)
    requires Inv(s) && id in s.branches && s.branches[id].state.Ready?
    requires !Used(s.branches, s.layers, Rw(s.branches[id].name, gen))
    ensures forall j :: j in s.branches ==> Rw(s.branches[id].name, gen) !in Owned(s.branches[j])
    ensures forall l :: l in s.layers ==> s.layers[l].vol != Rw(s.branches[id].name, gen)
  {
    hide Walk; hide VolsOf; hide DoomedUnneeded; hide DoomedNoSource; hide CondemnedUnused; hide LayersApart;
    hide Apart; hide Named; hide Linked; hide Contained; hide Owned;
    forall j | j in s.branches ensures Rw(s.branches[id].name, gen) !in Owned(s.branches[j]) {
      assert RowMount(s.layers, s.cons, s.branches[j]) && RowMount(s.layers, s.cons, s.branches[id]);
      if s.branches[j].name == s.branches[id].name && j != id {
        assert !(IsLive(s.branches, j) && IsLive(s.branches, id));
      }
      UnusedApart(s, s.branches[id].name, gen, j);
    }
  }

  lemma PairLinked(rows: Rows, id: Bid, p': Branch, c: Bid, c': Branch)
    requires Linked(rows) && id in rows && c in rows && c != id && Unlinked(rows[id]) && Unlinked(rows[c])
    requires p'.job.Some? && p'.job.value.kind == Freeze(c) && c'.job.Some? && c'.job.value.kind == Child(id)
    requires p'.job.value.plan.layers == c'.job.value.plan.layers && p'.src == c'.src
    ensures Linked(rows[id := p'][c := c'])
  {
    var rows' := rows[id := p'][c := c'];
    assert ChildOf(rows', c, id);
    forall j | j in rows' && j != id && j != c && rows[j].job.Some? && rows[j].job.value.kind.Child?
      ensures ChildOf(rows', j, rows[j].job.value.kind.parent)
    {
      assert ChildOf(rows, j, rows[j].job.value.kind.parent);
    }
  }

  /** The two rows a freeze begins with. */
  ghost function Freezer(s: Store, id: Bid, child: Bid, gen: nat): Branch
    requires id in s.branches
  {
    var p := s.branches[id];
    p.(state := Resetting(false),
        job := Some(Began(Freeze(child), Mount(Rw(p.name, gen), [p.rw] + Frozen(s.layers, p), p.src))))
  }

  ghost function Frozer(s: Store, id: Bid, child: Bid): Branch
    requires id in s.branches && child in s.branches
  {
    var p, c := s.branches[id], s.branches[child];
    c.(job := Some(Began(Child(id), Mount(c.rw, [p.rw] + Frozen(s.layers, p), c.src))))
  }

  lemma BeginNext(s: Store, id: Bid, child: Bid, gen: nat)
    requires Enabled(s, BeginFreeze(id, child, gen))
    ensures id in s.branches && child in s.branches
    ensures Next(s, BeginFreeze(id, child, gen)) ==
        SetRow(SetRow(s, id, Freezer(s, id, child, gen)), child, Frozer(s, id, child))
  {
    hide Frozen; hide Used;
  }

  lemma BeginRows(s: Store, id: Bid, child: Bid, gen: nat)
    requires Inv(s) && Enabled(s, BeginFreeze(id, child, gen))
    ensures var p, c := s.branches[id], s.branches[child];
      && id != child && Takes(p, Freezer(s, id, child, gen), Rw(p.name, gen)) && SameBranch(c, Frozer(s, id, child))
      && Unlinked(p) && Unlinked(c)
      && RowMount(s.layers, s.cons, Freezer(s, id, child, gen)) && RowMount(s.layers, s.cons, Frozer(s, id, child))
  {
    hide Inv; hide Walk; hide VolsOf; hide Used;
    MountedAt(s, id);
    MountedAt(s, child);
  }

  /** Two rows that come to freeze together, one of them under a name that is
      nobody's. */
  lemma PairBegins(s: Store, id: Bid, p': Branch, child: Bid, c': Branch, v: Vol)
    requires Inv(s) && id in s.branches && child in s.branches && id != child
    requires Takes(s.branches[id], p', v) && SameBranch(s.branches[child], c') && Unlinked(s.branches[id])
    requires Unlinked(s.branches[child])
    requires forall j :: j in s.branches ==> v !in Owned(s.branches[j])
    requires forall l :: l in s.layers ==> s.layers[l].vol != v
    requires p'.job.Some? && p'.job.value.kind == Freeze(child) && c'.job.Some? && c'.job.value.kind == Child(id)
    requires p'.job.value.plan.layers == c'.job.value.plan.layers && p'.src == c'.src
    requires RowMount(s.layers, s.cons, p') && RowMount(s.layers, s.cons, c')
    ensures Inv(SetRow(SetRow(s, id, p'), child, c'))
  {
    hide Structure; hide Linked; hide DoomedNoSource; hide Contained; hide Owned; hide RowMount; hide Takes;
    hide SameBranch; hide Sweeping;
    hide Unlinked;
    TakeKeeps(s, id, p', v);
    SetRowKeeps(SetRow(s, id, p'), child, c');
    PairLinked(s.branches, id, p', child, c');
  }

  lemma BeginFreezeKeeps(s: Store, e: Event)
    requires Inv(s) && Enabled(s, e) && e.BeginFreeze?
    ensures Inv(Next(s, e))
  {
    var id, child := e.id, e.child;
    hide Inv; hide Used; hide Owned; hide RowMount; hide Takes; hide SameBranch; hide Unlinked; hide Next; hide Frozen;
    BeginNext(s, id, child, e.gen);
    BeginRows(s, id, child, e.gen);
    PickedApart(s, id, e.gen);
    PairBegins(s, id, Freezer(s, id, child, e.gen), child, Frozer(s, id, child), Rw(s.branches[id].name, e.gen));
  }

  // ---------------------------------------------------------------------- claiming

  lemma ClaimStructure(s: Store, id: Bid, b': Branch, v: Vol)
    requires Structured(s) && id in s.branches && v in Fresh(s.branches[id]) && Live(s.branches[id])
    requires s.branches[id].job.Some?
    requires b' == s.branches[id].(state := Resetting(true), pending := Some(v))
    ensures Structured(SetRow(s, id, b').(reused := Reuse(s, v)))
  {
    hide Walk; hide VolsOf;
    assert WellNamed(s.branches[id]);
    NamesKeep(s.branches, s.layers, id, b', {});
    RestKeeps(s, id, b', Reuse(s, v));
    SweepableKeeps(s.branches, s.sweeps, s.cleared, id, b');
  }

  lemma SameJobLinked(rows: Rows, id: Bid, b': Branch)
    requires Linked(rows) && id in rows && b'.job == rows[id].job && b'.src == rows[id].src
    ensures Linked(rows[id := b'])
  {
    var rows' := rows[id := b'];
    forall j | j in rows' && rows'[j].job.Some? && rows'[j].job.value.kind.Child?
      ensures ChildOf(rows', j, rows'[j].job.value.kind.parent)
    {
      assert ChildOf(rows, j, rows[j].job.value.kind.parent);
    }
  }

  lemma ClaimKeeps(s: Store, e: Event)
    requires Inv(s) && Enabled(s, e) && e.Claim?
    ensures Inv(Next(s, e))
  {
    hide Structure; hide Linked; hide Contained; hide Walk; hide VolsOf; hide SourceHas;
    var b := s.branches[e.id];
    assert RowMount(s.layers, s.cons, b);
    var v := b.job.value.plan.rw;
    var b' := b.(state := Resetting(true), pending := Some(v));
    ClaimStructure(s, e.id, b', v);
    SameJobLinked(s.branches, e.id, b');
  }

  // -------------------------------------------------------------------- collection

  /** A volume is none of a branch's frozen ones when no layer of its chain has
      it. */
  lemma FrozenAvoids(layers: Table<Vol>, b: Branch, v: Vol)
    requires forall m :: m in Walk(layers, b.base) ==> layers[m].vol != v
    ensures v !in Frozen(layers, b)
  {
    forall i | 0 <= i < |Frozen(layers, b)| ensures Frozen(layers, b)[i] != v {
      assert Walk(layers, b.base)[i] in Walk(layers, b.base);
    }
  }

  /** What is checked before a layer goes. */
  lemma LayerNotNeeded(s: Store, l: Lid, id: Bid)
    requires Inv(s) && l in s.layers && ZeroRefs(s.branches, s.layers, l) && id in s.branches
    ensures !Needs(s.layers, s.branches[id], s.layers[l].vol)
  {
    hide Walk; hide DoomedUnneeded; hide DoomedNoSource; hide CondemnedUnused; hide Mounted; hide Linked; hide Apart;
    hide OneLive; hide Chains;
    var b := s.branches[id];
    assert FromSource(s.sources, b.src) && s.layers[l].vol !in Owned(b);
    if IsLive(s.branches, id) {
      FrozenAvoids(s.layers, b, s.layers[l].vol);
    }
  }

  /** What is checked before an old source generation goes. */
  lemma SourceNotNeeded(s: Store, v: Vol, id: Bid)
    requires Inv(s) && v.Src? && id in s.branches && (Live(s.branches[id]) ==> s.branches[id].src != v)
    ensures !Needs(s.layers, s.branches[id], v)
  {
    hide Walk; hide DoomedUnneeded; hide DoomedNoSource; hide CondemnedUnused; hide Mounted; hide Linked; hide Apart;
    hide OneLive; hide Chains;
    var b := s.branches[id];
    assert WellNamed(b) && v !in Owned(b);
    FrozenAvoids(s.layers, b, v);
  }

  /** What is checked before an orphan volume goes. */
  lemma VolNotNeeded(s: Store, v: Vol, id: Bid)
    requires !InLiveSet(s, v) && id in s.branches
    ensures !Needs(s.layers, s.branches[id], v)
  {
    hide Walk;
    FrozenAvoids(s.layers, s.branches[id], v);
  }

  lemma CondemnedNotNeeded(s: Store, e: Event, v: Vol)
    requires Inv(s) && Enabled(s, e) && (e.CondemnLayer? || ((e.CondemnSource? || e.CondemnVol?) && v == e.v))
    requires e.CondemnLayer? ==> v == s.layers[e.l].vol
    ensures forall id :: id in s.branches ==> !Needs(s.layers, s.branches[id], v)
  {
    hide Inv; hide Needs; hide InLiveSet; hide ZeroRefs;
    forall id | id in s.branches ensures !Needs(s.layers, s.branches[id], v) {
      match e {
        case CondemnLayer(l) => LayerNotNeeded(s, l, id);
        case CondemnSource(_) => SourceNotNeeded(s, v, id);
        case CondemnVol(_) => VolNotNeeded(s, v, id);
      }
    }
  }

  lemma CondemnedNoSource(s: Store, e: Event, v: Vol)
    requires Inv(s) && Enabled(s, e) && (e.CondemnLayer? || ((e.CondemnSource? || e.CondemnVol?) && v == e.v))
    requires e.CondemnLayer? ==> v == s.layers[e.l].vol
    ensures forall sid :: sid in s.sources ==> !SourceHas(s.sources, sid, v)
  {
    hide Walk; hide DoomedUnneeded; hide DoomedNoSource; hide CondemnedUnused; hide Mounted; hide Linked; hide Apart;
    hide OneLive;
    hide Named; hide Chains; hide Contained;
  }

  lemma DoomKeeps(s: Store, v: Vol, condemned: set<Lid>)
    requires Inv(s) && CondemnedUnused(s.branches, s.layers, condemned)
    requires forall id :: id in s.branches ==> !Needs(s.layers, s.branches[id], v)
    requires forall sid :: sid in s.sources ==> !SourceHas(s.sources, sid, v)
    ensures Inv(s.(doomed := s.doomed + multiset{v}, condemned := condemned))
  {
    hide Named; hide Apart; hide OneLive; hide Chains; hide Linked; hide Contained; hide Mounted; hide CondemnedUnused;
    hide Needs; hide SourceHas; hide LayersApart; hide Sourced;
  }

  lemma CondemnNext(s: Store, e: Event)
    requires Inv(s) && Enabled(s, e) && (e.CondemnLayer? || e.CondemnSource? || e.CondemnVol?)
    ensures var v := if e.CondemnLayer? then s.layers[e.l].vol else e.v;
      var condemned := if e.CondemnLayer? then s.condemned + {e.l} else s.condemned;
      && Next(s, e) == s.(doomed := s.doomed + multiset{v}, condemned := condemned)
      && CondemnedUnused(s.branches, s.layers, condemned)
  {
    hide Named; hide Apart; hide OneLive; hide Chains; hide Linked; hide Contained; hide Mounted; hide LayersApart;
    hide Sourced;
    hide DoomedNoSource; hide DoomedUnneeded; hide ZeroRefs; hide InLiveSet;
  }

  lemma CondemnKeeps(s: Store, e: Event)
    requires Inv(s) && Enabled(s, e) && (e.CondemnLayer? || e.CondemnSource? || e.CondemnVol?)
    ensures Inv(Next(s, e))
  {
    var v := if e.CondemnLayer? then s.layers[e.l].vol else e.v;
    hide Inv; hide Needs; hide SourceHas; hide Enabled; hide Next; hide CondemnedUnused;
    CondemnNext(s, e);
    CondemnedNotNeeded(s, e, v);
    CondemnedNoSource(s, e, v);
    DoomKeeps(s, v, if e.CondemnLayer? then s.condemned + {e.l} else s.condemned);
  }

  lemma CollectKeeps(s: Store, e: Event)
    requires Inv(s) && Enabled(s, e) && e.Collect?
    ensures Inv(Next(s, e))
  {
    hide Named; hide Apart; hide OneLive; hide LayersApart; hide Chains; hide Linked; hide Contained; hide Mounted;
    hide Needs; hide SourceHas; hide Sourced; hide CondemnedUnused;
  }

  // --------------------------------------------------------------- the layer table

  lemma RankBound(rank: map<Lid, nat>) returns (r: nat)
    ensures forall l :: l in rank ==> rank[l] < r
    decreases |rank|
  {
    if rank == map[] {
      r := 0;
    } else {
      var l :| l in rank;
      r := RankBound(rank - {l});
      assert forall m :: m in rank && m != l ==> m in rank - {l} && (rank - {l})[m] == rank[m];
      r := r + rank[l] + 1;
    }
  }

  /** A new layer on an existing one leaves every other stack alone and puts
      its volume on top of the one it is chained to. */
  lemma FrozenInsert(layers: Table<Vol>, l: Lid, layer: Layer<Vol>, b: Branch)
    requires Acyclic(layers) && l !in layers && Resolves(layers, layer.parent) && Resolves(layers, b.base)
    ensures Acyclic(layers[l := layer])
    ensures Walk(layers[l := layer], b.base) == Walk(layers, b.base)
    ensures Walk(layers[l := layer], Some(l)) == [l] + Walk(layers, layer.parent)
    ensures Frozen(layers[l := layer], b) == Frozen(layers, b)
    ensures VolsOf(layers[l := layer], Walk(layers[l := layer], Some(l))) ==
        [layer.vol] + VolsOf(layers, Walk(layers, layer.parent))
  {
    var rank: map<Lid, nat> :| Ranked(layers, rank);
    var r := RankBound(rank);
    WalkInsert(layers, rank, b.base, l, layer, r);
  }

  /** Deleting a childless layer off a chain leaves that stack alone. */
  lemma FrozenDelete(layers: Table<Vol>, l: Lid, b: Branch)
    requires Acyclic(layers) && l in layers && NoChild(layers, l) && Resolves(layers, b.base)
    requires l !in Walk(layers, b.base)
    ensures Acyclic(layers - {l}) && Resolves(layers - {l}, b.base)
    ensures Walk(layers - {l}, b.base) == Walk(layers, b.base) && Frozen(layers - {l}, b) == Frozen(layers, b)
  {
    var rank: map<Lid, nat> :| Ranked(layers, rank);
    assert Ranked(layers - {l}, rank);
    WalkDelete(layers, rank, b.base, l);
  }

  /** A row whose stack reads the same on the new table. */
  lemma SameStack(layers: Table<Vol>, layers': Table<Vol>, cons: map<Name, Mount>, b: Branch)
    requires RowMount(layers, cons, b) && (Live(b) ==> Frozen(layers', b) == Frozen(layers, b))
    ensures RowMount(layers', cons, b)
    ensures forall v :: Needs(layers', b, v) ==> Needs(layers, b, v)
  {
    hide Walk; hide VolsOf;
  }

  lemma DeleteApart(rows: Rows, layers: Table<Vol>, cons: map<Name, Mount>, l: Lid)
    requires LayersApart(rows, layers) && Contained(layers, cons)
    ensures LayersApart(rows, layers - {l}) && Contained(layers - {l}, cons)
  {
    hide Owned;
  }

  /** Every live stack survives the deletion of a condemned layer row. */
  lemma DropStacks(s: Store, l: Lid)
    requires Inv(s) && Enabled(s, DropLayer(l))
    ensures Acyclic(s.layers - {l})
    ensures forall id :: IsLive(s.branches, id) ==>
      && Resolves(s.layers - {l}, s.branches[id].base)
      && Walk(s.layers - {l}, s.branches[id].base) == Walk(s.layers, s.branches[id].base)
      && Frozen(s.layers - {l}, s.branches[id]) == Frozen(s.layers, s.branches[id])
  {
    hide Walk; hide VolsOf; hide Frozen; hide Named; hide Apart; hide OneLive; hide LayersApart; hide Sourced;
    hide DoomedUnneeded;
    hide Linked; hide DoomedNoSource; hide Contained; hide Mounted;
    assert ZeroRefs(s.branches, s.layers, l);
    forall id | IsLive(s.branches, id)
      ensures Resolves(s.layers - {l}, s.branches[id].base)
      ensures Walk(s.layers - {l}, s.branches[id].base) == Walk(s.layers, s.branches[id].base)
      ensures Frozen(s.layers - {l}, s.branches[id]) == Frozen(s.layers, s.branches[id])
    {
      FrozenDelete(s.layers, l, s.branches[id]);
    }
    var rank: map<Lid, nat> :| Ranked(s.layers, rank);
    assert Ranked(s.layers - {l}, rank);
  }

  /** A table on which every live stack reads the same. */
  lemma SameStacksKeep(s: Store, t: Table<Vol>)
    requires Inv(s) && LayersApart(s.branches, t) && Contained(t, s.cons) && Acyclic(t) && t.Keys <= s.layers.Keys
    requires forall id :: IsLive(s.branches, id) ==>
      && Resolves(t, s.branches[id].base) && Walk(t, s.branches[id].base) == Walk(s.layers, s.branches[id].base)
      && Frozen(t, s.branches[id]) == Frozen(s.layers, s.branches[id])
    ensures Inv(s.(layers := t))
  {
    hide Walk; hide VolsOf; hide Frozen; hide Needs; hide RowMount; hide Owned; hide Linked; hide DoomedNoSource;
    hide Sourced; hide Named; hide Apart; hide OneLive;
    hide LayersApart; hide Contained; hide Acyclic;
    forall id | id in s.branches
      ensures RowMount(t, s.cons, s.branches[id])
      ensures forall v :: Needs(t, s.branches[id], v) ==> Needs(s.layers, s.branches[id], v)
    {
      SameStack(s.layers, t, s.cons, s.branches[id]);
    }
  }

  lemma DropLayerKeeps(s: Store, e: Event)
    requires Inv(s) && Enabled(s, e) && e.DropLayer?
    ensures Inv(Next(s, e))
  {
    assert LayersApart(s.branches, s.layers) && Contained(s.layers, s.cons);
    hide Inv; hide Walk; hide Frozen; hide NoChild; hide LayersApart; hide Contained; hide Acyclic;
    DropStacks(s, e.l);
    DeleteApart(s.branches, s.layers, s.cons, e.l);
    SameStacksKeep(s, s.layers - {e.l});
  }

  // ------------------------------------------------------------------------ commit

  /** What CommitFreeze makes of the two rows. */
  function CommittedParent(p: Branch, l: Lid): Branch
    requires p.job.Some?
  {
    p.(state := Ready, rw := p.job.value.plan.rw, base := Some(l), pending := None, job := None)
  }

  function CommittedChild(c: Branch, l: Lid): Branch
    requires c.job.Some?
  {
    c.(base := Some(l), job := Some(c.job.value.(kind := Keep, made := false)))
  }

  /** The stacks the registry records after the commit are the ones the freeze
      started both containers on: the parent's old stack, writable volume
      included, under a fresh volume each. */
  lemma CommitStacks(s: Store, id: Bid, l: Lid)
    requires Inv(s) && Enabled(s, Commit(id, l))
    ensures var p := s.branches[id]; var child := p.job.value.kind.child;
      && child in s.branches && child != id && id in Next(s, Commit(id, l)).branches
      && child in Next(s, Commit(id, l)).branches
      && Next(s, Commit(id, l)).branches[id] == CommittedParent(p, l)
      && Next(s, Commit(id, l)).branches[child] == CommittedChild(s.branches[child], l)
      && PlanOf(Next(s, Commit(id, l)).layers, CommittedParent(p, l)) == p.job.value.plan
      && PlanOf(Next(s, Commit(id, l)).layers, CommittedChild(s.branches[child], l)) == s.branches[child].job.value.plan
      && p.job.value.plan.layers == s.branches[child].job.value.plan.layers == [p.rw] + Frozen(s.layers, p)
  {
    hide Walk; hide VolsOf;
    hide DoomedUnneeded; hide DoomedNoSource; hide CondemnedUnused;
    hide Named; hide Apart; hide OneLive; hide LayersApart; hide Sourced; hide Contained; hide Linked;
    var p := s.branches[id];
    MountedAt(s, id);
    FreezePair(s, id);
    MountedAt(s, p.job.value.kind.child);
    assert IsLive(s.branches, id);
    FrozenInsert(s.layers, l, Layer(p.rw, p.base), p);
  }

  lemma InsertApart(rows: Rows, layers: Table<Vol>, l: Lid, layer: Layer<Vol>)
    requires LayersApart(rows, layers) && layer.vol.Rw?
    requires forall j :: j in rows ==> layer.vol !in Owned(rows[j])
    requires forall m :: m in layers ==> layers[m].vol != layer.vol
    ensures LayersApart(rows, layers[l := layer])
  {
    hide Owned;
  }

  /** The parent hands its old volume over and keeps the fresh one. */
  lemma CommitOwned(s: Store, id: Bid, l: Lid)
    requires Inv(s) && Enabled(s, Commit(id, l))
    ensures var p := s.branches[id]; var child := p.job.value.kind.child;
      && child in s.branches && child != id && s.branches[child].job.Some?
      && WellNamed(p) && WellNamed(CommittedParent(p, l)) && WellNamed(CommittedChild(s.branches[child], l))
      && Owned(CommittedParent(p, l)) <= Owned(p) && p.rw in Owned(p) && p.rw !in Owned(CommittedParent(p, l))
      && Owned(CommittedChild(s.branches[child], l)) <= Owned(s.branches[child])
  {
    hide Structure; hide Linked; hide Mounted; hide DoomedNoSource; hide Contained;
    FreezePair(s, id);
    MountedAt(s, id);
    MountedAt(s, s.branches[id].job.value.kind.child);
  }

  lemma CommitNames(s: Store, id: Bid, l: Lid)
    requires Inv(s) && Enabled(s, Commit(id, l))
    ensures var t := Next(s, Commit(id, l)); Named(t.branches) && Apart(t.branches) && LayersApart(t.branches, t.layers)
  {
    hide Walk; hide VolsOf; hide DoomedUnneeded; hide DoomedNoSource; hide CondemnedUnused; hide OneLive; hide Sourced;
    hide Contained; hide Chains;
    hide Mounted; hide Linked; hide Owned; hide Named;
    var p, child := s.branches[id], s.branches[id].job.value.kind.child;
    CommitOwned(s, id, l);
    var p', c' := CommittedParent(p, l), CommittedChild(s.branches[child], l);
    NamesKeep(s.branches, s.layers, id, p', {});
    NamesKeep(s.branches[id := p'], s.layers, child, c', {});
    var rows := s.branches[id := p'][child := c'];
    forall j | j in rows ensures p.rw !in Owned(rows[j]) {
      if j != id {
        assert Owned(s.branches[j]) !! Owned(p);
      }
    }
    forall m | m in s.layers ensures s.layers[m].vol != p.rw {
      assert s.layers[m].vol !in Owned(p);
    }
    InsertApart(rows, s.layers, l, Layer(p.rw, p.base));
  }

  /** A chain of t holds nothing but l and what two chains of s held. */
  ghost predicate OnlyAdds(s: Store, t: Store, one: Option<Lid>, two: Option<Lid>, base: Option<Lid>, l: Lid) {
    forall m :: m in Walk(t.layers, base) ==> m == l || m in Walk(s.layers, one) || m in Walk(s.layers, two)
  }

  /** A live branch's stack as the commit leaves it. */
  lemma CommitRow(s: Store, id: Bid, l: Lid, j: Bid)
    requires Inv(s) && Enabled(s, Commit(id, l)) && j in s.branches
    ensures var t := Next(s, Commit(id, l)); var b := t.branches[j];
      && RowMount(t.layers, s.cons, b)
      && (Live(b) ==> Resolves(t.layers, b.base) && OnlyAdds(s, t, s.branches[j].base, s.branches[id].base, b.base, l))
      && (forall v :: Needs(t.layers, b, v) ==> Needs(s.layers, s.branches[j], v) || Needs(s.layers, s.branches[id], v))
  {
    hide Walk; hide VolsOf; hide DoomedUnneeded; hide DoomedNoSource; hide CondemnedUnused;
    hide Named; hide Apart; hide OneLive; hide LayersApart; hide Sourced; hide Contained; hide Linked;
    var p, child := s.branches[id], s.branches[id].job.value.kind.child;
    MountedAt(s, id);
    MountedAt(s, j);
    assert IsLive(s.branches, id);
    CommitStacks(s, id, l);
    if j == id || j == child {
      FrozenInsert(s.layers, l, Layer(p.rw, p.base), p);
    } else if Live(s.branches[j]) {
      assert IsLive(s.branches, j);
      FrozenInsert(s.layers, l, Layer(p.rw, p.base), s.branches[j]);
      SameStack(s.layers, Next(s, Commit(id, l)).layers, s.cons, s.branches[j]);
    }
  }

  lemma CommitContained(s: Store, id: Bid, l: Lid)
    requires Inv(s) && Enabled(s, Commit(id, l))
    ensures Contained(s.layers[l := Layer(s.branches[id].rw, s.branches[id].base)], s.cons)
  {
    hide Walk; hide VolsOf; hide DoomedUnneeded; hide DoomedNoSource; hide CondemnedUnused; hide Linked;
    MountedAt(s, id);
    var p := s.branches[id];
    forall n | n in s.cons ensures s.cons[n].rw != p.rw {
      if n == p.name {
        assert s.cons[n].rw == p.job.value.plan.rw && p.job.value.plan.rw in Fresh(p);
      } else {
        assert p.rw in Owned(p);
      }
    }
  }

  lemma CommitSweeping(s: Store, id: Bid, l: Lid)
    requires Inv(s) && Enabled(s, Commit(id, l))
    ensures var t := Next(s, Commit(id, l)); Sweeping(t.branches, t.sweeps, t.cleared)
  {
    hide Structure; hide Linked; hide DoomedNoSource; hide Contained; hide Mounted; hide Sweeping; hide NextVols;
    hide NextReused; hide NextLayers;
    var p, child := s.branches[id], s.branches[id].job.value.kind.child;
    FreezePair(s, id);
    MountedLive(s, id);
    MountedLive(s, child);
    var p', c' := CommittedParent(p, l), CommittedChild(s.branches[child], l);
    SweepableKeeps(s.branches, s.sweeps, s.cleared, id, p');
    SweepableKeeps(s.branches[id := p'], s.sweeps, s.cleared, child, c');
  }

  lemma CommitKeeps(s: Store, e: Event)
    requires Inv(s) && Enabled(s, e) && e.Commit?
    ensures Inv(Next(s, e))
  {
    hide Walk; hide VolsOf; hide Needs; hide RowMount; hide Owned; hide Frozen; hide Named; hide Apart;
    hide LayersApart; hide Contained;
    hide Sweeping;
    CommitSweeping(s, e.id, e.l);
    var t := Next(s, e);
    var p, child := s.branches[e.id], s.branches[e.id].job.value.kind.child;
    CommitStacks(s, e.id, e.l);
    CommitNames(s, e.id, e.l);
    CommitContained(s, e.id, e.l);
    assert IsLive(s.branches, e.id) by { MountedLive(s, e.id); }
    FrozenInsert(s.layers, e.l, Layer(p.rw, p.base), p);
    forall j | j in s.branches
      ensures var b := t.branches[j];
        && RowMount(t.layers, s.cons, b)
        && (Live(b) ==> Resolves(t.layers, b.base) && OnlyAdds(s, t, s.branches[j].base, p.base, b.base, e.l))
        && (forall v :: Needs(t.layers, b, v) ==> Needs(s.layers, s.branches[j], v) || Needs(s.layers, p, v))
    {
      CommitRow(s, e.id, e.l, j);
    }
    PairUnlinked(s.branches, e.id, CommittedParent(p, e.l), child, CommittedChild(s.branches[child], e.l));
    CommitLives(s, e.id, e.l);
    assert Chains(t.branches, t.layers);
    assert CondemnedUnused(t.branches, t.layers, t.condemned) by {
      forall m, j | m in t.condemned && m in t.layers && IsLive(t.branches, j)
          ensures m !in Walk(t.layers, t.branches[j].base) {
        assert ZeroRefs(s.branches, s.layers, m) && IsLive(s.branches, j);
      }
    }
  }

  lemma MountedLive(s: Store, id: Bid)
    requires Inv(s) && Runs(s, id)
    ensures IsLive(s.branches, id)
  {
    hide Walk; hide VolsOf;
    MountedAt(s, id);
  }

  lemma CommitLives(s: Store, id: Bid, l: Lid)
    requires Inv(s) && Enabled(s, Commit(id, l))
    ensures var t := Next(s, Commit(id, l));
      && t.branches.Keys == s.branches.Keys && OneLive(t.branches) && Sourced(t.branches, t.sources)
      && forall j :: IsLive(t.branches, j) ==> IsLive(s.branches, j)
  {
    hide Walk; hide VolsOf; hide DoomedUnneeded; hide DoomedNoSource; hide CondemnedUnused; hide Named; hide Apart;
    hide LayersApart; hide Contained;
    hide Linked; hide Chains;
    MountedLive(s, id);
    FreezePair(s, id);
    MountedLive(s, s.branches[id].job.value.kind.child);
  }

  // -------------------------------------------------------------------- every step

  /** Every step keeps the invariant, so it holds throughout every run. */
  lemma StepKeeps(s: Store, e: Event)
    requires Inv(s) && Enabled(s, e)
    ensures Inv(Next(s, e))
  {
    hide Inv; hide Enabled; hide Next;
    match e {
      case AddSource(_, _) => SourceEventKeeps(s, e);
      case ClaimNext(_) => SourceEventKeeps(s, e);
      case SeedNext(_, _) => VolumeEventKeeps(s, e);
      case DropNext(_) => VolumeEventKeeps(s, e);
      case ReleaseNext(_) => SourceEventKeeps(s, e);
      case BumpSource(_) => SourceEventKeeps(s, e);
      case Create(_, _, _, _) => CreateKeeps(s, e);
      case CreateChild(_, _, _, _) => CreateChildKeeps(s, e);
      case Reset(_) => RowEventKeeps(s, e);
      case Recover(_) => RowEventKeeps(s, e);
      case MakeVol(_) => MakeEventKeeps(s, e);
      case DropVol(_) => MakeEventKeeps(s, e);
      case Boot(_) => BootKeeps(s, e);
      case Finish(_) => RowEventKeeps(s, e);
      case Fail(_) => RowEventKeeps(s, e);
      case Crash(_) => CrashKeeps(s, e);
      case BeginFreeze(_, _, _) => BeginFreezeKeeps(s, e);
      case Claim(_) => ClaimKeeps(s, e);
      case Commit(_, _) => CommitKeeps(s, e);
      case Abort(_, _) => AbortKeeps(s, e);
      case FailStuck(_) => FailStuckKeeps(s, e);
      case CheckStuck(_) => CheckStuckKeeps(s, e);
      case RemoveStuck(_) => CheckStuckKeeps(s, e);
      case FailReady(_) => RowEventKeeps(s, e);
      case Restart(_) => RestartKeeps(s, e);
      case Destroy(_) => RowEventKeeps(s, e);
      case Teardown(_) => VolumeEventKeeps(s, e);
      case Bury(_) => RowEventKeeps(s, e);
      case Vanish(_) => VanishKeeps(s, e);
      case Write(_, _, _) => VolumeEventKeeps(s, e);
      case CondemnLayer(_) => CondemnKeeps(s, e);
      case CondemnSource(_) => CondemnKeeps(s, e);
      case CondemnVol(_) => CondemnKeeps(s, e);
      case Collect(_) => CollectKeeps(s, e);
      case DropLayer(_) => DropLayerKeeps(s, e);
    }
  }

  lemma {:induction false} RunInv(ss: seq<Store>, es: seq<Event>, i: nat)
    requires Run(ss, es) && i <= |es|
    ensures Inv(ss[i])
    decreases i
  {
    hide Inv; hide Enabled; hide Next;
    if i == 0 {
      EmptyInv();
    } else {
      RunInv(ss, es, i - 1);
      StepKeeps(ss[i - 1], es[i - 1]);
    }
  }
}
