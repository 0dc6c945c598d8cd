/** The copy-on-write layer store as a machine of atomic registry and runtime
    steps.  The registry half holds source, branch and layer rows; the runtime
    half holds volumes and containers.  Sagas appear as the job of the row they
    work on, so any interleaving of any number of them is a run. */
module Store {
  import opened Wrappers
  import opened Layers
  import opened Overlay

  type Name = string
  type Rows = map<Bid, Branch>
  type Sid = nat

  /** Writable volumes are named by branch and generation, source volumes by
      source and generation. */
  datatype Vol = Rw(name: Name, gen: nat) | Src(sid: Sid, gen: nat)

  /** What a container mounts: writable volume, frozen layers newest first,
      source volume. */
  datatype Mount = Mount(rw: Vol, layers: seq<Vol>, src: Vol)

  /** A resetting row whose freeze has claimed its fresh volume is told apart
      from the others: its pending volume is not a leftover. */
  datatype State = Creating | Ready | Resetting(claimed: bool) | Failed | Destroying | Destroyed

  /** Build: provision, from create or reset.  Keep: restart on existing data.
      Freeze and Child: the two rows of a branch-from-branch. */
  datatype Kind = Build | Keep | Freeze(child: Bid) | Child(parent: Bid)

  /** A live saga: the stack it computed when it began, whether it has created
      that stack's writable volume, and whether it has started the row's
      container on it. */
  datatype Job = Job(kind: Kind, plan: Mount, made: bool, up: bool)

  /** round counts how often a reset or recover has taken the row up again. */
  datatype Branch = Branch(name: Name, state: State, rw: Vol, src: Vol, base: Option<Lid>,
                           parent: Option<Name>, pending: Option<Vol>, round: nat, job: Option<Job>)

  /** What is left of a row that reconcile failed as stuck: its volume at the
      swap, and the round it was in. */
  datatype Sweep = Sweep(id: Bid, vol: Vol, round: nat)

  /** Generation gen is current; next says generation gen + 1 is claimed. */
  datatype Source = Source(gen: nat, next: bool)

  /** doomed holds, per collector at work, a volume it has checked and not yet
      removed; reused are those of them some row has recorded again since;
      condemned are the layers a collector found without a reference.  sweeps
      are stuck rows whose volume may still go, cleared those of them whose
      reference count was zero when it was asked for. */
  datatype Store = Store(branches: map<Bid, Branch>, layers: Table<Vol>, sources: map<Sid, Source>,
                         vols: map<Vol, Content>, cons: map<Name, Mount>,
                         doomed: multiset<Vol>, reused: set<Vol>, condemned: set<Lid>,
                         sweeps: set<Sweep>, cleared: set<Sweep>)

  const EMPTY := Store(map[], map[], map[], map[], map[], multiset{}, {}, {}, {}, {})

  predicate Live(b: Branch) { !b.state.Destroyed? }

  predicate IsLive(rows: Rows, id: Bid) { id in rows && Live(rows[id]) }

  // ------------------------------------------------------------- registry queries

  ghost function VolsOf(t: Table<Vol>, chain: seq<Lid>): (vs: seq<Vol>)
    requires forall i :: 0 <= i < |chain| ==> chain[i] in t
    ensures |vs| == |chain| && forall i :: 0 <= i < |chain| ==> vs[i] == t[chain[i]].vol
  {
    seq(|chain|, i requires 0 <= i < |chain| => t[chain[i]].vol)
  }

  /** The frozen volumes under a branch, newest first. */
  ghost function Frozen(layers: Table<Vol>, b: Branch): seq<Vol> {
    VolsOf(layers, Walk(layers, b.base))
  }

  /** LayerChain and PlanBranch: the stack the registry says a branch has. */
  ghost function PlanOf(layers: Table<Vol>, b: Branch): Mount {
    Mount(b.rw, Frozen(layers, b), b.src)
  }

  /** VolumeNameUsed, for writable volumes. */
  predicate Used(rows: Rows, layers: Table<Vol>, v: Vol) {
    || (exists id :: id in rows && (rows[id].rw == v || rows[id].pending == Some(v)))
    || (exists l :: l in layers && layers[l].vol == v)
  }

  /** CountBranchesReferencingLayer is zero. */
  ghost predicate ZeroRefs(rows: Rows, layers: Table<Vol>, l: Lid) {
    forall id :: IsLive(rows, id) ==> l !in Walk(layers, rows[id].base)
  }

  /** CountLiveBranchesReferencingRW is zero. */
  predicate NoDependent(rows: Rows, name: Name, v: Vol) {
    forall id :: id in rows && Live(rows[id]) && rows[id].name != name ==>
      rows[id].src != v && !(rows[id].parent == Some(name) && rows[id].base.None?)
  }

  /** InFlightChildren is empty. */
  predicate NoChildInFlight(rows: Rows, b: Branch) {
    forall id :: id in rows && rows[id].state.Creating? ==> rows[id].parent != Some(b.name)
  }

  predicate NameFree(rows: Rows, name: Name) {
    forall id :: id in rows && Live(rows[id]) ==> rows[id].name != name
  }

  predicate SourceHas(sources: map<Sid, Source>, sid: Sid, v: Vol) {
    sid in sources && (v == Src(sid, sources[sid].gen) || (sources[sid].next && v == Src(sid, sources[sid].gen + 1)))
  }

  predicate InFlight(b: Branch) { b.state.Creating? || b.state.Resetting? }

  /** LiveVolumeSet. */
  predicate InLiveSet(s: Store, v: Vol) {
    || (exists id :: id in s.branches && Live(s.branches[id]) && (s.branches[id].rw == v || s.branches[id].src == v))
    || (exists l :: l in s.layers && s.layers[l].vol == v)
    || (exists id :: id in s.branches && s.branches[id].pending == Some(v) && InFlight(s.branches[id]))
    || (exists sid :: sid in s.sources && SourceHas(s.sources, sid, v))
  }

  /** checkChildCommitted. */
  predicate Committed(b: Branch) { b.parent.Some? ==> b.base.Some? }

  // ----------------------------------------------------------------------- steps

  datatype Ending = BackToReady | ToFailed | ToRestore

  datatype Event =
    // sources
    | AddSource(sid: Sid, seed: Content)
    | ClaimNext(sid: Sid)
    | SeedNext(sid: Sid, seed: Content)
    | DropNext(sid: Sid)
    | ReleaseNext(sid: Sid)
    | BumpSource(sid: Sid)
    // branch rows and their sagas
    | Create(id: Bid, name: Name, sid: Sid, gen: nat)
    | CreateChild(id: Bid, name: Name, of: Bid, gen: nat)
    | Reset(id: Bid)
    | Recover(id: Bid)
    | MakeVol(id: Bid)
    | DropVol(id: Bid)
    | Boot(id: Bid)
    | Finish(id: Bid)
    | Fail(id: Bid)
    | Crash(id: Bid)
    // freeze
    | BeginFreeze(id: Bid, child: Bid, gen: nat)
    | Claim(id: Bid)
    | Commit(id: Bid, l: Lid)
    | Abort(id: Bid, ending: Ending)
    // reconcile and destroy
    | FailStuck(id: Bid)
    | CheckStuck(w: Sweep)
    | RemoveStuck(w: Sweep)
    | FailReady(id: Bid)
    | Restart(id: Bid)
    | Destroy(id: Bid)
    | Teardown(id: Bid)
    | Bury(id: Bid)
    // runtime
    | Vanish(name: Name)
    | Write(name: Name, path: Path, data: Option<Data>)
    // collection, each check apart from its removal
    | CondemnLayer(l: Lid)
    | CondemnSource(v: Vol)
    | CondemnVol(v: Vol)
    | Collect(v: Vol)
    | DropLayer(l: Lid)

  /** A row with a live saga of some kind. */
  predicate Runs(s: Store, id: Bid) { id in s.branches && s.branches[id].job.Some? }

  predicate Freezing(s: Store, id: Bid) { Runs(s, id) && s.branches[id].job.value.kind.Freeze? }

  /** A saga that builds its volume, or a freeze that has claimed it. */
  predicate OwnsPlan(b: Branch) {
    && b.job.Some? && !b.job.value.kind.Keep?
    && (b.job.value.kind.Freeze? ==> b.state == Resetting(true))
  }

  function Row(s: Store, id: Bid): Branch
    requires id in s.branches
  {
    s.branches[id]
  }

  /** A saga that has done nothing yet. */
  function Began(kind: Kind, plan: Mount): Job { Job(kind, plan, false, false) }

  /** A row that a reset or recover takes up again. */
  function TakenUp(b: Branch, j: Job): Branch { b.(state := Resetting(false), round := b.round + 1, job := Some(j)) }

  function SetRow(s: Store, id: Bid, b: Branch): Store { s.(branches := s.branches[id := b]) }

  ghost predicate Enabled(s: Store, e: Event) {
    match e
    case AddSource(sid, _) => sid !in s.sources && Src(sid, 1) !in s.vols
    case ClaimNext(sid) => sid in s.sources
    case SeedNext(sid, _) => sid in s.sources && s.sources[sid].next && Src(sid, s.sources[sid].gen + 1) !in s.vols
    case DropNext(sid) => sid in s.sources && s.sources[sid].next
    case ReleaseNext(sid) => sid in s.sources && s.sources[sid].next
    case BumpSource(sid) => sid in s.sources && s.sources[sid].next
    case Create(id, name, sid, gen) =>
      && id !in s.branches && NameFree(s.branches, name) && sid in s.sources && gen >= 1
      && !Used(s.branches, s.layers, Rw(name, gen))
    case CreateChild(id, name, p, gen) =>
      && id !in s.branches && NameFree(s.branches, name) && gen >= 1 && !Used(s.branches, s.layers, Rw(name, gen))
      && p in s.branches && Row(s, p).state.Ready?
    case Reset(id) =>
      && id in s.branches && (Row(s, id).state.Ready? || Row(s, id).state.Failed?)
      && Committed(Row(s, id)) && NoChildInFlight(s.branches, Row(s, id))
    case Recover(id) =>
      id in s.branches && Row(s, id).state.Failed? && Committed(Row(s, id)) && NoChildInFlight(s.branches, Row(s, id))
    case MakeVol(id) =>
      id in s.branches && OwnsPlan(Row(s, id)) && !Row(s, id).job.value.made && Row(s, id).job.value.plan.rw !in s.vols
    case DropVol(id) =>
      && id in s.branches && OwnsPlan(Row(s, id)) && Row(s, id).name !in s.cons
      && (Row(s, id).job.value.made || (Row(s, id).job.value.kind.Build? && Row(s, id).state.Resetting?))
    case Boot(id) =>
      Runs(s, id) && (Row(s, id).job.value.made || Row(s, id).job.value.kind.Keep?) && Row(s, id).name !in s.cons
    case Finish(id) =>
      Runs(s, id) && Row(s, id).job.value.up && (Row(s, id).job.value.kind.Build? || Row(s, id).job.value.kind.Keep?)
    case Fail(id) => Runs(s, id) && (Row(s, id).job.value.kind.Build? || Row(s, id).job.value.kind.Keep?)
    case Crash(id) => Runs(s, id) && !Row(s, id).job.value.kind.Child?
    case BeginFreeze(id, child, gen) =>
      && id in s.branches && Row(s, id).state.Ready?
      && child in s.branches && Row(s, child).state.Creating? && Row(s, child).job.None? && Row(s, child).base.None?
      && Row(s, child).parent == Some(Row(s, id).name) && Row(s, child).src == Row(s, id).src
      && gen >= 1 && !Used(s.branches, s.layers, Rw(Row(s, id).name, gen))
    case Claim(id) => Freezing(s, id) && Row(s, id).name !in s.cons
    case Commit(id, l) =>
      && Freezing(s, id) && Row(s, id).job.value.up && Row(s, id).state == Resetting(true)
      && Runs(s, Row(s, id).job.value.kind.child) && Row(s, Row(s, id).job.value.kind.child).job.value.up
      && l !in s.layers && l !in s.condemned
    case Abort(id, ending) => Freezing(s, id) && (!ending.ToRestore? ==> !Row(s, id).job.value.up)
    case FailStuck(id) => id in s.branches && InFlight(Row(s, id)) && Row(s, id).job.None?
    case CheckStuck(w) => w in s.sweeps && w.id in s.branches && NoDependent(s.branches, Row(s, w.id).name, w.vol)
    case RemoveStuck(w) => w in s.cleared
    case FailReady(id) => id in s.branches && Row(s, id).state.Ready?
    case Restart(id) => id in s.branches && Row(s, id).state.Ready? && Row(s, id).name !in s.cons
    case Destroy(id) =>
      id in s.branches && Row(s, id).job.None? && !Row(s, id).state.Destroying? && !Row(s, id).state.Destroyed?
    case Teardown(id) => id in s.branches && (Row(s, id).state.Destroying? || Row(s, id).state.Destroyed?)
    case Bury(id) => id in s.branches && Row(s, id).state.Destroying?
    case Vanish(name) => name in s.cons
    case Write(name, _, _) => name in s.cons && s.cons[name].rw in s.vols
    case CondemnLayer(l) => l in s.layers && ZeroRefs(s.branches, s.layers, l)
    case CondemnSource(v) =>
      && v.Src? && (v.sid in s.sources ==> v.gen != s.sources[v.sid].gen)
      && (forall id :: id in s.branches && Live(s.branches[id]) ==> s.branches[id].src != v)
      && ((exists id :: id in s.branches && s.branches[id].src == v) ||
          (v.sid in s.sources && v.gen < s.sources[v.sid].gen))
    case CondemnVol(v) => !InLiveSet(s, v)
    case Collect(v) => v in s.doomed
    case DropLayer(l) => l in s.condemned && l in s.layers && NoChild(s.layers, l)
  }

  /** The name a step makes some row record. */
  ghost function Records(s: Store, e: Event): Option<Vol>
    requires Enabled(s, e)
  {
    match e
    case AddSource(sid, _) => Some(Src(sid, 1))
    case ClaimNext(sid) => Some(Src(sid, s.sources[sid].gen + 1))
    case Create(_, name, _, gen) => Some(Rw(name, gen))
    case CreateChild(_, name, _, gen) => Some(Rw(name, gen))
    case Claim(id) => Some(Row(s, id).job.value.plan.rw)
    case _ => None
  }

  /** A doomed name that is recorded is thereby reused, until the last collector
      that holds it has acted. */
  ghost function NextReused(s: Store, e: Event): set<Vol>
    requires Enabled(s, e)
  {
    if e.Collect? then (if s.doomed[e.v] > 1 then s.reused else s.reused - {e.v})
    else if Records(s, e).Some? then Reuse(s, Records(s, e).value)
    else s.reused
  }

  function Reuse(s: Store, v: Vol): set<Vol> { if v in s.doomed then s.reused + {v} else s.reused }

  /** A step's effect on the branch rows. */
  ghost function NextRows(s: Store, e: Event): Rows
    requires Enabled(s, e)
  {
    match e
    case Create(id, name, sid, gen) =>
      var b := Branch(name, Creating, Rw(name, gen), Src(sid, s.sources[sid].gen), None, None, None, 0, None);
      s.branches[id := b.(job := Some(Began(Build, PlanOf(s.layers, b))))]
    case CreateChild(id, name, p, gen) =>
      s.branches[id := Branch(name, Creating, Rw(name, gen), Row(s, p).src, None, Some(Row(s, p).name), None, 0, None)]
    case Reset(id) => s.branches[id := TakenUp(Row(s, id), Began(Build, PlanOf(s.layers, Row(s, id))))]
    case Recover(id) => s.branches[id := TakenUp(Row(s, id), Began(Keep, PlanOf(s.layers, Row(s, id))))]
    case MakeVol(id) => s.branches[id := Row(s, id).(job := Some(Row(s, id).job.value.(made := true)))]
    case DropVol(id) => s.branches[id := Row(s, id).(job := Some(Row(s, id).job.value.(made := false, up := false)))]
    case Boot(id) => s.branches[id := Row(s, id).(job := Some(Row(s, id).job.value.(up := true)))]
    case Finish(id) => s.branches[id := Row(s, id).(state := Ready, job := None)]
    case Fail(id) => s.branches[id := Row(s, id).(state := Failed, job := None)]
    case Crash(id) => Orphaned(s, id, s.branches[id := Row(s, id).(job := None)])
    case BeginFreeze(id, child, gen) =>
      var p, c := Row(s, id), Row(s, child);
      var frozen := [p.rw] + Frozen(s.layers, p);
      s.branches[id := p.(state := Resetting(false),
                           job := Some(Began(Freeze(child), Mount(Rw(p.name, gen), frozen, p.src))))]
                [child := c.(job := Some(Began(Child(id), Mount(c.rw, frozen, c.src))))]
    case Claim(id) =>
      s.branches[id := Row(s, id).(state := Resetting(true), pending := Some(Row(s, id).job.value.plan.rw))]
    case Commit(id, l) =>
      var p := Row(s, id);
      var child := p.job.value.kind.child;
      var c := Row(s, child);
      s.branches[id := p.(state := Ready, rw := p.job.value.plan.rw, base := Some(l), pending := None, job := None)]
                [child := c.(base := Some(l), job := Some(c.job.value.(kind := Keep, made := false)))]
    case Abort(id, ending) => Orphaned(s, id, s.branches[id := Ended(s, Row(s, id), ending)])
    case FailStuck(id) => s.branches[id := Row(s, id).(state := Failed)]
    case FailReady(id) => s.branches[id := Row(s, id).(state := Failed)]
    case Destroy(id) => s.branches[id := Row(s, id).(state := Destroying)]
    case Bury(id) => s.branches[id := Row(s, id).(state := Destroyed)]
    case _ => s.branches
  }

  /** A child whose freeze ended without committing has no saga left. */
  function Orphaned(s: Store, id: Bid, rows: Rows): Rows {
    if Freezing(s, id) && s.branches[id].job.value.kind.child in rows then
      var child := s.branches[id].job.value.kind.child;
      rows[child := rows[child].(job := None)]
    else rows
  }

  /** The parent of a freeze that ended without committing: back to ready before
      it was stopped, failed when it would not stop, or restarted on its own
      data with the claim released. */
  ghost function Ended(s: Store, p: Branch, ending: Ending): Branch {
    match ending
    case BackToReady => p.(state := Ready, job := None)
    case ToFailed => p.(state := Failed, job := None)
    case ToRestore => p.(state := Resetting(false), pending := None, job := Some(Began(Keep, PlanOf(s.layers, p))))
  }

  /** A step's effect on the sources. */
  function NextSources(s: Store, e: Event): map<Sid, Source> {
    match e
    case AddSource(sid, _) => s.sources[sid := Source(1, false)]
    case ClaimNext(sid) => if sid in s.sources then s.sources[sid := s.sources[sid].(next := true)] else s.sources
    case ReleaseNext(sid) => if sid in s.sources then s.sources[sid := s.sources[sid].(next := false)] else s.sources
    case BumpSource(sid) =>
      if sid in s.sources then s.sources[sid := Source(s.sources[sid].gen + 1, false)] else s.sources
    case _ => s.sources
  }

  /** A step's effect on the containers. */
  ghost function NextCons(s: Store, e: Event): map<Name, Mount>
    requires Enabled(s, e)
  {
    match e
    case Boot(id) => s.cons[Row(s, id).name := Row(s, id).job.value.plan]
    case Restart(id) => s.cons[Row(s, id).name := PlanOf(s.layers, Row(s, id))]
    case Vanish(name) => s.cons - {name}
    case _ => s.cons
  }

  /** A step's effect on what collectors and the stuck handling have in hand. */
  ghost function NextDoomed(s: Store, e: Event): multiset<Vol>
    requires Enabled(s, e)
  {
    match e
    case CondemnLayer(l) => s.doomed + multiset{s.layers[l].vol}
    case CondemnSource(v) => s.doomed + multiset{v}
    case CondemnVol(v) => s.doomed + multiset{v}
    case Collect(v) => s.doomed - multiset{v}
    case _ => s.doomed
  }

  function NextSweeps(s: Store, e: Event): set<Sweep> {
    match e
    case FailStuck(id) => if id in s.branches then s.sweeps + {Sweep(id, Row(s, id).rw, Row(s, id).round)} else s.sweeps
    case RemoveStuck(w) => s.sweeps - {w}
    case _ => s.sweeps
  }

  function NextCleared(s: Store, e: Event): set<Sweep> {
    match e
    case CheckStuck(w) => s.cleared + {w}
    case RemoveStuck(w) => s.cleared - {w}
    case _ => s.cleared
  }

  /** A step's effect on the layer rows. */
  ghost function NextLayers(s: Store, e: Event): Table<Vol>
    requires Enabled(s, e)
  {
    match e
    case Commit(id, l) => s.layers[l := Layer(Row(s, id).rw, Row(s, id).base)]
    case DropLayer(l) => s.layers - {l}
    case _ => s.layers
  }

  /** The one volume a step creates, writes or removes, if any. */
  ghost function Target(s: Store, e: Event): Option<Vol>
    requires Enabled(s, e)
  {
    match e
    case AddSource(sid, _) => Some(Src(sid, 1))
    case SeedNext(sid, _) => Some(Src(sid, s.sources[sid].gen + 1))
    case DropNext(sid) => Some(Src(sid, s.sources[sid].gen + 1))
    case MakeVol(id) => Some(Row(s, id).job.value.plan.rw)
    case DropVol(id) => Some(Row(s, id).job.value.plan.rw)
    case RemoveStuck(w) => Some(w.vol)
    case Teardown(id) => Some(Row(s, id).rw)
    case Write(name, _, _) => Some(s.cons[name].rw)
    case Collect(v) => Some(v)
    case _ => None
  }

  /** What it holds afterwards; None when it is removed. */
  ghost function Holds(s: Store, e: Event): Option<Content>
    requires Enabled(s, e)
  {
    match e
    case AddSource(_, seed) => Some(seed)
    case SeedNext(_, seed) => Some(seed)
    case MakeVol(_) => Some(map[])
    case Write(name, path, data) => Some(Written(s.vols[s.cons[name].rw], path, data))
    case _ => None
  }

  /** A step's effect on the volumes. */
  ghost function NextVols(s: Store, e: Event): map<Vol, Content>
    requires Enabled(s, e)
  {
    if Target(s, e).None? then s.vols
    else if Holds(s, e).None? then s.vols - {Target(s, e).value}
    else s.vols[Target(s, e).value := Holds(s, e).value]
  }

  ghost function Next(s: Store, e: Event): Store
    requires Enabled(s, e)
  {
    Store(NextRows(s, e), NextLayers(s, e), NextSources(s, e), NextVols(s, e), NextCons(s, e), NextDoomed(s, e),
          NextReused(s, e), if e.CondemnLayer? then s.condemned + {e.l} else s.condemned,
          NextSweeps(s, e), NextCleared(s, e))
  }

  // ----------------------------------------------------------- acting on old checks

  /** Nobody has taken the row up since it was failed as stuck. */
  predicate Current(s: Store, w: Sweep) { w.id in s.branches && s.branches[w.id].round == w.round }

  /** A removal whose check no longer holds good: the volume's name has been
      recorded again, or the stuck row has been taken up again. */
  predicate Outdated(s: Store, e: Event) {
    (e.Collect? && e.v in s.reused) || (e.RemoveStuck? && !Current(s, e.w))
  }

  // ------------------------------------------------------------------------ runs

  ghost predicate Run(ss: seq<Store>, es: seq<Event>) {
    && |ss| == |es| + 1 && ss[0] == EMPTY
    && forall i :: 0 <= i < |es| ==> Enabled(ss[i], es[i]) && ss[i + 1] == Next(ss[i], es[i])
  }
}
