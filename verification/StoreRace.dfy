/** Why removals are safe only while their checks hold good: two runs in which
    an outdated check takes a volume from under a ready branch. */
module StoreRace {
  import opened Wrappers
  import opened Layers
  import opened Overlay
  import opened Store
  import opened StoreInv
  import opened StoreSafety

  ghost predicate Goes(s: Store, e: Event, t: Store) { Enabled(s, e) && Next(s, e) == t }

  lemma CollectNext(s: Store, v: Vol)
    requires v in s.doomed
    ensures Enabled(s, Collect(v))
    ensures Next(s, Collect(v)) ==
      s.(vols := s.vols - {v}, doomed := s.doomed - multiset{v},
         reused := if s.doomed[v] > 1 then s.reused else s.reused - {v})
  {
  }

  lemma WriteNext(s: Store, name: Name, path: Path, d: Data)
    requires name in s.cons && s.cons[name].rw in s.vols
    ensures Enabled(s, Write(name, path, Some(d)))
    ensures Next(s, Write(name, path, Some(d))) ==
        s.(vols := s.vols[s.cons[name].rw := s.vols[s.cons[name].rw][path := File(d)]])
  {
  }

  lemma SweepNext(s: Store, w: Sweep)
    requires w in s.cleared
    ensures Enabled(s, RemoveStuck(w))
    ensures Next(s, RemoveStuck(w)) ==
        s.(vols := s.vols - {w.vol}, sweeps := s.sweeps - {w}, cleared := s.cleared - {w})
  {
  }

  const OLD := Src(0, 1)
  const NEW := Src(0, 2)
  const RW := Rw("a", 1)

  const BEGUN := EMPTY.(sources := map[0 := Source(1, false)], vols := map[OLD := map[]])

  lemma FirstSource()
    ensures Goes(EMPTY, AddSource(0, map[]), BEGUN)
  {
  }

  // ------------------------------------------------------------- a name recorded again

  // A refresh fails and its volume stays behind.  Two collectors find it outside
  // the live set, one removes it, the refresh is tried again and recorded, a
  // branch is created on it, and only then does the other collector act.

  const ROW := Branch("a", Creating, RW, NEW, None, None, None, 0, None)
  const STACK := Mount(RW, [], NEW)

  const C2 := BEGUN.(sources := map[0 := Source(1, true)])
  const C3 := C2.(vols := map[OLD := map[], NEW := map[]])
  const C4 := C3.(sources := map[0 := Source(1, false)])
  const C5 := C4.(doomed := multiset{NEW})
  const C6 := C4.(doomed := multiset{NEW, NEW})
  const C7 := BEGUN.(doomed := multiset{NEW})
  const C8 := C7.(sources := map[0 := Source(1, true)], reused := {NEW})
  const C9 := C8.(vols := map[OLD := map[], NEW := map[]])
  const C10 := C9.(sources := map[0 := Source(2, false)])
  const C11 := C10.(branches := map[0 := ROW.(job := Some(Job(Build, STACK, false, false)))])
  const C12 := C11.(branches := map[0 := ROW.(job := Some(Job(Build, STACK, true, false)))],
                    vols := map[OLD := map[], NEW := map[], RW := map[]])
  const C13 := C12.(branches := map[0 := ROW.(job := Some(Job(Build, STACK, true, true)))], cons := map["a" := STACK])
  const C14 := C13.(branches := map[0 := ROW.(state := Ready)])
  const C15 := C14.(vols := map[OLD := map[], RW := map[]], doomed := multiset{}, reused := {})

  const COLLECT_STATES := [EMPTY, BEGUN, C2, C3, C4, C5, C6, C7, C8, C9, C10, C11, C12, C13, C14, C15]
  const COLLECT_EVENTS := [AddSource(0, map[]), ClaimNext(0), SeedNext(0, map[]), ReleaseNext(0), CondemnVol(NEW),
                           CondemnVol(NEW), Collect(NEW), ClaimNext(0), SeedNext(0, map[]), BumpSource(0),
                           Create(0, "a", 0, 1), MakeVol(0), Boot(0), Finish(0), Collect(NEW)]

  lemma LeftBehind()
    ensures Goes(BEGUN, ClaimNext(0), C2) && Goes(C2, SeedNext(0, map[]), C3) && Goes(C3, ReleaseNext(0), C4)
  {
  }

  lemma FoundTwice()
    ensures Goes(C4, CondemnVol(NEW), C5) && Goes(C5, CondemnVol(NEW), C6)
  {
    assert C5.doomed + multiset{NEW} == C6.doomed;
  }

  lemma RemovedOnce()
    ensures Goes(C6, Collect(NEW), C7)
  {
    hide Enabled; hide Next;
    CollectNext(C6, NEW);
    assert C6.doomed - multiset{NEW} == C7.doomed && C6.vols - {NEW} == C7.vols;
  }

  lemma TriedAgain()
    ensures Goes(C7, ClaimNext(0), C8) && Goes(C8, SeedNext(0, map[]), C9) && Goes(C9, BumpSource(0), C10)
  {
  }

  lemma BranchOnIt()
    ensures Goes(C10, Create(0, "a", 0, 1), C11)
  {
    assert Frozen(C10.layers, ROW) == [];
    assert C11.branches == C10.branches[0 := ROW.(job := Some(Began(Build, STACK)))];
  }

  lemma BranchUp()
    ensures Goes(C11, MakeVol(0), C12) && Goes(C12, Boot(0), C13)
  {
  }

  lemma BranchReady()
    ensures Goes(C13, Finish(0), C14)
  {
  }

  lemma LateCollector()
    ensures Goes(C14, Collect(NEW), C15)
  {
    hide Enabled; hide Next;
    CollectNext(C14, NEW);
    assert C14.vols - {NEW} == C15.vols && C14.doomed - multiset{NEW} == C15.doomed;
  }

  /** The removal the run ends with takes a volume a ready branch mounts; its
      name is one recorded after the check, which is the case CollectSafe
      leaves open. */
  lemma OutdatedCheckRemovesLiveVolume()
    ensures Run(COLLECT_STATES, COLLECT_EVENTS) && COLLECT_EVENTS[14] == Collect(NEW)
    ensures Outdated(COLLECT_STATES[14], Collect(NEW))
    ensures Needed(COLLECT_STATES[14], NEW) && COLLECT_STATES[14].branches[0].state.Ready?
    ensures NEW in Stack(COLLECT_STATES[14].cons["a"])
    ensures NEW in COLLECT_STATES[14].vols && NEW !in COLLECT_STATES[15].vols
  {
    FirstSource();
    LeftBehind();
    FoundTwice();
    RemovedOnce();
    TriedAgain();
    BranchOnIt();
    BranchUp();
    BranchReady();
    LateCollector();
    hide Enabled; hide Next;
    assert Needs(C14.layers, C14.branches[0], NEW);
    forall i | 0 <= i < |COLLECT_EVENTS| ensures Goes(COLLECT_STATES[i], COLLECT_EVENTS[i], COLLECT_STATES[i + 1]) {
      if i < 5 {
      } else if i < 10 {
      } else {
      }
    }
  }

  // ------------------------------------------------------------ a stuck row taken up again

  // A create dies after making its volume.  Reconcile fails the row and counts no
  // dependents; the branch is recovered and written to; then reconcile removes
  // the volume.

  const STUCK_ROW := Branch("a", Creating, RW, OLD, None, None, None, 0, None)
  const STUCK_STACK := Mount(RW, [], OLD)
  const SWEEP := Sweep(0, RW, 0)

  const T2 := BEGUN.(branches := map[0 := STUCK_ROW.(job := Some(Job(Build, STUCK_STACK, false, false)))])
  const T3 := T2.(branches := map[0 := STUCK_ROW.(job := Some(Job(Build, STUCK_STACK, true, false)))],
                  vols := map[OLD := map[], RW := map[]])
  const T4 := T3.(branches := map[0 := STUCK_ROW])
  const T5 := T4.(branches := map[0 := STUCK_ROW.(state := Failed)], sweeps := {SWEEP})
  const T6 := T5.(cleared := {SWEEP})
  const TAKEN_UP := STUCK_ROW.(state := Resetting(false), round := 1)
  const T7 := T6.(branches := map[0 := TAKEN_UP.(job := Some(Job(Keep, STUCK_STACK, false, false)))])
  const T8 := T7.(branches := map[0 := TAKEN_UP.(job := Some(Job(Keep, STUCK_STACK, false, true)))],
                  cons := map["a" := STUCK_STACK])
  const T9 := T8.(branches := map[0 := TAKEN_UP.(state := Ready)])
  const T10 := T9.(vols := map[OLD := map[], RW := map["x" := File("1")]])
  const T11 := T10.(vols := map[OLD := map[]], sweeps := {}, cleared := {})

  const STUCK_STATES := [EMPTY, BEGUN, T2, T3, T4, T5, T6, T7, T8, T9, T10, T11]
  const STUCK_EVENTS := [AddSource(0, map[]), Create(0, "a", 0, 1), MakeVol(0), Crash(0), FailStuck(0),
                         CheckStuck(SWEEP), Recover(0), Boot(0), Finish(0),
                         Write("a", "x", Some("1")), RemoveStuck(SWEEP)]

  lemma StuckCreate()
    ensures Goes(BEGUN, Create(0, "a", 0, 1), T2)
  {
    assert Frozen(BEGUN.layers, STUCK_ROW) == [];
    assert T2.branches == BEGUN.branches[0 := STUCK_ROW.(job := Some(Began(Build, STUCK_STACK)))];
  }

  lemma StuckDies()
    ensures Goes(T2, MakeVol(0), T3) && Goes(T3, Crash(0), T4)
  {
  }

  lemma StuckFailed()
    ensures Goes(T4, FailStuck(0), T5) && Goes(T5, CheckStuck(SWEEP), T6)
  {
  }

  lemma StuckRecovered()
    ensures Goes(T6, Recover(0), T7)
  {
    assert Frozen(T6.layers, T6.branches[0]) == [];
  }

  lemma StuckUp()
    ensures Goes(T7, Boot(0), T8) && Goes(T8, Finish(0), T9)
  {
  }

  lemma StuckWritten()
    ensures Goes(T9, Write("a", "x", Some("1")), T10)
  {
    hide Enabled; hide Next;
    WriteNext(T9, "a", "x", "1");
  }

  lemma StuckSwept()
    ensures Goes(T10, RemoveStuck(SWEEP), T11)
  {
    hide Enabled; hide Next;
    SweepNext(T10, SWEEP);
    assert T10.vols - {RW} == T11.vols;
  }

  /** The removal the run ends with takes the writable volume, data and all, of a
      ready branch; no name was recorded again, the row was taken up again. */
  lemma OutdatedSweepRemovesLiveVolume()
    ensures Run(STUCK_STATES, STUCK_EVENTS) && STUCK_EVENTS[10] == RemoveStuck(SWEEP)
    ensures Outdated(STUCK_STATES[10], RemoveStuck(SWEEP))
    ensures STUCK_STATES[10].reused == {} && STUCK_STATES[10].branches[0].state.Ready?
    ensures STUCK_STATES[10].branches[0].rw == RW
    ensures RW in Stack(STUCK_STATES[10].cons["a"]) && STUCK_STATES[10].vols[RW] == map["x" := File("1")]
    ensures RW !in STUCK_STATES[11].vols
  {
    FirstSource();
    StuckCreate();
    StuckDies();
    StuckFailed();
    StuckRecovered();
    StuckUp();
    StuckWritten();
    StuckSwept();
    hide Enabled; hide Next;
    forall i | 0 <= i < |STUCK_EVENTS| ensures Goes(STUCK_STATES[i], STUCK_EVENTS[i], STUCK_STATES[i + 1]) {
      if i < 4 {
      } else if i < 8 {
      } else {
      }
    }
  }
}
