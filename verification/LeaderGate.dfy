/** Leadership: the election callbacks, the gate they flip, the marker loop and
    the mutations the gate admits, as steps between lock sections.  Callbacks
    may come arbitrarily late. */
module LeaderGate {
  import opened Wrappers

  type Term = nat
  type Mid = nat

  /** Where the elector is: between terms, in a term whose context is live, past
      the context's cancellation with the stop callback still to run, or inside
      the stop callback, waiting for the marker loop it took over. */
  datatype Phase = Idle | Leading | Lost | Stopping(loop: Option<Term>)

  /** A mutation between admit and begin, or running: armed until its gate term
      or the server ends, then with its cancellation scheduled, then cancelled. */
  datatype Hook = Armed | Scheduled | Cancelled
  datatype Mutation = Admitted(g: nat) | Active(g: nat, hook: Hook)

  datatype Mark = Mark(term: Term) | Unmark(term: Term)

  /** starts: terms whose start callback has not run.  loops: terms whose marker
      loop runs.  gate: the gate's current term of its own; ended: those that
      are over. */
  datatype Leader = Leader(term: Term, phase: Phase, starts: set<Term>,
                           cancel: Option<Term>, markDone: Option<Term>, loops: set<Term>,
                           leader: bool, gate: nat, ended: set<nat>,
                           draining: bool, allCancelled: bool, mutations: map<Mid, Mutation>, wait: int, log: seq<Mark>)

  /** The gate as branchd leaves it before contending: opened by its
      constructor, then closed. */
  const START := Leader(0, Idle, {}, None, None, {}, false, 1, {1}, false, false, map[], 0, [])

  datatype Event = Win | Start(k: Term) | Lose | Stop | MarkOnce(k: Term) | LoopExit(k: Term) | UnmarkOnce
                 | Admit(m: Mid) | Begin(m: Mid) | Fire(m: Mid) | Finish(m: Mid) | StopAdmitting | CancelAll

  /** The term's context is live. */
  predicate Live(s: Leader, k: Term) { k == s.term && s.phase.Leading? }

  predicate Enabled(s: Leader, e: Event) {
    match e
    case Win => s.phase.Idle?
    case Start(k) => k in s.starts
    case Lose => s.phase.Leading?
    case Stop => s.phase.Lost? || s.phase.Idle?
    case MarkOnce(k) => k in s.loops
    case LoopExit(k) => k in s.loops && !Live(s, k)
    case UnmarkOnce => s.phase.Stopping? && (s.phase.loop.Some? ==> s.phase.loop.value !in s.loops)
    case Admit(m) => m !in s.mutations
    case Begin(m) => m in s.mutations && s.mutations[m].Admitted?
    case Fire(m) => m in s.mutations && s.mutations[m].Active? && s.mutations[m].hook.Scheduled?
    case Finish(m) => m in s.mutations && s.mutations[m].Active?
    case StopAdmitting => true
    case CancelAll => true
  }

  /** Ending a gate term schedules the cancellation of what runs under it. */
  function Ring(m: Mutation, over: bool): Mutation {
    if m.Active? && m.hook.Armed? && over then m.(hook := Scheduled) else m
  }

  function Set(s: Leader, leader: bool): Leader {
    if leader == s.leader then s
    else if leader then s.(leader := true, gate := s.gate + 1)
    else s.(leader := false, ended := s.ended + {s.gate},
            mutations := map m | m in s.mutations :: Ring(s.mutations[m], s.mutations[m].g == s.gate))
  }

  function Next(s: Leader, e: Event): Leader
    requires Enabled(s, e)
  {
    match e
    case Win => s.(term := s.term + 1, phase := Leading, starts := s.starts + {s.term + 1})
    case Start(k) =>
      if !Live(s, k) then s.(starts := s.starts - {k})
      else Set(s.(starts := s.starts - {k}, cancel := Some(k), markDone := Some(k), loops := s.loops + {k}), true)
    case Lose => s.(phase := Lost)
    case Stop => Set(s.(phase := Stopping(s.markDone), cancel := None, markDone := None), false)
    case MarkOnce(k) => s.(log := s.log + [Mark(k)])
    case LoopExit(k) => s.(loops := s.loops - {k})
    case UnmarkOnce => s.(phase := Idle, log := s.log + [Unmark(s.term)])
    case Admit(m) => if s.leader then s.(mutations := s.mutations[m := Admitted(s.gate)]) else s
    case Begin(m) =>
      if s.draining then s.(mutations := s.mutations - {m})
      else s.(wait := s.wait + 1, mutations := s.mutations[m := Active(s.mutations[m].g,
        if s.mutations[m].g in s.ended || s.allCancelled then Scheduled else Armed)])
    case Fire(m) => s.(mutations := s.mutations[m := s.mutations[m].(hook := Cancelled)])
    case Finish(m) => s.(wait := s.wait - 1, mutations := s.mutations - {m})
    case StopAdmitting => s.(draining := true)
    case CancelAll => s.(allCancelled := true, mutations := map m | m in s.mutations :: Ring(s.mutations[m], true))
  }

  // -------------------------------------------------------------------- invariant

  /** The gate is open only in a live term or before its stop callback ran. */
  predicate GateOk(s: Leader) {
    && (s.leader ==> s.phase.Leading? || s.phase.Lost?)
    && (forall g :: g in s.ended ==> g <= s.gate) && (s.gate in s.ended <==> !s.leader)
  }

  /** Only the current term's marker loop runs, and the stop callback has hold of
      it or will get it. */
  predicate LoopsOk(s: Leader) {
    && (forall k :: k in s.starts ==> k <= s.term)
    && (s.markDone.Some? ==> (s.phase.Leading? || s.phase.Lost?) && s.markDone.value == s.term)
    && (s.phase.Stopping? && s.phase.loop.Some? ==> s.phase.loop.value == s.term)
    && (forall k :: k in s.loops ==> k == s.term && (s.markDone == Some(k) || s.phase == Stopping(Some(k))))
  }

  /** No mark of a term follows an unmark of it. */
  predicate MarksInOrder(log: seq<Mark>) {
    forall i, j :: 0 <= i < j < |log| && log[i].Unmark? && log[j].Mark? ==> log[i].term != log[j].term
  }

  /** Marks are of terms begun, and an unmarked term is over for good. */
  predicate LogOk(s: Leader) {
    && (forall i :: 0 <= i < |s.log| && s.log[i].Unmark? ==>
        s.log[i].term < s.term || (s.log[i].term == s.term && Over(s)))
    && MarksInOrder(s.log)
  }

  /** The current term's stop callback has run, or there was no term. */
  predicate Over(s: Leader) {
    (s.phase.Idle? || s.phase.Stopping?) && s.term !in s.loops && s.phase != Stopping(Some(s.term))
  }

  /** A running mutation whose term or server is over is cancelled or about to
      be. */
  predicate MutationOk(s: Leader, m: Mutation) {
    && m.g <= s.gate
    && (m.Active? && (m.g in s.ended || s.allCancelled) ==> !m.hook.Armed?)
  }

  ghost function RunningSet(s: Leader): set<Mid> { set m | m in s.mutations && s.mutations[m].Active? }

  ghost predicate Inv(s: Leader) {
    GateOk(s) && LoopsOk(s) && LogOk(s) && MutationsOk(s) && s.wait == |RunningSet(s)|
  }

  /** The wait count is the number of running mutations. */
  lemma WaitKeeps(s: Leader, e: Event)
    requires s.wait == |RunningSet(s)| && Enabled(s, e)
    ensures Next(s, e).wait == |RunningSet(Next(s, e))|
  {
    var t := Next(s, e);
    match e {
      case Begin(m) =>
        if s.draining {
          assert RunningSet(t) == RunningSet(s);
        } else {
          assert RunningSet(t) == RunningSet(s) + {m};
        }
      case Finish(m) => assert RunningSet(t) == RunningSet(s) - {m};
      case _ => assert RunningSet(t) == RunningSet(s);
    }
  }

  lemma GateKeeps(s: Leader, e: Event)
    requires GateOk(s) && Enabled(s, e)
    ensures GateOk(Next(s, e))
  {
  }

  lemma LoopsKeep(s: Leader, e: Event)
    requires LoopsOk(s) && Enabled(s, e)
    ensures LoopsOk(Next(s, e))
  {
  }

  lemma LogKeeps(s: Leader, e: Event)
    requires LoopsOk(s) && LogOk(s) && Enabled(s, e)
    ensures LogOk(Next(s, e))
  {
  }

  ghost predicate MutationsOk(s: Leader) {
    forall m :: m in s.mutations ==> MutationOk(s, s.mutations[m])
  }

  lemma MutationsKeep(s: Leader, e: Event)
    requires GateOk(s) && MutationsOk(s) && Enabled(s, e)
    ensures MutationsOk(Next(s, e))
  {
    forall m | m in Next(s, e).mutations ensures MutationOk(Next(s, e), Next(s, e).mutations[m]) {
      assert m in s.mutations ==> MutationOk(s, s.mutations[m]);
    }
  }

  lemma StepKeeps(s: Leader, e: Event)
    requires Inv(s) && Enabled(s, e)
    ensures Inv(Next(s, e))
  {
    hide RunningSet; hide GateOk; hide LoopsOk; hide LogOk; hide MutationsOk; hide Enabled; hide Next;
    GateKeeps(s, e);
    LoopsKeep(s, e);
    LogKeeps(s, e);
    MutationsKeep(s, e);
    WaitKeeps(s, e);
  }

  /** A running mutation whose gate term, or whose server, is over. */
  predicate Ended(s: Leader, m: Mutation) { m.Active? && (m.g in s.ended || s.allCancelled) }

  ghost predicate Run(ss: seq<Leader>, es: seq<Event>) {
    && |ss| == |es| + 1 && ss[0] == START
    && forall i :: 0 <= i < |es| ==> Enabled(ss[i], es[i]) && ss[i + 1] == Next(ss[i], es[i])
  }

  lemma {:induction false} RunInv(ss: seq<Leader>, es: seq<Event>, i: nat)
    requires Run(ss, es) && i <= |es|
    ensures Inv(ss[i])
    decreases i
  {
    if i > 0 {
      hide Inv; hide Enabled; hide Next;
      RunInv(ss, es, i - 1);
      StepKeeps(ss[i - 1], es[i - 1]);
    }
  }

  /** Across any sequence of terms, with callbacks as late as they like: the gate
      is open only while the term's context is live or its stop callback is still
      to run; no mark of a term lands after that term's unmark; every mutation
      still running from a gate term that is over is cancelled or has its
      cancellation scheduled, and none is admitted while the gate is closed; a
      wait that returns finds none running. */
  lemma LeadershipLaws(ss: seq<Leader>, es: seq<Event>, i: nat)
    requires Run(ss, es) && i <= |es|
    ensures ss[i].leader ==> Live(ss[i], ss[i].term) || ss[i].phase.Lost?
    ensures MarksInOrder(ss[i].log)
    ensures forall m :: m in ss[i].mutations && Ended(ss[i], ss[i].mutations[m]) ==>
              ss[i].mutations[m].hook.Scheduled? || ss[i].mutations[m].hook.Cancelled?
    ensures !ss[i].leader ==> ss[i].gate in ss[i].ended
    ensures forall m :: i < |es| && es[i] == Admit(m) && !ss[i].leader ==> ss[i + 1] == ss[i]
    ensures ss[i].wait == 0 ==> forall m :: m in ss[i].mutations ==> ss[i].mutations[m].Admitted?
  {
    RunInv(ss, es, i);
    if ss[i].wait == 0 {
      forall m | m in ss[i].mutations ensures ss[i].mutations[m].Admitted? {
        assert m !in RunningSet(ss[i]);
      }
    }
  }
}
