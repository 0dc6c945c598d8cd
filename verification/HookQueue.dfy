/** The per-branch webhook queue: enqueuing handlers and draining workers as
    threads that interleave at every lock section. */
module HookQueue {

  type Branch = string
  type Job = nat
  type Tid = nat

  /** Where a thread is.  Adding: enqueue has counted its job and not yet
      appended it.  Starting: a worker about to take the next job.  Retiring:
      it has run the job and looked at the queue, and not yet counted down. */
  datatype Thread =
    | Adding(b: Branch, job: Job)
    | Starting(b: Branch)
    | Running(b: Branch, job: Job)
    | Retiring(b: Branch, job: Job, last: bool)

  /** The wait count, the queues, the threads; and the history: the thread last
      started as a branch's worker, the jobs not yet counted down, the thread
      that last held a job, the place a job took among those that arrived for
      its branch, and per branch what arrived and what started. */
  datatype Queue = Queue(wait: nat, queues: map<Branch, seq<Job>>, threads: map<Tid, Thread>,
                         worker: map<Branch, Tid>, open: set<Job>, holder: map<Job, Tid>,
                         place: map<Job, (Branch, nat)>,
                         arrived: map<Branch, seq<Job>>, started: map<Branch, seq<Job>>)

  const EMPTY := Queue(0, map[], map[], map[], {}, map[], map[], map[], map[])

  function Get(m: map<Branch, seq<Job>>, b: Branch): seq<Job> { if b in m then m[b] else [] }

  datatype Event = Enqueue(t: Tid, b: Branch, job: Job) | Append(t: Tid) | Take(t: Tid)
                 | Finish(t: Tid) | CountDown(t: Tid)

  predicate Enabled(s: Queue, e: Event) {
    match e
    case Enqueue(t, _, job) => t !in s.threads && job !in s.holder
    case Append(t) => t in s.threads && s.threads[t].Adding?
    case Take(t) => t in s.threads && s.threads[t].Starting?
    case Finish(t) => t in s.threads && s.threads[t].Running?
    case CountDown(t) => t in s.threads && s.threads[t].Retiring?
  }

  /** What the code needs at a step beyond being there: drain's first element,
      and a wait count to count down. */
  predicate NoPanic(s: Queue, e: Event)
    requires Enabled(s, e)
  {
    && (e.Take? ==> s.threads[e.t].b in s.queues && s.queues[s.threads[e.t].b] != [])
    && (e.CountDown? ==> s.wait > 0)
  }

  function Next(s: Queue, e: Event): Queue
    requires Enabled(s, e) && NoPanic(s, e)
  {
    match e
    case Enqueue(t, b, job) =>
      s.(wait := s.wait + 1, threads := s.threads[t := Adding(b, job)], open := s.open + {job},
         holder := s.holder[job := t])
    case Append(t) =>
      var b, job := s.threads[t].b, s.threads[t].job;
      s.(queues := s.queues[b := Get(s.queues, b) + [job]],
         threads := if b in s.queues then s.threads - {t} else s.threads[t := Starting(b)],
         worker := if b in s.queues then s.worker else s.worker[b := t],
         place := s.place[job := (b, |Get(s.arrived, b)|)], arrived := s.arrived[b := Get(s.arrived, b) + [job]])
    case Take(t) =>
      var b := s.threads[t].b;
      s.(queues := s.queues[b := s.queues[b][1..]], threads := s.threads[t := Running(b, s.queues[b][0])],
         holder := s.holder[s.queues[b][0] := t],
         started := s.started[b := Get(s.started, b) + [s.queues[b][0]]])
    case Finish(t) =>
      var b, job := s.threads[t].b, s.threads[t].job;
      var last := Get(s.queues, b) == [];
      s.(queues := if last then s.queues - {b} else s.queues, threads := s.threads[t := Retiring(b, job, last)])
    case CountDown(t) =>
      var b, job := s.threads[t].b, s.threads[t].job;
      s.(wait := s.wait - 1, open := s.open - {job},
         threads := if s.threads[t].last then s.threads - {t} else s.threads[t := Starting(b)])
  }

  // -------------------------------------------------------------------- invariant

  /** A thread that drains the branch and will come back for more. */
  predicate Drains(t: Thread, b: Branch) {
    t.b == b && (t.Starting? || t.Running? || (t.Retiring? && !t.last))
  }

  /** A queue is there exactly while it has its one worker, and has a job for a
      worker about to take one. */
  ghost predicate Served(s: Queue) {
    && (forall b :: b in s.queues ==> b in s.worker && s.worker[b] in s.threads && Drains(s.threads[s.worker[b]], b))
    && (forall t :: t in s.threads ==> WorkerOk(s, t, s.threads[t]))
  }

  predicate WorkerOk(s: Queue, t: Tid, th: Thread) {
    Drains(th, th.b) ==>
        th.b in s.queues && th.b in s.worker && s.worker[th.b] == t && (!th.Running? ==> s.queues[th.b] != [])
  }

  /** What was started, then what is queued, is what arrived. */
  ghost predicate InOrder(s: Queue) {
    forall b :: Get(s.arrived, b) == Get(s.started, b) + Get(s.queues, b)
  }

  /** Each job that arrived has its own place, and each place its job. */
  ghost predicate Placed(s: Queue) {
    && (forall b, i :: 0 <= i < |Get(s.arrived, b)| ==>
        Get(s.arrived, b)[i] in s.place && s.place[Get(s.arrived, b)[i]] == (b, i))
    && (forall j :: j in s.place ==> j in s.holder && s.place[j].1 < |Get(s.arrived, s.place[j].0)|)
  }

  /** A thread holds its job alone: a new one before it arrived, others after
      they left the queue. */
  ghost predicate Held(s: Queue) {
    forall t :: t in s.threads ==> HeldOk(s, t, s.threads[t])
  }

  predicate HeldOk(s: Queue, t: Tid, th: Thread) {
    !th.Starting? ==>
      && th.job in s.holder && s.holder[th.job] == t && th.job in s.open
      && (if th.Adding? then th.job !in s.place else Begun(s, th.job))
  }

  /** A job that has left its queue. */
  predicate Begun(s: Queue, j: Job) {
    j in s.place && s.place[j].1 < |Get(s.started, s.place[j].0)|
  }

  /** The wait count counts the open jobs, and a queued job is open. */
  ghost predicate AllOpen(s: Queue) {
    && s.wait == |s.open| && s.open <= s.holder.Keys
    && (forall j :: j in s.place && !Begun(s, j) ==> j in s.open)
  }

  ghost predicate Inv(s: Queue) {
    Served(s) && InOrder(s) && Placed(s) && Held(s) && AllOpen(s)
  }

  /** A worker never finds its queue empty, and the count never goes negative. */
  lemma InvNoPanic(s: Queue, e: Event)
    requires Inv(s) && Enabled(s, e)
    ensures NoPanic(s, e)
  {
    hide InOrder; hide Placed;
    if !e.Enqueue? {
      assert WorkerOk(s, e.t, s.threads[e.t]) && HeldOk(s, e.t, s.threads[e.t]);
      assert e.CountDown? ==> s.threads[e.t].job in s.open;
    }
  }

  lemma ServedKeeps(s: Queue, e: Event)
    requires Served(s) && Enabled(s, e) && NoPanic(s, e)
    ensures Served(Next(s, e))
  {
    var s' := Next(s, e);
    forall t | t in s'.threads ensures WorkerOk(s', t, s'.threads[t]) {
      if t in s.threads {
        assert WorkerOk(s, t, s.threads[t]);
      }
      if e.t in s.threads {
        assert WorkerOk(s, e.t, s.threads[e.t]);
      }
    }
  }

  lemma InOrderKeeps(s: Queue, e: Event)
    requires Served(s) && InOrder(s) && Enabled(s, e) && NoPanic(s, e)
    ensures InOrder(Next(s, e))
  {
    var s' := Next(s, e);
    forall b ensures Get(s'.arrived, b) == Get(s'.started, b) + Get(s'.queues, b) {
      assert Get(s.arrived, b) == Get(s.started, b) + Get(s.queues, b);
      if e.Finish? {
        assert WorkerOk(s, e.t, s.threads[e.t]);
      }
    }
  }

  lemma PlacedKeeps(s: Queue, e: Event)
    requires Placed(s) && Held(s) && Enabled(s, e) && NoPanic(s, e)
    ensures Placed(Next(s, e))
  {
    if e.Append? {
      AppendPlaced(s, e.t);
    }
  }

  lemma AppendPlaced(s: Queue, t: Tid)
    requires Placed(s) && Held(s) && Enabled(s, Append(t))
    ensures Placed(Next(s, Append(t)))
  {
    var s' := Next(s, Append(t));
    var b, job := s.threads[t].b, s.threads[t].job;
    assert HeldOk(s, t, s.threads[t]);
    forall c, i | 0 <= i < |Get(s'.arrived, c)|
      ensures Get(s'.arrived, c)[i] in s'.place && s'.place[Get(s'.arrived, c)[i]] == (c, i)
    {
      if c != b || i < |Get(s.arrived, b)| {
        assert Get(s'.arrived, c)[i] == Get(s.arrived, c)[i];
      }
    }
  }

  /** The job a worker takes is the next that arrived. */
  lemma TakePlace(s: Queue, t: Tid)
    requires InOrder(s) && Placed(s) && AllOpen(s) && Enabled(s, Take(t)) && NoPanic(s, Take(t))
    ensures var b := s.threads[t].b; var j := s.queues[b][0];
      j in s.place && s.place[j] == (b, |Get(s.started, b)|) && j in s.open && j in s.holder
  {
    var b := s.threads[t].b;
    var k := |Get(s.started, b)|;
    assert Get(s.arrived, b) == Get(s.started, b) + Get(s.queues, b);
    assert Get(s.arrived, b)[k] == s.queues[b][0];
  }

  lemma HeldKeeps(s: Queue, e: Event)
    requires InOrder(s) && Placed(s) && Held(s) && AllOpen(s) && Enabled(s, e) && NoPanic(s, e)
    ensures Held(Next(s, e))
  {
    if e.Take? {
      TakePlace(s, e.t);
    }
    assert e.Enqueue? ==> e.job !in s.place;
    hide InOrder; hide Placed; hide AllOpen;
    forall t | t in Next(s, e).threads ensures HeldOk(Next(s, e), t, Next(s, e).threads[t]) {
      if t == e.t {
        HeldSelf(s, e);
      } else {
        HeldOther(s, e, t);
      }
    }
  }

  /** What a worker takes is the job with the next place. */
  predicate TakesNext(s: Queue, t: Tid) {
    && t in s.threads && s.threads[t].b in s.queues && s.queues[s.threads[t].b] != []
    && var b := s.threads[t].b;
    && s.queues[b][0] in s.place && s.place[s.queues[b][0]] == (b, |Get(s.started, b)|)
  }

  /** The thread that takes the step, and any other. */
  lemma HeldSelf(s: Queue, e: Event)
    requires Held(s) && Enabled(s, e) && NoPanic(s, e) && e.t in Next(s, e).threads
    requires e.Enqueue? ==> e.job !in s.place
    requires e.Take? ==> TakesNext(s, e.t) && s.queues[s.threads[e.t].b][0] in s.open
    ensures HeldOk(Next(s, e), e.t, Next(s, e).threads[e.t])
  {
    if e.t in s.threads {
      assert HeldOk(s, e.t, s.threads[e.t]);
    }
  }

  lemma HeldOther(s: Queue, e: Event, t: Tid)
    requires Held(s) && Enabled(s, e) && NoPanic(s, e) && t in s.threads && t != e.t
    requires e.Enqueue? ==> e.job !in s.place
    requires e.Take? ==> TakesNext(s, e.t)
    ensures HeldOk(Next(s, e), t, s.threads[t])
  {
    assert HeldOk(s, t, s.threads[t]);
    if e.t in s.threads {
      assert HeldOk(s, e.t, s.threads[e.t]);
    }
  }

  lemma AllOpenKeeps(s: Queue, e: Event)
    requires InOrder(s) && Placed(s) && Held(s) && AllOpen(s) && Enabled(s, e) && NoPanic(s, e)
    ensures AllOpen(Next(s, e))
  {
    if e.Take? {
      TakePlace(s, e.t);
    }
    hide InOrder; hide Placed; hide HeldOk;
    forall j | j in Next(s, e).place && !Begun(Next(s, e), j) ensures j in Next(s, e).open {
      AllOpenAt(s, e, j);
    }
  }

  lemma AllOpenAt(s: Queue, e: Event, j: Job)
    requires AllOpen(s) && Enabled(s, e) && NoPanic(s, e)
    requires e.Take? ==> TakesNext(s, e.t)
    requires e.t in s.threads ==> HeldOk(s, e.t, s.threads[e.t])
    requires j in Next(s, e).place && !Begun(Next(s, e), j)
    ensures j in Next(s, e).open
  {
    if j in s.place {
      assert !Begun(s, j);
    }
  }

  lemma StepKeeps(s: Queue, e: Event)
    requires Inv(s) && Enabled(s, e) && NoPanic(s, e)
    ensures Inv(Next(s, e))
  {
    hide Served; hide InOrder; hide Placed; hide Held; hide AllOpen;
    ServedKeeps(s, e);
    InOrderKeeps(s, e);
    PlacedKeeps(s, e);
    HeldKeeps(s, e);
    AllOpenKeeps(s, e);
  }

  // ------------------------------------------------------------------------- runs

  ghost predicate Run(ss: seq<Queue>, es: seq<Event>) {
    && |ss| == |es| + 1 && ss[0] == EMPTY
    && forall i :: 0 <= i < |es| ==> Enabled(ss[i], es[i]) && NoPanic(ss[i], es[i]) && ss[i + 1] == Next(ss[i], es[i])
  }

  lemma {:induction false} RunInv(ss: seq<Queue>, es: seq<Event>, i: nat)
    requires Run(ss, es) && i <= |es|
    ensures Inv(ss[i])
    decreases i
  {
    if i > 0 {
      hide Inv; hide Next;
      RunInv(ss, es, i - 1);
      StepKeeps(ss[i - 1], es[i - 1]);
    }
  }

  /** In every interleaving: no step can panic; a branch never has two jobs
      running; jobs start in arrival order, none lost and none twice; and when
      the wait count is zero no queue and no thread is left and everything that
      arrived was started. */
  lemma QueueLaws(ss: seq<Queue>, es: seq<Event>, i: nat)
    requires Run(ss, es) && i <= |es|
    ensures forall e :: Enabled(ss[i], e) ==> NoPanic(ss[i], e)
    ensures forall t, u :: RunsFor(ss[i], t, u) ==> t == u
    ensures forall b :: Get(ss[i].started, b) <= Get(ss[i].arrived, b)
    ensures forall b, c, j: nat, k: nat :: SameJob(ss[i], b, j, c, k) ==> b == c && j == k
    ensures ss[i].wait == 0 ==> ss[i].queues == map[] && ss[i].threads == map[]
    ensures ss[i].wait == 0 ==> forall b :: Get(ss[i].started, b) == Get(ss[i].arrived, b)
  {
    RunInv(ss, es, i);
    var s := ss[i];
    forall e | Enabled(s, e) ensures NoPanic(s, e) {
      InvNoPanic(s, e);
    }
    forall t, u | RunsFor(s, t, u) ensures t == u {
      assert WorkerOk(s, t, s.threads[t]) && WorkerOk(s, u, s.threads[u]);
    }
    forall b ensures Get(s.started, b) <= Get(s.arrived, b) {
      assert Get(s.arrived, b) == Get(s.started, b) + Get(s.queues, b);
    }
    if s.wait == 0 {
      Quiet(s);
      forall b ensures Get(s.started, b) == Get(s.arrived, b) {
        assert Get(s.arrived, b) == Get(s.started, b) + Get(s.queues, b);
      }
    }
  }

  /** The same job at two places among those that arrived. */
  predicate SameJob(s: Queue, b: Branch, j: nat, c: Branch, k: nat) {
    j < |Get(s.arrived, b)| && k < |Get(s.arrived, c)| && Get(s.arrived, b)[j] == Get(s.arrived, c)[k]
  }

  /** Two threads running a job of the same branch. */
  predicate RunsFor(s: Queue, t: Tid, u: Tid) {
    t in s.threads && u in s.threads && s.threads[t].Running? && s.threads[u].Running? &&
        s.threads[t].b == s.threads[u].b
  }

  lemma BusyThread(s: Queue, t: Tid)
    requires Inv(s) && t in s.threads
    ensures s.open != {}
  {
    assert HeldOk(s, t, s.threads[t]) && WorkerOk(s, t, s.threads[t]);
    if s.threads[t].Starting? {
      TakePlace(s, t);
      var j := s.queues[s.threads[t].b][0];
      assert !Begun(s, j) && j in s.open;
    } else {
      assert s.threads[t].job in s.open;
    }
  }

  /** The wait count is zero only when nothing at all is under way. */
  lemma Quiet(s: Queue)
    requires Inv(s) && s.wait == 0
    ensures s.queues == map[] && s.threads == map[]
  {
    if s.threads != map[] {
      var t :| t in s.threads;
      BusyThread(s, t);
    }
  }
}
