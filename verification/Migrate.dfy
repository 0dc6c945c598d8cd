/** Schema migration by any number of processes opening one registry file at
    once: each step of each opener, with a crash possible anywhere. */
module Migrate {
  import opened Wrappers

  type Pid = nat

  /** Where an opener is: before the fast path's read, between transactions,
      holding the write lock, having read the version, applied the migration, or
      set the new version; and how it ended. */
  datatype Pc = Opening | Looping | Locked | Read(v: nat) | Applied(v: nat) | Bumped(v: nat) | Opened
              | Refused | Crashed

  /** The file: its user_version and the migrations applied to it, in order. */
  datatype File = File(version: int, applied: seq<nat>)

  /** latest is the number of migrations this build ships.  file is what is
      committed, tx what the holder of the write lock has made of it. */
  datatype Db = Db(latest: nat, file: File, lock: Option<Pid>, tx: File, procs: map<Pid, Pc>)

  datatype Event = Open(p: Pid) | FastRead(p: Pid) | Begin(p: Pid) | ReadVersion(p: Pid) | Apply(p: Pid)
                 | Bump(p: Pid) | Commit(p: Pid) | Error(p: Pid) | Crash(p: Pid)

  predicate At(s: Db, p: Pid, pc: Pc) { p in s.procs && s.procs[p] == pc }

  predicate Enabled(s: Db, e: Event) {
    match e
    case Open(p) => p !in s.procs
    case FastRead(p) => At(s, p, Opening)
    case Begin(p) => At(s, p, Looping) && s.lock.None?
    case ReadVersion(p) => At(s, p, Locked)
    case Apply(p) => p in s.procs && s.procs[p].Read?
    case Bump(p) => p in s.procs && s.procs[p].Applied?
    case Commit(p) => p in s.procs && s.procs[p].Bumped?
    case Error(p) => p in s.procs && (s.procs[p].Looping? || InTx(s.procs[p]))
    case Crash(p) => p in s.procs && !s.procs[p].Opened? && !s.procs[p].Refused? && !s.procs[p].Crashed?
  }

  /** Between BEGIN IMMEDIATE and the end of the transaction. */
  predicate InTx(pc: Pc) { pc.Locked? || pc.Read? || pc.Applied? || pc.Bumped? }

  function Move(s: Db, p: Pid, pc: Pc): Db { s.(procs := s.procs[p := pc]) }

  /** The end of a transaction without a commit: the lock goes, the work with
      it. */
  function RollBack(s: Db, p: Pid): Db { if s.lock == Some(p) then s.(lock := None) else s }

  /** checkVersion. */
  predicate Known(s: Db, v: int) { 0 <= v <= s.latest }

  function Next(s: Db, e: Event): Db
    requires Enabled(s, e)
  {
    match e
    case Open(p) => Move(s, p, Opening)
    case FastRead(p) =>
      Move(s, p, if !Known(s, s.file.version) then Refused else if s.file.version == s.latest then Opened else Looping)
    case Begin(p) => Move(s, p, Locked).(lock := Some(p), tx := s.file)
    case ReadVersion(p) =>
      if !Known(s, s.tx.version) then RollBack(Move(s, p, Refused), p)
      else if s.tx.version == s.latest then RollBack(Move(s, p, Opened), p)
      else Move(s, p, Read(s.tx.version))
    case Apply(p) => Move(s, p, Applied(s.procs[p].v)).(tx := s.tx.(applied := s.tx.applied + [s.procs[p].v]))
    case Bump(p) => Move(s, p, Bumped(s.procs[p].v)).(tx := s.tx.(version := s.procs[p].v + 1))
    case Commit(p) => Move(s, p, Looping).(file := s.tx, lock := None)
    case Error(p) => RollBack(Move(s, p, Refused), p)
    case Crash(p) => RollBack(Move(s, p, Crashed), p)
  }

  /** The first n migrations, once each and in order. */
  function First(n: nat): seq<nat> { seq(n, i => i) }

  /** The file after one more migration. */
  function Migrated(f: File): File
    requires f.version >= 0
  {
    File(f.version + 1, f.applied + [f.version])
  }

  predicate FileOk(f: File) { f.version >= 0 ==> f.applied == First(f.version) }

  ghost predicate Inv(s: Db) {
    && FileOk(s.file)
    && (forall p :: p in s.procs && InTx(s.procs[p]) ==> s.lock == Some(p))
    && (s.lock.Some? ==> s.lock.value in s.procs && TxOk(s, s.procs[s.lock.value]))
    && (forall p :: p in s.procs && s.procs[p].Opened? ==> s.file.version == s.latest)
  }

  /** What the holder of the lock has made of the committed file. */
  predicate TxOk(s: Db, pc: Pc) {
    match pc
    case Locked => s.tx == s.file
    case Read(v) => s.tx == s.file && v == s.file.version && 0 <= v < s.latest
    case Applied(v) => v == s.file.version && 0 <= v < s.latest && s.tx == File(v, First(v) + [v])
    case Bumped(v) => v == s.file.version && 0 <= v < s.latest && s.tx == File(v + 1, First(v) + [v])
    case _ => false
  }

  /** A file no opener has touched: any version its migrations account for, or
      one this build does not know. */
  predicate Fresh(s: Db) {
    FileOk(s.file) && s.lock.None? && s.procs == map[]
  }

  lemma StepKeeps(s: Db, e: Event)
    requires Inv(s) && Enabled(s, e)
    ensures Inv(Next(s, e)) && Next(s, e).latest == s.latest
    ensures Next(s, e).file == s.file || (0 <= s.file.version < s.latest && Next(s, e).file == Migrated(s.file))
  {
    if e.Commit? {
      var v := s.procs[e.p].v;
      assert First(v) + [v] == First(v + 1);
    }
  }

  lemma FreshInv(s: Db)
    requires Fresh(s)
    ensures Inv(s)
  {
  }

  ghost predicate Run(ss: seq<Db>, es: seq<Event>) {
    && |ss| == |es| + 1 && Fresh(ss[0])
    && forall i :: 0 <= i < |es| ==> Enabled(ss[i], es[i]) && ss[i + 1] == Next(ss[i], es[i])
  }

  lemma {:induction false} RunInv(ss: seq<Db>, es: seq<Event>, i: nat)
    requires Run(ss, es) && i <= |es|
    ensures Inv(ss[i]) && ss[i].latest == ss[0].latest && ss[0].file.version <= ss[i].file.version
    decreases i
  {
    hide Inv; hide Enabled; hide Next; hide Fresh;
    if i == 0 {
      FreshInv(ss[0]);
    } else {
      RunInv(ss, es, i - 1);
      StepKeeps(ss[i - 1], es[i - 1]);
    }
  }

  /** Whatever the openers do and wherever they crash: the migrations applied are
      exactly the first user_version ones, once each and in order; the version
      never goes down and moves by one; a successful opener leaves a file at the
      last version; and a file this build does not know is never changed. */
  lemma MigrationLaws(ss: seq<Db>, es: seq<Event>, i: nat, k: nat)
    requires Run(ss, es) && i <= k <= |es|
    ensures ss[k].file.version >= 0 ==> ss[k].file.applied == First(ss[k].file.version)
    ensures ss[i].file.version <= ss[k].file.version && (k == i + 1 ==> ss[k].file.version <= ss[i].file.version + 1)
    ensures forall p :: At(ss[i], p, Opened) ==> ss[k].file.version == ss[k].latest
    ensures !Known(ss[i], ss[i].file.version) ==> ss[k].file == ss[i].file
    decreases k
  {
    RunInv(ss, es, k);
    RunInv(ss, es, i);
    if i < k {
      hide Inv; hide Enabled; hide Next;
      MigrationLaws(ss, es, i, k - 1);
      RunInv(ss, es, k - 1);
      StepKeeps(ss[k - 1], es[k - 1]);
    }
  }
}
