/** Branch rows and the transitions journal: every registry operation that
    moves a branch or notes something about it, each one transaction. */
module Journal {
  import opened Wrappers

  type Id = nat

  datatype State = Creating | Ready | Resetting | Failed | Destroying | Destroyed

  datatype Row = Row(name: string, state: State, container: string)

  /** from is None for the entry a row is created with. */
  datatype Entry = Entry(id: Id, from: Option<State>, to: State)

  datatype Db = Db(rows: map<Id, Row>, journal: seq<Entry>)

  const EMPTY := Db(map[], [])

  /** The legalBranch table. */
  function LegalNext(s: State): seq<State> {
    match s
    case Creating => [Ready, Failed]
    case Ready => [Destroying, Resetting]
    case Resetting => [Ready, Failed]
    case Failed => [Resetting, Destroying]
    case Destroying => [Destroyed]
    case Destroyed => []
  }

  // ------------------------------------------------------------------- operations

  /** Every operation: CreateBranch, TransitionBranch, MarkBranchReady,
      NoteBranch, CommitFreeze, UpdateBranchEndpoint with and without a journal
      entry, FailReadyBranch, FailStuckBranch (stuck is the row's age test) and
      SetBranchContainer. */
  datatype Op =
    | Create(id: Id, name: string)
    | Transition(id: Id, to: State)
    | MarkReady(id: Id, container: string)
    | Note(id: Id)
    | CommitFreeze(id: Id, child: Id, container: string)
    | UpdateEndpoint(id: Id, was: string, container: string, journaled: bool)
    | FailReady(id: Id, was: string)
    | FailStuck(id: Id, stuck: bool)
    | SetContainer(id: Id, container: string)

  datatype Answer = Done | NotFound | Illegal | AlreadyExists | Unchanged

  predicate NameHeld(rows: map<Id, Row>, name: string) {
    exists id :: id in rows && rows[id].name == name && !rows[id].state.Destroyed?
  }

  /** The answer an operation gets. */
  function Answers(db: Db, op: Op): Answer {
    match op
    case Create(id, name) => if id in db.rows || NameHeld(db.rows, name) then AlreadyExists else Done
    case Transition(id, to) =>
      if id !in db.rows then NotFound else if to !in LegalNext(db.rows[id].state) then Illegal else Done
    case MarkReady(id, _) =>
      if id !in db.rows then NotFound else if Ready !in LegalNext(db.rows[id].state) then Illegal else Done
    case Note(id) => if id !in db.rows then NotFound else Done
    case CommitFreeze(id, child, _) =>
      if id !in db.rows then NotFound
      else if !db.rows[id].state.Resetting? then Illegal
      else if child !in db.rows then NotFound else Done
    case UpdateEndpoint(id, was, _, _) =>
      if id in db.rows && db.rows[id].state.Ready? && db.rows[id].container == was then Done else Unchanged
    case FailReady(id, was) =>
      if id in db.rows && db.rows[id].state.Ready? && db.rows[id].container == was then Done else Unchanged
    case FailStuck(id, stuck) =>
      if id in db.rows && (db.rows[id].state.Creating? || db.rows[id].state.Resetting?) && stuck then Done
      else Unchanged
    case SetContainer(id, _) => if id in db.rows then Done else Unchanged
  }

  function Updated(op: Op, row: Row): Row
    requires !op.Create?
  {
    match op
    case Transition(_, to) => row.(state := to)
    case MarkReady(_, c) => row.(state := Ready, container := c)
    case Note(_) => row
    case CommitFreeze(_, _, c) => row.(state := Ready, container := c)
    case UpdateEndpoint(_, _, c, _) => row.(container := c)
    case FailReady(_, _) => row.(state := Failed)
    case FailStuck(_, _) => row.(state := Failed)
    case SetContainer(_, c) => row.(container := c)
  }

  function Entries(op: Op, from: State): seq<Entry>
    requires !op.Create?
  {
    match op
    case Transition(id, to) => [Entry(id, Some(from), to)]
    case MarkReady(id, _) => [Entry(id, Some(from), Ready)]
    case Note(id) => [Entry(id, Some(from), from)]
    case CommitFreeze(id, _, _) => [Entry(id, Some(from), Ready)]
    case UpdateEndpoint(id, _, _, journaled) => if journaled then [Entry(id, Some(Ready), Ready)] else []
    case FailReady(id, _) => [Entry(id, Some(Ready), Resetting), Entry(id, Some(Resetting), Failed)]
    case FailStuck(id, _) => [Entry(id, Some(from), Failed)]
    case SetContainer(_, _) => []
  }

  /** An operation that is refused changes nothing; one that is not changes its
      row and journals, together. */
  function Apply(db: Db, op: Op): Db {
    if !Answers(db, op).Done? then db
    else if op.Create? then
      Db(db.rows[op.id := Row(op.name, Creating, "")], db.journal + [Entry(op.id, None, Creating)])
    else Db(db.rows[op.id := Updated(op, db.rows[op.id])], db.journal + Entries(op, db.rows[op.id].state))
  }

  // ------------------------------------------------------------------- soundness

  /** The entries of one branch, oldest first. */
  function History(journal: seq<Entry>, id: Id): (h: seq<Entry>)
    ensures forall e :: e in h ==> e.id == id
  {
    if journal == [] then [] else
    var rest := History(journal[..|journal| - 1], id);
    if journal[|journal| - 1].id == id then rest + [journal[|journal| - 1]] else rest
  }

  /** One entry after another: they chain, along a legal edge or as a note. */
  predicate Follows(a: Entry, b: Entry) {
    b.from == Some(a.to) && (b.to == a.to || b.to in LegalNext(a.to))
  }

  /** A history that starts with the creation, chains, and ends at a state. */
  ghost predicate Traces(h: seq<Entry>, s: State) {
    && |h| > 0 && h[0].from == None && h[0].to == Creating && h[|h| - 1].to == s
    && forall j, k :: 0 <= j < k < |h| && k == j + 1 ==> Follows(h[j], h[k])
  }

  predicate Live(r: Row) { !r.state.Destroyed? }

  /** The destroyed rows of rows are destroyed in rows'. */
  ghost predicate StayDestroyed(rows: map<Id, Row>, rows': map<Id, Row>) {
    forall id :: id in rows && !Live(rows[id]) ==> id in rows' && !Live(rows'[id])
  }

  ghost predicate OneLive(rows: map<Id, Row>) {
    forall i, j :: i in rows && j in rows && i != j && Live(rows[i]) && Live(rows[j]) ==> rows[i].name != rows[j].name
  }

  ghost predicate Sound(db: Db) {
    && OneLive(db.rows)
    && (forall id :: id in db.rows ==> Traces(History(db.journal, id), db.rows[id].state))
    && (forall id :: id !in db.rows ==> History(db.journal, id) == [])
  }

  lemma {:induction false} HistoryAppend(journal: seq<Entry>, es: seq<Entry>, id: Id)
    ensures History(journal + es, id) == History(journal, id) + History(es, id)
    decreases |es|
  {
    if es == [] {
      assert journal + es == journal;
    } else {
      var front := es[..|es| - 1];
      HistoryAppend(journal, front, id);
      assert (journal + es)[..|journal + es| - 1] == journal + front;
    }
  }

  lemma TracesOne(h: seq<Entry>, s: State, e: Entry)
    requires Traces(h, s) && e.from == Some(s) && (e.to == s || e.to in LegalNext(s))
    ensures Traces(h + [e], e.to)
  {
  }

  /** What an operation journals takes the row from its old state to its new
      one, entry by entry along legal edges. */
  lemma TracesEntries(db: Db, op: Op, h: seq<Entry>)
    requires Answers(db, op).Done? && !op.Create? && Traces(h, db.rows[op.id].state)
    ensures Traces(h + Entries(op, db.rows[op.id].state), Updated(op, db.rows[op.id]).state)
  {
    var s := db.rows[op.id].state;
    if op.FailReady? {
      TracesOne(h, Ready, Entry(op.id, Some(Ready), Resetting));
      TracesOne(h + [Entry(op.id, Some(Ready), Resetting)], Resetting, Entry(op.id, Some(Resetting), Failed));
      assert h + Entries(op, s) == h + [Entry(op.id, Some(Ready), Resetting)] + [Entry(op.id, Some(Resetting), Failed)];
    } else if op.SetContainer? || (op.UpdateEndpoint? && !op.journaled) {
      assert h + Entries(op, s) == h;
    } else {
      TracesOne(h, s, Entries(op, s)[0]);
    }
  }

  /** Entries about one branch are that branch's history and nobody else's. */
  lemma {:induction false} HistoryOwn(es: seq<Entry>, own: Id, id: Id)
    requires forall e :: e in es ==> e.id == own
    ensures History(es, id) == if id == own then es else []
  {
    if es != [] {
      HistoryOwn(es[..|es| - 1], own, id);
      assert es == es[..|es| - 1] + [es[|es| - 1]];
    }
  }

  lemma SoundAppend(db: Db, rows: map<Id, Row>, id: Id, added: seq<Entry>)
    requires Sound(db) && OneLive(rows) && rows.Keys == db.rows.Keys + {id}
    requires forall i :: i in db.rows && i != id ==> rows[i] == db.rows[i]
    requires forall e :: e in added ==> e.id == id
    requires Traces(History(db.journal, id) + added, rows[id].state)
    ensures Sound(Db(rows, db.journal + added))
  {
    hide Traces; hide OneLive; hide History;
    forall i ensures History(db.journal + added, i) == History(db.journal, i) + (if i == id then added else []) {
      HistoryAppend(db.journal, added, i);
      HistoryOwn(added, id, i);
    }
    forall i | i in rows ensures Traces(History(db.journal + added, i), rows[i].state) {
      if i != id {
        assert History(db.journal, i) + [] == History(db.journal, i);
      }
    }
  }

  /** A row a step does not destroy or revive: names stay held by one. */
  lemma ApplyOneLive(db: Db, op: Op)
    requires OneLive(db.rows)
    ensures OneLive(Apply(db, op).rows)
  {
  }

  lemma ApplyDestroyed(db: Db, op: Op)
    ensures StayDestroyed(db.rows, Apply(db, op).rows)
  {
  }

  lemma ApplyTraces(db: Db, op: Op)
    requires Sound(db) && Answers(db, op).Done?
    ensures var added := if op.Create? then [Entry(op.id, None, Creating)] else Entries(op, db.rows[op.id].state);
      && op.id in Apply(db, op).rows && Traces(History(db.journal, op.id) + added, Apply(db, op).rows[op.id].state)
      && Apply(db, op).journal == db.journal + added && forall e :: e in added ==> e.id == op.id
  {
    if op.Create? {
      assert History(db.journal, op.id) == [];
    } else {
      TracesEntries(db, op, History(db.journal, op.id));
    }
  }

  /** Every operation keeps the journal sound, only adds to it, and leaves
      destroyed rows destroyed. */
  lemma ApplySound(db: Db, op: Op)
    requires Sound(db)
    ensures Sound(Apply(db, op)) && db.journal <= Apply(db, op).journal
    ensures StayDestroyed(db.rows, Apply(db, op).rows)
  {
    hide Traces; hide History; hide OneLive; hide Entries; hide StayDestroyed;
    ApplyDestroyed(db, op);
    if Answers(db, op).Done? {
      ApplyOneLive(db, op);
      ApplyTraces(db, op);
      hide Answers; hide Updated;
      var added := if op.Create? then [Entry(op.id, None, Creating)] else Entries(op, db.rows[op.id].state);
      SoundAppend(db, Apply(db, op).rows, op.id, added);
    }
  }

  lemma KeepsSound(db: Db, op: Op)
    ensures Sound(db) ==> Sound(Apply(db, op)) && db.journal <= Apply(db, op).journal
  {
    if Sound(db) {
      ApplySound(db, op);
    }
  }

  /** Any run of operations, answered or refused. */
  function ApplyAll(db: Db, ops: seq<Op>): Db {
    if ops == [] then db else Apply(ApplyAll(db, ops[..|ops| - 1]), ops[|ops| - 1])
  }

  /** After every run: replaying a branch's journal gives its state, entries
      chain along legal edges or as notes, and at most one live row bears a
      name. */
  lemma {:induction false} RunSound(ops: seq<Op>)
    ensures Sound(ApplyAll(EMPTY, ops))
  {
    if ops != [] {
      RunSound(ops[..|ops| - 1]);
      ApplySound(ApplyAll(EMPTY, ops[..|ops| - 1]), ops[|ops| - 1]);
    }
  }

  /** Whatever comes after: the journal only grows and destroyed rows stay. */
  lemma {:induction false} RunGrows(ops: seq<Op>, i: nat)
    requires i <= |ops|
    ensures ApplyAll(EMPTY, ops[..i]).journal <= ApplyAll(EMPTY, ops).journal
    ensures StayDestroyed(ApplyAll(EMPTY, ops[..i]).rows, ApplyAll(EMPTY, ops).rows)
    decreases |ops|
  {
    if i == |ops| {
      assert ops[..i] == ops;
    } else {
      var front := ops[..|ops| - 1];
      assert front[..i] == ops[..i];
      RunGrows(front, i);
      RunSound(front);
      ApplySound(ApplyAll(EMPTY, front), ops[|ops| - 1]);
    }
  }

  /** In any sound history, what follows a destroyed entry is destroyed. */
  lemma {:induction false} DestroyedAbsorbs(h: seq<Entry>, s: State, i: nat, j: nat)
    requires Traces(h, s) && i <= j < |h| && h[i].to == Destroyed
    ensures h[j].to == Destroyed
    decreases j
  {
    if i < j {
      DestroyedAbsorbs(h, s, i, j - 1);
      assert Follows(h[j - 1], h[j]);
    }
  }

  // ---------------------------------------------------------------- transactions

  /** legalBranchTransition. */
  method LegalTransition(from: State, to: State) returns (ok: bool)
    ensures ok <==> to in LegalNext(from)
  {
    var next := LegalNext(from);
    for i := 0 to |next|
      invariant to !in next[..i]
    {
      if next[i] == to {
        return true;
      }
    }
    return false;
  }

  class Registry {
    var rows: map<Id, Row>
    var journal: seq<Entry>

    ghost function Value(): Db
      reads this
    {
      Db(rows, journal)
    }

    constructor ()
      ensures Value() == EMPTY
    {
      rows, journal := map[], [];
    }

    method CreateBranch(id: Id, name: string) returns (answer: Answer)
      modifies this
      ensures answer == Answers(old(Value()), Create(id, name)) && Value() == Apply(old(Value()), Create(id, name))
      ensures old(Sound(Value())) ==> Sound(Value()) && old(journal) <= journal
    {
      KeepsSound(Value(), Create(id, name));
      if id in rows || exists i :: i in rows && rows[i].name == name && !rows[i].state.Destroyed? {
        return AlreadyExists;
      }
      rows := rows[id := Row(name, Creating, "")];
      journal := journal + [Entry(id, None, Creating)];
      return Done;
    }

    /** transitionBranch, with the container column MarkBranchReady sets along. */
    method TransitionBranch(id: Id, to: State, container: Option<string>) returns (answer: Answer)
      requires container.Some? ==> to.Ready?
      modifies this
      ensures var op := if container.Some? then MarkReady(id, container.value) else Transition(id, to);
        answer == Answers(old(Value()), op) && Value() == Apply(old(Value()), op)
      ensures old(Sound(Value())) ==> Sound(Value()) && old(journal) <= journal
    {
      KeepsSound(Value(), if container.Some? then MarkReady(id, container.value) else Transition(id, to));
      if id !in rows {
        return NotFound;
      }
      var from := rows[id].state;
      var ok := LegalTransition(from, to);
      if !ok {
        return Illegal;
      }
      if container.Some? {
        rows := rows[id := rows[id].(container := container.value)];
      }
      rows := rows[id := rows[id].(state := to)];
      journal := journal + [Entry(id, Some(from), to)];
      return Done;
    }

    method NoteBranch(id: Id) returns (answer: Answer)
      modifies this
      ensures answer == Answers(old(Value()), Note(id)) && Value() == Apply(old(Value()), Note(id))
      ensures old(Sound(Value())) ==> Sound(Value()) && old(journal) <= journal
    {
      KeepsSound(Value(), Note(id));
      if id !in rows {
        return NotFound;
      }
      assert rows[id := rows[id]] == rows;
      journal := journal + [Entry(id, Some(rows[id].state), rows[id].state)];
      return Done;
    }

    /** The row and journal part of CommitFreeze: when the child is missing the
        transaction rolls back. */
    method FreezeCommit(id: Id, child: Id, container: string) returns (answer: Answer)
      modifies this
      ensures answer == Answers(old(Value()), CommitFreeze(id, child, container))
      ensures Value() == Apply(old(Value()), CommitFreeze(id, child, container))
      ensures old(Sound(Value())) ==> Sound(Value()) && old(journal) <= journal
    {
      KeepsSound(Value(), CommitFreeze(id, child, container));
      var tx := Db(rows, journal);
      if id !in tx.rows {
        return NotFound;
      }
      var from := tx.rows[id].state;
      if !from.Resetting? {
        return Illegal;
      }
      tx := Db(tx.rows[id := tx.rows[id].(container := container, state := Ready)],
               tx.journal + [Entry(id, Some(from), Ready)]);
      if child !in tx.rows {
        return NotFound;
      }
      rows, journal := tx.rows, tx.journal;
      return Done;
    }

    method UpdateBranchEndpoint(id: Id, was: string, container: string, journaled: bool) returns (answer: Answer)
      modifies this
      ensures answer == Answers(old(Value()), UpdateEndpoint(id, was, container, journaled))
      ensures Value() == Apply(old(Value()), UpdateEndpoint(id, was, container, journaled))
      ensures old(Sound(Value())) ==> Sound(Value()) && old(journal) <= journal
    {
      KeepsSound(Value(), UpdateEndpoint(id, was, container, journaled));
      if id !in rows || !rows[id].state.Ready? || rows[id].container != was {
        return Unchanged;
      }
      rows := rows[id := rows[id].(container := container)];
      if journaled {
        journal := journal + [Entry(id, Some(Ready), Ready)];
      } else {
        assert journal + [] == journal;
      }
      return Done;
    }

    method FailReadyBranch(id: Id, was: string) returns (answer: Answer)
      modifies this
      ensures answer == Answers(old(Value()), FailReady(id, was)) && Value() == Apply(old(Value()), FailReady(id, was))
      ensures old(Sound(Value())) ==> Sound(Value()) && old(journal) <= journal
    {
      KeepsSound(Value(), FailReady(id, was));
      if id !in rows || !rows[id].state.Ready? || rows[id].container != was {
        return Unchanged;
      }
      rows := rows[id := rows[id].(state := Failed)];
      var steps := [(Ready, Resetting), (Resetting, Failed)];
      ghost var journal0 := journal;
      for i := 0 to |steps|
        invariant rows == old(rows)[id := old(rows)[id].(state := Failed)]
        invariant journal == journal0 + Entries(FailReady(id, was), Ready)[..i]
      {
        journal := journal + [Entry(id, Some(steps[i].0), steps[i].1)];
      }
      return Done;
    }

    method FailStuckBranch(id: Id, stuck: bool) returns (answer: Answer)
      modifies this
      ensures answer == Answers(old(Value()), FailStuck(id, stuck))
      ensures Value() == Apply(old(Value()), FailStuck(id, stuck))
      ensures old(Sound(Value())) ==> Sound(Value()) && old(journal) <= journal
    {
      KeepsSound(Value(), FailStuck(id, stuck));
      if id !in rows || !(rows[id].state.Creating? || rows[id].state.Resetting?) || !stuck {
        return Unchanged;
      }
      var from := rows[id].state;
      rows := rows[id := rows[id].(state := Failed)];
      journal := journal + [Entry(id, Some(from), Failed)];
      return Done;
    }

    method SetBranchContainer(id: Id, container: string)
      modifies this
      ensures Value() == Apply(old(Value()), SetContainer(id, container))
      ensures old(Sound(Value())) ==> Sound(Value()) && old(journal) <= journal
    {
      KeepsSound(Value(), SetContainer(id, container));
      if id in rows {
        rows := rows[id := rows[id].(container := container)];
      }
      assert journal + [] == journal;
    }
  }
}
