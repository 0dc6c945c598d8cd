/** The provision and freeze sagas with a runtime and a registry that may fail
    at any call: each completed step pushes its compensation, and a failure runs
    them in reverse.  Compensations are taken to succeed. */
module Saga {
  import opened Wrappers

  type Vol = string
  type Cid = nat
  type Bid = nat

  datatype State = Creating | Ready | Resetting | Failed

  /** A branch row; base is its frozen chain, newest first. */
  datatype Row = Row(state: State, rw: Vol, base: seq<Vol>, src: Vol, container: Option<Cid>)

  /** Volumes, containers with the stacks they mount, and the volumes freezes
      have claimed. */
  datatype World = World(vols: set<Vol>, cons: map<Cid, seq<Vol>>, claims: map<Bid, Vol>)

  datatype Undo = RemoveVolume(vol: Vol) | StopRemove(cid: Cid) | ReleaseClaim(id: Bid)

  /** The stack a row records: what a restart on its own data mounts. */
  function StackOf(r: Row): seq<Vol> { [r.rw] + r.base + [r.src] }

  ghost predicate Unmounted(cons: map<Cid, seq<Vol>>, v: Vol) {
    forall c :: c in cons ==> v !in cons[c]
  }

  // ------------------------------------------------------------- undoing in reverse

  function Undone(w: World, u: Undo): World {
    match u
    case RemoveVolume(v) => w.(vols := w.vols - {v})
    case StopRemove(c) => w.(cons := w.cons - {c})
    case ReleaseClaim(id) => w.(claims := w.claims - {id})
  }

  function UndoneAll(w: World, undo: seq<Undo>): World
    decreases |undo|
  {
    if undo == [] then w else UndoneAll(Undone(w, undo[|undo| - 1]), undo[..|undo| - 1])
  }

  /** Run in reverse order, no compensation removes a volume that some
      container still mounts. */
  ghost predicate NeverMounted(w: World, undo: seq<Undo>)
    decreases |undo|
  {
    undo == [] || (
      && (undo[|undo| - 1].RemoveVolume? ==> Unmounted(w.cons, undo[|undo| - 1].vol))
      && NeverMounted(Undone(w, undo[|undo| - 1]), undo[..|undo| - 1]))
  }

  /** Run now, the compensations take w back to w0. */
  ghost predicate Reverts(w: World, undo: seq<Undo>, w0: World) {
    UndoneAll(w, undo) == w0 && NeverMounted(w, undo)
  }

  /** A step and the compensation pushed after it cancel out. */
  lemma Push(w: World, undo: seq<Undo>, w0: World, w': World, u: Undo)
    requires Reverts(w, undo, w0) && Undone(w', u) == w && (u.RemoveVolume? ==> Unmounted(w'.cons, u.vol))
    ensures Reverts(w', undo + [u], w0)
  {
    assert (undo + [u])[..|undo + [u]| - 1] == undo;
  }

  lemma NothingToUndo(w: World)
    ensures Reverts(w, [], w)
  {
  }

  /** The calls from lo to hi all succeed. */
  ghost predicate AllGo(fate: nat -> bool, lo: nat, hi: nat) {
    forall k: nat :: lo <= k <= hi ==> fate(k)
  }

  lemma AllGoFreeze(fate: nat -> bool)
    ensures AllGo(fate, 3, 16) <==> AllGo(fate, 3, 7) && AllGo(fate, 8, 15) && fate(16)
    ensures AllGo(fate, 0, 16) <==> fate(0) && fate(1) && fate(2) && AllGo(fate, 3, 16)
  {
  }

  /** How a freeze ends: before anything happened, with a parent that would not
      stop, rolled back, or committed. */
  datatype Ending = Untouched | StopFailed | RolledBack | Committed

  class Engine {
    var vols: set<Vol>
    var cons: map<Cid, seq<Vol>>
    var claims: map<Bid, Vol>
    var rows: map<Bid, Row>
    var nextCid: Cid

    ghost predicate Valid()
      reads this
    {
      forall c :: c in cons ==> c < nextCid
    }

    ghost function Now(): World
      reads this
    {
      World(vols, cons, claims)
    }

    constructor (vols: set<Vol>, cons: map<Cid, seq<Vol>>, claims: map<Bid, Vol>, rows: map<Bid, Row>, nextCid: Cid)
      requires forall c :: c in cons ==> c < nextCid
      ensures Valid() && Now() == World(vols, cons, claims) && this.rows == rows
    {
      this.vols, this.cons, this.claims, this.rows, this.nextCid := vols, cons, claims, rows, nextCid;
    }

    // ------------------------------------------------------- runtime calls and undo

    /** CreateVolume refuses a name that exists; pushes its removal. */
    method CreateVolume(v: Vol, fate: bool, undo: seq<Undo>, ghost w0: World) returns (ok: bool, undo': seq<Undo>)
      requires Valid() && Reverts(Now(), undo, w0) && Unmounted(cons, v)
      modifies this`vols
      ensures Valid() && Reverts(Now(), undo', w0)
      ensures ok == (fate && v !in old(vols)) && vols == if ok then old(vols) + {v} else old(vols)
    {
      ghost var w := Now();
      ok, undo' := fate && v !in vols, undo;
      if ok {
        vols := vols + {v};
        assert Undone(Now(), RemoveVolume(v)) == w;
        Push(w, undo, w0, Now(), RemoveVolume(v));
        undo' := undo + [RemoveVolume(v)];
      }
    }

    /** StartBranch; pushes the container's removal. */
    method StartBranch(stack: seq<Vol>, fate: bool, undo: seq<Undo>, ghost w0: World)
      returns (cid: Option<Cid>, undo': seq<Undo>)
      requires Valid() && Reverts(Now(), undo, w0)
      modifies this`cons, this`nextCid
      ensures Valid() && Reverts(Now(), undo', w0) && (cid.Some? <==> fate)
      ensures cid.Some? ==> cid.value !in old(cons) && cons == old(cons)[cid.value := stack]
      ensures cid.Some? ==> old(nextCid) <= cid.value < nextCid
      ensures cid.None? ==> cons == old(cons)
    {
      if !fate {
        return None, undo;
      }
      ghost var w := Now();
      cid := Some(nextCid);
      cons, nextCid := cons[nextCid := stack], nextCid + 1;
      assert Undone(Now(), StopRemove(cid.value)) == w by {
        assert cons - {cid.value} == w.cons;
      }
      Push(w, undo, w0, Now(), StopRemove(cid.value));
      undo' := undo + [StopRemove(cid.value)];
    }

    /** Runs the compensations, last first. */
    method Unwind(undo: seq<Undo>, ghost w0: World)
      requires Valid() && Reverts(Now(), undo, w0)
      modifies this`vols, this`cons, this`claims
      ensures Valid() && Now() == w0
    {
      var i := |undo|;
      assert undo[..i] == undo;
      while i > 0
        invariant 0 <= i <= |undo| && Valid() && Reverts(Now(), undo[..i], w0)
      {
        i := i - 1;
        assert undo[..i + 1][..i] == undo[..i];
        match undo[i] {
          case RemoveVolume(v) =>
            assert Unmounted(cons, v);
            vols := vols - {v};
          case StopRemove(c) => cons := cons - {c};
          case ReleaseClaim(id) => claims := claims - {id};
        }
      }
    }

    // -------------------------------------------------------------------- provision

    /** provision: writable volume, entrypoint, container, readiness, masking,
        credentials, address, ready.  fate(k) is how the k-th call goes.
        Whichever fails, what was there before is what is left, and no container
        of the saga; the row keeps its state for the caller to fail. */
    method Provision(id: Bid, fate: nat -> bool) returns (ok: bool)
      requires Valid() && id in rows && Unmounted(cons, rows[id].rw)
      modifies this
      ensures Valid() && id in rows && rows.Keys == old(rows.Keys)
      ensures forall j :: j in rows && j != id ==> rows[j] == old(rows)[j]
      ensures ok == (old(rows[id].rw !in vols) && AllGo(fate, 0, 8))
      ensures !ok ==> Now() == old(Now()) && rows[id] == old(rows)[id].(container := rows[id].container)
      ensures ok ==> rows[id].container.Some? && rows[id].container.value !in old(cons)
      ensures ok ==> rows[id] == old(rows)[id].(state := Ready, container := rows[id].container)
      ensures ok ==> vols == old(vols) + {rows[id].rw} && claims == old(claims)
      ensures ok ==> cons == old(cons)[rows[id].container.value := StackOf(rows[id])]
    {
      hide Reverts;
      ghost var w0 := Now();
      NothingToUndo(w0);
      var b := rows[id];
      var undo: seq<Undo> := [];
      ok, undo := CreateVolume(b.rw, fate(0), undo, w0);
      if !ok || !fate(1) {
        Unwind(undo, w0);
        return false;
      }
      var cid;
      cid, undo := StartBranch(StackOf(b), fate(2), undo, w0);
      if cid.None? {
        Unwind(undo, w0);
        return false;
      }
      ok := AwaitAndMark(id, cid.value, fate);
      if !ok {
        Unwind(undo, w0);
      }
    }

    /** awaitAndMark: the container is recorded before the wait. */
    method AwaitAndMark(id: Bid, cid: Cid, fate: nat -> bool) returns (ok: bool)
      requires id in rows
      modifies this`rows
      ensures ok == AllGo(fate, 3, 8)
      ensures rows.Keys == old(rows.Keys) && forall j :: j in rows && j != id ==> rows[j] == old(rows)[j]
      ensures rows[id] == old(rows)[id].(container := if fate(3) then Some(cid) else old(rows)[id].container,
                                         state := if ok then Ready else old(rows)[id].state)
    {
      if !fate(3) {
        assert rows[id := rows[id]] == rows;
        return false;
      }
      rows := rows[id := rows[id].(container := Some(cid))];
      for k := 4 to 8
        invariant forall i :: 3 <= i < k ==> fate(i)
        invariant rows == old(rows)[id := old(rows)[id].(container := Some(cid))]
      {
        if !fate(k) {
          return false;
        }
      }
      if !fate(8) {
        return false;
      }
      rows := rows[id := rows[id].(state := Ready)];
      return true;
    }

    // ----------------------------------------------------------------------- freeze

    /** freezeAndProvision, steps 3 and 4: claim and build the parent's fresh
        volume and restart the parent on it.  A claim left over from an earlier
        freeze is replaced. */
    method SwapParent(parent: Bid, p: Row, newRW: Vol, fate: nat -> bool)
      returns (cid: Option<Cid>, undo: seq<Undo>, ghost w0: World)
      requires Valid() && parent in rows && Unmounted(cons, newRW)
      modifies this
      ensures Valid() && Reverts(Now(), undo, w0) && w0.vols == old(vols) && w0.cons == old(cons)
      ensures w0.claims == old(claims) || w0.claims == old(claims) - {parent}
      ensures parent in rows && rows == old(rows)[parent := old(rows)[parent].(container := rows[parent].container)]
      ensures cid.Some? <==> newRW !in old(vols) && AllGo(fate, 3, 7)
      ensures cid.Some? ==> cid.value !in old(cons)
      ensures cid.Some? ==> vols == old(vols) + {newRW} && claims == old(claims)[parent := newRW]
      ensures cid.Some? ==> cons == old(cons)[cid.value := [newRW] + StackOf(p)]
      ensures cid.Some? ==> rows[parent].container == cid
    {
      hide Reverts;
      undo, w0 := [], Now();
      NothingToUndo(w0);
      if !fate(3) {
        return None, undo, w0;
      }
      claims := claims[parent := newRW];
      w0 := World(vols, cons, claims - {parent});
      assert w0.claims == old(claims) - {parent};
      NothingToUndo(w0);
      Push(w0, undo, w0, Now(), ReleaseClaim(parent));
      undo := undo + [ReleaseClaim(parent)];
      var ok;
      ok, undo := CreateVolume(newRW, fate(4), undo, w0);
      if !ok || !fate(5) {
        return None, undo, w0;
      }
      cid, undo := StartBranch([newRW] + StackOf(p), fate(6), undo, w0);
      if cid.None? {
        return None, undo, w0;
      }
      rows := rows[parent := rows[parent].(container := cid)];
      if !fate(7) {
        return None, undo, w0;
      }
    }

    /** Step 5: build and start the child over the same chain, wait, mask, rotate,
        and look up both addresses. */
    method BuildChild(child: Bid, p: Row, fate: nat -> bool, undo: seq<Undo>, ghost w0: World)
      returns (cid: Option<Cid>, undo': seq<Undo>)
      requires Valid() && child in rows && Reverts(Now(), undo, w0) && Unmounted(cons, rows[child].rw)
      modifies this
      ensures Valid() && Reverts(Now(), undo', w0)
      ensures child in rows && rows == old(rows)[child := old(rows)[child].(container := rows[child].container)]
      ensures cid.Some? <==> rows[child].rw !in old(vols) && AllGo(fate, 8, 15)
      ensures cid.Some? ==> cid.value !in old(cons)
      ensures cid.Some? ==> rows[child].container == cid
      ensures cid.Some? ==> vols == old(vols) + {rows[child].rw} && claims == old(claims)
      ensures cid.Some? ==> cons == old(cons)[cid.value := [rows[child].rw] + StackOf(p)]
    {
      hide Reverts;
      var ok;
      ok, undo' := CreateVolume(rows[child].rw, fate(8), undo, w0);
      if !ok || !fate(9) {
        return None, undo';
      }
      cid, undo' := StartBranch([rows[child].rw] + StackOf(p), fate(10), undo', w0);
      if cid.None? {
        return None, undo';
      }
      rows := rows[child := rows[child].(container := cid)];
      for k := 11 to 16
        invariant forall i :: 8 <= i < k ==> fate(i)
      {
        if !fate(k) {
          return None, undo';
        }
      }
    }

    /** restoreParent: restart on the original volume and chain, wait, look up the
        address and mark ready, else mark failed; a container that did not come
        up is removed again. */
    method RestoreParent(parent: Bid, p: Row, fate: nat -> bool)
      requires Valid() && parent in rows && rows[parent] == p.(state := Resetting, container := rows[parent].container)
      modifies this
      ensures Valid() && vols == old(vols) && claims == old(claims)
      ensures parent in rows && rows == old(rows)[parent := rows[parent]]
      ensures rows[parent] == p.(state := rows[parent].state, container := rows[parent].container)
      ensures rows[parent].state == if fate(20) && fate(21) && fate(22) && fate(23) then Ready else Failed
      ensures rows[parent].state.Ready? ==> rows[parent].container.Some? && rows[parent].container.value !in old(cons)
      ensures rows[parent].state.Ready? ==> cons == old(cons)[rows[parent].container.value := StackOf(rows[parent])]
      ensures rows[parent].state.Failed? ==> cons == old(cons)
    {
      hide Reverts;
      var cid;
      ghost var undo;
      NothingToUndo(Now());
      cid, undo := StartBranch(StackOf(p), fate(20), [], Now());
      if cid.None? {
        rows := rows[parent := rows[parent].(state := Failed)];
        return;
      }
      rows := rows[parent := rows[parent].(container := cid)];
      if !fate(21) || !fate(22) || !fate(23) {
        cons := cons - {cid.value};
        assert cons == old(cons);
        rows := rows[parent := rows[parent].(state := Failed)];
        return;
      }
      rows := rows[parent := rows[parent].(state := Ready)];
    }

    /** What fail does in a freeze. */
    method RollBack(parent: Bid, p: Row, undo: seq<Undo>, fate: nat -> bool, ghost w0: World)
      requires Valid() && Reverts(Now(), undo, w0)
      requires parent in rows && rows[parent] == p.(state := Resetting, container := rows[parent].container)
      modifies this
      ensures Valid() && parent in rows && rows == old(rows)[parent := rows[parent]]
      ensures RolledBackTo(w0, Now(), p, rows[parent])
    {
      hide Reverts;
      Unwind(undo, w0);
      RestoreParent(parent, p, fate);
    }

    /** CommitFreeze, and the child's mark that follows it. */
    method RecordCommit(parent: Bid, child: Bid, p: Row, newRW: Vol, cid: Cid, marked: bool)
      requires parent in rows && child in rows && parent != child && rows[child].base == [] && rows[child].src == p.src
      modifies this`rows, this`claims
      ensures claims == old(claims) - {parent} && parent in rows && child in rows
      ensures rows == old(rows)[parent := rows[parent]][child := rows[child]]
      ensures rows[parent].state.Ready? && rows[parent].rw == newRW && rows[parent].container == Some(cid)
      ensures rows[child].rw == old(rows)[child].rw && rows[child].container == old(rows)[child].container
      ensures StackOf(rows[parent]) == [newRW] + StackOf(p) && StackOf(rows[child]) == [rows[child].rw] + StackOf(p)
    {
      claims := claims - {parent};
      rows := rows[parent := Row(Ready, newRW, [p.rw] + p.base, p.src, Some(cid))];
      rows := rows[child := rows[child].(base := [p.rw] + p.base)];
      if marked {
        rows := rows[child := rows[child].(state := Ready)];
      }
    }

    /** The freeze from the parent's stop on. */
    method FreezeStopped(parent: Bid, child: Bid, p: Row, newRW: Vol, fate: nat -> bool) returns (committed: bool)
      requires Valid() && parent in rows && child in rows && parent != child
      requires rows[parent] == p.(state := Resetting) && rows[child].base == [] && rows[child].src == p.src
      requires Unmounted(cons, newRW) && Unmounted(cons, rows[child].rw) && newRW != rows[child].rw
      requires newRW !in StackOf(p) && rows[child].rw !in StackOf(p)
      modifies this
      ensures Valid() && parent in rows && child in rows
      ensures rows == old(rows)[parent := rows[parent]][child := rows[child]]
      ensures !committed ==> RolledBackFrom(old(Now()), Now(), parent, p, rows[parent])
      ensures !committed ==> rows[child] == old(rows)[child].(container := rows[child].container)
      ensures committed ==>
          CommittedRows(Released(old(Now()), parent), Now(), p, rows[parent], old(rows)[child], rows[child], newRW)
      ensures committed <==> newRW !in old(vols) && old(rows[child].rw !in vols) && AllGo(fate, 3, 16)
    {
      hide Reverts; hide StackOf; hide AllGo;
      AllGoFreeze(fate);
      var pcid, ccid, undo;
      ghost var w0;
      pcid, undo, w0 := SwapParent(parent, p, newRW, fate);
      if pcid.None? {
        RollBack(parent, p, undo, fate, w0);
        return false;
      }
      ccid, undo := BuildChild(child, p, fate, undo, w0);
      if ccid.None? || !fate(16) {
        RollBack(parent, p, undo, fate, w0);
        return false;
      }
      assert claims - {parent} == Released(old(Now()), parent).claims;
      RecordCommit(parent, child, p, newRW, pcid.value, fate(17));
      return true;
    }

    /** freezeAndProvision.  stopped says whether a parent whose stop failed is
        gone all the same.  Whatever fails before the commit, the volumes are the
        prior ones, no container of the saga is left, and the parent, once
        stopped, is ready again on its original volume and chain or failed; the
        commit leaves parent and child on the stacks their rows record. */
    method Freeze(parent: Bid, child: Bid, newRW: Vol, stopped: bool, fate: nat -> bool) returns (ending: Ending)
      requires Valid() && parent in rows && child in rows && parent != child
      requires rows[parent].state.Ready? && rows[parent].container.Some? && rows[child].base == []
      requires rows[child].src == rows[parent].src
      requires Unmounted(cons, newRW) && Unmounted(cons, rows[child].rw) && newRW != rows[child].rw
      requires newRW !in StackOf(rows[parent]) && rows[child].rw !in StackOf(rows[parent])
      modifies this
      ensures Valid() && parent in rows && child in rows
      ensures rows == old(rows)[parent := rows[parent]][child := rows[child]]
      ensures ending.Untouched? ==> Now() == old(Now()) && rows == old(rows)
      ensures ending.StopFailed? ==> Now() == if stopped then Stopped(old(Now()), old(rows)[parent]) else old(Now())
      ensures ending.StopFailed? ==>
          rows[parent] == old(rows)[parent].(state := Failed) && rows[child] == old(rows)[child]
      ensures var w := Stopped(old(Now()), old(rows)[parent]);
        && (ending.RolledBack? ==> RolledBackFrom(w, Now(), parent, old(rows)[parent], rows[parent]))
        && (ending.RolledBack? ==> rows[child] == old(rows)[child].(container := rows[child].container))
        && (ending.Committed? ==>
            CommittedRows(Released(w, parent), Now(), old(rows)[parent], rows[parent], old(rows)[child], rows[child],
                newRW))
      ensures ending.Committed? <==> newRW !in old(vols) && old(rows[child].rw !in vols) && AllGo(fate, 0, 16)
    {
      hide StackOf; hide AllGo; hide RolledBackFrom; hide CommittedRows;
      AllGoFreeze(fate);
      var p := rows[parent];
      assert rows[parent := p][child := rows[child]] == rows;
      if !fate(0) {
        return Untouched;
      }
      rows := rows[parent := p.(state := Resetting)];
      if !fate(1) {
        rows := rows[parent := p.(state := Ready)];
        return Untouched;
      }
      if !fate(2) {
        if stopped {
          cons := cons - {p.container.value};
        }
        rows := rows[parent := p.(state := Failed)];
        return StopFailed;
      }
      cons := cons - {p.container.value};
      var committed := FreezeStopped(parent, child, p, newRW, fate);
      return if committed then Committed else RolledBack;
    }
  }

  /** The world without the parent's container, and without its claim. */
  function Stopped(w: World, p: Row): World
    requires p.container.Some?
  {
    w.(cons := w.cons - {p.container.value})
  }

  function Released(w: World, id: Bid): World { w.(claims := w.claims - {id}) }

  /** After a rollback to w: the parent on its own volume and chain, ready in a
      container that mounts exactly those, or failed without one. */
  ghost predicate RolledBackTo(w: World, w': World, p: Row, p': Row) {
    && w'.vols == w.vols && w'.claims == w.claims
    && p' == p.(state := p'.state, container := p'.container) && (p'.state.Ready? || p'.state.Failed?)
    && (p'.state.Failed? ==> w'.cons == w.cons)
    && (p'.state.Ready? ==> p'.container.Some? && p'.container.value !in w.cons)
    && (p'.state.Ready? ==> w'.cons == w.cons[p'.container.value := StackOf(p)])
  }

  /** A rollback, with the claim of this freeze released or never made. */
  ghost predicate RolledBackFrom(w: World, w': World, id: Bid, p: Row, p': Row) {
    RolledBackTo(w, w', p, p') || RolledBackTo(Released(w, id), w', p, p')
  }

  /** After the commit: parent and child each on their own fresh volume over the
      stack the parent had, in the rows and in the containers alike. */
  ghost predicate CommittedRows(w: World, w': World, p: Row, p': Row, c: Row, c': Row, newRW: Vol) {
    && w'.vols == w.vols + {newRW, c.rw} && w'.claims == w.claims
    && p'.state.Ready? && p'.rw == newRW && c'.rw == c.rw
    && StackOf(p') == [newRW] + StackOf(p) && StackOf(c') == [c.rw] + StackOf(p)
    && p'.container.Some? && c'.container.Some? && p'.container != c'.container
    && w'.cons == w.cons[p'.container.value := StackOf(p')][c'.container.value := StackOf(c')]
  }
}
