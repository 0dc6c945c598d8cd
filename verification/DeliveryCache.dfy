/** The bounded memory of delivery ids: a ring of the last n accepted ids and
    the set of them. */
module DeliveryCache {

  /** Where the window of the last n starts. */
  function From(m: nat, n: nat): nat { if m < n then 0 else m - n }

  ghost function LastIds(log: seq<string>, n: nat): set<string> {
    set i | From(|log|, n) <= i < |log| :: log[i]
  }

  /** No id occurs twice in the window, and none is empty. */
  ghost predicate Distinct(log: seq<string>, n: nat) {
    && (forall i :: From(|log|, n) <= i < |log| ==> log[i] != "")
    && (forall i, k :: From(|log|, n) <= i < k < |log| ==> log[i] != log[k])
  }

  /** The ring lays the window out from slot next on, wrapping; slots not yet
      used are empty. */
  ghost predicate LaidOut(ring: seq<string>, next: nat, log: seq<string>) {
    var n, m := |ring|, |log|;
    && next < n && next <= m && (m < n ==> next == m)
    && (forall k :: 0 <= k < next ==> ring[k] == log[m - next + k])
    && (m >= n ==> forall k :: next <= k < n ==> ring[k] == log[m - n + (k - next)])
    && (m < n ==> forall k :: next <= k < n ==> ring[k] == "")
  }

  /** The set after the oldest id of a full window has made room. */
  lemma WindowMoves(log: seq<string>, n: nat, id: string)
    requires n > 0 && Distinct(log, n) && id != "" && id !in LastIds(log, n)
    ensures Distinct(log + [id], n)
    ensures LastIds(log + [id], n) == (if |log| < n then LastIds(log, n) else LastIds(log, n) - {log[|log| - n]}) + {id}
  {
    var log', m := log + [id], |log|;
    assert forall i :: From(m, n) <= i < m ==> log[i] in LastIds(log, n);
    assert forall i :: 0 <= i < m ==> log'[i] == log[i];
    forall v | v in (if m < n then LastIds(log, n) else LastIds(log, n) - {log[m - n]}) + {id}
        ensures v in LastIds(log', n) {
      if v == id {
        assert log'[m] == id;
      } else {
        var i :| From(m, n) <= i < m && log[i] == v;
        assert log'[i] == v && From(m + 1, n) <= i;
      }
    }
  }

  lemma RingTurns(ring: seq<string>, next: nat, log: seq<string>, id: string)
    requires |ring| > 0 && LaidOut(ring, next, log)
    ensures LaidOut(ring[next := id], if next + 1 == |ring| then 0 else next + 1, log + [id])
    ensures ring[next] == if |log| < |ring| then "" else log[|log| - |ring|]
  {
  }

  lemma RingMoves(ring: seq<string>, next: nat, log: seq<string>, id: string)
    requires |ring| > 0 && LaidOut(ring, next, log)
    ensures LaidOut(ring[next := id], (next + 1) % |ring|, log + [id])
    ensures ring[next] == if |log| < |ring| then "" else log[|log| - |ring|]
  {
    RingTurns(ring, next, log, id);
    NextInRing(ring, next, log);
    hide LaidOut;
    assert (next + 1) % |ring| == if next + 1 == |ring| then 0 else next + 1;
  }

  class Cache {
    var ids: set<string>
    const ring: array<string>
    var next: nat
    ghost var log: seq<string>

    /** log holds every accepted id, oldest first. */
    ghost predicate Valid()
      reads this, ring
    {
      && ring.Length > 0 && LaidOut(ring[..], next, log)
      && Distinct(log, ring.Length) && ids == LastIds(log, ring.Length)
    }

    constructor (n: nat)
      requires n > 0
      ensures Valid() && fresh(ring) && ring.Length == n && log == []
    {
      ring := new string[n](_ => "");
      ids, next, log := {}, 0, [];
    }

    /** add: new exactly when it is not among the last n accepted. */
    method Add(id: string) returns (isNew: bool)
      requires Valid() && id != ""
      modifies this`ids, this`next, this`log, ring
      ensures Valid()
      ensures isNew <==> id !in LastIds(old(log), ring.Length)
      ensures log == if isNew then old(log) + [id] else old(log)
    {
      hide LaidOut; hide Distinct; hide LastIds;
      if id in ids {
        return false;
      }
      RingMoves(ring[..], next, log, id);
      WindowMoves(log, ring.Length, id);
      assert next < ring.Length && ring[..][next] == ring[next] by { NextInRing(ring[..], next, log); }
      assert |log| >= ring.Length ==> log[|log| - ring.Length] != "" by { OldestNotEmpty(log, ring.Length); }
      var prev := ring[next];
      if prev != "" {
        ids := ids - {prev};
      }
      ghost var was := ring[..];
      ring[next] := id;
      assert ring[..] == was[next := id];
      ids := ids + {id};
      next := (next + 1) % ring.Length;
      log := log + [id];
      return true;
    }
  }

  lemma NextInRing(ring: seq<string>, next: nat, log: seq<string>)
    requires LaidOut(ring, next, log)
    ensures next < |ring|
  {
  }

  lemma OldestNotEmpty(log: seq<string>, n: nat)
    requires n > 0 && Distinct(log, n)
    ensures |log| >= n ==> log[|log| - n] != ""
  {
  }
}
