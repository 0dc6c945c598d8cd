/** The proxy's cancel keys: which backend issued the key of a live session,
    with any number of sessions registering and ending in any order. */
module CancelMap {
  import opened Wrappers

  type Key = string
  type Addr = string
  type Session = nat

  /** The entries under a key. */
  function Entries(m: map<Key, seq<Addr>>, k: Key): seq<Addr> { if k in m then m[k] else [] }

  function Add(m: map<Key, seq<Addr>>, k: Key, a: Addr): map<Key, seq<Addr>> { m[k := Entries(m, k) + [a]] }

  /** Without the first entry equal to a. */
  function Without(s: seq<Addr>, a: Addr): seq<Addr> {
    if s == [] then [] else if s[0] == a then s[1..] else [s[0]] + Without(s[1..], a)
  }

  function Remove(m: map<Key, seq<Addr>>, k: Key, a: Addr): map<Key, seq<Addr>> {
    var rest := Without(Entries(m, k), a);
    if rest == [] then m - {k} else m[k := rest]
  }

  lemma {:induction false} WithoutCounts(s: seq<Addr>, a: Addr)
    ensures multiset(Without(s, a)) == multiset(s) - multiset{a}
  {
    if s != [] {
      assert s == [s[0]] + s[1..];
      assert multiset(s) == multiset{s[0]} + multiset(s[1..]);
      if s[0] != a {
        WithoutCounts(s[1..], a);
        assert multiset([s[0]] + Without(s[1..], a)) == multiset{s[0]} + multiset(Without(s[1..], a));
      }
    }
  }

  lemma {:induction false} WithoutAt(s: seq<Addr>, a: Addr, i: nat)
    requires i < |s| && s[i] == a && a !in s[..i]
    ensures Without(s, a) == s[..i] + s[i + 1..]
  {
    if i > 0 {
      assert s[0] == s[..i][0];
      assert s[1..][..i - 1] == s[..i][1..];
      WithoutAt(s[1..], a, i - 1);
    }
  }

  lemma {:induction false} WithoutNone(s: seq<Addr>, a: Addr)
    requires a !in s
    ensures Without(s, a) == s
  {
    if s != [] {
      WithoutNone(s[1..], a);
    }
  }

  // -------------------------------------------------------------------- sessions

  /** What each session has registered, if anything. */
  type Sessions = map<Session, (Key, Addr)>

  ghost function Holding(held: Sessions, k: Key, a: Addr): set<Session> {
    set s | s in held && held[s] == (k, a)
  }

  ghost function Holders(held: Sessions, k: Key): set<Session> {
    set s | s in held && held[s].0 == k
  }

  /** The map has, under every key, one entry per session that holds it, and no
      key without one. */
  ghost predicate Matches(m: map<Key, seq<Addr>>, held: Sessions) {
    && (forall k, a :: multiset(Entries(m, k))[a] == |Holding(held, k, a)|)
    && (forall k :: k in m ==> m[k] != [])
  }

  lemma HoldingAdd(held: Sessions, s: Session, k: Key, a: Addr, j: Key, b: Addr)
    requires s !in held
    ensures |Holding(held[s := (k, a)], j, b)| == |Holding(held, j, b)| + if j == k && b == a then 1 else 0
  {
    assert Holding(held[s := (k, a)], j, b) == Holding(held, j, b) + if j == k && b == a then {s} else {};
  }

  lemma HoldingRemove(held: Sessions, s: Session, j: Key, b: Addr)
    requires s in held
    ensures |Holding(held - {s}, j, b)| == |Holding(held, j, b)| - if held[s] == (j, b) then 1 else 0
  {
    assert Holding(held - {s}, j, b) == Holding(held, j, b) - {s};
    assert held[s] == (j, b) <==> s in Holding(held, j, b);
  }

  lemma AddMatches(m: map<Key, seq<Addr>>, held: Sessions, s: Session, k: Key, a: Addr)
    requires Matches(m, held) && s !in held
    ensures Matches(Add(m, k, a), held[s := (k, a)])
  {
    hide Holding;
    forall j, b ensures multiset(Entries(Add(m, k, a), j))[b] == |Holding(held[s := (k, a)], j, b)| {
      HoldingAdd(held, s, k, a, j, b);
    }
  }

  lemma RemoveMatches(m: map<Key, seq<Addr>>, held: Sessions, s: Session)
    requires Matches(m, held) && s in held
    ensures Matches(Remove(m, held[s].0, held[s].1), held - {s})
  {
    var k, a := held[s].0, held[s].1;
    WithoutCounts(Entries(m, k), a);
    hide Holding; hide Without;
    HoldingRemove(held, s, k, a);
    var m' := Remove(m, k, a);
    RemoveEntries(m, k, a);
    hide Remove; hide Entries;
    forall j, b ensures multiset(Entries(m', j))[b] == |Holding(held - {s}, j, b)| {
      HoldingRemove(held, s, j, b);
      assert multiset(Entries(m, j))[b] == |Holding(held, j, b)|;
    }
  }

  lemma RemoveEntries(m: map<Key, seq<Addr>>, k: Key, a: Addr)
    requires forall j :: j in m ==> m[j] != []
    ensures forall j :: Entries(Remove(m, k, a), j) == if j == k then Without(Entries(m, k), a) else Entries(m, j)
    ensures forall j :: j in Remove(m, k, a) ==> Remove(m, k, a)[j] != []
  {
    hide Without;
  }

  lemma FirstCounts(s: seq<Addr>)
    ensures s != [] ==> multiset(s)[s[0]] > 0
  {
    assert s != [] ==> s[0] in multiset(s);
  }

  /** The number of entries under a key is the number of sessions that hold it. */
  lemma {:induction false} EntriesCount(m: map<Key, seq<Addr>>, held: Sessions, k: Key)
    requires Matches(m, held)
    ensures |Entries(m, k)| == |Holders(held, k)|
    decreases |held|
  {
    if s :| s in held && held[s].0 == k {
      RemoveMatches(m, held, s);
      EntriesCount(Remove(m, k, held[s].1), held - {s}, k);
      assert Holders(held, k) == Holders(held - {s}, k) + {s};
      WithoutCounts(Entries(m, k), held[s].1);
      assert s in Holding(held, k, held[s].1);
      CountIsLength(Entries(m, k), Without(Entries(m, k), held[s].1), held[s].1);
    } else {
      assert Holders(held, k) == {};
      assert forall a :: Holding(held, k, a) == {};
      FirstCounts(Entries(m, k));
    }
  }

  lemma CountIsLength(s: seq<Addr>, t: seq<Addr>, a: Addr)
    requires multiset(t) == multiset(s) - multiset{a} && a in multiset(s)
    ensures |s| == |t| + 1
  {
    assert |multiset(t)| == |multiset(s)| - 1;
    assert |multiset(s)| == |s| && |multiset(t)| == |t|;
  }

  /** lookup's answer: an address exactly when one session holds the key, and
      then that session's. */
  lemma LookupExact(m: map<Key, seq<Addr>>, held: Sessions, k: Key)
    requires Matches(m, held)
    ensures |Entries(m, k)| == 1 <==> |Holders(held, k)| == 1
    ensures |Entries(m, k)| == 1 ==> forall s :: s in Holders(held, k) ==> held[s].1 == Entries(m, k)[0]
  {
    EntriesCount(m, held, k);
    forall s | s in Holders(held, k) && |Entries(m, k)| == 1 ensures held[s].1 == Entries(m, k)[0] {
      assert s in Holding(held, k, held[s].1);
      assert held[s].1 in multiset(Entries(m, k));
    }
  }

  /** Once no session holds anything the map is empty. */
  lemma AllEndedEmpty(m: map<Key, seq<Addr>>, held: Sessions)
    requires Matches(m, held) && held == map[]
    ensures m == map[]
  {
    assert forall k :: Holders(held, k) == {};
    if k :| k in m {
      EntriesCount(m, held, k);
    }
  }

  // ------------------------------------------------------------------ interleavings

  /** The lock sections sessions go through: one that holds no key adds one, one
      that holds a key removes it.  A change of key is a removal and an addition
      with anything in between. */
  datatype Section = Adds(s: Session, k: Key, a: Addr) | Removes(s: Session)

  datatype Proxy = Proxy(m: map<Key, seq<Addr>>, held: Sessions)

  function After(p: Proxy, x: Section): Proxy {
    match x
    case Adds(s, k, a) => if s in p.held then p else Proxy(Add(p.m, k, a), p.held[s := (k, a)])
    case Removes(s) => if s !in p.held then p else Proxy(Remove(p.m, p.held[s].0, p.held[s].1), p.held - {s})
  }

  function AfterAll(xs: seq<Section>): Proxy {
    if xs == [] then Proxy(map[], map[]) else After(AfterAll(xs[..|xs| - 1]), xs[|xs| - 1])
  }

  /** After any interleaving of any sessions' sections, a key resolves exactly
      when one session holds it, to that session's backend, and when no session
      is left the map is empty. */
  lemma {:induction false} AnyInterleaving(xs: seq<Section>)
    ensures var p := AfterAll(xs);
      && Matches(p.m, p.held)
      && (forall k :: |Entries(p.m, k)| == 1 <==> |Holders(p.held, k)| == 1)
      && (forall k, s :: |Entries(p.m, k)| == 1 && s in Holders(p.held, k) ==> p.held[s].1 == Entries(p.m, k)[0])
      && (p.held == map[] ==> p.m == map[])
  {
    var p := AfterAll(xs);
    if xs == [] {
      assert forall k, a :: Holding(p.held, k, a) == {};
    } else {
      AnyInterleaving(xs[..|xs| - 1]);
      var q, x := AfterAll(xs[..|xs| - 1]), xs[|xs| - 1];
      if x.Adds? && x.s !in q.held {
        AddMatches(q.m, q.held, x.s, x.k, x.a);
      } else if x.Removes? && x.s in q.held {
        RemoveMatches(q.m, q.held, x.s);
      }
    }
    hide Matches; hide Holders; hide Entries; hide AfterAll;
    forall k ensures |Entries(p.m, k)| == 1 <==> |Holders(p.held, k)| == 1
             ensures |Entries(p.m, k)| == 1 ==> forall s :: s in Holders(p.held, k) ==>
                 p.held[s].1 == Entries(p.m, k)[0]
    {
      LookupExact(p.m, p.held, k);
    }
    if p.held == map[] {
      AllEndedEmpty(p.m, p.held);
    }
  }

  /** cancelMap and the sessions that use it.  held is what each session has
      registered at this moment: a session that registers a new key has none
      between its two lock sections. */
  class Cancels {
    var m: map<Key, seq<Addr>>
    ghost var held: Sessions

    ghost predicate Valid()
      reads this
    {
      Matches(m, held)
    }

    constructor ()
      ensures Valid() && m == map[] && held == map[]
    {
      m, held := map[], map[];
    }

    method AddKey(k: Key, a: Addr, ghost s: Session)
      requires Valid() && s !in held
      modifies this
      ensures Valid() && held == old(held)[s := (k, a)]
    {
      AddMatches(m, held, s, k, a);
      m := m[k := Entries(m, k) + [a]];
      held := held[s := (k, a)];
    }

    method RemoveKey(k: Key, a: Addr, ghost s: Session)
      requires Valid() && s in held && held[s] == (k, a)
      modifies this
      ensures Valid() && held == old(held) - {s}
    {
      RemoveMatches(m, held, s);
      held := held - {s};
      var addrs := Entries(m, k);
      ghost var all := addrs;
      var i := 0;
      while i < |addrs|
        invariant 0 <= i <= |all| && addrs == all && a !in all[..i]
      {
        if addrs[i] == a {
          WithoutAt(all, a, i);
          addrs := addrs[..i] + addrs[i + 1..];
          break;
        }
        i := i + 1;
      }
      if i == |all| {
        assert all[..i] == all;
        WithoutNone(all, a);
      }
      if |addrs| == 0 {
        m := m - {k};
      } else {
        m := m[k := addrs];
      }
    }

    method Lookup(k: Key) returns (addr: Option<Addr>)
      requires Valid()
      ensures addr.Some? <==> |Holders(held, k)| == 1
      ensures addr.Some? ==> forall s :: s in Holders(held, k) ==> held[s].1 == addr.value
    {
      LookupExact(m, held, k);
      if |Entries(m, k)| == 1 {
        return Some(Entries(m, k)[0]);
      }
      return None;
    }

    /** registerCancelKey, for a session whose current key is given. */
    method Register(current: Option<Key>, k: Key, a: Addr, ghost s: Session)
      requires Valid() && if current.Some? then s in held && held[s] == (current.value, a) else s !in held
      modifies this
      ensures Valid() && held == old(held)[s := (k, a)]
    {
      if current.Some? {
        RemoveKey(current.value, a, s);
      }
      AddKey(k, a, s);
      assert (old(held) - {s})[s := (k, a)] == old(held)[s := (k, a)];
    }

    /** The end of a session. */
    method End(current: Option<Key>, a: Addr, ghost s: Session)
      requires Valid() && if current.Some? then s in held && held[s] == (current.value, a) else s !in held
      modifies this
      ensures Valid() && held == old(held) - {s}
      ensures held == map[] ==> m == map[]
    {
      if current.Some? {
        RemoveKey(current.value, a, s);
      }
      if held == map[] {
        AllEndedEmpty(m, held);
      }
      assert current.None? ==> old(held) - {s} == old(held);
    }
  }
}
