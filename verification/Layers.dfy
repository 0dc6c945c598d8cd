/** Frozen layers and the chains they form: resolving a branch's chain, the
    recursive reference count, and the topmost-first collection a destroyed
    branch leaves behind. */
module Layers {
  import opened Wrappers

  type Lid = nat
  type Bid = nat

  /** A frozen volume and the layer below it (None = the source volume). */
  datatype Layer<V> = Layer(vol: V, parent: Option<Lid>)

  type Table<V> = map<Lid, Layer<V>>

  /** Parents exist and come strictly earlier: what inserting layers only onto
      existing ones, and the parent_layer_id foreign key, maintain. */
  ghost predicate Ranked<V>(t: Table<V>, rank: map<Lid, nat>) {
    && t.Keys <= rank.Keys
    && forall l :: l in t && t[l].parent.Some? ==> t[l].parent.value in t && rank[t[l].parent.value] < rank[l]
  }

  /** A base the table can resolve. */
  predicate Resolves<V>(t: Table<V>, base: Option<Lid>) {
    base.None? || base.value in t
  }

  /** The layers met by following parents from base, topmost first.  Defined
      on every table: a layer is never visited twice. */
  ghost function Walk<V>(t: Table<V>, base: Option<Lid>): (chain: seq<Lid>)
    ensures forall i :: 0 <= i < |chain| ==> chain[i] in t
    decreases |t|
  {
    if base.None? || base.value !in t then []
    else [base.value] + Walk(t - {base.value}, t[base.value].parent)
  }

  /** Removing layers ranked above l leaves l's walk alone. */
  lemma {:induction false} WalkBelow<V>(t: Table<V>, rank: map<Lid, nat>, l: Lid, gone: set<Lid>)
    requires Ranked(t, rank) && l in t
    requires forall g :: g in gone ==> g in rank && rank[l] < rank[g]
    ensures Walk(t - gone, Some(l)) == Walk(t, Some(l))
    decreases rank[l]
  {
    if t[l].parent.Some? {
      var p := t[l].parent.value;
      WalkBelow(t, rank, p, gone + {l});
      WalkBelow(t, rank, p, {l});
      assert (t - gone) - {l} == t - (gone + {l});
    }
  }

  /** On a ranked table the walk simply continues from the parent. */
  lemma WalkStep<V>(t: Table<V>, rank: map<Lid, nat>, l: Lid)
    requires Ranked(t, rank) && l in t
    ensures Walk(t, Some(l)) == [l] + Walk(t, t[l].parent)
  {
    if t[l].parent.Some? {
      WalkBelow(t, rank, t[l].parent.value, {l});
    }
  }

  /** A walk starts at its base and is empty only without one. */
  lemma WalkTop<V>(t: Table<V>, base: Option<Lid>)
    requires Resolves(t, base)
    ensures base.None? <==> Walk(t, base) == []
    ensures base.Some? ==> Walk(t, base)[0] == base.value
  {
  }

  /** The walk below a layer, once that layer is gone. */
  lemma WalkPast<V>(t: Table<V>, rank: map<Lid, nat>, l: Lid)
    requires Ranked(t, rank) && l in t
    ensures Resolves(t - {l}, t[l].parent) && Walk(t - {l}, t[l].parent) == Walk(t, Some(l))[1..]
  {
  }

  /** Ranks fall along a walk, so no layer occurs twice, and from any layer on
      it the walk is that layer's own. */
  lemma {:induction false} WalkSuffix<V>(t: Table<V>, rank: map<Lid, nat>, base: Option<Lid>, i: nat)
    requires Ranked(t, rank) && Resolves(t, base) && i < |Walk(t, base)|
    ensures Walk(t, Some(Walk(t, base)[i])) == Walk(t, base)[i..]
    ensures base.Some? && rank[Walk(t, base)[i]] + i <= rank[base.value]
    decreases i
  {
    WalkStep(t, rank, base.value);
    if i > 0 {
      WalkSuffix(t, rank, t[base.value].parent, i - 1);
    }
  }

  /** A new topmost layer changes no existing walk. */
  lemma WalkInsert<V>(t: Table<V>, rank: map<Lid, nat>, base: Option<Lid>, l: Lid, layer: Layer<V>, r: nat)
    requires Ranked(t, rank) && Resolves(t, base) && l !in t && Resolves(t, layer.parent)
    requires forall g :: g in t ==> rank[g] < r
    ensures Ranked(t[l := layer], rank[l := r])
    ensures Walk(t[l := layer], base) == Walk(t, base)
    ensures Walk(t[l := layer], Some(l)) == [l] + Walk(t, layer.parent)
  {
    var t', rank' := t[l := layer], rank[l := r];
    assert t' - {l} == t;
    if base.Some? {
      WalkBelow(t', rank', base.value, {l});
    }
    if layer.parent.Some? {
      WalkBelow(t', rank', layer.parent.value, {l});
    }
  }

  /** Deleting a layer off the walk changes nothing. */
  lemma {:induction false} WalkDelete<V>(t: Table<V>, rank: map<Lid, nat>, base: Option<Lid>, l: Lid)
    requires Ranked(t, rank) && Resolves(t, base) && l in t && l !in Walk(t, base)
    requires Ranked(t - {l}, rank)
    ensures Resolves(t - {l}, base) && Walk(t - {l}, base) == Walk(t, base)
    decreases if base.Some? then rank[base.value] + 1 else 0
  {
    if base.Some? {
      var b := base.value;
      WalkStep(t, rank, b);
      assert b in Walk(t, base);
      WalkDelete(t, rank, t[b].parent, l);
      WalkStep(t - {l}, rank, b);
    }
  }

  // ------------------------------------------------------------- resolving a chain

  /** LayerChain: follows parents from a branch's base, topmost first.  None is
      the lookup error of a base the table does not have. */
  method LayerChain<V>(t: Table<V>, base: Option<Lid>, ghost rank: map<Lid, nat>) returns (out: Option<seq<Lid>>)
    requires Ranked(t, rank)
    ensures out == if Resolves(t, base) then Some(Walk(t, base)) else None
  {
    var chain, id := [], base;
    while id.Some?
      invariant Resolves(t, base) ==> Resolves(t, id)
      invariant !Resolves(t, base) ==> id == base && chain == []
      invariant Resolves(t, base) ==> Walk(t, base) == chain + Walk(t, id)
      decreases if id.None? then 0 else if id.value in t then rank[id.value] + 1 else 0, id.Some?
    {
      if id.value !in t {
        assert !Resolves(t, base);
        return None;
      }
      WalkStep(t, rank, id.value);
      chain, id := chain + [id.value], t[id.value].parent;
    }
    assert chain + [] == chain;
    return Some(chain);
  }

  // -------------------------------------------------------------- reference counts

  /** The branches that reference a layer: those based on it, and those whose
      chain contains it. */
  ghost function Referrers<V>(t: Table<V>, bases: map<Bid, Option<Lid>>, l: Lid): set<Bid> {
    set b | b in bases && (bases[b] == Some(l) || l in Walk(t, bases[b]))
  }

  /** The rows the recursive refs query has derived are sound: each pairs a
      branch with a layer on its walk. */
  ghost predicate RefsSound<V>(t: Table<V>, bases: map<Bid, Option<Lid>>, refs: set<(Bid, Lid)>) {
    forall r :: r in refs ==> r.0 in bases && (bases[r.0] == Some(r.1) || r.1 in Walk(t, bases[r.0]))
  }

  /** Closed under the query's recursive arm. */
  ghost predicate RefsClosed<V>(t: Table<V>, refs: set<(Bid, Lid)>, done: set<(Bid, Lid)>) {
    forall r :: r in done && r.1 in t && t[r.1].parent.Some? ==> (r.0, t[r.1].parent.value) in refs
  }

  lemma {:induction false} RefsComplete<V>(t: Table<V>, rank: map<Lid, nat>, b: Bid, base: Option<Lid>,
                                           refs: set<(Bid, Lid)>, i: nat)
    requires Ranked(t, rank) && RefsClosed(t, refs, refs)
    requires base.Some? ==> (b, base.value) in refs
    requires i < |Walk(t, base)|
    ensures (b, Walk(t, base)[i]) in refs
    decreases i
  {
    WalkStep(t, rank, base.value);
    if i > 0 {
      var r := (b, base.value);
      assert r in refs;
      RefsComplete(t, rank, b, t[base.value].parent, refs, i - 1);
    }
  }

  lemma RefsParent<V>(t: Table<V>, rank: map<Lid, nat>, base: Option<Lid>, l: Lid)
    requires Ranked(t, rank) && l in t && t[l].parent.Some? && (base == Some(l) || l in Walk(t, base))
    ensures t[l].parent.value in Walk(t, base)
  {
    if base == Some(l) {
      WalkStep(t, rank, l);
    }
    var i :| 0 <= i < |Walk(t, base)| && Walk(t, base)[i] == l;
    WalkSuffix(t, rank, base, i);
    WalkStep(t, rank, l);
    WalkStep(t, rank, t[l].parent.value);
    assert Walk(t, base)[i..][1] == t[l].parent.value;
  }

  /** The recursive refs query: starts from every live branch's base, adds
      parents until nothing new appears, and counts the branches paired with
      the layer. */
  method CountReferences<V>(t: Table<V>, bases: map<Bid, Option<Lid>>, l: Lid, ghost rank: map<Lid, nat>)
    returns (n: nat)
    requires Ranked(t, rank)
    ensures n == |Referrers(t, bases, l)|
  {
    var todo := set b | b in bases && bases[b].Some? :: (b, bases[b].value);
    var refs := todo;
    ghost var all := refs + set b, m | b in bases && m in t :: (b, m);
    while todo != {}
      invariant todo <= refs <= all && RefsSound(t, bases, refs)
      invariant forall b :: b in bases && bases[b].Some? ==> (b, bases[b].value) in refs
      invariant RefsClosed(t, refs, refs - todo)
      decreases all - refs, todo
    {
      var r :| r in todo;
      todo := todo - {r};
      if r.1 in t && t[r.1].parent.Some? {
        RefsParent(t, rank, bases[r.0], r.1);
        var next := (r.0, t[r.1].parent.value);
        if next !in refs {
          refs, todo := refs + {next}, todo + {next};
        }
      }
    }
    var found := set r | r in refs && r.1 == l :: r.0;
    forall b | b in bases && (bases[b] == Some(l) || l in Walk(t, bases[b])) ensures b in found {
      if l in Walk(t, bases[b]) {
        var i :| 0 <= i < |Walk(t, bases[b])| && Walk(t, bases[b])[i] == l;
        RefsComplete(t, rank, b, bases[b], refs, i);
      }
      assert (b, l) in refs && (b, l).0 == b;
    }
    assert found == Referrers(t, bases, l);
    n := |found|;
  }

  // --------------------------------------------------------------- the cascade

  /** Every layer is in some live branch's chain: nothing to collect. */
  ghost predicate AllReferenced<V>(t: Table<V>, bases: map<Bid, Option<Lid>>) {
    forall l :: l in t ==> Referrers(t, bases, l) != {}
  }

  ghost predicate AllResolve<V>(t: Table<V>, bases: map<Bid, Option<Lid>>) {
    forall b :: b in bases ==> Resolves(t, bases[b])
  }

  ghost predicate SameChains<V>(t: Table<V>, t': Table<V>, bases: map<Bid, Option<Lid>>) {
    forall b :: b in bases ==> Walk(t', bases[b]) == Walk(t, bases[b])
  }

  /** Whether the parent_layer_id foreign key lets a layer row go. */
  predicate NoChild<V>(t: Table<V>, l: Lid) {
    forall c :: c in t ==> t[c].parent != Some(l)
  }

  /** What is left to visit of a destroyed branch's chain, when everything else
      is referenced. */
  ghost predicate OthersReferenced<V>(t: Table<V>, bases: map<Bid, Option<Lid>>, rest: seq<Lid>) {
    forall l :: l in t && l !in rest ==> Referrers(t, bases, l) != {}
  }

  /** Referring to a layer is referring to everything below it. */
  lemma ReferredBelow<V>(t: Table<V>, rank: map<Lid, nat>, bases: map<Bid, Option<Lid>>, l: Lid, i: nat)
    requires Ranked(t, rank) && l in t && i < |Walk(t, Some(l))|
    ensures Referrers(t, bases, l) <= Referrers(t, bases, Walk(t, Some(l))[i])
  {
    forall b | b in Referrers(t, bases, l) ensures b in Referrers(t, bases, Walk(t, Some(l))[i]) {
      if bases[b] != Some(l) {
        var w := Walk(t, bases[b]);
        var k :| 0 <= k < |w| && w[k] == l;
        WalkSuffix(t, rank, bases[b], k);
        assert w[k + i] == w[k..][i];
      }
    }
  }

  /** With everything off the rest of the chain referenced, the chain's top
      has no child layer once nobody refers to it. */
  lemma TopHasNoChild<V>(t: Table<V>, rank: map<Lid, nat>, bases: map<Bid, Option<Lid>>, l: Lid)
    requires Ranked(t, rank) && l in t && Referrers(t, bases, l) == {}
    requires OthersReferenced(t, bases, Walk(t, Some(l)))
    ensures NoChild(t, l)
  {
    forall c | c in t ensures t[c].parent != Some(l) {
      if t[c].parent == Some(l) {
        var w := Walk(t, Some(l));
        if c in w {
          var i :| 0 <= i < |w| && w[i] == c;
          WalkSuffix(t, rank, Some(l), i);
        }
        WalkStep(t, rank, c);
        WalkStep(t, rank, l);
        ReferredBelow(t, rank, bases, c, 1);
      }
    }
  }

  /** Deleting a childless layer nobody refers to keeps every chain. */
  lemma DropUnreferenced<V>(t: Table<V>, rank: map<Lid, nat>, bases: map<Bid, Option<Lid>>, l: Lid)
    requires Ranked(t, rank) && AllResolve(t, bases) && l in t
    requires Referrers(t, bases, l) == {} && NoChild(t, l)
    ensures Ranked(t - {l}, rank) && AllResolve(t - {l}, bases) && SameChains(t, t - {l}, bases)
    ensures forall m :: m in t && m != l ==> Referrers(t - {l}, bases, m) == Referrers(t, bases, m)
    ensures Walk(t - {l}, t[l].parent) == Walk(t, t[l].parent)
  {
    assert Ranked(t - {l}, rank);
    forall b | b in bases ensures Resolves(t - {l}, bases[b]) && Walk(t - {l}, bases[b]) == Walk(t, bases[b]) {
      assert b !in Referrers(t, bases, l);
      WalkDelete(t, rank, bases[b], l);
    }
    if t[l].parent.Some? {
      WalkBelow(t, rank, t[l].parent.value, {l});
    }
  }

  /** What a cascade may have done so far: rows went, none a live branch
      refers to, and with them only the volumes of such rows. */
  ghost predicate Collected<V>(t0: Table<V>, t: Table<V>, bases: map<Bid, Option<Lid>>, v0: set<V>, v: set<V>) {
    && t.Keys <= t0.Keys
    && (forall l :: l in t ==> t[l] == t0[l] && Referrers(t, bases, l) == Referrers(t0, bases, l))
    && (forall l :: l in t0 && l !in t ==> Referrers(t0, bases, l) == {})
    && (forall w :: w in v0 - v ==> Unreferenced(t0, bases, w))
    && SameChains(t0, t, bases)
  }

  /** The volume of a layer no live branch refers to. */
  ghost predicate Unreferenced<V>(t: Table<V>, bases: map<Bid, Option<Lid>>, v: V) {
    exists l :: l in t && t[l].vol == v && Referrers(t, bases, l) == {}
  }

  /** One more volume gone. */
  lemma CollectVolume<V>(t0: Table<V>, t: Table<V>, bases: map<Bid, Option<Lid>>, v0: set<V>, v: set<V>, l: Lid)
    requires Collected(t0, t, bases, v0, v) && l in t && Referrers(t, bases, l) == {}
    ensures Collected(t0, t, bases, v0, v - {t[l].vol})
  {
    assert Unreferenced(t0, bases, t[l].vol);
  }

  /** One more row gone. */
  lemma CollectRow<V>(t0: Table<V>, t: Table<V>, rank: map<Lid, nat>, bases: map<Bid, Option<Lid>>, v0: set<V>,
                      v: set<V>, l: Lid)
    requires Collected(t0, t, bases, v0, v) && Ranked(t, rank) && AllResolve(t, bases)
    requires l in t && Referrers(t, bases, l) == {} && NoChild(t, l)
    ensures Collected(t0, t - {l}, bases, v0, v) && Ranked(t - {l}, rank) && AllResolve(t - {l}, bases)
  {
    hide Walk;
    hide Referrers;
    DropUnreferenced(t, rank, bases, l);
  }

  lemma CollectedNothing<V>(t: Table<V>, bases: map<Bid, Option<Lid>>, v: set<V>)
    ensures Collected(t, t, bases, v, v)
  {
  }

  /** When a branch goes, only the layers of its own chain can lose their last
      reference. */
  lemma StillReferenced<V>(t: Table<V>, bases: map<Bid, Option<Lid>>, b: Bid)
    requires b in bases && Resolves(t, bases[b]) && AllReferenced(t, bases)
    ensures OthersReferenced(t, bases - {b}, Walk(t, bases[b]))
  {
    WalkTop(t, bases[b]);
    forall l | l in t && l !in Walk(t, bases[b]) ensures Referrers(t, bases - {b}, l) != {} {
      var c :| c in Referrers(t, bases, l);
      assert c in Referrers(t, bases - {b}, l);
    }
  }

  /** With everything off the rest of the chain referenced, its top either
      keeps the whole chain referenced or can go, and leaves the same
      situation below. */
  lemma CascadeStep<V>(t: Table<V>, rank: map<Lid, nat>, bases: map<Bid, Option<Lid>>, l: Lid)
    requires Ranked(t, rank) && AllResolve(t, bases) && l in t
    requires OthersReferenced(t, bases, Walk(t, Some(l)))
    ensures Referrers(t, bases, l) != {} ==> AllReferenced(t, bases)
    ensures Referrers(t, bases, l) == {} ==>
        NoChild(t, l) && OthersReferenced(t - {l}, bases, Walk(t - {l}, t[l].parent))
  {
    hide Walk;
    hide Referrers;
    if Referrers(t, bases, l) != {} {
      forall m | m in Walk(t, Some(l)) ensures Referrers(t, bases, m) != {} {
        var i :| 0 <= i < |Walk(t, Some(l))| && Walk(t, Some(l))[i] == m;
        ReferredBelow(t, rank, bases, l, i);
      }
    } else {
      TopHasNoChild(t, rank, bases, l);
      DropUnreferenced(t, rank, bases, l);
      WalkStep(t, rank, l);
    }
  }

  /** The rows and volumes a destroy's cascade works on. */
  class LayerStore<V(==)> {
    var layers: Table<V>
    var bases: map<Bid, Option<Lid>>
    var volumes: set<V>

    constructor (layers: Table<V>, bases: map<Bid, Option<Lid>>, volumes: set<V>)
      ensures this.layers == layers && this.bases == bases && this.volumes == volumes
    {
      this.layers, this.bases, this.volumes := layers, bases, volumes;
    }

    /** DeleteLayer: refused for a row that is gone and by the foreign key. */
    method DeleteLayer(l: Lid) returns (deleted: bool)
      modifies this`layers
      ensures deleted == (l in old(layers) && NoChild(old(layers), l))
      ensures layers == if deleted then old(layers) - {l} else old(layers)
    {
      deleted := l in layers && NoChild(layers, l);
      if deleted {
        layers := layers - {l};
      }
    }

    /** One round of gcLayers. */
    method GcLayer(l: Lid, removed: bool, ghost t0: Table<V>, ghost v0: set<V>, ghost rank: map<Lid, nat>)
      returns (gone: bool, blocked: bool)
      requires Ranked(layers, rank) && AllResolve(layers, bases) && Collected(t0, layers, bases, v0, volumes)
      requires l in layers
      modifies this`layers, this`volumes
      ensures Ranked(layers, rank) && AllResolve(layers, bases) && Collected(t0, layers, bases, v0, volumes)
      ensures gone == (Referrers(old(layers), bases, l) == {} && removed && NoChild(old(layers), l))
      ensures blocked == (Referrers(old(layers), bases, l) == {} && removed && !NoChild(old(layers), l))
      ensures layers == if gone then old(layers) - {l} else old(layers)
      ensures volumes == if gone || blocked then old(volumes) - {old(layers)[l].vol} else old(volumes)
    {
      hide Walk;
      hide Referrers;
      hide Collected;
      gone, blocked := false, false;
      var n := CountReferences(layers, bases, l, rank);
      if n > 0 || !removed {
        return;
      }
      CollectVolume(t0, layers, bases, v0, volumes, l);
      volumes := volumes - {layers[l].vol};
      if NoChild(layers, l) {
        CollectRow(t0, layers, rank, bases, v0, volumes, l);
      }
      gone := DeleteLayer(l);
      blocked := !gone;
    }

    /** gcLayers: from the topmost layer down, removes the volume and the row
        of every layer no live branch refers to, and stops at the first one
        that is referenced or will not go.  removed[i] is the driver's answer
        to the i-th removal; blocked says a row was refused. */
    method GcLayers(chain: seq<Lid>, removed: seq<bool>, ghost base: Option<Lid>, ghost rank: map<Lid, nat>)
      returns (blocked: bool)
      requires Ranked(layers, rank) && AllResolve(layers, bases) && |removed| == |chain|
      requires Resolves(layers, base) && chain == Walk(layers, base)
      modifies this`layers, this`volumes
      ensures Ranked(layers, rank) && AllResolve(layers, bases)
      ensures Collected(old(layers), layers, bases, old(volumes), volumes)
      ensures OthersReferenced(old(layers), bases, chain) ==> !blocked
      ensures OthersReferenced(old(layers), bases, chain) && (forall i :: 0 <= i < |removed| ==> removed[i]) ==>
        AllReferenced(layers, bases)
    {
      hide Walk;
      hide Referrers;
      hide Collected;
      ghost var t0, v0, here := layers, volumes, base;
      assert Collected(t0, layers, bases, v0, volumes) by {
        CollectedNothing(t0, bases, v0);
      }
      blocked := false;
      var i := 0;
      WalkTop(layers, here);
      while i < |chain|
        invariant i <= |chain| && !blocked && Ranked(layers, rank) && AllResolve(layers, bases)
        invariant Collected(t0, layers, bases, v0, volumes)
        invariant Resolves(layers, here) && Walk(layers, here) == chain[i..]
        invariant i < |chain| ==> here == Some(chain[i])
        invariant OthersReferenced(t0, bases, chain) ==> OthersReferenced(layers, bases, chain[i..])
      {
        var l := chain[i];
        ghost var t := layers;
        if OthersReferenced(t0, bases, chain) {
          CascadeStep(t, rank, bases, l);
        }
        var gone, refused := GcLayer(l, removed[i], t0, v0, rank);
        if !gone {
          blocked := refused;
          return;
        }
        here := t[l].parent;
        WalkPast(t, rank, l);
        WalkTop(layers, here);
        assert chain[i..][1..] == chain[i + 1..];
        i := i + 1;
      }
    }

    /** DestroyBranch's last part: the tombstone, then the cascade over the
        chain the branch had.  With a driver that does not fail a store whose
        every layer is in use stays one, and no live chain changes. */
    method DestroyLast(b: Bid, removed: seq<bool>, ghost rank: map<Lid, nat>) returns (found: bool, blocked: bool)
      requires b in bases && Ranked(layers, rank) && AllResolve(layers, bases)
      requires |removed| == |Walk(layers, bases[b])|
      modifies this
      ensures found && bases == old(bases) - {b}
      ensures Ranked(layers, rank) && AllResolve(layers, bases)
      ensures Collected(old(layers), layers, bases, old(volumes), volumes)
      ensures old(AllReferenced(layers, bases)) ==> !blocked
      ensures old(AllReferenced(layers, bases)) && (forall i :: 0 <= i < |removed| ==> removed[i]) ==>
          AllReferenced(layers, bases)
    {
      var base := bases[b];
      var chain := LayerChain(layers, base, rank);
      found := chain.Some?;
      if AllReferenced(layers, bases) {
        StillReferenced(layers, bases, b);
      }
      bases := bases - {b};
      blocked := GcLayers(chain.value, removed, base, rank);
    }
  }
}
