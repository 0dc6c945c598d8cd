/** Overlay stacks: what a branch sees through its writable volume, its frozen
    layers and the source, and how the stack is laid out for its container. */
module Overlay {
  import opened Wrappers
  import opened Decimal

  type Path = string
  type Data = string

  /** What a volume says about a path.  A whiteout hides the path in every
      layer below. */
  datatype Entry = File(data: Data) | Whiteout

  type Content = map<Path, Entry>

  /** The merged view of a stack, topmost first: the first layer that mentions
      the path decides. */
  function Lookup(stack: seq<Content>, p: Path): (r: Option<Data>)
    ensures r.Some? ==> exists i :: 0 <= i < |stack| && p in stack[i] && stack[i][p] == File(r.value)
  {
    if stack == [] then None
    else if p in stack[0] then (if stack[0][p].File? then Some(stack[0][p].data) else None)
    else Lookup(stack[1..], p)
  }

  ghost predicate SameView(a: seq<Content>, b: seq<Content>) {
    forall p :: Lookup(a, p) == Lookup(b, p)
  }

  /** Mounting a fresh, empty writable volume changes nothing that is seen. */
  lemma EmptyOnTop(stack: seq<Content>)
    ensures SameView([map[]] + stack, stack)
  {
    assert ([map[]] + stack)[1..] == stack;
  }

  /** What a volume on top adds is exactly its own entries. */
  lemma OnTop(top: Content, stack: seq<Content>, p: Path)
    ensures p !in top ==> Lookup([top] + stack, p) == Lookup(stack, p)
    ensures p in top ==> Lookup([top] + stack, p) == (if top[p].File? then Some(top[p].data) else None)
  {
    assert ([top] + stack)[1..] == stack;
  }

  /** A write or delete through the merged mount lands in the top volume. */
  function Written(top: Content, p: Path, d: Option<Data>): Content {
    top[p := if d.Some? then File(d.value) else Whiteout]
  }

  /** It is seen at that path and nowhere else, whatever lies below. */
  lemma WriteSeen(top: Content, stack: seq<Content>, p: Path, d: Option<Data>, q: Path)
    ensures Lookup([Written(top, p, d)] + stack, q) == if q == p then d else Lookup([top] + stack, q)
  {
    OnTop(Written(top, p, d), stack, q);
    OnTop(top, stack, q);
  }

  // ------------------------------------------------------------------- the layout

  const RW_PATH := "/pgoverlay/rw"

  datatype Plan = Plan(source: string, rw: string, layers: seq<string>, lowers: seq<string>)

  datatype VolumeMount = VolumeMount(volume: string, target: string, readOnly: bool)

  function LowerMountTarget(i: nat): string {
    "/pgoverlay/lower" + Dec(i)
  }

  /** PlanBranch: overlay order is newest layer first, source last. */
  method PlanBranch(rw: string, source: string, layers: seq<string>) returns (plan: Plan)
    ensures plan.source == source && plan.rw == rw && plan.layers == layers && |plan.lowers| == |layers| + 1
    ensures forall i :: 0 <= i < |layers| ==> plan.lowers[i] == LowerMountTarget(i + 1) + "/upper"
    ensures plan.lowers[|layers|] == LowerMountTarget(0) + "/data"
  {
    var lowers: seq<string> := [];
    for i := 0 to |layers|
      invariant |lowers| == i && forall k :: 0 <= k < i ==> lowers[k] == LowerMountTarget(k + 1) + "/upper"
    {
      lowers := lowers + [LowerMountTarget(i + 1) + "/upper"];
    }
    lowers := lowers + [LowerMountTarget(0) + "/data"];
    return Plan(source, rw, layers, lowers);
  }

  /** startOverlayBranch's mounts: source, layers newest first, writable. */
  method OverlayMounts(plan: Plan) returns (mounts: seq<VolumeMount>)
    ensures |mounts| == |plan.layers| + 2
    ensures mounts[0] == VolumeMount(plan.source, LowerMountTarget(0), true)
    ensures forall k :: 1 <= k <= |plan.layers| ==>
        mounts[k] == VolumeMount(plan.layers[k - 1], LowerMountTarget(k), true)
    ensures mounts[|plan.layers| + 1] == VolumeMount(plan.rw, RW_PATH, false)
  {
    mounts := [VolumeMount(plan.source, LowerMountTarget(0), true)];
    for i := 0 to |plan.layers|
      invariant |mounts| == i + 1 && mounts[0] == VolumeMount(plan.source, LowerMountTarget(0), true)
      invariant forall k :: 1 <= k <= i ==> mounts[k] == VolumeMount(plan.layers[k - 1], LowerMountTarget(k), true)
    {
      mounts := mounts + [VolumeMount(plan.layers[i], LowerMountTarget(i + 1), true)];
    }
    mounts := mounts + [VolumeMount(plan.rw, RW_PATH, false)];
  }

  /** The mount a directory lies in. */
  predicate Serves(m: VolumeMount, dir: string) {
    m.target + "/" <= dir
  }

  lemma CommonPrefix(pre: string, d: string, e: string)
    ensures pre + d <= pre + e <==> d <= e
  {
    if pre + d <= pre + e {
      assert forall i :: 0 <= i < |d| ==> d[i] == (pre + d)[|pre| + i] == (pre + e)[|pre| + i] == e[i];
    }
  }

  /** lower1 is not mistaken for lower10. */
  lemma NumeralPrefix(i: nat, k: nat, sub: string)
    ensures Dec(i) + "/" <= Dec(k) + ("/" + sub) <==> i == k
  {
    hide Dec;
    var d, e := Dec(i) + "/", Dec(k) + ("/" + sub);
    if i == k {
      assert e == d + sub;
    }
    if d <= e {
      var rest := e[|d|..];
      assert e == Dec(i) + ("/" + rest);
      ReadDecOf(i, "/" + rest);
      ReadDecOf(k, "/" + sub);
    }
  }

  /** Target i serves the directories below it and none of target k's. */
  lemma TargetServes(i: nat, k: nat, sub: string)
    ensures LowerMountTarget(i) + "/" <= LowerMountTarget(k) + ("/" + sub) <==> i == k
  {
    hide Dec;
    var pre, d, e := "/pgoverlay/lower", Dec(i) + "/", Dec(k) + ("/" + sub);
    assert LowerMountTarget(i) + "/" == pre + d && LowerMountTarget(k) + ("/" + sub) == pre + e;
    CommonPrefix(pre, d, e);
    NumeralPrefix(i, k, sub);
  }

  /** The writable mount serves no lower directory. */
  lemma WritableServes(k: nat, sub: string)
    ensures !(RW_PATH + "/" <= LowerMountTarget(k) + ("/" + sub))
  {
    hide Dec;
    var pre, d, e := "/pgoverlay/", "rw/", "lower" + (Dec(k) + ("/" + sub));
    assert RW_PATH + "/" == pre + d && LowerMountTarget(k) + ("/" + sub) == pre + e;
    CommonPrefix(pre, d, e);
    assert d[0] != e[0];
  }

  /** Resolved through the container's mounts, the lower directories are the
      frozen layers newest first and then the source, each served by exactly
      one mount and never by the writable one. */
  method LayOut(rw: string, source: string, layers: seq<string>) returns (plan: Plan, mounts: seq<VolumeMount>)
    ensures |plan.lowers| == |layers| + 1 && |mounts| == |layers| + 2
    ensures forall i, k :: 0 <= i < |plan.lowers| && 0 <= k < |mounts| ==>
      (Serves(mounts[k], plan.lowers[i]) <==> k == if i < |layers| then i + 1 else 0)
    ensures forall i :: 0 <= i < |layers| ==> mounts[i + 1].volume == layers[i]
    ensures mounts[0].volume == source && mounts[|layers| + 1].volume == rw
    ensures forall k :: 0 <= k < |mounts| ==> (mounts[k].readOnly <==> k != |layers| + 1)
  {
    hide Dec;
    plan := PlanBranch(rw, source, layers);
    mounts := OverlayMounts(plan);
    forall i, k | 0 <= i < |plan.lowers| && 0 <= k < |mounts|
      ensures Serves(mounts[k], plan.lowers[i]) <==> k == if i < |layers| then i + 1 else 0
    {
      var t, sub := if i < |layers| then i + 1 else 0, if i < |layers| then "upper" else "data";
      assert plan.lowers[i] == LowerMountTarget(t) + ("/" + sub);
      if k <= |layers| {
        TargetServes(k, t, sub);
        assert mounts[k].target == LowerMountTarget(k);
      } else {
        WritableServes(t, sub);
      }
    }
  }
}
