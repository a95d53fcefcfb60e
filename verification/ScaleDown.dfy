/** Scaling a pool down by one idle node at a time, and finalizing a deleted pool. */
module ScaleDown {
  import opened Common
  import opened KubeObjects
  import opened Accounting
  import opened ScaleUp

  /**
   `nodes` is the reconcile's listing of the pool, `candidates` the later one the idle nodes are taken
   from, `now` the reading of the clock in the stabilization check. The claims are listed anew for each
   candidate; `claims` gives the answer by the candidate's name.
   */
  datatype ScaleDownInput = ScaleDownInput(
    nodes: seq<NodeWithPods>,
    candidates: Option<seq<NodeWithPods>>,
    now: int,
    claims: string -> Option<seq<PoolClaim>>,
    deletion: Deletion,
    statusTime: int,
    write: Write)

  // ----- idle nodes

  predicate Evictable(p: Pod) {
    !p.mirror && !p.daemonSet && p.phase != Succeeded && p.phase != Failed && !p.deleting && !p.toleratesUnschedulable
  }

  function EvictablePods(pods: seq<Pod>): seq<Pod> {
    if pods == [] then []
    else
      var p := pods[|pods| - 1];
      EvictablePods(pods[..|pods| - 1]) + (if Evictable(p) then [p] else [])
  }

  method GetEvictablePods(pods: seq<Pod>) returns (out: seq<Pod>)
    ensures out == EvictablePods(pods)
  {
    out := [];
    for i := 0 to |pods|
      invariant out == EvictablePods(pods[..i])
    {
      assert pods[..i + 1][..i] == pods[..i];
      var p := pods[i];
      if p.mirror {
        continue;
      }
      if p.daemonSet {
        continue;
      }
      if p.phase == Succeeded || p.phase == Failed {
        continue;
      }
      if p.deleting {
        continue;
      }
      if p.toleratesUnschedulable {
        continue;
      }
      out := out + [p];
    }
    assert pods[..|pods|] == pods;
  }

  predicate Idle(n: NodeWithPods) {
    !n.node.unschedulable && n.pods.Some? && EvictablePods(n.pods.value) == []
  }

  function IdleNodes(nodes: seq<NodeWithPods>): seq<NodeWithPods> {
    if nodes == [] then []
    else
      var n := nodes[|nodes| - 1];
      IdleNodes(nodes[..|nodes| - 1]) + (if Idle(n) then [n] else [])
  }

  /** Pods are asked for only on schedulable nodes; one failed answer fails the search. */
  predicate CandidatesListed(nodes: seq<NodeWithPods>) {
    forall n :: n in nodes && !n.node.unschedulable ==> n.pods.Some?
  }

  method GetScaleDownCandidates(nodes: seq<NodeWithPods>) returns (r: Option<seq<NodeWithPods>>)
    ensures r.Some? <==> CandidatesListed(nodes)
    ensures r.Some? ==> r.value == IdleNodes(nodes)
  {
    var candidates: seq<NodeWithPods> := [];
    for i := 0 to |nodes|
      invariant CandidatesListed(nodes[..i])
      invariant candidates == IdleNodes(nodes[..i])
    {
      assert nodes[..i + 1] == nodes[..i] + [nodes[i]];
      assert nodes[..i + 1][..i] == nodes[..i];
      if nodes[i].node.unschedulable {
        continue;
      }
      if nodes[i].pods.None? {
        assert nodes[i] in nodes;
        return None;
      }
      var evictable := GetEvictablePods(nodes[i].pods.value);
      if |evictable| != 0 {
        continue;
      }
      candidates := candidates + [nodes[i]];
    }
    assert nodes[..|nodes|] == nodes;
    return Some(candidates);
  }

  // ----- the step

  predicate IsClaimOf(c: PoolClaim, pool: string, node: string) {
    c.poolRef == pool && c.nodeName == node
  }

  function ClaimFor(claims: seq<PoolClaim>, pool: string, node: string): (r: Option<PoolClaim>)
    ensures r.Some? ==> r.value in claims && IsClaimOf(r.value, pool, node)
  {
    if claims == [] then None
    else if IsClaimOf(claims[0], pool, node) then Some(claims[0])
    else ClaimFor(claims[1..], pool, node)
  }

  datatype Search = ListingFailed | Nobody | Victim(node: NodeWithPods, claim: PoolClaim)

  /** The first candidate that has a claim, unless a listing fails before it is found. */
  function FindVictim(candidates: seq<NodeWithPods>, claims: string -> Option<seq<PoolClaim>>, pool: string): (r: Search)
    ensures r.Victim? ==>
      && r.node in candidates && claims(r.node.node.name).Some?
      && r.claim in claims(r.node.node.name).value && IsClaimOf(r.claim, pool, r.node.node.name)
  {
    if candidates == [] then Nobody
    else
      var name := candidates[0].node.name;
      match claims(name)
      case None => ListingFailed
      case Some(listed) =>
        match ClaimFor(listed, pool, name)
        case Some(c) => Victim(candidates[0], c)
        case None => FindVictim(candidates[1..], claims, pool)
  }

  function MarkDeleting(claims: seq<PoolClaim>, name: string): seq<PoolClaim> {
    seq(|claims|, k requires 0 <= k < |claims| =>
      if claims[k].name == name then claims[k].(deleting := true) else claims[k])
  }

  predicate InWindow(s: PoolState, window: Option<int>, now: int) {
    window.Some? && s.lastScaleActivity.Some? && now - s.lastScaleActivity.value < window.value
  }

  datatype DownOutcome = DownOutcome(state: PoolState, reply: Reply, deleted: Option<(NodeWithPods, PoolClaim)>)

  function ScaleDownStep(s: PoolState, pool: string, minNodes: nat, window: Option<int>, i: ScaleDownInput): DownOutcome {
    if |i.nodes| <= minNodes then DownOutcome(s, Reply(0, false), None)
    else if i.candidates.None? || !CandidatesListed(i.candidates.value) then DownOutcome(s, Reply(MINUTE, false), None)
    else
      var idle := IdleNodes(i.candidates.value);
      if idle == [] then DownOutcome(s, Reply(0, false), None)
      else if InWindow(s, window, i.now) then
        DownOutcome(s, Reply(window.value - (i.now - s.lastScaleActivity.value), false), None)
      else
        match FindVictim(idle, i.claims, pool)
        case ListingFailed => DownOutcome(s, Reply(MINUTE, false), None)
        case Nobody => DownOutcome(s, Reply(0, false), None)
        case Victim(node, claim) => DeleteVictim(s, (node, claim), i)
  }

  function DeleteVictim(s: PoolState, v: (NodeWithPods, PoolClaim), i: ScaleDownInput): DownOutcome {
    var marked := s.(claims := MarkDeleting(s.claims, v.1.name));
    match i.deletion
    case AlreadyGone => DownOutcome(s, Reply(0, false), None)
    case Refused => DownOutcome(s, Reply(MINUTE, true), None)
    case Unacknowledged => DownOutcome(marked, Reply(MINUTE, true), Some(v))
    case Accepted =>
      DownOutcome(Store(marked, marked.(lastScaleActivity := Some(i.statusTime)), i.write),
                  Reply(0, !i.write.Written?), Some(v))
  }

  // ----- finalizing a pool

  /** `deletion` answers the delete request for each claim. */
  datatype FinalizePoolInput = FinalizePoolInput(
    claims: Option<seq<PoolClaim>>,
    deletion: string -> Deletion,
    write: Write)

  datatype PoolPass = PoolPass(claims: seq<PoolClaim>, remaining: nat, ok: bool)

  /** One pass over the listed claims: delete what is not yet being deleted, count what already is. */
  function DeleteClaims(
    store: seq<PoolClaim>, listed: seq<PoolClaim>, pool: string, deletion: string -> Deletion, remaining: nat): PoolPass
    decreases |listed|
  {
    if listed == [] then PoolPass(store, remaining, true)
    else
      var c := listed[0];
      if c.poolRef != pool then DeleteClaims(store, listed[1..], pool, deletion, remaining)
      else if c.deleting then DeleteClaims(store, listed[1..], pool, deletion, remaining + 1)
      else
        var after := if TakesEffect(deletion(c.name)) then MarkDeleting(store, c.name) else store;
        if Errs(deletion(c.name)) then PoolPass(after, remaining, false)
        else DeleteClaims(after, listed[1..], pool, deletion, remaining)
  }

  datatype PoolFinalization = PoolFinalization(claims: seq<PoolClaim>, finalizer: bool, reply: Reply)

  function FinalizePoolStep(claims: seq<PoolClaim>, pool: string, finalizer: bool, i: FinalizePoolInput): PoolFinalization {
    if !finalizer then PoolFinalization(claims, false, Reply(0, false))
    else if i.claims.None? then PoolFinalization(claims, true, Reply(5 * SECOND, true))
    else
      var p := DeleteClaims(claims, i.claims.value, pool, i.deletion, 0);
      if !p.ok then PoolFinalization(p.claims, true, Reply(5 * SECOND, true))
      else if p.remaining > 0 then PoolFinalization(p.claims, true, Reply(5 * SECOND, false))
      else PoolFinalization(p.claims, i.write.Rejected?, Reply(0, !i.write.Written?))
  }

  lemma {:induction false} PassCountsOnlyTerminating(
    store: seq<PoolClaim>, listed: seq<PoolClaim>, pool: string, deletion: string -> Deletion, remaining: nat)
    requires forall c :: c in listed ==> !Errs(deletion(c.name))
    ensures
      var p := DeleteClaims(store, listed, pool, deletion, remaining);
      && p.ok && p.remaining >= remaining && |p.claims| == |store|
      && (p.remaining == remaining <==> forall c :: c in listed ==> c.poolRef != pool || !c.deleting)
    decreases |listed|
  {
    if listed != [] {
      var c, rest := listed[0], listed[1..];
      assert listed == [c] + rest;
      assert c in listed;
      if c.poolRef != pool {
        PassCountsOnlyTerminating(store, rest, pool, deletion, remaining);
      } else if c.deleting {
        PassCountsOnlyTerminating(store, rest, pool, deletion, remaining + 1);
      } else {
        PassCountsOnlyTerminating(if TakesEffect(deletion(c.name)) then MarkDeleting(store, c.name) else store,
                                  rest, pool, deletion, remaining);
      }
    }
  }

  /**
   When a pool's finalizer goes: in a pass without errors, exactly if no claim of the pool was already
   being deleted when the pass listed them. The pass does not wait for the claims it deletes itself,
   so the finalizer can go while all of the pool's claims still exist.
   */
  lemma PoolFinalizerGoesIff(claims: seq<PoolClaim>, pool: string, i: FinalizePoolInput)
    requires i.claims.Some? && i.write.Written?
    requires forall c :: c in i.claims.value ==> !Errs(i.deletion(c.name))
    ensures
      var f := FinalizePoolStep(claims, pool, true, i);
      && |f.claims| == |claims|
      && (!f.finalizer <==> forall c :: c in i.claims.value ==> c.poolRef != pool || !c.deleting)
  {
    PassCountsOnlyTerminating(claims, i.claims.value, pool, i.deletion, 0);
  }
}
