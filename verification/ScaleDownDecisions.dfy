/** Which claims a scale-down and the finalization of a pool delete, told by the fields of what they read. */
module ScaleDownDecisions {
  import opened Common
  import opened KubeObjects
  import opened Accounting
  import opened ScaleUp
  import opened ScaleDown

  // ----- idle nodes

  /** The pod keeps its node from being scaled down. */
  predicate Keeps(p: Pod) {
    && !p.mirror && !p.daemonSet && !p.deleting && !p.toleratesUnschedulable
    && (p.phase == Pending || p.phase == Running || p.phase == UnknownPhase)
  }

  /** A schedulable node whose pods are listed, none of which keeps it. */
  predicate Spare(n: NodeWithPods) {
    n.node.unschedulable == false && n.pods.Some? && NoneKeeps(n.pods.value)
  }

  /** The pods that keep a node are picked one by one, in order. */
  lemma KeepersInOrder(pods: seq<Pod>, p: Pod)
    ensures EvictablePods([]) == []
    ensures EvictablePods(pods + [p]) == EvictablePods(pods) + if Keeps(p) then [p] else []
  {
    assert (pods + [p])[..|pods|] == pods;
  }

  predicate NoneKeeps(pods: seq<Pod>) {
    forall k :: 0 <= k < |pods| ==> !Keeps(pods[k])
  }

  lemma NoneKeepsSnoc(pods: seq<Pod>, p: Pod)
    ensures NoneKeeps(pods + [p]) <==> NoneKeeps(pods) && !Keeps(p)
  {
    assert (pods + [p])[|pods|] == p;
    assert forall k :: 0 <= k < |pods| ==> (pods + [p])[k] == pods[k];
  }

  lemma {:induction false} EvictableIffKept(pods: seq<Pod>)
    ensures EvictablePods(pods) == [] <==> NoneKeeps(pods)
  {
    if pods != [] {
      var init, p := pods[..|pods| - 1], pods[|pods| - 1];
      EvictableIffKept(init);
      KeepersInOrder(init, p);
      NoneKeepsSnoc(init, p);
      assert init + [p] == pods;
    }
  }

  lemma SpareIsIdle(n: NodeWithPods)
    ensures Idle(n) <==> Spare(n)
  {
    if n.pods.Some? {
      EvictableIffKept(n.pods.value);
    }
  }

  lemma {:induction false} IdleConcat(a: seq<NodeWithPods>, b: seq<NodeWithPods>)
    ensures IdleNodes(a + b) == IdleNodes(a) + IdleNodes(b)
  {
    if b == [] {
      assert a + b == a;
    } else {
      IdleConcat(a, b[..|b| - 1]);
      assert (a + b)[..|a + b| - 1] == a + b[..|b| - 1];
    }
  }

  lemma IdleFront(n: NodeWithPods, rest: seq<NodeWithPods>)
    ensures IdleNodes([n] + rest) == if Spare(n) then [n] + IdleNodes(rest) else IdleNodes(rest)
  {
    IdleConcat([n], rest);
    SpareIsIdle(n);
    assert [n][..0] == [] && IdleNodes([]) == [];
    assert IdleNodes([n]) == if Idle(n) then [n] else [];
  }

  // ----- the claim of a node

  /** The claim belongs to the pool and records the node as its own. */
  predicate OwnsNode(c: PoolClaim, pool: string, node: string) {
    c.poolRef == pool && c.nodeName == node
  }

  predicate FirstOwner(claims: seq<PoolClaim>, pool: string, node: string, m: int) {
    0 <= m < |claims| && OwnsNode(claims[m], pool, node) && forall k :: 0 <= k < m ==> !OwnsNode(claims[k], pool, node)
  }

  predicate NoOwner(claims: seq<PoolClaim>, pool: string, node: string) {
    forall k :: 0 <= k < |claims| ==> !OwnsNode(claims[k], pool, node)
  }

  lemma {:induction false} ClaimForIsFirst(claims: seq<PoolClaim>, pool: string, node: string)
    ensures ClaimFor(claims, pool, node).None? <==> NoOwner(claims, pool, node)
    ensures forall m :: FirstOwner(claims, pool, node, m) ==> ClaimFor(claims, pool, node) == Some(claims[m])
  {
    if claims != [] && !OwnsNode(claims[0], pool, node) {
      var rest := claims[1..];
      ClaimForIsFirst(rest, pool, node);
      forall m | FirstOwner(claims, pool, node, m) ensures ClaimFor(claims, pool, node) == Some(claims[m]) {
        assert FirstOwner(rest, pool, node, m - 1);
      }
      assert NoOwner(rest, pool, node) ==> NoOwner(claims, pool, node);
    }
  }

  lemma {:induction false} FirstOwnerExists(claims: seq<PoolClaim>, pool: string, node: string) returns (m: int)
    requires !NoOwner(claims, pool, node)
    ensures FirstOwner(claims, pool, node, m)
  {
    if OwnsNode(claims[0], pool, node) {
      m := 0;
    } else {
      var k :| 0 <= k < |claims| && OwnsNode(claims[k], pool, node);
      assert claims[1..][k - 1] == claims[k];
      m := FirstOwnerExists(claims[1..], pool, node);
      m := m + 1;
    }
  }

  // ----- which claim a scale-down chooses

  /** The candidate is passed over: it is not spare, or its claims are listed and none of the pool's is on it. */
  predicate PassedOver(n: NodeWithPods, claims: string -> Option<seq<PoolClaim>>, pool: string) {
    Spare(n) ==> claims(n.node.name).Some? && NoOwner(claims(n.node.name).value, pool, n.node.name)
  }

  predicate AllPassedOver(
    candidates: seq<NodeWithPods>, until: int, claims: string -> Option<seq<PoolClaim>>, pool: string)
    requires until <= |candidates|
  {
    forall k :: 0 <= k < until ==> PassedOver(candidates[k], claims, pool)
  }

  /** Claim `m` of the listing for spare candidate `j`, which is the first candidate that is not passed over. */
  predicate Chosen(
    candidates: seq<NodeWithPods>, claims: string -> Option<seq<PoolClaim>>, pool: string, j: int, m: int)
  {
    && 0 <= j < |candidates| && Spare(candidates[j]) && AllPassedOver(candidates, j, claims, pool)
    && claims(candidates[j].node.name).Some?
    && FirstOwner(claims(candidates[j].node.name).value, pool, candidates[j].node.name, m)
  }

  function Search(candidates: seq<NodeWithPods>, claims: string -> Option<seq<PoolClaim>>, pool: string): Search {
    FindVictim(IdleNodes(candidates), claims, pool)
  }

  lemma SearchFront(n: NodeWithPods, rest: seq<NodeWithPods>, claims: string -> Option<seq<PoolClaim>>, pool: string)
    ensures PassedOver(n, claims, pool) ==> Search([n] + rest, claims, pool) == Search(rest, claims, pool)
    ensures Spare(n) && claims(n.node.name).None? ==> Search([n] + rest, claims, pool) == ListingFailed
    ensures Spare(n) && claims(n.node.name).Some? ==>
      forall m :: FirstOwner(claims(n.node.name).value, pool, n.node.name, m) ==>
        Search([n] + rest, claims, pool) == Victim(n, claims(n.node.name).value[m])
  {
    IdleFront(n, rest);
    assert Spare(n) ==> ([n] + IdleNodes(rest))[1..] == IdleNodes(rest);
    if claims(n.node.name).Some? {
      ClaimForIsFirst(claims(n.node.name).value, pool, n.node.name);
    }
  }

  lemma {:induction false} SearchFinds(
    candidates: seq<NodeWithPods>, claims: string -> Option<seq<PoolClaim>>, pool: string, j: int, m: int)
    requires Chosen(candidates, claims, pool, j, m)
    ensures Search(candidates, claims, pool) == Victim(candidates[j], claims(candidates[j].node.name).value[m])
    decreases |candidates|
  {
    var n, rest := candidates[0], candidates[1..];
    assert candidates == [n] + rest;
    SearchFront(n, rest, claims, pool);
    if j > 0 {
      assert PassedOver(n, claims, pool);
      assert forall k :: 0 <= k < j - 1 ==> rest[k] == candidates[k + 1];
      assert Chosen(rest, claims, pool, j - 1, m);
      SearchFinds(rest, claims, pool, j - 1, m);
    }
  }

  lemma {:induction false} SearchIsChosen(
    candidates: seq<NodeWithPods>, claims: string -> Option<seq<PoolClaim>>, pool: string) returns (j: int, m: int)
    requires Search(candidates, claims, pool).Victim?
    ensures Chosen(candidates, claims, pool, j, m)
    decreases |candidates|
  {
    var n, rest := candidates[0], candidates[1..];
    assert candidates == [n] + rest;
    SearchFront(n, rest, claims, pool);
    if PassedOver(n, claims, pool) {
      j, m := SearchIsChosen(rest, claims, pool);
      assert forall k :: 1 <= k < j + 1 ==> candidates[k] == rest[k - 1];
      j := j + 1;
    } else {
      j := 0;
      m := FirstOwnerExists(claims(n.node.name).value, pool, n.node.name);
    }
  }

  /** The listing for the first candidate that is not passed over fails. */
  predicate ListingFails(
    candidates: seq<NodeWithPods>, claims: string -> Option<seq<PoolClaim>>, pool: string, j: int)
  {
    && 0 <= j < |candidates| && Spare(candidates[j]) && AllPassedOver(candidates, j, claims, pool)
    && claims(candidates[j].node.name).None?
  }

  lemma {:induction false} SearchFails(
    candidates: seq<NodeWithPods>, claims: string -> Option<seq<PoolClaim>>, pool: string, j: int)
    requires ListingFails(candidates, claims, pool, j)
    ensures Search(candidates, claims, pool) == ListingFailed
    decreases |candidates|
  {
    var n, rest := candidates[0], candidates[1..];
    assert candidates == [n] + rest;
    SearchFront(n, rest, claims, pool);
    if j > 0 {
      assert PassedOver(n, claims, pool);
      assert forall k :: 0 <= k < j - 1 ==> rest[k] == candidates[k + 1];
      SearchFails(rest, claims, pool, j - 1);
    }
  }

  lemma {:induction false} SearchFindsNobody(
    candidates: seq<NodeWithPods>, claims: string -> Option<seq<PoolClaim>>, pool: string)
    requires AllPassedOver(candidates, |candidates|, claims, pool)
    ensures Search(candidates, claims, pool) == Nobody
    decreases |candidates|
  {
    if candidates != [] {
      var n, rest := candidates[0], candidates[1..];
      assert candidates == [n] + rest;
      SearchFront(n, rest, claims, pool);
      assert PassedOver(n, claims, pool);
      assert forall k :: 0 <= k < |rest| ==> rest[k] == candidates[k + 1];
      SearchFindsNobody(rest, claims, pool);
    }
  }

  // ----- when a scale-down deletes

  predicate PodsAreListed(candidates: seq<NodeWithPods>) {
    forall k :: 0 <= k < |candidates| && !candidates[k].node.unschedulable ==> candidates[k].pods.Some?
  }

  /** The node count and the window allow a scale-down, and the candidates could be listed. */
  predicate MayScaleDown(s: PoolState, minNodes: nat, window: Option<int>, i: ScaleDownInput) {
    && |i.nodes| > minNodes && i.candidates.Some? && PodsAreListed(i.candidates.value)
    && (window.Some? && s.lastScaleActivity.Some? ==> i.now - s.lastScaleActivity.value >= window.value)
  }

  predicate DeletionTakes(d: Deletion) {
    d.Accepted? || d.Unacknowledged?
  }

  lemma StepSearches(s: PoolState, pool: string, minNodes: nat, window: Option<int>, i: ScaleDownInput)
    requires MayScaleDown(s, minNodes, window, i)
    ensures
      var o := ScaleDownStep(s, pool, minNodes, window, i);
      match Search(i.candidates.value, i.claims, pool)
      case ListingFailed => o == DownOutcome(s, Reply(60_000, false), None)
      case Nobody => o == DownOutcome(s, Reply(0, false), None)
      case Victim(n, c) => o == DeleteVictim(s, (n, c), i)
  {
    ListedIff(i.candidates.value);
  }

  lemma MayScaleDownIfVictim(s: PoolState, pool: string, minNodes: nat, window: Option<int>, i: ScaleDownInput)
    requires ScaleDownStep(s, pool, minNodes, window, i).deleted.Some?
    ensures MayScaleDown(s, minNodes, window, i)
  {
    ListedIff(i.candidates.value);
  }

  /**
   When a scale-down deletes what: exactly if it may scale down, the deletion takes effect, and some spare candidate has
   a listed claim of the pool; it is then the first such candidate's first claim.
   */
  lemma DeletesIff(s: PoolState, pool: string, minNodes: nat, window: Option<int>, i: ScaleDownInput)
    ensures ScaleDownStep(s, pool, minNodes, window, i).deleted.Some? <==>
      && MayScaleDown(s, minNodes, window, i) && DeletionTakes(i.deletion)
      && exists j, m :: Chosen(i.candidates.value, i.claims, pool, j, m)
    ensures MayScaleDown(s, minNodes, window, i) && DeletionTakes(i.deletion) ==>
      forall j, m :: Chosen(i.candidates.value, i.claims, pool, j, m) ==>
        ScaleDownStep(s, pool, minNodes, window, i).deleted
        == Some((i.candidates.value[j], i.claims(i.candidates.value[j].node.name).value[m]))
  {
    if ScaleDownStep(s, pool, minNodes, window, i).deleted.Some? {
      MayScaleDownIfVictim(s, pool, minNodes, window, i);
    }
    if MayScaleDown(s, minNodes, window, i) {
      StepSearches(s, pool, minNodes, window, i);
      forall j, m | Chosen(i.candidates.value, i.claims, pool, j, m)
        ensures Search(i.candidates.value, i.claims, pool)
          == Victim(i.candidates.value[j], i.claims(i.candidates.value[j].node.name).value[m])
      {
        SearchFinds(i.candidates.value, i.claims, pool, j, m);
      }
      if Search(i.candidates.value, i.claims, pool).Victim? {
        var j, m := SearchIsChosen(i.candidates.value, i.claims, pool);
      }
    }
  }

  /** Claim `k` after deletions of the marked names: as before, or with the deletion mark. */
  predicate OnlyMarked(before: PoolClaim, after: PoolClaim, marked: bool) {
    after == before.(deleting := before.deleting || marked)
  }

  /** What a deletion does: the claim's name is marked in the store, and the activity recorded if all is acknowledged. */
  lemma DeletionMarks(s: PoolState, pool: string, minNodes: nat, window: Option<int>, i: ScaleDownInput)
    requires ScaleDownStep(s, pool, minNodes, window, i).deleted.Some?
    ensures
      var o := ScaleDownStep(s, pool, minNodes, window, i);
      var (n, c) := o.deleted.value;
      && c.poolRef == pool && c.nodeName == n.node.name && Spare(n)
      && |o.state.claims| == |s.claims|
      && (forall k :: 0 <= k < |s.claims| ==>
            OnlyMarked(s.claims[k], o.state.claims[k], s.claims[k].name == c.name))
      && o.state.nextSequence == s.nextSequence
      && o.state.lastScaleActivity ==
           (if i.deletion.Accepted? && !i.write.Rejected? then Some(i.statusTime) else s.lastScaleActivity)
      && o.reply == (if i.deletion.Unacknowledged? then Reply(60_000, true) else Reply(0, !i.write.Written?))
  {
    DeletesIff(s, pool, minNodes, window, i);
    var j, m :| Chosen(i.candidates.value, i.claims, pool, j, m);
    SearchFinds(i.candidates.value, i.claims, pool, j, m);
    StepSearches(s, pool, minNodes, window, i);
  }

  /** What a scale-down answers when it deletes nothing. */
  lemma NothingDeletedAnswers(s: PoolState, pool: string, minNodes: nat, window: Option<int>, i: ScaleDownInput)
    requires ScaleDownStep(s, pool, minNodes, window, i).deleted.None?
    ensures
      var o := ScaleDownStep(s, pool, minNodes, window, i);
      && o.state == s
      && (|i.nodes| <= minNodes ==> o.reply == Reply(0, false))
      && (|i.nodes| > minNodes && i.candidates.None? ==> o.reply == Reply(60_000, false))
      && (|i.nodes| > minNodes && i.candidates.Some? && !PodsAreListed(i.candidates.value) ==>
            o.reply == Reply(60_000, false))
      && (|i.nodes| > minNodes && i.candidates.Some? && PodsAreListed(i.candidates.value) ==>
            if NobodySpare(i.candidates.value) then o.reply == Reply(0, false)
            else if window.Some? && s.lastScaleActivity.Some? && i.now - s.lastScaleActivity.value < window.value then
              o.reply == Reply(window.value - (i.now - s.lastScaleActivity.value), false)
            else
              forall j, m :: Chosen(i.candidates.value, i.claims, pool, j, m) ==>
                o.reply == if i.deletion.Refused? then Reply(60_000, true) else Reply(0, false))
  {
    if i.candidates.Some? {
      ListedIff(i.candidates.value);
      NobodyIsIdle(i.candidates.value);
      forall j, m | MayScaleDown(s, minNodes, window, i) && Chosen(i.candidates.value, i.claims, pool, j, m)
        ensures ScaleDownStep(s, pool, minNodes, window, i).reply
          == if i.deletion.Refused? then Reply(60_000, true) else Reply(0, false)
      {
        SearchFinds(i.candidates.value, i.claims, pool, j, m);
        StepSearches(s, pool, minNodes, window, i);
      }
    }
  }

  /** Nobody to delete asks for nothing; a failed listing of claims comes back after a minute. */
  lemma UnsuccessfulSearchAnswers(s: PoolState, pool: string, minNodes: nat, window: Option<int>, i: ScaleDownInput)
    requires MayScaleDown(s, minNodes, window, i)
    ensures AllPassedOver(i.candidates.value, |i.candidates.value|, i.claims, pool) ==>
      ScaleDownStep(s, pool, minNodes, window, i) == DownOutcome(s, Reply(0, false), None)
    ensures forall j :: ListingFails(i.candidates.value, i.claims, pool, j) ==>
      ScaleDownStep(s, pool, minNodes, window, i) == DownOutcome(s, Reply(60_000, false), None)
  {
    StepSearches(s, pool, minNodes, window, i);
    if AllPassedOver(i.candidates.value, |i.candidates.value|, i.claims, pool) {
      SearchFindsNobody(i.candidates.value, i.claims, pool);
    }
    forall j | ListingFails(i.candidates.value, i.claims, pool, j)
      ensures Search(i.candidates.value, i.claims, pool) == ListingFailed
    {
      SearchFails(i.candidates.value, i.claims, pool, j);
    }
  }

  predicate NobodySpare(candidates: seq<NodeWithPods>) {
    forall k :: 0 <= k < |candidates| ==> !Spare(candidates[k])
  }

  lemma {:induction false} NobodyIsIdle(candidates: seq<NodeWithPods>)
    ensures IdleNodes(candidates) == [] <==> NobodySpare(candidates)
  {
    if candidates != [] {
      NobodyIsIdle(candidates[..|candidates| - 1]);
      SpareIsIdle(candidates[|candidates| - 1]);
    }
  }

  lemma ListedIff(candidates: seq<NodeWithPods>)
    ensures CandidatesListed(candidates) <==> PodsAreListed(candidates)
  {
    if PodsAreListed(candidates) {
      forall n | n in candidates && !n.node.unschedulable ensures n.pods.Some? {
        var k :| 0 <= k < |candidates| && candidates[k] == n;
      }
    }
    if CandidatesListed(candidates) {
      forall k | 0 <= k < |candidates| && !candidates[k].node.unschedulable ensures candidates[k].pods.Some? {
        assert candidates[k] in candidates;
      }
    }
  }

  // ----- finalizing a pool

  /** A listed claim of the pool that the pass asks to delete. */
  predicate ToDelete(c: PoolClaim, pool: string) {
    c.poolRef == pool && c.deleting == false
  }

  predicate Fails(d: Deletion) {
    d.Refused? || d.Unacknowledged?
  }

  /** The pass gets to entry `j` of the listing: no deletion before it failed. */
  predicate PassReaches(listed: seq<PoolClaim>, pool: string, deletion: string -> Deletion, j: int)
    requires j <= |listed|
  {
    forall k :: 0 <= k < j && ToDelete(listed[k], pool) ==> !Fails(deletion(listed[k].name))
  }

  /** The pass deletes the claims of that name. */
  ghost predicate PassDeletes(listed: seq<PoolClaim>, pool: string, deletion: string -> Deletion, name: string) {
    exists j :: PassDeletesAt(listed, pool, deletion, name, j)
  }

  /** The pass deletes that name through entry `j` of the listing. */
  predicate PassDeletesAt(
    listed: seq<PoolClaim>, pool: string, deletion: string -> Deletion, name: string, j: int)
  {
    0 <= j < |listed| && PassReaches(listed, pool, deletion, j) && ToDelete(listed[j], pool)
    && DeletionTakes(deletion(listed[j].name)) && listed[j].name == name
  }

  lemma DeletesLater(
    c: PoolClaim, rest: seq<PoolClaim>, pool: string, deletion: string -> Deletion, name: string, j: int)
    requires 0 <= j < |rest|
    ensures PassDeletesAt([c] + rest, pool, deletion, name, j + 1) <==>
      !(ToDelete(c, pool) && Fails(deletion(c.name))) && PassDeletesAt(rest, pool, deletion, name, j)
  {
    var listed := [c] + rest;
    assert listed[0] == c && forall k :: 0 <= k < |rest| ==> listed[k + 1] == rest[k];
    ReachesLater(c, rest, pool, deletion, j);
  }

  lemma ReachesLater(c: PoolClaim, rest: seq<PoolClaim>, pool: string, deletion: string -> Deletion, j: int)
    requires 0 <= j <= |rest|
    ensures PassReaches([c] + rest, pool, deletion, j + 1) <==>
      (ToDelete(c, pool) ==> !Fails(deletion(c.name))) && PassReaches(rest, pool, deletion, j)
  {
    var listed := [c] + rest;
    assert listed[0] == c && forall k :: 0 <= k < |rest| ==> listed[k + 1] == rest[k];
    if (ToDelete(c, pool) ==> !Fails(deletion(c.name))) && PassReaches(rest, pool, deletion, j) {
      forall k | 0 <= k < j + 1 && ToDelete(listed[k], pool) ensures !Fails(deletion(listed[k].name)) {
        assert k > 0 ==> listed[k] == rest[k - 1];
      }
    }
    if PassReaches(listed, pool, deletion, j + 1) {
      forall k | 0 <= k < j && ToDelete(rest[k], pool) ensures !Fails(deletion(rest[k].name)) {
        assert listed[k + 1] == rest[k];
      }
    }
  }

  lemma DeletesFirst(
    c: PoolClaim, rest: seq<PoolClaim>, pool: string, deletion: string -> Deletion, name: string)
    ensures PassDeletesAt([c] + rest, pool, deletion, name, 0) <==>
      ToDelete(c, pool) && DeletionTakes(deletion(c.name)) && c.name == name
  {
    assert ([c] + rest)[0] == c;
  }

  lemma DeletesFirstOrLater(
    c: PoolClaim, rest: seq<PoolClaim>, pool: string, deletion: string -> Deletion, name: string)
    ensures PassDeletes([c] + rest, pool, deletion, name) <==>
      || (ToDelete(c, pool) && DeletionTakes(deletion(c.name)) && c.name == name)
      || (!(ToDelete(c, pool) && Fails(deletion(c.name))) && PassDeletes(rest, pool, deletion, name))
  {
    DeletesFirst(c, rest, pool, deletion, name);
    if PassDeletes([c] + rest, pool, deletion, name) {
      var j :| PassDeletesAt([c] + rest, pool, deletion, name, j);
      if j > 0 {
        DeletesLater(c, rest, pool, deletion, name, j - 1);
        assert PassDeletesAt(rest, pool, deletion, name, j - 1);
      }
    }
    if ToDelete(c, pool) && DeletionTakes(deletion(c.name)) && c.name == name {
      assert PassDeletesAt([c] + rest, pool, deletion, name, 0);
    }
    if !(ToDelete(c, pool) && Fails(deletion(c.name))) && PassDeletes(rest, pool, deletion, name) {
      var j :| PassDeletesAt(rest, pool, deletion, name, j);
      DeletesLater(c, rest, pool, deletion, name, j);
      assert PassDeletesAt([c] + rest, pool, deletion, name, j + 1);
    }
  }

  /** The store after a pass: the claims whose names it deleted are marked, and nothing else is different. */
  ghost predicate PassMarked(
    store: seq<PoolClaim>, after: seq<PoolClaim>, listed: seq<PoolClaim>, pool: string, deletion: string -> Deletion)
  {
    && |after| == |store|
    && forall k :: 0 <= k < |store| ==>
         OnlyMarked(store[k], after[k], PassDeletes(listed, pool, deletion, store[k].name))
  }

  /**
   For every store and listing: a pass over a deleted pool marks exactly the claims named like a listed, not yet
   terminating claim of the pool that it reaches and whose deletion takes effect, and fails exactly if a deletion does.
   */
  lemma {:induction false} PassMarksExactly(
    store: seq<PoolClaim>, listed: seq<PoolClaim>, pool: string, deletion: string -> Deletion, remaining: nat)
    ensures
      var p := DeleteClaims(store, listed, pool, deletion, remaining);
      PassMarked(store, p.claims, listed, pool, deletion) && (p.ok <==> PassReaches(listed, pool, deletion, |listed|))
    decreases |listed|
  {
    if listed != [] {
      var c, rest := listed[0], listed[1..];
      assert listed == [c] + rest;
      forall name ensures PassDeletes(listed, pool, deletion, name) <==>
        || (ToDelete(c, pool) && DeletionTakes(deletion(c.name)) && c.name == name)
        || (!(ToDelete(c, pool) && Fails(deletion(c.name))) && PassDeletes(rest, pool, deletion, name))
      {
        DeletesFirstOrLater(c, rest, pool, deletion, name);
      }
      ReachesFront(c, rest, pool, deletion);
      if c.poolRef != pool {
        PassMarksExactly(store, rest, pool, deletion, remaining);
      } else if c.deleting {
        PassMarksExactly(store, rest, pool, deletion, remaining + 1);
      } else {
        PassMarksExactly(if DeletionTakes(deletion(c.name)) then MarkDeleting(store, c.name) else store,
                         rest, pool, deletion, remaining);
      }
    }
  }

  lemma ReachesFront(c: PoolClaim, rest: seq<PoolClaim>, pool: string, deletion: string -> Deletion)
    ensures PassReaches([c] + rest, pool, deletion, |rest| + 1) <==>
      (ToDelete(c, pool) ==> !Fails(deletion(c.name))) && PassReaches(rest, pool, deletion, |rest|)
  {
    ReachesLater(c, rest, pool, deletion, |rest|);
  }

  /** The listed claims of the pool that are in the store are all being deleted after a pass that went well. */
  lemma FinalizingDeletesAll(claims: seq<PoolClaim>, pool: string, i: FinalizePoolInput, k: nat)
    requires i.claims.Some? && forall j :: 0 <= j < |i.claims.value| ==> i.deletion(i.claims.value[j].name).Accepted?
    requires k < |claims| && claims[k] in i.claims.value && claims[k].poolRef == pool
    ensures
      var f := FinalizePoolStep(claims, pool, true, i);
      |f.claims| == |claims| && f.claims[k].deleting && f.claims[k].name == claims[k].name
  {
    var listed := i.claims.value;
    PassMarksExactly(claims, listed, pool, i.deletion, 0);
    var j :| 0 <= j < |listed| && listed[j] == claims[k];
    assert PassReaches(listed, pool, i.deletion, j);
    if !claims[k].deleting {
      assert PassDeletesAt(listed, pool, i.deletion, claims[k].name, j);
    }
  }

  /** Claims of other pools never change, however the deletions turn out. */
  lemma FinalizingSparesOthers(claims: seq<PoolClaim>, pool: string, i: FinalizePoolInput, k: nat)
    requires i.claims.Some? && forall c :: c in i.claims.value ==> c in claims
    requires forall a, b :: 0 <= a < b < |claims| ==> claims[a].name != claims[b].name
    requires k < |claims| && claims[k].poolRef != pool
    ensures
      var f := FinalizePoolStep(claims, pool, true, i);
      |f.claims| == |claims| && f.claims[k] == claims[k]
  {
    var listed := i.claims.value;
    PassMarksExactly(claims, listed, pool, i.deletion, 0);
    forall j | 0 <= j < |listed| && listed[j].poolRef == pool ensures listed[j].name != claims[k].name {
      assert listed[j] in listed;
      var a :| 0 <= a < |claims| && claims[a] == listed[j];
    }
  }

  /** What finalizing a pool answers, and when its finalizer goes, for every listing and every outcome. */
  lemma FinalizePoolAnswers(claims: seq<PoolClaim>, pool: string, finalizer: bool, i: FinalizePoolInput)
    ensures
      var f := FinalizePoolStep(claims, pool, finalizer, i);
      && (!finalizer ==> f == PoolFinalization(claims, false, Reply(0, false)))
      && (finalizer && i.claims.None? ==> f == PoolFinalization(claims, true, Reply(5_000, true)))
      && (finalizer && i.claims.Some? ==>
            var listed := i.claims.value;
            var clean := PassReaches(listed, pool, i.deletion, |listed|);
            var waiting := exists k :: 0 <= k < |listed| && listed[k].poolRef == pool && listed[k].deleting;
            && (!clean ==> f.finalizer && f.reply == Reply(5_000, true))
            && (clean && waiting ==> f.finalizer && f.reply == Reply(5_000, false))
            && (clean && !waiting ==> f.finalizer == i.write.Rejected? && f.reply == Reply(0, !i.write.Written?)))
  {
    if finalizer && i.claims.Some? {
      var listed := i.claims.value;
      PassMarksExactly(claims, listed, pool, i.deletion, 0);
      if PassReaches(listed, pool, i.deletion, |listed|) {
        PassCounts(claims, listed, pool, i.deletion, 0);
      }
    }
  }

  lemma {:induction false} PassCounts(
    store: seq<PoolClaim>, listed: seq<PoolClaim>, pool: string, deletion: string -> Deletion, remaining: nat)
    requires PassReaches(listed, pool, deletion, |listed|)
    ensures
      var p := DeleteClaims(store, listed, pool, deletion, remaining);
      && p.remaining >= remaining
      && (p.remaining == remaining <==> forall k :: 0 <= k < |listed| ==> listed[k].poolRef != pool || !listed[k].deleting)
    decreases |listed|
  {
    if listed != [] {
      var c, rest := listed[0], listed[1..];
      assert listed == [c] + rest;
      ReachesFront(c, rest, pool, deletion);
      var after := if ToDelete(c, pool) && DeletionTakes(deletion(c.name)) then MarkDeleting(store, c.name) else store;
      PassCounts(after, rest, pool, deletion, if c.poolRef == pool && c.deleting then remaining + 1 else remaining);
      assert forall k :: 0 <= k < |rest| ==> listed[k + 1] == rest[k];
    }
  }
}
