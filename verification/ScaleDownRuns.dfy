/** Scale-downs over whole runs: how far apart they are, and that the pool keeps its minimum size. */
module ScaleDownRuns {
  import opened Common
  import opened Accounting
  import opened ScaleUp
  import opened ScaleDown

  datatype Policy = Policy(pool: string, minNodes: nat, window: int)

  /** The pool's nodes by name; `doomed` holds those whose claim was deleted, with the time of the deletion. */
  datatype World = World(state: PoolState, present: set<string>, doomed: map<string, int>, clock: int)

  datatype Action =
    | Down(input: ScaleDownInput)
    | Up(state: PoolState)
    | Leave(node: string)
    | Join(node: string)
    | Tick(time: int)

  function Outcome(w: World, p: Policy, i: ScaleDownInput): DownOutcome {
    ScaleDownStep(w.state, p.pool, p.minNodes, Some(p.window), i)
  }

  function Names(nodes: seq<NodeWithPods>): set<string> {
    set n | n in nodes :: n.node.name
  }

  /**
   A reconcile counts no more nodes than are present when it deletes and takes its candidates from those
   present; nodes leave only after their claim was deleted.
   */
  predicate Enabled(w: World, a: Action) {
    match a
    case Down(i) => SeesPresent(w, i) && |i.nodes| <= |w.present|
    case Up(s) =>
      s.lastScaleActivity == w.state.lastScaleActivity || s.lastScaleActivity == Some(w.clock)
    case Leave(n) => n in w.doomed
    case Join(_) => true
    case Tick(t) => w.clock <= t
  }

  predicate SeesPresent(w: World, i: ScaleDownInput) {
    w.clock <= i.now <= i.statusTime && (i.candidates.Some? ==> Names(i.candidates.value) <= w.present)
  }

  function Apply(w: World, p: Policy, a: Action): World {
    match a
    case Down(i) =>
      var o := Outcome(w, p, i);
      World(o.state, w.present,
            if o.deleted.Some? then w.doomed[o.deleted.value.0.node.name := i.now] else w.doomed,
            i.statusTime)
    case Up(s) => w.(state := s)
    case Leave(n) => w.(present := w.present - {n}, doomed := w.doomed - {n})
    case Join(n) => w.(present := w.present + {n})
    case Tick(t) => w.(clock := t)
  }

  ghost predicate Run(worlds: seq<World>, p: Policy, actions: seq<Action>) {
    && |worlds| == |actions| + 1
    && worlds[0].doomed == map[] && |worlds[0].present| >= p.minNodes
    && (worlds[0].state.lastScaleActivity.Some? ==> worlds[0].state.lastScaleActivity.value <= worlds[0].clock)
    && forall k :: 0 <= k < |actions| ==>
         Enabled(worlds[k], actions[k]) && worlds[k + 1] == Apply(worlds[k], p, actions[k])
  }

  // ----- the assumptions of the size guarantee

  /** The pool's status writes land, and deletions that take effect are acknowledged. */
  predicate WritesLand(a: Action) {
    a.Down? ==> !a.input.write.Rejected? && !a.input.deletion.Unacknowledged?
  }

  /** A node whose claim was deleted is gone before a window has passed. */
  predicate LeavesInTime(w: World, p: Policy, a: Action) {
    a.Down? ==> forall n :: n in w.doomed ==> a.input.now < w.doomed[n] + p.window
  }

  // ----- one step

  /** A deletion takes one node, listed and without evictable pods, when the window since the last activity is over. */
  lemma DeletionIsJustified(w: World, p: Policy, i: ScaleDownInput)
    requires Outcome(w, p, i).deleted.Some?
    ensures |i.nodes| > p.minNodes
    ensures i.candidates.Some?
    ensures
      var (n, c) := Outcome(w, p, i).deleted.value;
      n in i.candidates.value && Idle(n) && IsClaimOf(c, p.pool, n.node.name)
    ensures w.state.lastScaleActivity.Some? ==> i.now - w.state.lastScaleActivity.value >= p.window
    ensures WritesLand(Down(i)) ==> Outcome(w, p, i).state.lastScaleActivity == Some(i.statusTime)
    ensures Outcome(w, p, i).state.claims == MarkDeleting(w.state.claims, Outcome(w, p, i).deleted.value.1.name)
  {
    var v := FindVictim(IdleNodes(i.candidates.value), i.claims, p.pool);
    IdleNodesAreIdle(i.candidates.value, v.node);
  }

  lemma {:induction false} IdleNodesAreIdle(nodes: seq<NodeWithPods>, n: NodeWithPods)
    requires n in IdleNodes(nodes)
    ensures n in nodes && Idle(n)
  {
    var k := |nodes| - 1;
    if n in IdleNodes(nodes[..k]) {
      IdleNodesAreIdle(nodes[..k], n);
    }
  }

  lemma NothingDeletedKeepsActivity(w: World, p: Policy, i: ScaleDownInput)
    requires Outcome(w, p, i).deleted.None?
    ensures Outcome(w, p, i).state == w.state
  {
  }

  // ----- spacing

  ghost predicate ActivityInv(w: World) {
    w.state.lastScaleActivity.Some? ==> w.state.lastScaleActivity.value <= w.clock
  }

  lemma StepMovesActivity(w: World, p: Policy, a: Action)
    requires ActivityInv(w) && Enabled(w, a)
    ensures
      var w' := Apply(w, p, a);
      && ActivityInv(w') && w.clock <= w'.clock
      && (w.state.lastScaleActivity.Some? ==>
            w'.state.lastScaleActivity.Some?
            && w.state.lastScaleActivity.value <= w'.state.lastScaleActivity.value)
  {
    if a.Down? {
      if Outcome(w, p, a.input).deleted.Some? {
        DeletionIsJustified(w, p, a.input);
      } else {
        NothingDeletedKeepsActivity(w, p, a.input);
      }
    }
  }

  lemma {:induction false} ActivityIsPast(worlds: seq<World>, p: Policy, actions: seq<Action>, k: nat)
    requires Run(worlds, p, actions) && k < |worlds|
    ensures ActivityInv(worlds[k])
  {
    if k > 0 {
      ActivityIsPast(worlds, p, actions, k - 1);
      StepMovesActivity(worlds[k - 1], p, actions[k - 1]);
    }
  }

  lemma {:induction false} ActivityOnlyMovesOn(worlds: seq<World>, p: Policy, actions: seq<Action>, j: nat, k: nat)
    requires Run(worlds, p, actions) && j <= k < |worlds|
    ensures worlds[j].state.lastScaleActivity.Some? ==>
      && worlds[k].state.lastScaleActivity.Some?
      && worlds[j].state.lastScaleActivity.value <= worlds[k].state.lastScaleActivity.value
    decreases k - j
  {
    if j < k {
      ActivityIsPast(worlds, p, actions, j);
      StepMovesActivity(worlds[j], p, actions[j]);
      ActivityOnlyMovesOn(worlds, p, actions, j + 1, k);
    }
  }

  predicate Deletes(w: World, p: Policy, a: Action) {
    a.Down? && Outcome(w, p, a.input).deleted.Some?
  }

  /** Two scale-downs of a run are at least a window apart when the first one's status write landed. */
  lemma DeletionsAreSpaced(worlds: seq<World>, p: Policy, actions: seq<Action>, j: nat, k: nat)
    requires Run(worlds, p, actions) && j < k < |actions|
    requires Deletes(worlds[j], p, actions[j]) && Deletes(worlds[k], p, actions[k])
    requires WritesLand(actions[j])
    ensures actions[k].input.now - actions[j].input.now >= p.window
  {
    DeletionIsJustified(worlds[j], p, actions[j].input);
    ActivityOnlyMovesOn(worlds, p, actions, j + 1, k);
    DeletionIsJustified(worlds[k], p, actions[k].input);
  }

  // ----- the minimum size

  ghost predicate SizeInv(w: World, p: Policy) {
    && ActivityInv(w)
    && |w.present - w.doomed.Keys| >= p.minNodes
    && (forall n :: n in w.doomed ==>
          w.state.lastScaleActivity.Some? && w.doomed[n] <= w.state.lastScaleActivity.value)
  }

  lemma Cardinality(a: set<string>, b: set<string>)
    requires a <= b
    ensures |a| <= |b|
  {
    assert b == a + (b - a);
  }

  /** A deletion outside the window finds no node of an earlier one still present. */
  lemma NobodyIsDoomed(w: World, p: Policy, i: ScaleDownInput)
    requires SizeInv(w, p) && LeavesInTime(w, p, Down(i)) && Outcome(w, p, i).deleted.Some?
    ensures w.doomed == map[]
  {
    DeletionIsJustified(w, p, i);
    assert forall n :: n !in w.doomed;
  }

  /** The exact condition for one deletion: the pool keeps its minimum if and only if it has a node to spare. */
  lemma DeletionKeepsSizeIff(w: World, p: Policy, i: ScaleDownInput)
    requires SizeInv(w, p) && SeesPresent(w, i) && WritesLand(Down(i)) && LeavesInTime(w, p, Down(i))
    requires Outcome(w, p, i).deleted.Some?
    ensures SizeInv(Apply(w, p, Down(i)), p) <==> |w.present| > p.minNodes
  {
    DeletionIsJustified(w, p, i);
    NobodyIsDoomed(w, p, i);
    var name := Outcome(w, p, i).deleted.value.0.node.name;
    var w' := Apply(w, p, Down(i));
    assert w'.doomed.Keys == {name};
    assert name in w.present && |w.present - {name}| == |w.present| - 1;
  }

  /** The deletion, if there is one, keeps the minimum. */
  ghost predicate SafeFor(w: World, p: Policy, i: ScaleDownInput) {
    SizeInv(w, p) && Outcome(w, p, i).deleted.Some? ==> SizeInv(Apply(w, p, Down(i)), p)
  }

  /** What is deleted depends on the minimum only through the count of the nodes. */
  lemma MinimumOnlyGates(w: World, p: Policy, minNodes: nat, i: ScaleDownInput)
    ensures Outcome(w, p.(minNodes := minNodes), i).deleted.Some? <==>
      Outcome(w, p.(minNodes := 0), i).deleted.Some? && |i.nodes| > minNodes
  {
  }

  /**
   When the controller's test of the count protects the minimum: for every MinNodes if and only if the count
   is not above the number of nodes present at the deletion. Counting too few nodes does no harm.
   */
  lemma CountProtectsMinimumIff(w: World, p: Policy, i: ScaleDownInput)
    requires SeesPresent(w, i) && WritesLand(Down(i)) && LeavesInTime(w, p, Down(i))
    requires SizeInv(w, p.(minNodes := 0)) && Outcome(w, p.(minNodes := 0), i).deleted.Some?
    ensures (forall m: nat :: SafeFor(w, p.(minNodes := m), i)) <==> |i.nodes| <= |w.present|
  {
    if |i.nodes| <= |w.present| {
      forall m: nat ensures SafeFor(w, p.(minNodes := m), i) {
        MinimumOnlyGates(w, p, m, i);
        if SizeInv(w, p.(minNodes := m)) && |i.nodes| > m {
          DeletionKeepsSizeIff(w, p.(minNodes := m), i);
        }
      }
    } else {
      var q := p.(minNodes := |w.present|);
      NobodyIsDoomed(w, p.(minNodes := 0), i);
      assert w.present - w.doomed.Keys == w.present;
      MinimumOnlyGates(w, p, |w.present|, i);
      DeletionKeepsSizeIff(w, q, i);
      assert !SafeFor(w, q, i);
    }
  }

  lemma StepKeepsSize(w: World, p: Policy, a: Action)
    requires SizeInv(w, p) && Enabled(w, a) && WritesLand(a) && LeavesInTime(w, p, a)
    ensures SizeInv(Apply(w, p, a), p)
  {
    StepMovesActivity(w, p, a);
    match a
    case Down(i) =>
      if Outcome(w, p, i).deleted.Some? {
        DeletionIsJustified(w, p, i);
        DeletionKeepsSizeIff(w, p, i);
      } else {
        NothingDeletedKeepsActivity(w, p, i);
      }
    case Up(_) =>
    case Leave(n) => assert (w.present - {n}) - (w.doomed - {n}).Keys == w.present - w.doomed.Keys;
    case Join(n) => Cardinality(w.present - w.doomed.Keys, (w.present + {n}) - w.doomed.Keys);
    case Tick(_) =>
  }

  /**
   A pool never falls below MinNodes, in any run in which its status writes land, nodes leave only after
   their claim was deleted, they are gone within the stabilization window, and no count is too high.
   */
  lemma {:induction false} PoolKeepsMinimum(worlds: seq<World>, p: Policy, actions: seq<Action>, k: nat)
    requires Run(worlds, p, actions) && k < |worlds|
    requires forall j :: 0 <= j < |actions| ==>
      WritesLand(actions[j]) && LeavesInTime(worlds[j], p, actions[j])
    ensures SizeInv(worlds[k], p)
    ensures |worlds[k].present| >= p.minNodes
  {
    if k == 0 {
      assert worlds[0].present - worlds[0].doomed.Keys == worlds[0].present;
    } else {
      PoolKeepsMinimum(worlds, p, actions, k - 1);
      StepKeepsSize(worlds[k - 1], p, actions[k - 1]);
    }
    Cardinality(worlds[k].present - worlds[k].doomed.Keys, worlds[k].present);
  }

  /**
   The controller counts the nodes before it looks at the window, so a count can be too high: with two nodes
   counted, one of which is gone by the time the window is over, it deletes the claim of the last one
   although MinNodes is one.
   */
  lemma StaleCountUndershoots(p: Policy, gone: NodeWithPods, last: NodeWithPods, c: PoolClaim, activity: int)
    requires p.minNodes == 1 && p.window >= 0
    requires Idle(last) && IsClaimOf(c, p.pool, last.node.name)
    ensures
      var i := ScaleDownInput([gone, last], Some([last]), activity + p.window, _ => Some([c]), Accepted,
                              activity + p.window, Written);
      ScaleDownStep(PoolState([c], 1, Some(activity)), p.pool, 1, Some(p.window), i).deleted == Some((last, c))
  {
    assert [last][..0] == [];
    assert IdleNodes([last]) == [last];
    assert ClaimFor([c], p.pool, last.node.name) == Some(c);
  }
}
