/** What the claim controller eventually does: it brings a healthy claim to Ready and gives up on a hopeless one. */
module ClaimProgress {
  import opened Common
  import opened ClaimRecord
  import opened ClaimLifecycle
  import opened ClaimInvariants
  import opened ClaimRuns
  import opened ClaimTheorems

  // ----- giving up

  /**
   A reconcile that gets its turn and whose writes land, of a claim no node registers for: the lease
   is free or run out, the provider answers, and a launched machine has had its registration window.
   */
  predicate Hopeless(c: Claim, i: ReconcileInput) {
    var s := c.status;
    && !i.fetchFails && !c.deleting && c.finalizer
    && (IsLaunchLease(s.lease) ==> LeaseExpired(s.lease.value, i.launch.checkTime))
    && i.launch.clearWrite.Written? && i.launch.acquireWrite.Written? && i.launch.write.Written?
    && i.launch.existingNode.Missing? && i.launch.providerFound
    && i.registration.listing.Some? && FirstNodeFor(i.registration.listing.value, c.name).None?
    && i.registration.write.Written?
    && (s.providerID != "" && Launched in s.conditions ==>
          i.registration.checkTime - s.conditions[Launched].since > REGISTRATION_TIMEOUT)
  }

  lemma HopelessLaunchSpends(s: Status, i: LaunchInput)
    requires LifecycleInv(s) && s.providerID == "" && !IsTrue(s.conditions, Failed) && i.sized
    requires i.machine.Some? ==> i.machine.value != ""
    requires IsLaunchLease(s.lease) ==> LeaseExpired(s.lease.value, i.checkTime)
    requires i.clearWrite.Written? && i.acquireWrite.Written? && i.write.Written?
    requires i.existingNode.Missing? && i.providerFound
    ensures Rank(ReconcileLaunch(s, i).status) < Rank(s)
    ensures ReconcileLaunch(s, i).status.nodeName == s.nodeName
  {
    var held := TakeLease(s, i.holder, i.acquireTime);
    assert TakeLease(ClearLaunchLease(s), i.holder, i.acquireTime) == held;
    HoldingSpendsRank(held, i);
    assert held.launchAttempts < MAX_LAUNCH_ATTEMPTS ==> LaunchHolding(held, i).effects[0] == ProvisionCalled;
  }

  /** A registration phase that binds no node leaves the claim without one and adds no rank. */
  lemma UnboundRegistration(s: Status, claimName: string, i: RegistrationInput)
    requires LifecycleInv(s) && !IsTrue(s.conditions, Failed) && s.providerID != "" && s.nodeName == ""
    requires forall u :: NodeBound(u) !in ReconcileRegistration(s, claimName, i).effects
    ensures ReconcileRegistration(s, claimName, i).flow.Stop?
    ensures ReconcileRegistration(s, claimName, i).status.nodeName == ""
    ensures Rank(ReconcileRegistration(s, claimName, i).status) <= Rank(s)
    ensures (&& i.listing.Some? && FirstNodeFor(i.listing.value, claimName).None?
             && i.write.Written? && i.checkTime - s.conditions[Launched].since > REGISTRATION_TIMEOUT) ==>
      Rank(ReconcileRegistration(s, claimName, i).status) < Rank(s)
  {
    if i.listing.Some? && FirstNodeFor(i.listing.value, claimName).Some? {
      var u := FirstNodeFor(i.listing.value, claimName).value.uid;
      assert [NodeBound(u)][0] == NodeBound(u);
      assert NodeBound(u) !in ReconcileRegistration(s, claimName, i).effects;
    }
  }

  lemma LaunchKeepsNodeName(s: Status, i: LaunchInput)
    ensures ReconcileLaunch(s, i).status.nodeName == s.nodeName
  {
  }

  /** Without a binding, the phases never add rank, and a hopeless turn of a sized claim spends some. */
  lemma UnboundPhasesSpend(c: Claim, i: ReconcileInput)
    requires LifecycleInv(c.status) && ValidInput(i)
    requires c.status.nodeName == "" && !IsTrue(c.status.conditions, Failed)
    requires forall u :: NodeBound(u) !in RunPhases(c.status, c.name, i).effects
    ensures RunPhases(c.status, c.name, i).status.nodeName == ""
    ensures Rank(RunPhases(c.status, c.name, i).status) <= Rank(c.status)
    ensures Hopeless(c, i) && i.launch.sized ==> Rank(RunPhases(c.status, c.name, i).status) < Rank(c.status)
  {
    var s, l := c.status, ReconcileLaunch(c.status, i.launch);
    LaunchKeepsInv(s, i.launch);
    LaunchSpendsRank(s, i.launch);
    LaunchKeepsNodeName(s, i.launch);
    if s.providerID == "" && Hopeless(c, i) && i.launch.sized {
      HopelessLaunchSpends(s, i.launch);
    }
    if l.flow.Continue? {
      var r := ReconcileRegistration(l.status, c.name, i.registration);
      forall u ensures NodeBound(u) !in r.effects {
        if NodeBound(u) in r.effects {
          PartOfPhases(s, c.name, i, NodeBound(u));
        }
      }
      UnboundRegistration(l.status, c.name, i.registration);
    }
  }

  lemma PartOfPhases(s: Status, claimName: string, i: ReconcileInput, e: Effect)
    requires ReconcileLaunch(s, i.launch).flow.Continue?
    requires e in ReconcileRegistration(ReconcileLaunch(s, i.launch).status, claimName, i.registration).effects
    ensures e in RunPhases(s, claimName, i).effects
  {
    var l := ReconcileLaunch(s, i.launch);
    var o := RegisterAndInitialize(l.status, claimName, i);
    assert e in o.effects;
    assert RunPhases(s, claimName, i).effects == l.effects + o.effects;
  }

  // ----- over a run

  predicate HopelessStep(w: World, step: Step) {
    step.ReconcileStep? && Hopeless(w.claim, step.input)
  }

  /** Number of hopeless steps among `steps[from..until]`. */
  function HopelessSteps(worlds: seq<World>, steps: seq<Step>, from: nat, until: nat): nat
    requires from <= until <= |steps| < |worlds|
    decreases until
  {
    if from == until then 0
    else HopelessSteps(worlds, steps, from, until - 1) + (if HopelessStep(worlds[until - 1], steps[until - 1]) then 1 else 0)
  }

  function EffectsOf(w: World, step: Step): seq<Effect> {
    if step.ReconcileStep? then Reconcile(w.claim, step.input).effects else []
  }

  predicate BindsNothing(es: seq<Effect>) {
    forall k :: 0 <= k < |es| ==> !es[k].NodeBound?
  }

  /** A claim that is not Failed and stays unbound: its rank does not grow, and a hopeless turn lowers it. */
  lemma UnboundStepSpends(w: World, step: Step, w': World)
    requires LifecycleInv(w.claim.status) && Next(w, step, w') && BindsNothing(EffectsOf(w, step))
    requires w.claim.status.nodeName == "" && !IsTrue(w.claim.status.conditions, Failed)
    ensures w'.claim.status.nodeName == "" && w'.claim.sized == w.claim.sized
    ensures Rank(w'.claim.status) <= Rank(w.claim.status)
    ensures HopelessStep(w, step) && w.claim.sized ==> Rank(w'.claim.status) < Rank(w.claim.status)
  {
    if step.ReconcileStep? {
      var c, i := w.claim, step.input;
      if !i.fetchFails && !c.deleting && c.finalizer {
        assert Reconcile(c, i).effects == RunPhases(c.status, c.name, i).effects;
        UnboundPhasesSpend(c, i);
      }
    }
  }

  /** The two ways a stretch without a binding can end. */
  ghost predicate Spent(worlds: seq<World>, steps: seq<Step>, from: nat, until: nat)
    requires from <= until <= |steps| < |worlds|
  {
    || HasFailed(worlds[until])
    || (worlds[until].claim.status.nodeName == "" &&
        Rank(worlds[until].claim.status) + HopelessSteps(worlds, steps, from, until) <= Rank(worlds[from].claim.status))
  }

  ghost predicate UnboundStretch(worlds: seq<World>, steps: seq<Step>, from: nat, until: nat)
    requires from <= until <= |steps| < |worlds|
  {
    && worlds[from].claim.status.nodeName == ""
    && forall k :: from <= k < until ==> BindsNothing(EffectsOf(worlds[k], steps[k]))
  }

  /** What the stretch up to `k` has shown carries over step `k`. */
  ghost predicate CarriesOver(worlds: seq<World>, steps: seq<Step>, from: nat, k: nat)
    requires from <= k < |steps| < |worlds|
  {
    Spent(worlds, steps, from, k) && worlds[k].claim.sized ==>
      Spent(worlds, steps, from, k + 1) && worlds[k + 1].claim.sized
  }

  lemma {:induction false} SpentUntil(worlds: seq<World>, steps: seq<Step>, from: nat, until: nat)
    requires from <= until <= |steps| < |worlds| && worlds[from].claim.sized
    requires Spent(worlds, steps, from, from)
    requires forall k :: from <= k < until ==> CarriesOver(worlds, steps, from, k)
    ensures Spent(worlds, steps, from, until) && worlds[until].claim.sized
    decreases until
  {
    if from < until {
      SpentUntil(worlds, steps, from, until - 1);
      assert CarriesOver(worlds, steps, from, until - 1);
    }
  }

  lemma StretchStep(worlds: seq<World>, steps: seq<Step>, from: nat, k: nat)
    requires Run(worlds, steps) && from <= k < |steps|
    requires BindsNothing(EffectsOf(worlds[k], steps[k]))
    ensures CarriesOver(worlds, steps, from, k)
  {
    EveryRecordIsWellShaped(worlds, steps, k);
    StepKeepsSpec(worlds[k], steps[k], worlds[k + 1]);
    if HasFailed(worlds[k]) {
      FailedOneStep(worlds, steps, k);
    } else if worlds[k].claim.status.nodeName == "" {
      UnboundStepSpends(worlds[k], steps[k], worlds[k + 1]);
    }
  }

  lemma StepKeepsSpec(w: World, step: Step, w': World)
    requires Next(w, step, w')
    ensures w'.claim.sized == w.claim.sized && w'.claim.name == w.claim.name
  {
  }

  /**
   A claim for which no node registers ends Failed: once a run holds, in any stretch without a binding, as
   many hopeless turns as the claim's rank at its start. Turns lost to a lease, to errors or to lost writes
   may come in between, in any number and order.
   */
  lemma HopelessClaimFails(worlds: seq<World>, steps: seq<Step>, from: nat, until: nat)
    requires Run(worlds, steps) && from <= until <= |steps|
    requires UnboundStretch(worlds, steps, from, until) && worlds[from].claim.sized
    requires HopelessSteps(worlds, steps, from, until) >= Rank(worlds[from].claim.status)
    ensures HasFailed(worlds[until])
  {
    forall k | from <= k < until ensures CarriesOver(worlds, steps, from, k) {
      StretchStep(worlds, steps, from, k);
    }
    SpentUntil(worlds, steps, from, until);
    EveryRecordIsWellShaped(worlds, steps, until);
  }

  // ----- a claim without requirements

  /** Nothing was ever launched for the claim, and it has not been given up. */
  predicate Untouched(s: Status) {
    s.(lease := None, conditions := map[]) == NEW_STATUS && !IsTrue(s.conditions, Failed)
  }

  lemma UnsizedLaunchStops(s: Status, i: LaunchInput)
    requires Untouched(s) && !i.sized
    ensures Untouched(ReconcileLaunch(s, i).status) && ReconcileLaunch(s, i).effects == []
    ensures ReconcileLaunch(s, i).flow.Stop?
  {
    LaunchIsHolding(s, i);
  }

  lemma UnsizedStep(w: World, step: Step, w': World)
    requires Next(w, step, w') && !w.claim.sized && Untouched(w.claim.status)
    ensures !w'.claim.sized && Untouched(w'.claim.status)
    ensures forall e :: e in EffectsOf(w, step) ==> !e.ProvisionCalled?
  {
    if step.ReconcileStep? {
      UnsizedLaunchStops(w.claim.status, step.input.launch);
    }
  }

  /**
   The size of a claim is what giving up depends on: a claim whose spec has no requirements panics in every
   launch, so no run ever provisions a machine for it, counts an attempt, or marks it Failed.
   */
  lemma {:induction false} UnsizedClaimIsStuck(worlds: seq<World>, steps: seq<Step>, k: nat)
    requires Run(worlds, steps) && k < |worlds| && !worlds[0].claim.sized
    ensures !worlds[k].claim.sized && Untouched(worlds[k].claim.status) && !HasFailed(worlds[k])
    ensures k < |steps| ==> forall e :: e in EffectsOf(worlds[k], steps[k]) ==> !e.ProvisionCalled?
  {
    if k > 0 {
      UnsizedClaimIsStuck(worlds, steps, k - 1);
      UnsizedOneStep(worlds, steps, k - 1);
    }
    if k < |steps| {
      UnsizedOneStep(worlds, steps, k);
    }
  }

  lemma UnsizedOneStep(worlds: seq<World>, steps: seq<Step>, k: nat)
    requires Run(worlds, steps) && k < |steps| && !worlds[k].claim.sized && Untouched(worlds[k].claim.status)
    ensures !worlds[k + 1].claim.sized && Untouched(worlds[k + 1].claim.status)
    ensures forall e :: e in EffectsOf(worlds[k], steps[k]) ==> !e.ProvisionCalled?
  {
    UnsizedStep(worlds[k], steps[k], worlds[k + 1]);
  }

  /** A new claim that never gets a node ends Failed after six hopeless turns exactly if its spec has requirements. */
  lemma HopelessNewClaimFailsIffSized(worlds: seq<World>, steps: seq<Step>, until: nat)
    requires Run(worlds, steps) && until <= |steps|
    requires UnboundStretch(worlds, steps, 0, until)
    requires HopelessSteps(worlds, steps, 0, until) >= 6
    ensures HasFailed(worlds[until]) <==> worlds[0].claim.sized
  {
    if worlds[0].claim.sized {
      assert Rank(NEW_STATUS) == 6;
      HopelessClaimFails(worlds, steps, 0, until);
    } else {
      UnsizedClaimIsStuck(worlds, steps, until);
    }
  }

  // ----- succeeding

  const QUIET := ReconcileInput(
    false, Written,
    LaunchInput(true, "worker", 0, Written, 0, Written, Missing, true, Some("machine"), 0, Written, Written),
    RegistrationInput(Some([]), true, true, 0, true, 0, Written),
    InitializationInput(Unavailable, 0, Refused, true, 0, Written),
    FinalizeInput(Missing, Refused, true, Written))

  function JoinedNode(name: string): Node {
    Node(name, 0, None, false, [NodeCondition(true, true, None)])
  }

  function JoinedNodes(name: string): Nodes {
    Nodes(map[name := JoinedNode(name)], {0})
  }

  function JoinInput(name: string): ReconcileInput {
    QUIET.(launch := QUIET.launch.(existingNode := Unavailable),
           registration := QUIET.registration.(listing := Some([JoinedNode(name)])),
           initialization := QUIET.initialization.(node := Found(JoinedNode(name))))
  }

  const LAUNCHED_STATUS := Status("machine", "", 1, map[Launched := Condition(true, 0)], None)

  lemma LaunchesNewClaim(name: string)
    ensures
      var o := Reconcile(Claim(name, true, true, false, NEW_STATUS), QUIET);
      o.claim.status == LAUNCHED_STATUS && o.effects == [ProvisionCalled, LaunchStored(0)]
  {
    var held := TakeLease(NEW_STATUS, "worker", 0);
    assert LaunchHolding(held, QUIET.launch).status == LaunchSucceeded(held, "machine", 1, 0);
    assert ReconcileLaunch(NEW_STATUS, QUIET.launch).status == LAUNCHED_STATUS;
    assert FirstNodeFor([], name) == None;
  }

  lemma RegistersJoinedNode(name: string)
    ensures
      var s := Reconcile(Claim(name, true, true, false, LAUNCHED_STATUS), JoinInput(name)).claim.status;
      s.nodeName == name && (name != "" ==> IsTrue(s.conditions, Ready))
  {
    var nodes := [JoinedNode(name)];
    assert IsNodeFor(nodes[0], name);
    assert FirstNodeFor(nodes, name) == Some(nodes[0]);
    var c := JoinedNode(name).conditions;
    assert c[0] in c && IsReady(c);
  }

  const EMPTY := Nodes(map[], {})

  function Fresh(name: string): World {
    World(Claim(name, true, false, false, NEW_STATUS), EMPTY, [])
  }

  function Protected(name: string): World {
    World(Claim(name, true, true, false, NEW_STATUS), EMPTY, [FinalizerPersisted])
  }

  function LaunchedWorld(name: string): World {
    World(Claim(name, true, true, false, LAUNCHED_STATUS), EMPTY, [FinalizerPersisted, ProvisionCalled, LaunchStored(0)])
  }

  function JoinedWorld(name: string): World {
    LaunchedWorld(name).(nodes := JoinedNodes(name))
  }

  function ReadyWorld(name: string): World {
    var w := JoinedWorld(name);
    var o := Reconcile(w.claim, JoinInput(name));
    World(o.claim, w.nodes, w.log + o.effects)
  }

  lemma FinalizerStep(name: string)
    ensures Next(Fresh(name), ReconcileStep(QUIET, EMPTY, EMPTY, EMPTY), Protected(name))
  {
  }

  lemma LaunchStep(name: string)
    ensures Next(Protected(name), ReconcileStep(QUIET, EMPTY, EMPTY, EMPTY), LaunchedWorld(name))
  {
    LaunchesNewClaim(name);
  }

  lemma JoinStep(name: string)
    requires name != ""
    ensures Next(LaunchedWorld(name), Environment, JoinedWorld(name))
  {
  }

  lemma RegisterStep(name: string)
    requires name != ""
    ensures
      var nodes := JoinedNodes(name);
      Next(JoinedWorld(name), ReconcileStep(JoinInput(name), nodes, nodes, nodes), ReadyWorld(name))
    ensures IsTrue(ReadyWorld(name).claim.status.conditions, Ready)
  {
    RegistersJoinedNode(name);
  }

  /** The runs are not empty of meaning: one of them takes a new claim all the way to Ready. */
  lemma SomeRunReachesReady(name: string) returns (worlds: seq<World>, steps: seq<Step>)
    requires name != ""
    ensures Run(worlds, steps)
    ensures IsTrue(worlds[|steps|].claim.status.conditions, Ready)
  {
    var quiet := ReconcileStep(QUIET, EMPTY, EMPTY, EMPTY);
    worlds, steps := [Fresh(name)], [];
    FinalizerStep(name);
    worlds, steps := AppendStep(worlds, steps, quiet, Protected(name));
    LaunchStep(name);
    worlds, steps := AppendStep(worlds, steps, quiet, LaunchedWorld(name));
    JoinStep(name);
    worlds, steps := AppendStep(worlds, steps, Environment, JoinedWorld(name));
    RegisterStep(name);
    var nodes := JoinedNodes(name);
    worlds, steps := AppendStep(
      worlds, steps, ReconcileStep(JoinInput(name), nodes, nodes, nodes), ReadyWorld(name));
  }

  lemma AppendStep(worlds: seq<World>, steps: seq<Step>, step: Step, w: World)
    returns (worlds': seq<World>, steps': seq<Step>)
    requires Run(worlds, steps) && Next(worlds[|steps|], step, w)
    ensures worlds' == worlds + [w] && steps' == steps + [step] && Run(worlds', steps')
  {
    worlds', steps' := worlds + [w], steps + [step];
    forall k | 0 <= k < |steps'| ensures Next(worlds'[k], steps'[k], worlds'[k + 1]) {
      if k < |steps| {
        assert Next(worlds[k], steps[k], worlds[k + 1]);
      }
    }
  }

  // ----- how many turns it takes

  datatype History = History(worlds: seq<World>, steps: seq<Step>)

  /** A run of a new claim that never binds a node. */
  ghost predicate Unbound(h: History) {
    Run(h.worlds, h.steps) && UnboundStretch(h.worlds, h.steps, 0, |h.steps|)
  }

  function Last(h: History): World
    requires |h.worlds| == |h.steps| + 1
  {
    h.worlds[|h.steps|]
  }

  function Turns(h: History): nat
    requires |h.worlds| == |h.steps| + 1
  {
    HopelessSteps(h.worlds, h.steps, 0, |h.steps|)
  }

  lemma {:induction false} HopelessInPrefix(
    worlds: seq<World>, steps: seq<Step>, worlds': seq<World>, steps': seq<Step>, n: nat)
    requires worlds <= worlds' && steps <= steps' && |steps'| < |worlds'| && n <= |steps| < |worlds|
    ensures HopelessSteps(worlds', steps', 0, n) == HopelessSteps(worlds, steps, 0, n)
  {
    if n > 0 {
      HopelessInPrefix(worlds, steps, worlds', steps', n - 1);
    }
  }

  lemma UnboundLonger(worlds: seq<World>, steps: seq<Step>, step: Step, w: World)
    requires |worlds| == |steps| + 1 && UnboundStretch(worlds, steps, 0, |steps|)
    requires BindsNothing(EffectsOf(worlds[|steps|], step))
    ensures UnboundStretch(worlds + [w], steps + [step], 0, |steps| + 1)
  {
    var worlds', steps' := worlds + [w], steps + [step];
    assert worlds'[|steps|] == worlds[|steps|];
    forall k | 0 <= k < |steps| ensures worlds'[k] == worlds[k] && steps'[k] == steps[k] {
    }
  }

  lemma Extend(h: History, step: Step, w: World) returns (h': History)
    requires Unbound(h) && Next(Last(h), step, w) && BindsNothing(EffectsOf(Last(h), step))
    ensures Unbound(h') && Last(h') == w
    ensures Turns(h') == Turns(h) + if HopelessStep(Last(h), step) then 1 else 0
  {
    var worlds, steps := AppendStep(h.worlds, h.steps, step, w);
    UnboundLonger(h.worlds, h.steps, step, w);
    HopelessInPrefix(h.worlds, h.steps, worlds, steps, |h.steps|);
    h' := History(worlds, steps);
  }

  /** A claim in the middle of its attempts, with a machine up or not. */
  predicate Trying(w: World, up: bool) {
    var c := w.claim;
    && c.sized && c.finalizer && !c.deleting && w.nodes == EMPTY
    && (c.status.providerID != "" <==> up) && c.status.nodeName == ""
    && c.status.lease == None && !IsTrue(c.status.conditions, Failed) && (IsTrue(c.status.conditions, Launched) <==> up)
  }

  function Attempts(w: World): int {
    w.claim.status.launchAttempts
  }

  function After(w: World, i: ReconcileInput): World {
    var o := Reconcile(w.claim, i);
    World(o.claim, w.nodes, w.log + o.effects)
  }

  /** Late enough for the machine of `w` to have had its registration window. */
  function LateInput(w: World): ReconcileInput {
    var since := if Launched in w.claim.status.conditions then w.claim.status.conditions[Launched].since else 0;
    QUIET.(registration := QUIET.registration.(checkTime := since + REGISTRATION_TIMEOUT + 1))
  }

  /** A reconcile of a cluster without nodes, by one of the two inputs, is a step of a run. */
  lemma EmptyClusterStep(w: World, checkTime: int)
    requires w.nodes == EMPTY && w.claim.sized
    ensures
      var i := QUIET.(registration := QUIET.registration.(checkTime := checkTime));
      Next(w, ReconcileStep(i, EMPTY, EMPTY, EMPTY), After(w, i))
  {
  }

  lemma LaunchTurn(w: World)
    requires Trying(w, false) && 0 <= Attempts(w) < MAX_LAUNCH_ATTEMPTS
    ensures Hopeless(w.claim, QUIET) && BindsNothing(Reconcile(w.claim, QUIET).effects)
    ensures Trying(After(w, QUIET), true) && Attempts(After(w, QUIET)) == Attempts(w) + 1
  {
    var s := w.claim.status;
    var l := ReconcileLaunch(s, QUIET.launch);
    assert l.status == LaunchSucceeded(s, "machine", Attempts(w) + 1, 0);
    assert l.effects == [ProvisionCalled, LaunchStored(0)];
    assert FirstNodeFor([], w.claim.name) == None;
    assert RunPhases(s, w.claim.name, QUIET).effects == l.effects + [];
  }

  lemma TimeoutTurn(w: World)
    requires Trying(w, true) && 1 <= Attempts(w) < MAX_LAUNCH_ATTEMPTS
    ensures Hopeless(w.claim, LateInput(w)) && BindsNothing(Reconcile(w.claim, LateInput(w)).effects)
    ensures Trying(After(w, LateInput(w)), false) && Attempts(After(w, LateInput(w))) == Attempts(w)
  {
    assert FirstNodeFor([], w.claim.name) == None;
  }

  lemma LaunchAgain(h: History) returns (h': History)
    requires Unbound(h) && Trying(Last(h), false) && 0 <= Attempts(Last(h)) < MAX_LAUNCH_ATTEMPTS
    ensures Unbound(h') && Trying(Last(h'), true)
    ensures Attempts(Last(h')) == Attempts(Last(h)) + 1 && Turns(h') == Turns(h) + 1
  {
    var w := Last(h);
    LaunchTurn(w);
    EmptyClusterStep(w, QUIET.registration.checkTime);
    h' := Extend(h, ReconcileStep(QUIET, EMPTY, EMPTY, EMPTY), After(w, QUIET));
  }

  lemma TimeOut(h: History) returns (h': History)
    requires Unbound(h) && Trying(Last(h), true) && 1 <= Attempts(Last(h)) < MAX_LAUNCH_ATTEMPTS
    ensures Unbound(h') && Trying(Last(h'), false)
    ensures Attempts(Last(h')) == Attempts(Last(h)) && Turns(h') == Turns(h) + 1
  {
    var w := Last(h);
    TimeoutTurn(w);
    EmptyClusterStep(w, LateInput(w).registration.checkTime);
    h' := Extend(h, ReconcileStep(LateInput(w), EMPTY, EMPTY, EMPTY), After(w, LateInput(w)));
  }

  lemma Begin(name: string) returns (h: History)
    ensures Unbound(h) && Trying(Last(h), false) && Attempts(Last(h)) == 0 && Turns(h) == 0
  {
    FinalizerStep(name);
    h := Extend(History([Fresh(name)], []), ReconcileStep(QUIET, EMPTY, EMPTY, EMPTY), Protected(name));
  }

  /** Launches and timeouts alternate, so up to five hopeless turns can leave the claim unfailed. */
  lemma {:induction false} StillTrying(launched: nat) returns (h: History)
    requires launched < MAX_LAUNCH_ATTEMPTS
    ensures Unbound(h) && Trying(Last(h), false) && Attempts(Last(h)) == launched && Turns(h) == 2 * launched
  {
    if launched == 0 {
      h := Begin("claim");
    } else {
      h := StillTrying(launched - 1);
      h := LaunchAgain(h);
      h := TimeOut(h);
    }
  }

  /** Every claim with requirements has failed after that many hopeless turns without a binding. */
  ghost predicate AlwaysFailedAfter(turns: nat) {
    forall h :: Unbound(h) && Turns(h) == turns && Last(h).claim.sized ==> HasFailed(Last(h))
  }

  lemma SixTurnsFail(h: History)
    requires Unbound(h) && Last(h).claim.sized && Turns(h) >= 6
    ensures HasFailed(Last(h))
  {
    if !h.worlds[0].claim.sized {
      UnsizedClaimIsStuck(h.worlds, h.steps, |h.steps|);
    }
    HopelessNewClaimFailsIffSized(h.worlds, h.steps, |h.steps|);
  }

  /** The exact number is six: a launch and a timeout for each of the three attempts. */
  lemma TurnsSufficeIff(turns: nat)
    ensures AlwaysFailedAfter(turns) <==> turns >= 6
  {
    if turns < 6 {
      var h := StillTrying(turns / 2);
      if turns % 2 == 1 {
        h := LaunchAgain(h);
      }
      assert Turns(h) == turns && !HasFailed(Last(h));
    } else {
      forall h | Unbound(h) && Turns(h) == turns && Last(h).claim.sized ensures HasFailed(Last(h)) {
        SixTurnsFail(h);
      }
    }
  }
}
