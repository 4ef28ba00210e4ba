/**
 The whole control plane in one state machine: operator calls, callback batches, cooldown passes, key
 calls, deploys and worker passes, in any order, to any paths, and with any failures. What every run
 keeps, and exactly when a file, a live key or an active key row comes apart from the records.
 */
module ControlPlane {
  import opened Prelude
  import opened Schema
  import opened Store
  import opened AuditReplay
  import opened StateMachine
  import opened HealthRuns
  import opened KeyManager
  import opened KeyAborts
  import opened KeyLeaks
  import opened Orchestrator
  import opened Reconcile

  /** Each deploy and pass brings its own view of secrets, environment and row order, and a pass the
      nodes whose master key is configured. */
  datatype Event =
    | Batch(items: seq<Ingestion.Item>, validating: bool)
    | Cooldowns(input: Probe.PassInput, worker: string)
    | Keys(call: KeyCall)
    | ManualDeploy(node: Id, path: string, attempt: Attempt, view: View)
    | WorkerPass(node: Id, over: PassOver, view: View, configured: set<Id>)

  // ---------- A worker pass whose key repair may end early ----------

  function OrphanActs(n: Id, orphans: seq<Id>, oracle: (Id, Id) -> Reply): seq<KeyAct> {
    if orphans == [] then []
    else
      var c := orphans[|orphans| - 1];
      OrphanActs(n, orphans[..|orphans| - 1], oracle) + [DropAct(c, n, oracle(c, n), WORKER)]
  }

  function RepairActs(w: World, n: Id, drift: DriftReport, over: PassOver): seq<KeyAct> {
    ActsOfSyncs(w, drift.missing, over.nodeOrder, over.oracle) + OrphanActs(n, drift.orphaned, over.oracle)
  }

  /** The act looks up a master key that is not configured. */
  predicate Stops(t: Tables, a: KeyAct, configured: set<Id>) {
    match a
    case SyncAct(c, n, _) => Registered(t, c, n) && n !in configured
    case DropAct(c, n, _, _) => Revokes(t, c, n) && n !in configured
    case _ => false
  }

  /** How many acts are done before the first that stops. */
  function Done(w: World, acts: seq<KeyAct>, configured: set<Id>): (k: nat)
    ensures k <= |acts|
  {
    if acts == [] then 0
    else
      var n := |acts| - 1;
      var k := Done(w, acts[..n], configured);
      if k < n || Stops(ActAll(w, acts[..n]).db.t, acts[n], configured) then k else |acts|
  }

  /** What needs a master key: a sync of a registered consumer on a node, and the revocation of a real key
      of a row that is not pending. */
  lemma StopsIff(t: Tables, a: KeyAct, configured: set<Id>)
    ensures a.SyncAct? ==>
              (Stops(t, a, configured) <==> a.consumer in t.consumers && a.node in t.nodes && a.node !in configured)
    ensures a.DropAct? ==>
              (Stops(t, a, configured) <==>
                 && (a.consumer, a.node) in t.keys && t.keys[(a.consumer, a.node)].key.Issued?
                 && t.keys[(a.consumer, a.node)].status != PendingSync && a.node in t.nodes && a.node !in configured)
    ensures !a.SyncAct? && !a.DropAct? ==> !Stops(t, a, configured)
  {
  }

  /** The acts done are exactly those before the first that stops. */
  lemma {:induction false} DoneUntilStop(w: World, acts: seq<KeyAct>, configured: set<Id>, i: nat)
    requires i < |acts|
    ensures i < Done(w, acts, configured) ==> !Stops(ActAll(w, acts[..i]).db.t, acts[i], configured)
    ensures i == Done(w, acts, configured) ==> Stops(ActAll(w, acts[..i]).db.t, acts[i], configured)
  {
    var n := |acts| - 1;
    if i < n {
      DoneUntilStop(w, acts[..n], configured, i);
      assert acts[..n][..i] == acts[..i];
    }
  }

  function AfterDeploy(s: System, tools: Tools, n: Id, path: string, over: PassOver): System {
    var noted := Noted(s, n);
    if DetectDrift(s.w.db.t, s.disk, tools, n, path, over).config then Redeploy(noted, tools, n, path, over.attempt)
    else noted
  }

  /** The acts of the key repair of a pass. An error in it is swallowed and its rows are kept. */
  function PassActs(s: System, tools: Tools, n: Id, path: string, over: PassOver, configured: set<Id>): seq<KeyAct> {
    var w := AfterDeploy(s, tools, n, path, over).w;
    var acts := RepairActs(w, n, DetectDrift(s.w.db.t, s.disk, tools, n, path, over), over);
    acts[..Done(w, acts, configured)]
  }

  predicate FindsDrift(s: System, tools: Tools, n: Id, over: PassOver) {
    && PathFor(s, n, over).Some? && n in s.w.db.t.nodes
    && DetectDrift(s.w.db.t, s.disk, tools, n, PathFor(s, n, over).value, over) != NO_DRIFT
  }

  function ReconcilePass(s: System, tools: Tools, n: Id, over: PassOver, configured: set<Id>): System {
    if !FindsDrift(s, tools, n, over) then s
    else
      var path := PathFor(s, n, over).value;
      var deployed := AfterDeploy(s, tools, n, path, over);
      deployed.(w := ActAll(deployed.w, PassActs(s, tools, n, path, over, configured)))
  }

  lemma {:induction false} DropOrphansAreActs(w: World, n: Id, orphans: seq<Id>, oracle: (Id, Id) -> Reply)
    ensures DropOrphans(w, n, orphans, oracle) == ActAll(w, OrphanActs(n, orphans, oracle))
  {
    if orphans != [] {
      var m := |orphans| - 1;
      DropOrphansAreActs(w, n, orphans[..m], oracle);
      ActOneMore(w, OrphanActs(n, orphans[..m], oracle), DropAct(orphans[m], n, oracle(orphans[m], n), WORKER));
    }
  }

  lemma {:induction false} AllDone(w: World, acts: seq<KeyAct>, configured: set<Id>)
    requires forall n :: n in w.db.t.nodes ==> n in configured
    requires forall i :: 0 <= i < |acts| ==> !acts[i].StoreAct?
    ensures Done(w, acts, configured) == |acts| && ActAll(w, acts).db.t.nodes == w.db.t.nodes
  {
    if acts != [] {
      var k := |acts| - 1;
      AllDone(w, acts[..k], configured);
      ActKeepsNodes(ActAll(w, acts[..k]), acts[k]);
    }
  }

  lemma ActKeepsNodes(w: World, a: KeyAct)
    requires !a.StoreAct?
    ensures Act(w, a).db.t.nodes == w.db.t.nodes && Act(w, a).db.rollouts == w.db.rollouts
  {
    match a
    case SyncAct(c, n, r) => SyncNodeEffect(w, c, n, r);
    case DropAct(c, n, r, actor) => DropKeyRemoves(w, c, n, r, actor);
    case _ =>
  }

  lemma {:induction false} RepairActsStoreNothing(w: World, consumers: seq<Id>, n: Id, orphans: seq<Id>, order: seq<Id>,
                                                  oracle: (Id, Id) -> Reply)
    ensures forall i :: 0 <= i < |ActsOfSyncs(w, consumers, order, oracle)| ==>
              !ActsOfSyncs(w, consumers, order, oracle)[i].StoreAct?
    ensures forall i :: 0 <= i < |OrphanActs(n, orphans, oracle)| ==> !OrphanActs(n, orphans, oracle)[i].StoreAct?
    decreases |consumers| + |orphans|
  {
    if consumers != [] {
      var m := |consumers| - 1;
      RepairActsStoreNothing(w, consumers[..m], n, orphans, order, oracle);
      SyncActsStoreNothing(consumers[m], ActiveProxies(SyncEach(w, consumers[..m], order, oracle).db.t, order), oracle);
    }
    if orphans != [] {
      RepairActsStoreNothing(w, consumers, n, orphans[..|orphans| - 1], order, oracle);
    }
  }

  lemma {:induction false} SyncActsStoreNothing(c: Id, nodes: seq<Id>, oracle: (Id, Id) -> Reply)
    ensures forall i :: 0 <= i < |SyncActs(c, nodes, oracle)| ==> !SyncActs(c, nodes, oracle)[i].StoreAct?
  {
    if nodes != [] {
      SyncActsStoreNothing(c, nodes[..|nodes| - 1], oracle);
    }
  }

  lemma RepairIsActs(w: World, n: Id, drift: DriftReport, over: PassOver)
    ensures RepairKeys(w, n, drift, over) == ActAll(w, RepairActs(w, n, drift, over))
  {
    var syncs := ActsOfSyncs(w, drift.missing, over.nodeOrder, over.oracle);
    SyncEachIsActs(w, drift.missing, over.nodeOrder, over.oracle);
    DropOrphansAreActs(ActAll(w, syncs), n, drift.orphaned, over.oracle);
    ActAppend(w, syncs, OrphanActs(n, drift.orphaned, over.oracle));
  }

  lemma RepairStoresNothing(w: World, n: Id, drift: DriftReport, over: PassOver, i: nat)
    requires i < |RepairActs(w, n, drift, over)|
    ensures !RepairActs(w, n, drift, over)[i].StoreAct?
  {
    RepairActsStoreNothing(w, drift.missing, n, drift.orphaned, over.nodeOrder, over.oracle);
  }

  /** With every master key configured, the pass is the whole of ReconcileNode. */
  lemma ConfiguredPassIsWhole(s: System, tools: Tools, n: Id, over: PassOver, configured: set<Id>)
    requires forall m :: m in s.w.db.t.nodes ==> m in configured
    ensures ReconcilePass(s, tools, n, over, configured) == ReconcileNode(s, tools, n, over)
  {
    if FindsDrift(s, tools, n, over) {
      var path := PathFor(s, n, over).value;
      var w, drift := AfterDeploy(s, tools, n, path, over).w, DetectDrift(s.w.db.t, s.disk, tools, n, path, over);
      var acts := RepairActs(w, n, drift, over);
      forall i | 0 <= i < |acts| ensures !acts[i].StoreAct? { RepairStoresNothing(w, n, drift, over, i); }
      AllDone(w, acts, configured);
      assert acts[..|acts|] == acts;
      RepairIsActs(w, n, drift, over);
    }
  }

  // ---------- Runs ----------

  function WithDb(s: System, db: Db): System {
    s.(w := s.w.(db := db))
  }

  /** A deploy through the API: when it raises, its rows are rolled back and its file stays. */
  function ApiDeployed(s: System, tools: Tools, n: Id, path: string, a: Attempt): System {
    var after := Redeploy(s, tools, n, path, a);
    var ending := Deploy(s.w.db.t, Site(s.w.db.rollouts, s.disk), tools, n, path, a).1;
    if ending == Raised then after.(w := s.w) else after
  }

  function Next(s: System, tools: Tools, e: Event): System {
    match e
    case Batch(items, validating) => WithDb(s, Ingestion.Ingest(s.w.db, items, validating))
    case Cooldowns(input, worker) => WithDb(s, Probe.ReconcileCooldowns(s.w.db, input, worker))
    case Keys(call) => s.(w := TakeCall(s.w, call))
    case ManualDeploy(n, path, a, view) => ApiDeployed(s, Through(tools, view), n, path, a)
    case WorkerPass(n, over, view, configured) => ReconcilePass(s, Through(tools, view), n, over, configured)
  }

  function RunAll(s: System, tools: Tools, events: seq<Event>): System {
    if |events| == 0 then s
    else Next(RunAll(s, tools, events[..|events| - 1]), tools, events[|events| - 1])
  }

  /** All that is asked of a run: the rollout rows of a deploy have new ids and later timestamps. */
  predicate FreshEvent(s: System, e: Event) {
    match e
    case ManualDeploy(_, _, a, _) => Fresh(s.w.db.rollouts, a)
    case WorkerPass(_, over, _, _) => Fresh(s.w.db.rollouts, over.attempt)
    case _ => true
  }

  predicate FreshEvents(s: System, tools: Tools, events: seq<Event>) {
    if |events| == 0 then true
    else
      var n := |events| - 1;
      FreshEvents(s, tools, events[..n]) && FreshEvent(RunAll(s, tools, events[..n]), events[n])
  }

  // ---------- What every run keeps ----------

  /** Foreign keys hold; replaying the audit log rebuilds the registry; active endpoints and accounts are
      clean; key rows are managed and share no key; and every rollout history is good. */
  ghost predicate Core(w: World, hash: string -> string) {
    Invariant(w.db) && Accounted(w) && GoodHistory(w.db.rollouts, hash)
  }

  const START := System(World(EMPTY_DB, Proxies(map[], 0)), map[], map[])

  lemma StartIsFine(hash: string -> string)
    ensures Core(START.w, hash)
  {
    ReachableInvariant([]);
  }

  /** Only health columns and histories of the database may differ. */
  predicate LeavesRest(db: Db, after: Db) {
    after.t.keys == db.t.keys && after.rollouts == db.rollouts
  }

  lemma {:induction false} ProbeAllLeavesRest(db: Db, ids: seq<Id>, input: Probe.PassInput, actor: string)
    ensures LeavesRest(db, Probe.ProbeAll(db, ids, input, actor))
  {
    if ids != [] {
      var n := |ids| - 1;
      ProbeAllLeavesRest(db, ids[..n], input, actor);
      ProbeLeavesRest(Probe.ProbeAll(db, ids[..n], input, actor), ids[n], actor, input.endpointReading(ids[n]));
    }
  }

  lemma TransitionLeavesRest(db: Db, e: Entity, next: Status, actor: string, now: IsoTime.Clock)
    ensures LeavesRest(db, Transition(db, e, next, actor, now))
  {
  }

  lemma ProbeLeavesRest(db: Db, id: Id, actor: string, r: Probe.Reading)
    ensures LeavesRest(db, Probe.ProbeEndpoint(db, id, actor, r))
  {
    if Probe.Probeable(db.t, id) {
      CooldownPass.ProbeEffect(db, id, actor, r);
    }
  }

  lemma ReviveLeavesRest(db: Db, id: Id, input: Probe.PassInput, actor: string)
    ensures LeavesRest(db, Probe.ReviveAccount(db, id, input, actor))
  {
    var a := AccountRef(id);
    var probing := Transition(db, a, Probing, actor, input.now);
    TransitionLeavesRest(db, a, Probing, actor, input.now);
    var pick := Probe.FirstCandidate(probing.t, input.probeOrder, id);
    if pick.None? {
      TransitionLeavesRest(probing, a, Degraded, actor, input.now);
    } else {
      var reading := input.accountReading(id);
      ProbeLeavesRest(probing, pick.value, actor, reading);
      TransitionLeavesRest(Probe.ProbeEndpoint(probing, pick.value, actor, reading), a,
                           if Probe.ProbePasses(probing.t, pick.value, reading) then Active else Degraded,
                           actor, input.now);
    }
  }

  lemma {:induction false} ReviveAllLeavesRest(db: Db, ids: seq<Id>, input: Probe.PassInput, actor: string)
    ensures LeavesRest(db, Probe.ReviveAll(db, ids, input, actor))
  {
    if ids != [] {
      var n := |ids| - 1;
      ReviveAllLeavesRest(db, ids[..n], input, actor);
      ReviveLeavesRest(Probe.ReviveAll(db, ids[..n], input, actor), ids[n], input, actor);
    }
  }

  lemma SyncActKeepsClean(w: World, c: Id, n: Id, r: Reply)
    requires Invariant(w.db)
    ensures Invariant(SyncNode(w, c, n, r).db)
  {
    SyncNodeEffect(w, c, n, r);
    SyncNodeKeepsSound(w, c, n, r);
    SyncNodeFaithful(w, c, n, r);
  }

  lemma DropActKeepsClean(w: World, c: Id, n: Id, r: Reply, actor: string)
    requires Invariant(w.db)
    ensures Invariant(DropKey(w, c, n, r, actor).db)
  {
    DropKeyRemoves(w, c, n, r, actor);
    DeleteKeepsSound(w.db, KeyT(c, n), actor);
    DeleteRowFaithful(w.db, KeyT(c, n), actor);
  }

  lemma ActCore(w: World, a: KeyAct, hash: string -> string)
    requires Core(w, hash)
    ensures Core(Act(w, a), hash)
  {
    ActAccounted(w, a);
    match a
    case SyncAct(c, n, r) =>
      SyncActKeepsClean(w, c, n, r);
      ActKeepsNodes(w, a);
    case DropAct(c, n, r, actor) =>
      DropActKeepsClean(w, c, n, r, actor);
      ActKeepsNodes(w, a);
    case StoreAct(call, actor) =>
      if !WritesKeys(call) {
        TakeKeeps(w.db, Api(call, actor));
        RegistryKeepsHistory(w.db, hash, call, actor);
      }
    case _ =>
  }

  lemma {:induction false} ActsCore(w: World, acts: seq<KeyAct>, hash: string -> string)
    requires Core(w, hash)
    ensures Core(ActAll(w, acts), hash)
  {
    if acts != [] {
      var n := |acts| - 1;
      ActsCore(w, acts[..n], hash);
      ActCore(ActAll(w, acts[..n]), acts[n], hash);
    }
  }

  lemma RolloutsOnly(w: World, rollouts: seq<Rollout>, hash: string -> string)
    requires Core(w, hash) && GoodHistory(rollouts, hash) && (forall r :: r in rollouts ==> r.node in w.db.t.nodes)
    ensures Core(w.(db := w.db.(rollouts := rollouts)), hash)
  {
  }

  lemma RedeployCore(s: System, tools: Tools, n: Id, path: string, a: Attempt)
    requires Core(s.w, tools.hash) && Fresh(s.w.db.rollouts, a)
    ensures Core(Redeploy(s, tools, n, path, a).w, tools.hash)
  {
    RedeployKeepsSound(s, tools, n, path, a);
    DeployKeepsHistory(s.w.db.t, Site(s.w.db.rollouts, s.disk), tools, n, path, a);
    RolloutsOnly(s.w, Redeploy(s, tools, n, path, a).w.db.rollouts, tools.hash);
  }

  lemma NotedCore(s: System, hash: string -> string, n: Id)
    requires Core(s.w, hash)
    ensures Core(Noted(s, n).w, hash)
  {
    ReplayAppend(s.w.db.audit, AuditRecord(WORKER, DriftDetected, Drift(n)));
  }

  lemma AfterDeployCore(s: System, tools: Tools, n: Id, path: string, over: PassOver)
    requires Core(s.w, tools.hash) && Fresh(s.w.db.rollouts, over.attempt)
    ensures Core(AfterDeploy(s, tools, n, path, over).w, tools.hash)
  {
    var noted := Noted(s, n);
    NotedCore(s, tools.hash, n);
    if DetectDrift(s.w.db.t, s.disk, tools, n, path, over).config {
      RedeployCore(noted, tools, n, path, over.attempt);
    }
  }

  /** Whichever deploy, sync, revocation or key lookup of the pass fails. */
  lemma WorkerPassCore(s: System, tools: Tools, n: Id, over: PassOver, configured: set<Id>)
    requires Core(s.w, tools.hash) && Fresh(s.w.db.rollouts, over.attempt)
    ensures Core(ReconcilePass(s, tools, n, over, configured).w, tools.hash)
  {
    if FindsDrift(s, tools, n, over) {
      var path := PathFor(s, n, over).value;
      AfterDeployCore(s, tools, n, path, over);
      ActsCore(AfterDeploy(s, tools, n, path, over).w, PassActs(s, tools, n, path, over, configured), tools.hash);
    }
  }

  lemma BatchLeavesRest(db: Db, items: seq<Ingestion.Item>, validating: bool)
    ensures LeavesRest(db, Ingestion.Ingest(db, items, validating))
  {
    Ingestion.NonInterference(db, items, validating);
  }

  lemma CooldownsLeaveRest(db: Db, input: Probe.PassInput, worker: string)
    ensures LeavesRest(db, Probe.ReconcileCooldowns(db, input, worker))
  {
    var expired := Probe.ExpiredEndpoints(db.t, input.endpointOrder, input.now);
    var first := Probe.ProbeAll(db, expired, input, worker);
    ProbeAllLeavesRest(db, expired, input, worker);
    ReviveAllLeavesRest(first, Probe.ExpiredAccounts(first.t, input.accountOrder, input.now), input, worker);
  }

  /** Each kind of event keeps all of the core, whatever fails in it. */
  lemma NextKeepsCore(s: System, tools: Tools, e: Event)
    requires Core(s.w, tools.hash) && FreshEvent(s, e)
    ensures Core(Next(s, tools, e).w, tools.hash)
  {
    match e
    case Batch(items, validating) =>
      IngestKeeps(s.w.db, items, validating);
      BatchLeavesRest(s.w.db, items, validating);
    case Cooldowns(input, worker) =>
      TakeKeeps(s.w.db, HealthRuns.Pass(input, worker));
      CooldownsLeaveRest(s.w.db, input, worker);
    case Keys(call) =>
      CallIsActs(s.w, call);
      ActsCore(s.w, ActsOfCall(s.w, call), tools.hash);
    case ManualDeploy(n, path, a, view) => RedeployCore(s, Through(tools, view), n, path, a);
    case WorkerPass(n, over, view, configured) => WorkerPassCore(s, Through(tools, view), n, over, configured);
  }

  lemma {:induction false} RunKeepsCore(s: System, tools: Tools, events: seq<Event>)
    requires Core(s.w, tools.hash) && FreshEvents(s, tools, events)
    ensures Core(RunAll(s, tools, events).w, tools.hash)
  {
    if |events| > 0 {
      var n := |events| - 1;
      RunKeepsCore(s, tools, events[..n]);
      NextKeepsCore(RunAll(s, tools, events[..n]), tools, events[n]);
    }
  }

  // ---------- When a file agrees with a history ----------

  function PlantOf(s: System): Plant {
    Plant(s.w.db, s.disk)
  }

  /** The step of the rollout protocol that an event contains, if any. */
  function SiteStepOf(s: System, tools: Tools, e: Event): Option<SiteStep> {
    match e
    case Keys(Step(RegistryStep(call, actor))) => if WritesKeys(call) then None else Some(SiteRegistry(call, actor))
    case ManualDeploy(n, path, a, view) => Some(ApiDeploy(n, path, a, view))
    case WorkerPass(n, over, view, _) =>
      if !FindsDrift(s, Through(tools, view), n, over) then None
      else
        var path := PathFor(s, n, over).value;
        if DetectDrift(s.w.db.t, s.disk, Through(tools, view), n, path, over).config
        then Some(WorkerDeploy(n, path, over.attempt, view)) else None
    case _ => None
  }

  function AfterSiteStep(s: System, tools: Tools, e: Event): Plant {
    var step := SiteStepOf(s, tools, e);
    if step.None? then PlantOf(s) else TakeSiteStep(PlantOf(s), tools, step.value)
  }

  lemma {:induction false} ActsKeepRollouts(w: World, acts: seq<KeyAct>)
    requires forall i :: 0 <= i < |acts| ==> !acts[i].StoreAct?
    ensures ActAll(w, acts).db.rollouts == w.db.rollouts
  {
    if acts != [] {
      var n := |acts| - 1;
      ActsKeepRollouts(w, acts[..n]);
      ActKeepsNodes(ActAll(w, acts[..n]), acts[n]);
    }
  }

  lemma {:induction false} DropActsStoreNothing(c: Id, nodes: seq<Id>, oracle: (Id, Id) -> Reply)
    ensures forall i :: 0 <= i < |DropActs(c, nodes, oracle)| ==> !DropActs(c, nodes, oracle)[i].StoreAct?
  {
    if nodes != [] {
      DropActsStoreNothing(c, nodes[..|nodes| - 1], oracle);
    }
  }

  lemma CallKeepsRollouts(w: World, call: KeyCall)
    requires !(call.Step? && call.step.RegistryStep?)
    ensures TakeCall(w, call).db.rollouts == w.db.rollouts
  {
    match call
    case Step(SyncStep(c, order, oracle)) => SyncEffect(w, c, order, oracle);
    case Step(RemoveStep(c, order, oracle, actor)) => RemovalKeepsRollouts(w, c, order, oracle, actor);
    case Step(RetryStep(consumerOrder, order, oracle)) =>
      SyncEachEffect(w, StaleConsumers(w.db.t, consumerOrder), order, oracle);
    case Step(OrphanStep(c, n, r, actor)) => ActKeepsNodes(w, DropAct(c, n, r, actor));
    case SyncCall(c, order, oracle, _) => SyncEffect(w, c, order, oracle);
    case RemoveCall(c, order, oracle, actor, _) => RemovalKeepsRollouts(w, c, order, oracle, actor);
  }

  lemma RemovalKeepsRollouts(w: World, c: Id, order: seq<Id>, oracle: (Id, Id) -> Reply, actor: string)
    ensures RemoveConsumer(w, c, order, oracle, actor).db.rollouts == w.db.rollouts
  {
    var nodes := KeyNodes(w.db.t, c, order);
    DropKeysAreActs(w, c, nodes, oracle);
    DropActsStoreNothing(c, nodes, oracle);
    ActsKeepRollouts(w, DropActs(c, nodes, oracle));
  }

  lemma PassSiteStep(s: System, tools: Tools, n: Id, over: PassOver, view: View, configured: set<Id>)
    ensures var after, plant := ReconcilePass(s, Through(tools, view), n, over, configured),
                                AfterSiteStep(s, tools, WorkerPass(n, over, view, configured));
            after.w.db.rollouts == plant.db.rollouts && after.disk == plant.disk
  {
    var seen := Through(tools, view);
    if FindsDrift(s, seen, n, over) {
      var path := PathFor(s, n, over).value;
      var w, drift := AfterDeploy(s, seen, n, path, over).w, DetectDrift(s.w.db.t, s.disk, seen, n, path, over);
      var acts := PassActs(s, seen, n, path, over, configured);
      forall i | 0 <= i < |acts| ensures !acts[i].StoreAct? { RepairStoresNothing(w, n, drift, over, i); }
      ActsKeepRollouts(w, acts);
    }
  }

  /** On rollouts and files, every event does what its rollout step does. */
  lemma NextSiteStep(s: System, tools: Tools, e: Event)
    ensures var after, plant := Next(s, tools, e), AfterSiteStep(s, tools, e);
            after.w.db.rollouts == plant.db.rollouts && after.disk == plant.disk
  {
    match e
    case Batch(items, validating) => BatchLeavesRest(s.w.db, items, validating);
    case Cooldowns(input, worker) => CooldownsLeaveRest(s.w.db, input, worker);
    case Keys(call) => if !(call.Step? && call.step.RegistryStep?) { CallKeepsRollouts(s.w, call); }
    case ManualDeploy(n, path, a, view) =>
    case WorkerPass(n, over, view, configured) => PassSiteStep(s, tools, n, over, view, configured);
  }

  /** The last event that touches the file at `path`, or the latest success of `n`, does it well. */
  predicate FileSettled(s: System, tools: Tools, events: seq<Event>, n: Id, path: string) {
    if |events| == 0 then Agrees(SiteOf(PlantOf(s)), n, path)
    else
      var k := |events| - 1;
      var before := RunAll(s, tools, events[..k]);
      var step := SiteStepOf(before, tools, events[k]);
      if step.Some? && Touches(PlantOf(before), tools, step.value, n, path)
      then TouchesWell(PlantOf(before), tools, step.value, n, path)
      else FileSettled(s, tools, events[..k], n, path)
  }

  lemma EventAgreesIff(s: System, tools: Tools, e: Event, n: Id, path: string)
    requires FreshEvent(s, e)
    ensures var step := SiteStepOf(s, tools, e);
            Agrees(SiteOf(PlantOf(Next(s, tools, e))), n, path)
            <==> if step.Some? && Touches(PlantOf(s), tools, step.value, n, path)
                 then TouchesWell(PlantOf(s), tools, step.value, n, path)
                 else Agrees(SiteOf(PlantOf(s)), n, path)
  {
    NextSiteStep(s, tools, e);
    var step := SiteStepOf(s, tools, e);
    if step.Some? { StepAgreesIff(PlantOf(s), tools, step.value, n, path); }
  }

  lemma {:induction false} FileAgreesIff(s: System, tools: Tools, events: seq<Event>, n: Id, path: string)
    requires FreshEvents(s, tools, events)
    ensures Agrees(SiteOf(PlantOf(RunAll(s, tools, events))), n, path) <==> FileSettled(s, tools, events, n, path)
  {
    if |events| > 0 {
      var k := |events| - 1;
      FileAgreesIff(s, tools, events[..k], n, path);
      EventAgreesIff(RunAll(s, tools, events[..k]), tools, events[k], n, path);
    }
  }

  // ---------- When keys and rows agree ----------

  /** The world on which the key acts of an event work: for a pass, after its deploy. */
  function KeyBase(s: System, tools: Tools, e: Event): World {
    match e
    case WorkerPass(n, over, view, _) =>
      if FindsDrift(s, Through(tools, view), n, over)
      then AfterDeploy(s, Through(tools, view), n, PathFor(s, n, over).value, over).w else s.w
    case _ => s.w
  }

  function ActsOfEvent(s: System, tools: Tools, e: Event): seq<KeyAct> {
    match e
    case Keys(call) => ActsOfCall(s.w, call)
    case WorkerPass(n, over, view, configured) =>
      if FindsDrift(s, Through(tools, view), n, over)
      then PassActs(s, Through(tools, view), n, PathFor(s, n, over).value, over, configured) else []
    case _ => []
  }

  /** On proxies and key rows, every event does what its acts do. */
  lemma NextActs(s: System, tools: Tools, e: Event)
    ensures var after, base := Next(s, tools, e).w, KeyBase(s, tools, e);
            var acted := ActAll(base, ActsOfEvent(s, tools, e));
            && after.p == acted.p && after.db.t.keys == acted.db.t.keys
            && base.p == s.w.p && base.db.t == s.w.db.t
  {
    match e
    case Batch(items, validating) => BatchLeavesRest(s.w.db, items, validating);
    case Cooldowns(input, worker) => CooldownsLeaveRest(s.w.db, input, worker);
    case Keys(call) => CallIsActs(s.w, call);
    case _ =>
  }

  lemma KeyBaseCore(s: System, tools: Tools, e: Event)
    requires Core(s.w, tools.hash) && FreshEvent(s, e)
    ensures Core(KeyBase(s, tools, e), tools.hash)
  {
    match e
    case WorkerPass(n, over, view, _) =>
      if FindsDrift(s, Through(tools, view), n, over) {
        AfterDeployCore(s, Through(tools, view), n, PathFor(s, n, over).value, over);
      }
    case _ =>
  }

  /** Nothing was leaked on `m` at the start, and every act of the run meets its condition. */
  predicate NothingLeaks(s: System, tools: Tools, events: seq<Event>, m: Id) {
    if |events| == 0 then Tracked(s.w, m)
    else
      var k := |events| - 1;
      var before := RunAll(s, tools, events[..k]);
      && NothingLeaks(s, tools, events[..k], m)
      && AllTrack(KeyBase(before, tools, events[k]), ActsOfEvent(before, tools, events[k]), m)
  }

  /** The last act of the run that kills or ends the row kills it; if none does, it was dead before. */
  predicate RowKilled(s: System, tools: Tools, events: seq<Event>, c: Id, n: Id) {
    if |events| == 0 then Dead(s.w, c, n)
    else
      var k := |events| - 1;
      var before := RunAll(s, tools, events[..k]);
      Killed(RowKilled(s, tools, events[..k], c, n),
             KeyBase(before, tools, events[k]), ActsOfEvent(before, tools, events[k]), c, n)
  }

  lemma {:induction false} LeaksIff(s: System, tools: Tools, events: seq<Event>, m: Id)
    requires Core(s.w, tools.hash) && FreshEvents(s, tools, events)
    ensures Tracked(RunAll(s, tools, events).w, m) <==> NothingLeaks(s, tools, events, m)
  {
    if |events| > 0 {
      var k := |events| - 1;
      var before := RunAll(s, tools, events[..k]);
      LeaksIff(s, tools, events[..k], m);
      RunKeepsCore(s, tools, events[..k]);
      KeyBaseCore(before, tools, events[k]);
      NextActs(before, tools, events[k]);
      ActsTrackIff(KeyBase(before, tools, events[k]), ActsOfEvent(before, tools, events[k]), m);
    }
  }

  lemma {:induction false} DeadRowsIff(s: System, tools: Tools, events: seq<Event>, c: Id, n: Id)
    requires Core(s.w, tools.hash) && FreshEvents(s, tools, events)
    ensures Dead(RunAll(s, tools, events).w, c, n) <==> RowKilled(s, tools, events, c, n)
  {
    if |events| > 0 {
      var k := |events| - 1;
      var before := RunAll(s, tools, events[..k]);
      DeadRowsIff(s, tools, events[..k], c, n);
      RunKeepsCore(s, tools, events[..k]);
      KeyBaseCore(before, tools, events[k]);
      NextActs(before, tools, events[k]);
      ActsDeadIff(KeyBase(before, tools, events[k]), ActsOfEvent(before, tools, events[k]), c, n);
    }
  }

  // ---------- The theorem ----------

  /** From the empty control plane, after any run of events, whatever probes, adapters, deploys and key
      lookups do: the core holds; the file at any path is the latest success of any node, if it has one,
      exactly if the run settles it; a node has no leaked key exactly if no act of the run leaks one;
      and an active row holds a dead key exactly if the run kills it. */
  lemma EveryRunKeepsTheInvariant(tools: Tools, events: seq<Event>)
    requires FreshEvents(START, tools, events)
    ensures var after := RunAll(START, tools, events);
            && Core(after.w, tools.hash)
            && (forall n, path ::
                  Agrees(SiteOf(PlantOf(after)), n, path) <==> FileSettled(START, tools, events, n, path))
            && (forall m :: Tracked(after.w, m) <==> NothingLeaks(START, tools, events, m))
            && (forall c, n :: Dead(after.w, c, n) <==> RowKilled(START, tools, events, c, n))
  {
    StartIsFine(tools.hash);
    RunKeepsCore(START, tools, events);
    forall n, path {
      FileAgreesIff(START, tools, events, n, path);
    }
    forall m {
      LeaksIff(START, tools, events, m);
    }
    forall c, n {
      DeadRowsIff(START, tools, events, c, n);
    }
  }

  // ---------- Clean runs ----------

  /** Deploys go to their node's own path and can repair what they wrote. */
  predicate CleanEvent(where: Id -> string, e: Event) {
    match e
    case ManualDeploy(n, path, a, _) => path == where(n) && Repairs(a)
    case WorkerPass(n, over, _, _) => Repairs(over.attempt) && (over.path.Some? ==> over.path.value == where(n))
    case _ => true
  }

  lemma PassPaths(s: System, tools: Tools, n: Id, over: PassOver, configured: set<Id>)
    ensures var paths := ReconcilePass(s, tools, n, over, configured).paths;
            paths == s.paths || (PathFor(s, n, over).Some? && paths == s.paths[n := PathFor(s, n, over).value])
  {
  }

  lemma DeployPaths(s: System, tools: Tools, n: Id, path: string, a: Attempt)
    ensures var paths := ApiDeployed(s, tools, n, path, a).paths; paths == s.paths || paths == s.paths[n := path]
  {
  }

  lemma NextPaths(s: System, tools: Tools, where: Id -> string, e: Event, n: Id)
    requires CleanEvent(where, e) && (n in s.paths ==> s.paths[n] == where(n))
    requires e.WorkerPass? && e.node in s.paths ==> s.paths[e.node] == where(e.node)
    ensures n in Next(s, tools, e).paths ==> Next(s, tools, e).paths[n] == where(n)
  {
    match e
    case ManualDeploy(m, path, a, view) => DeployPaths(s, Through(tools, view), m, path, a);
    case WorkerPass(m, over, view, configured) => PassPaths(s, Through(tools, view), m, over, configured);
    case _ =>
  }

  lemma {:induction false} RememberedPaths(tools: Tools, where: Id -> string, events: seq<Event>, n: Id)
    requires forall e :: e in events ==> CleanEvent(where, e)
    ensures var paths := RunAll(START, tools, events).paths; n in paths ==> paths[n] == where(n)
  {
    if |events| > 0 {
      var k := |events| - 1;
      RememberedPaths(tools, where, events[..k], n);
      if events[k].WorkerPass? { RememberedPaths(tools, where, events[..k], events[k].node); }
      NextPaths(RunAll(START, tools, events[..k]), tools, where, events[k], n);
    }
  }

  /** So over nodes with paths of their own, when every deploy can repair what it wrote, every node's file
      is its latest success at every point, whatever else happens in the run. */
  lemma {:induction false} CleanRunsAgree(tools: Tools, where: Id -> string, events: seq<Event>, n: Id)
    requires OwnPaths(where) && FreshEvents(START, tools, events) && (forall e :: e in events ==> CleanEvent(where, e))
    ensures Agrees(SiteOf(PlantOf(RunAll(START, tools, events))), n, where(n))
  {
    if |events| > 0 {
      var k := |events| - 1;
      var before := RunAll(START, tools, events[..k]);
      CleanRunsAgree(tools, where, events[..k], n);
      EventAgreesIff(before, tools, events[k], n, where(n));
      assert CleanEvent(where, events[k]);
      if events[k].WorkerPass? {
        RememberedPaths(tools, where, events[..k], events[k].node);
      }
      var step := SiteStepOf(before, tools, events[k]);
      if step.Some? && Touches(PlantOf(before), tools, step.value, n, where(n)) {
        CleanStepTouchesWell(PlantOf(before), tools, where, step.value, n);
      }
    }
  }
}
