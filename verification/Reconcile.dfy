/**
 Drift detection and the reconciler: one pass over a node re-deploys its config, provisions
 missing keys and cleans up orphaned ones. The main result is when one pass reaches a fixpoint.
 */
module Reconcile {
  import opened Prelude
  import opened Schema
  import opened Store
  import opened AuditReplay
  import opened Connection
  import opened Generator
  import opened KeyManager
  import opened Orchestrator

  const WORKER := "reconcile-worker"

  datatype System = System(w: World, disk: map<string, string>, paths: map<Id, string>)

  datatype DriftReport = DriftReport(config: bool, missing: seq<Id>, orphaned: seq<Id>)

  const NO_DRIFT := DriftReport(false, [], [])

  /** The caller's path if any, the row orders of the queries, and the oracles of one pass. */
  datatype PassOver = PassOver(
    path: Option<string>, consumerOrder: seq<Id>, keyOrder: seq<Id>, nodeOrder: seq<Id>,
    attempt: Attempt, oracle: (Id, Id) -> Reply)

  // ---------- Drift ----------

  predicate ConfigDrift(t: Tables, disk: map<string, string>, tools: Tools, n: Id, path: string) {
    path !in disk || tools.load(disk[path]) != Some(Generate(t, tools.outside, n, tools.scan))
  }

  predicate ActiveConsumer(t: Tables, c: Id) {
    c in t.consumers && t.consumers[c].status == ConsumerActive
  }

  predicate MissingKey(t: Tables, n: Id, c: Id) {
    ActiveConsumer(t, c) && !((c, n) in t.keys && t.keys[(c, n)].status == KeyActive)
  }

  predicate OrphanedKey(t: Tables, n: Id, c: Id) {
    (c, n) in t.keys && !ActiveConsumer(t, c)
  }

  function MissingKeys(t: Tables, n: Id, order: seq<Id>): seq<Id> {
    if order == [] then []
    else MissingKeys(t, n, order[..|order| - 1])
         + (if MissingKey(t, n, order[|order| - 1]) then [order[|order| - 1]] else [])
  }

  function OrphanedKeys(t: Tables, n: Id, order: seq<Id>): seq<Id> {
    if order == [] then []
    else OrphanedKeys(t, n, order[..|order| - 1])
         + (if OrphanedKey(t, n, order[|order| - 1]) then [order[|order| - 1]] else [])
  }

  function DetectDrift(t: Tables, disk: map<string, string>, tools: Tools, n: Id, path: string,
                       i: PassOver): DriftReport {
    DriftReport(ConfigDrift(t, disk, tools, n, path), MissingKeys(t, n, i.consumerOrder),
                OrphanedKeys(t, n, i.keyOrder))
  }

  // ---------- One pass ----------

  function DropOrphans(w: World, n: Id, orphans: seq<Id>, oracle: (Id, Id) -> Reply): World {
    if orphans == [] then w
    else
      var c := orphans[|orphans| - 1];
      DropKey(DropOrphans(w, n, orphans[..|orphans| - 1], oracle), c, n, oracle(c, n), WORKER)
  }

  function PathFor(sys: System, n: Id, i: PassOver): Option<string> {
    i.path.OrElse(if n in sys.paths then Some(sys.paths[n]) else None)
  }

  function Redeploy(sys: System, tools: Tools, n: Id, path: string, a: Attempt): System {
    var db := sys.w.db;
    var (s, _) := Deploy(db.t, Site(db.rollouts, sys.disk), tools, n, path, a);
    System(sys.w.(db := db.(rollouts := s.rollouts)), s.disk,
           if n in db.t.nodes && tools.load(DesiredContent(db.t, tools, n)).Some?
           then sys.paths[n := path] else sys.paths)
  }

  function RepairKeys(w: World, n: Id, drift: DriftReport, i: PassOver): World {
    DropOrphans(SyncEach(w, drift.missing, i.nodeOrder, i.oracle), n, drift.orphaned, i.oracle)
  }

  function Noted(sys: System, n: Id): System {
    sys.(w := sys.w.(db := sys.w.db.(audit := sys.w.db.audit + [AuditRecord(WORKER, DriftDetected, Drift(n))])))
  }

  function ReconcileNode(sys: System, tools: Tools, n: Id, i: PassOver): System {
    var path := PathFor(sys, n, i);
    if path.None? || n !in sys.w.db.t.nodes then sys
    else
      var drift := DetectDrift(sys.w.db.t, sys.disk, tools, n, path.value, i);
      if drift == NO_DRIFT then sys
      else
        var noted := Noted(sys, n);
        var deployed := if drift.config then Redeploy(noted, tools, n, path.value, i.attempt) else noted;
        deployed.(w := RepairKeys(deployed.w, n, drift, i))
  }

  // ---------- What each part changes ----------

  lemma {:induction false} MissingMeaning(t: Tables, n: Id, order: seq<Id>, c: Id)
    ensures c in MissingKeys(t, n, order) <==> c in order && MissingKey(t, n, c)
  {
    if order != [] {
      assert order == order[..|order| - 1] + [order[|order| - 1]];
      MissingMeaning(t, n, order[..|order| - 1], c);
    }
  }

  lemma {:induction false} OrphanedMeaning(t: Tables, n: Id, order: seq<Id>, c: Id)
    ensures c in OrphanedKeys(t, n, order) <==> c in order && OrphanedKey(t, n, c)
  {
    if order != [] {
      assert order == order[..|order| - 1] + [order[|order| - 1]];
      OrphanedMeaning(t, n, order[..|order| - 1], c);
    }
  }

  /** Only key rows differ. */
  predicate OnlyKeys(s: Tables, t: Tables) {
    t == s.(keys := t.keys)
  }

  lemma SyncNodeOnlyKeys(w: World, c: Id, m: Id, r: Reply)
    ensures var after := SyncNode(w, c, m, r);
            && OnlyKeys(w.db.t, after.db.t) && after.db.rollouts == w.db.rollouts
            && (forall k :: k != (c, m) ==> SameKey(w.db.t, after.db.t, k))
  {
    SyncNodeEffect(w, c, m, r);
  }

  predicate SameKey(s: Tables, t: Tables, k: (Id, Id)) {
    (k in t.keys <==> k in s.keys) && (k in s.keys ==> t.keys[k] == s.keys[k])
  }

  /** Only key rows of `c` on the listed nodes differ. */
  ghost predicate OnlyKeysOf(w: World, after: World, c: Id, nodes: seq<Id>) {
    && OnlyKeys(w.db.t, after.db.t) && after.db.rollouts == w.db.rollouts
    && (forall k: (Id, Id) :: k.0 != c || k.1 !in nodes ==> SameKey(w.db.t, after.db.t, k))
  }

  lemma OnlyKeysStep(w: World, before: World, after: World, c: Id, nodes: seq<Id>, n: Id)
    requires OnlyKeysOf(w, before, c, nodes)
    requires OnlyKeys(before.db.t, after.db.t) && after.db.rollouts == before.db.rollouts
    requires forall k :: k != (c, n) ==> SameKey(before.db.t, after.db.t, k)
    ensures OnlyKeysOf(w, after, c, nodes + [n])
  {
    forall k: (Id, Id) | k.0 != c || k.1 !in nodes + [n] ensures SameKey(w.db.t, after.db.t, k) {
      assert SameKey(before.db.t, after.db.t, k) && SameKey(w.db.t, before.db.t, k);
    }
  }

  lemma {:induction false} SyncNodesOnlyKeys(w: World, c: Id, nodes: seq<Id>, oracle: (Id, Id) -> Reply)
    ensures OnlyKeysOf(w, SyncNodes(w, c, nodes, oracle), c, nodes)
  {
    if nodes != [] {
      var m := |nodes| - 1;
      var before := SyncNodes(w, c, nodes[..m], oracle);
      assert nodes == nodes[..m] + [nodes[m]];
      SyncNodesOnlyKeys(w, c, nodes[..m], oracle);
      SyncNodeOnlyKeys(before, c, nodes[m], oracle(c, nodes[m]));
      OnlyKeysStep(w, before, SyncNodes(w, c, nodes, oracle), c, nodes[..m], nodes[m]);
    }
  }

  function RowStatus(t: Tables, c: Id, n: Id): Option<KeyStatus> {
    if (c, n) in t.keys then Some(t.keys[(c, n)].status) else None
  }

  /** The status a row has after its node was synced, from the status before and that reply alone. */
  function SyncedStatus(before: Option<KeyStatus>, r: Reply): KeyStatus {
    if before.None? || before.value == PendingSync then (if r.generation == Minted then KeyActive else PendingSync)
    else if r.updated then before.value
    else PendingSync
  }

  lemma {:induction false} SyncNodesPointwise(w: World, c: Id, nodes: seq<Id>, oracle: (Id, Id) -> Reply, n: Id)
    requires Distinct(nodes) && n in nodes && c in w.db.t.consumers && n in w.db.t.nodes
    ensures RowStatus(SyncNodes(w, c, nodes, oracle).db.t, c, n)
            == Some(SyncedStatus(RowStatus(w.db.t, c, n), oracle(c, n)))
  {
    var m := |nodes| - 1;
    DistinctPrefix(nodes);
    var before := SyncNodes(w, c, nodes[..m], oracle);
    SyncNodesOnlyKeys(w, c, nodes[..m], oracle);
    if nodes[m] == n {
      assert SameKey(w.db.t, before.db.t, (c, n));
      SyncNodeEffect(before, c, n, oracle(c, n));
    } else {
      SyncNodesPointwise(w, c, nodes[..m], oracle, n);
      SyncNodeOnlyKeys(before, c, nodes[m], oracle(c, nodes[m]));
      assert SameKey(before.db.t, SyncNodes(w, c, nodes, oracle).db.t, (c, n));
    }
  }

  lemma {:induction false} ActiveProxiesDistinct(t: Tables, order: seq<Id>)
    requires Distinct(order)
    ensures Distinct(ActiveProxies(t, order))
  {
    if order != [] {
      DistinctPrefix(order);
      ActiveProxiesDistinct(t, order[..|order| - 1]);
      ActiveProxiesMeaning(t, order[..|order| - 1], order[|order| - 1]);
    }
  }

  lemma SyncEffect(w: World, c: Id, order: seq<Id>, oracle: (Id, Id) -> Reply)
    ensures var after := Sync(w, c, order, oracle);
            && OnlyKeys(w.db.t, after.db.t) && after.db.rollouts == w.db.rollouts
            && (forall k: (Id, Id) :: k.0 != c || !ActiveProxy(w.db.t, k.1) ==> SameKey(w.db.t, after.db.t, k))
  {
    var nodes := ActiveProxies(w.db.t, order);
    SyncNodesOnlyKeys(w, c, nodes, oracle);
    forall k: (Id, Id) | k.0 != c || !ActiveProxy(w.db.t, k.1)
      ensures SameKey(w.db.t, Sync(w, c, order, oracle).db.t, k)
    {
      ActiveProxiesMeaning(w.db.t, order, k.1);
    }
  }

  lemma {:induction false} SyncEachEffect(w: World, consumers: seq<Id>, order: seq<Id>, oracle: (Id, Id) -> Reply)
    ensures var after := SyncEach(w, consumers, order, oracle);
            && OnlyKeys(w.db.t, after.db.t) && after.db.rollouts == w.db.rollouts
            && (forall k: (Id, Id) :: k.0 !in consumers || !ActiveProxy(w.db.t, k.1) ==> SameKey(w.db.t, after.db.t, k))
  {
    if consumers != [] {
      var m := |consumers| - 1;
      assert consumers == consumers[..m] + [consumers[m]];
      SyncEachEffect(w, consumers[..m], order, oracle);
      SyncEffect(SyncEach(w, consumers[..m], order, oracle), consumers[m], order, oracle);
    }
  }

  /** However many consumers and nodes a sync covers, what becomes of one row depends on its own
      status and its own reply only. */
  lemma {:induction false} SyncEachPointwise(w: World, consumers: seq<Id>, order: seq<Id>, oracle: (Id, Id) -> Reply,
                                             c: Id, n: Id)
    requires Distinct(consumers) && Distinct(order) && c in consumers
    requires c in w.db.t.consumers && n in order && ActiveProxy(w.db.t, n)
    ensures RowStatus(SyncEach(w, consumers, order, oracle).db.t, c, n)
            == Some(SyncedStatus(RowStatus(w.db.t, c, n), oracle(c, n)))
  {
    var m := |consumers| - 1;
    DistinctPrefix(consumers);
    var before := SyncEach(w, consumers[..m], order, oracle);
    SyncEachEffect(w, consumers[..m], order, oracle);
    if consumers[m] == c {
      assert SameKey(w.db.t, before.db.t, (c, n));
      ActiveProxiesDistinct(before.db.t, order);
      ActiveProxiesMeaning(before.db.t, order, n);
      SyncNodesPointwise(before, c, ActiveProxies(before.db.t, order), oracle, n);
    } else {
      SyncEachPointwise(w, consumers[..m], order, oracle, c, n);
      SyncEffect(before, consumers[m], order, oracle);
      assert SameKey(before.db.t, SyncEach(w, consumers, order, oracle).db.t, (c, n));
    }
  }

  lemma {:induction false} StaleConsumersMeaning(t: Tables, order: seq<Id>, c: Id)
    ensures c in StaleConsumers(t, order) <==> c in order && Stale(t, c)
  {
    if order != [] {
      assert order == order[..|order| - 1] + [order[|order| - 1]];
      StaleConsumersMeaning(t, order[..|order| - 1], c);
    }
  }

  lemma {:induction false} StaleConsumersDistinct(t: Tables, order: seq<Id>)
    requires Distinct(order)
    ensures Distinct(StaleConsumers(t, order))
  {
    if order != [] {
      DistinctPrefix(order);
      StaleConsumersDistinct(t, order[..|order| - 1]);
      StaleConsumersMeaning(t, order[..|order| - 1], order[|order| - 1]);
    }
  }

  /** The whole effect of a retry on row statuses: consumers with a pending row are synced on every
      active proxy, each row by its own status and reply; every other row stays as it was. */
  lemma RetryIsPointwise(w: World, consumerOrder: seq<Id>, order: seq<Id>, oracle: (Id, Id) -> Reply, c: Id, n: Id)
    requires Sound(w.db)
    requires Enumerates(consumerOrder, w.db.t.consumers.Keys) && Enumerates(order, w.db.t.nodes.Keys)
    ensures RowStatus(ReconcileAllKeys(w, consumerOrder, order, oracle).db.t, c, n)
            == if && (exists k :: k in w.db.t.keys && k.0 == c && w.db.t.keys[k].status == PendingSync)
                  && n in w.db.t.nodes && w.db.t.nodes[n].status == NodeActive
                  && (w.db.t.nodes[n].role == "proxy" || w.db.t.nodes[n].role == "exit")
               then Some(SyncedStatus(RowStatus(w.db.t, c, n), oracle(c, n)))
               else RowStatus(w.db.t, c, n)
  {
    var stale := StaleConsumers(w.db.t, consumerOrder);
    StaleConsumersMeaning(w.db.t, consumerOrder, c);
    if Stale(w.db.t, c) && ActiveProxy(w.db.t, n) {
      StaleConsumersDistinct(w.db.t, consumerOrder);
      SyncEachPointwise(w, stale, order, oracle, c, n);
    } else {
      SyncEachEffect(w, stale, order, oracle);
      assert SameKey(w.db.t, ReconcileAllKeys(w, consumerOrder, order, oracle).db.t, (c, n));
    }
  }

  /** Recovery: one retry in which no adapter fails leaves a row pending exactly if it was pending
      on a node that is not an active proxy or exit node. */
  lemma RetryRecoversIff(w: World, consumerOrder: seq<Id>, order: seq<Id>, oracle: (Id, Id) -> Reply, c: Id, n: Id)
    requires Sound(w.db) && NeverFails(oracle)
    requires Enumerates(consumerOrder, w.db.t.consumers.Keys) && Enumerates(order, w.db.t.nodes.Keys)
    ensures RowStatus(ReconcileAllKeys(w, consumerOrder, order, oracle).db.t, c, n) == Some(PendingSync)
            <==> RowStatus(w.db.t, c, n) == Some(PendingSync) && !ActiveProxy(w.db.t, n)
  {
    RetryIsPointwise(w, consumerOrder, order, oracle, c, n);
    assert oracle(c, n) == ALL_WELL;
    if (c, n) in w.db.t.keys && w.db.t.keys[(c, n)].status == PendingSync {
      assert (c, n).0 == c;
    }
  }

  lemma {:induction false} DropOrphansEffect(w: World, n: Id, orphans: seq<Id>, oracle: (Id, Id) -> Reply)
    ensures var after := DropOrphans(w, n, orphans, oracle);
            && OnlyKeys(w.db.t, after.db.t) && after.db.rollouts == w.db.rollouts
            && (forall k :: k in after.db.t.keys <==> k in w.db.t.keys && !(k.1 == n && k.0 in orphans))
            && (forall k :: k in after.db.t.keys ==> after.db.t.keys[k] == w.db.t.keys[k])
  {
    if orphans != [] {
      var m := |orphans| - 1;
      assert orphans == orphans[..m] + [orphans[m]];
      DropOrphansEffect(w, n, orphans[..m], oracle);
      DropKeyRemoves(DropOrphans(w, n, orphans[..m], oracle), orphans[m], n, oracle(orphans[m], n), WORKER);
    }
  }

  lemma {:induction false} SelectIgnoresKeys(s: Tables, t: Tables, node: Id, order: seq<Id>)
    requires OnlyKeys(s, t)
    ensures SelectNode(s, node, order) == SelectNode(t, node, order)
  {
    if order != [] {
      SelectIgnoresKeys(s, t, node, order[..|order| - 1]);
    }
  }

  // ---------- When a node has no drift ----------

  /** No drift, said without row orders: the file loads to the generated config, every active
      consumer has an active key on the node, and no other consumer has a key there. */
  ghost predicate InSync(t: Tables, disk: map<string, string>, tools: Tools, n: Id, path: string) {
    && !ConfigDrift(t, disk, tools, n, path)
    && (forall c :: !MissingKey(t, n, c))
    && (forall c :: !OrphanedKey(t, n, c))
  }

  ghost predicate ProperOrders(t: Tables, i: PassOver) {
    && Enumerates(i.consumerOrder, t.consumers.Keys)
    && Enumerates(i.keyOrder, t.consumers.Keys)
    && Enumerates(i.nodeOrder, t.nodes.Keys)
  }

  lemma DetectMeaning(t: Tables, disk: map<string, string>, tools: Tools, n: Id, path: string, i: PassOver)
    requires SoundTables(t) && ProperOrders(t, i)
    ensures DetectDrift(t, disk, tools, n, path, i) == NO_DRIFT <==> InSync(t, disk, tools, n, path)
  {
    var drift := DetectDrift(t, disk, tools, n, path, i);
    forall c ensures c in drift.missing <==> MissingKey(t, n, c) {
      MissingMeaning(t, n, i.consumerOrder, c);
      assert c in t.consumers <==> c in t.consumers.Keys;
    }
    forall c ensures c in drift.orphaned <==> OrphanedKey(t, n, c) {
      OrphanedMeaning(t, n, i.keyOrder, c);
      if (c, n) in t.keys {
        assert c in t.consumers.Keys;
      }
    }
    assert drift.missing != [] ==> drift.missing[0] in drift.missing;
    assert drift.orphaned != [] ==> drift.orphaned[0] in drift.orphaned;
  }

  // ---------- The fixpoint ----------

  ghost predicate RoundTrip(tools: Tools) {
    forall c :: tools.load(tools.dump(c)) == Some(c)
  }

  /** Key rows on the node have the statuses the key manager writes; see ActiveKeysAreLive. */
  predicate ManagedKeys(t: Tables, n: Id) {
    forall k :: k in t.keys && k.1 == n ==> t.keys[k].status == KeyActive || t.keys[k].status == PendingSync
  }

  lemma RepairedKeys(w: World, n: Id, drift: DriftReport, i: PassOver, c: Id)
    requires SoundTables(w.db.t) && ProperOrders(w.db.t, i) && ManagedKeys(w.db.t, n) && n in w.db.t.nodes
    requires drift.missing == MissingKeys(w.db.t, n, i.consumerOrder)
    requires drift.orphaned == OrphanedKeys(w.db.t, n, i.keyOrder)
    requires Distinct(drift.missing)
    requires i.oracle(c, n).generation == Minted
    ensures var after := RepairKeys(w, n, drift, i).db.t;
            && OnlyKeys(w.db.t, after)
            && (MissingKey(after, n, c) <==> MissingKey(w.db.t, n, c) && !ActiveProxy(w.db.t, n))
            && !OrphanedKey(after, n, c)
  {
    var synced := SyncEach(w, drift.missing, i.nodeOrder, i.oracle);
    SyncEachEffect(w, drift.missing, i.nodeOrder, i.oracle);
    DropOrphansEffect(synced, n, drift.orphaned, i.oracle);
    MissingMeaning(w.db.t, n, i.consumerOrder, c);
    OrphanedMeaning(w.db.t, n, i.keyOrder, c);
    assert c in w.db.t.consumers <==> c in w.db.t.consumers.Keys;
    assert (c, n) in w.db.t.keys ==> c in w.db.t.consumers;
    if MissingKey(w.db.t, n, c) && ActiveProxy(w.db.t, n) {
      assert n in w.db.t.nodes.Keys && n in i.nodeOrder;
      SyncEachPointwise(w, drift.missing, i.nodeOrder, i.oracle, c, n);
    } else {
      assert SameKey(w.db.t, synced.db.t, (c, n));
    }
  }

  lemma {:induction false} MissingDistinct(t: Tables, n: Id, order: seq<Id>)
    requires Distinct(order)
    ensures Distinct(MissingKeys(t, n, order))
  {
    if order != [] {
      DistinctPrefix(order);
      MissingDistinct(t, n, order[..|order| - 1]);
      MissingMeaning(t, n, order[..|order| - 1], order[|order| - 1]);
    }
  }

  /** Everything goes well: the write, the readiness poll, and minting on this node. */
  ghost predicate GoesWell(n: Id, i: PassOver) {
    && i.attempt.opens && i.attempt.masterKey && Verified(i.attempt.polls)
    && (forall c :: i.oracle(c, n).generation == Minted)
  }

  lemma RedeployFixesConfig(sys: System, tools: Tools, n: Id, path: string, a: Attempt)
    requires RoundTrip(tools) && n in sys.w.db.t.nodes && a.opens && a.masterKey && Verified(a.polls)
    ensures var after := Redeploy(sys, tools, n, path, a);
            && after.w.db.t == sys.w.db.t && after.w.p == sys.w.p && after.paths == sys.paths[n := path]
            && !ConfigDrift(after.w.db.t, after.disk, tools, n, path)
  {
  }

  /** One pass over a drifted node, when all goes well, removes all drift exactly if the node is an
      active proxy or exit node or no consumer was missing a key: the key manager provisions no
      other nodes, so elsewhere a missing key is reported on every pass, for ever. */
  lemma OnePassConvergesIff(sys: System, tools: Tools, n: Id, i: PassOver)
    requires SoundTables(sys.w.db.t) && ProperOrders(sys.w.db.t, i) && ManagedKeys(sys.w.db.t, n)
    requires RoundTrip(tools) && n in sys.w.db.t.nodes && PathFor(sys, n, i).Some? && GoesWell(n, i)
    ensures var after := ReconcileNode(sys, tools, n, i);
            && OnlyKeys(sys.w.db.t, after.w.db.t)
            && (InSync(after.w.db.t, after.disk, tools, n, PathFor(sys, n, i).value)
                <==> ActiveProxy(sys.w.db.t, n) || forall c :: !MissingKey(sys.w.db.t, n, c))
  {
    var path := PathFor(sys, n, i).value;
    var t := sys.w.db.t;
    var drift := DetectDrift(t, sys.disk, tools, n, path, i);
    DetectMeaning(t, sys.disk, tools, n, path, i);
    MissingDistinct(t, n, i.consumerOrder);
    if drift != NO_DRIFT {
      var noted := Noted(sys, n);
      var deployed := if drift.config then Redeploy(noted, tools, n, path, i.attempt) else noted;
      RedeployFixesConfig(noted, tools, n, path, i.attempt);
      var after := ReconcileNode(sys, tools, n, i);
      assert after == deployed.(w := RepairKeys(deployed.w, n, drift, i));
      forall c
        ensures MissingKey(after.w.db.t, n, c) <==> MissingKey(t, n, c) && !ActiveProxy(t, n)
        ensures !OrphanedKey(after.w.db.t, n, c)
        ensures OnlyKeys(t, after.w.db.t)
      {
        RepairedKeys(deployed.w, n, drift, i, c);
      }
      var any: Id := "";
      assert OnlyKeys(t, after.w.db.t) by { RepairedKeys(deployed.w, n, drift, i, any); }
      SelectIgnoresKeys(t, after.w.db.t, n, tools.scan);
    }
  }

  /** A node in sync is left alone: a further pass writes nothing, not even an audit record. */
  lemma InSyncIsFixpoint(sys: System, tools: Tools, n: Id, i: PassOver)
    requires SoundTables(sys.w.db.t) && ProperOrders(sys.w.db.t, i)
    requires PathFor(sys, n, i).Some? && InSync(sys.w.db.t, sys.disk, tools, n, PathFor(sys, n, i).value)
    ensures ReconcileNode(sys, tools, n, i) == sys
  {
    DetectMeaning(sys.w.db.t, sys.disk, tools, n, PathFor(sys, n, i).value, i);
  }

  lemma {:induction false} SyncNodesKeepSound(w: World, c: Id, nodes: seq<Id>, oracle: (Id, Id) -> Reply)
    requires Sound(w.db)
    ensures Sound(SyncNodes(w, c, nodes, oracle).db)
  {
    if nodes != [] {
      var m := |nodes| - 1;
      SyncNodesKeepSound(w, c, nodes[..m], oracle);
      SyncNodeKeepsSound(SyncNodes(w, c, nodes[..m], oracle), c, nodes[m], oracle(c, nodes[m]));
    }
  }

  lemma {:induction false} SyncEachKeepsSound(w: World, consumers: seq<Id>, order: seq<Id>, oracle: (Id, Id) -> Reply)
    requires Sound(w.db)
    ensures Sound(SyncEach(w, consumers, order, oracle).db)
  {
    if consumers != [] {
      var m := |consumers| - 1;
      var before := SyncEach(w, consumers[..m], order, oracle);
      SyncEachKeepsSound(w, consumers[..m], order, oracle);
      SyncNodesKeepSound(before, consumers[m], ActiveProxies(before.db.t, order), oracle);
    }
  }

  lemma {:induction false} DropOrphansKeeps(w: World, n: Id, orphans: seq<Id>, oracle: (Id, Id) -> Reply)
    ensures Sound(w.db) ==> Sound(DropOrphans(w, n, orphans, oracle).db)
    ensures Backed(w) ==> Backed(DropOrphans(w, n, orphans, oracle))
  {
    if orphans != [] {
      var m := |orphans| - 1;
      var before := DropOrphans(w, n, orphans[..m], oracle);
      DropOrphansKeeps(w, n, orphans[..m], oracle);
      if Sound(w.db) { DeleteKeepsSound(before.db, KeyT(orphans[m], n), WORKER); }
      if Backed(w) { DropKeyBacked(before, orphans[m], n, oracle(orphans[m], n), WORKER); }
    }
  }

  lemma RedeployKeepsSound(sys: System, tools: Tools, n: Id, path: string, a: Attempt)
    requires Sound(sys.w.db)
    ensures Sound(Redeploy(sys, tools, n, path, a).w.db)
  {
    var db := sys.w.db;
    var after := Deploy(db.t, Site(db.rollouts, sys.disk), tools, n, path, a).0.rollouts;
    forall r | r in after ensures r.node in db.t.nodes {
      assert r in db.rollouts || r.node == n;
    }
  }

  /** Whatever fails during it, a pass keeps foreign keys and keeps every active key live. */
  lemma PassKeepsKeysBacked(sys: System, tools: Tools, n: Id, i: PassOver)
    requires Backed(sys.w) && Sound(sys.w.db)
    ensures Backed(ReconcileNode(sys, tools, n, i).w) && Sound(ReconcileNode(sys, tools, n, i).w.db)
  {
    var path := PathFor(sys, n, i);
    if path.Some? && n in sys.w.db.t.nodes {
      var drift := DetectDrift(sys.w.db.t, sys.disk, tools, n, path.value, i);
      if drift != NO_DRIFT {
        var noted := Noted(sys, n);
        var deployed := if drift.config then Redeploy(noted, tools, n, path.value, i.attempt) else noted;
        RedeployKeepsSound(noted, tools, n, path.value, i.attempt);
        var synced := SyncEach(deployed.w, drift.missing, i.nodeOrder, i.oracle);
        SyncEachBacked(deployed.w, drift.missing, i.nodeOrder, i.oracle);
        SyncEachKeepsSound(deployed.w, drift.missing, i.nodeOrder, i.oracle);
        DropOrphansKeeps(synced, n, drift.orphaned, i.oracle);
      }
    }
  }

  lemma {:induction false} DropOrphansFaithful(w: World, n: Id, orphans: seq<Id>, oracle: (Id, Id) -> Reply)
    requires Faithful(w.db)
    ensures Faithful(DropOrphans(w, n, orphans, oracle).db)
  {
    if orphans != [] {
      var m := |orphans| - 1;
      DropOrphansFaithful(w, n, orphans[..m], oracle);
      DeleteRowFaithful(DropOrphans(w, n, orphans[..m], oracle).db, KeyT(orphans[m], n), WORKER);
    }
  }

  /** The `drift_detected` record of a pass changes no table, so the audit log still replays. */
  lemma PassStaysFaithful(sys: System, tools: Tools, n: Id, i: PassOver)
    requires Faithful(sys.w.db)
    ensures Faithful(ReconcileNode(sys, tools, n, i).w.db)
  {
    var path := PathFor(sys, n, i);
    if path.Some? && n in sys.w.db.t.nodes {
      var drift := DetectDrift(sys.w.db.t, sys.disk, tools, n, path.value, i);
      if drift != NO_DRIFT {
        var noted := Noted(sys, n);
        ReplayAppend(sys.w.db.audit, AuditRecord(WORKER, DriftDetected, Drift(n)));
        var deployed := if drift.config then Redeploy(noted, tools, n, path.value, i.attempt) else noted;
        SyncEachFaithful(deployed.w, drift.missing, i.nodeOrder, i.oracle);
        DropOrphansFaithful(SyncEach(deployed.w, drift.missing, i.nodeOrder, i.oracle), n, drift.orphaned, i.oracle);
      }
    }
  }

  /** The fixpoint: after one pass over an active proxy or exit node that goes well, a later pass over
      the same path, with its own oracles, secrets, environment and row order, changes nothing at all
      exactly if the config it would generate is the one the first pass generated. */
  lemma SecondPassChangesNothingIff(sys: System, tools: Tools, n: Id, i: PassOver, j: PassOver, view: View)
    requires Sound(sys.w.db) && Backed(sys.w) && ProperOrders(sys.w.db.t, i) && ProperOrders(sys.w.db.t, j)
    requires RoundTrip(tools) && ActiveProxy(sys.w.db.t, n) && PathFor(sys, n, i).Some? && GoesWell(n, i)
    requires PathFor(ReconcileNode(sys, tools, n, i), n, j) == PathFor(sys, n, i)
    ensures var after := ReconcileNode(sys, tools, n, i);
            ReconcileNode(after, Through(tools, view), n, j) == after
            <==> Generate(after.w.db.t, view.outside, n, view.scan)
                 == Generate(after.w.db.t, tools.outside, n, tools.scan)
  {
    var after, path := ReconcileNode(sys, tools, n, i), PathFor(sys, n, i).value;
    assert ManagedKeys(sys.w.db.t, n) by {
      forall k | k in sys.w.db.t.keys ensures RowBacked(sys.w.p, k, sys.w.db.t.keys[k]) { }
    }
    OnePassConvergesIff(sys, tools, n, i);
    PassKeepsKeysBacked(sys, tools, n, i);
    DetectMeaning(after.w.db.t, after.disk, Through(tools, view), n, path, j);
    var drift := DetectDrift(after.w.db.t, after.disk, Through(tools, view), n, path, j);
    if drift != NO_DRIFT {
      DriftIsLogged(after, Through(tools, view), n, j);
    }
  }

  /** A pass that finds drift logs it first, so it is never without effect. */
  lemma DriftIsLogged(sys: System, tools: Tools, n: Id, i: PassOver)
    requires n in sys.w.db.t.nodes && PathFor(sys, n, i).Some?
    requires DetectDrift(sys.w.db.t, sys.disk, tools, n, PathFor(sys, n, i).value, i) != NO_DRIFT
    ensures sys.w.db.audit + [AuditRecord("reconcile-worker", DriftDetected, Drift(n))]
         <= ReconcileNode(sys, tools, n, i).w.db.audit
  {
    var drift := DetectDrift(sys.w.db.t, sys.disk, tools, n, PathFor(sys, n, i).value, i);
    var noted := Noted(sys, n);
    var deployed := if drift.config then Redeploy(noted, tools, n, PathFor(sys, n, i).value, i.attempt) else noted;
    SyncEachLogs(deployed.w, drift.missing, i.nodeOrder, i.oracle);
    DropOrphansLogs(SyncEach(deployed.w, drift.missing, i.nodeOrder, i.oracle), n, drift.orphaned, i.oracle);
  }

  /** A pass works on the caller's path, or else on the one the node was last deployed to. Without a path,
      a registered node or drift it does nothing; without config drift it leaves rollouts and files. */
  lemma PassColumns(sys: System, tools: Tools, n: Id, i: PassOver)
    ensures var after, path := ReconcileNode(sys, tools, n, i), PathFor(sys, n, i);
            && (i.path.Some? ==> path == i.path)
            && (i.path.None? ==> path == if n in sys.paths then Some(sys.paths[n]) else None)
            && (path.None? || n !in sys.w.db.t.nodes ==> after == sys)
            && (path.Some? && n in sys.w.db.t.nodes ==>
                  var drift := DetectDrift(sys.w.db.t, sys.disk, tools, n, path.value, i);
                  && (!drift.config && drift.missing == [] && drift.orphaned == [] ==> after == sys)
                  && (!drift.config ==> after.disk == sys.disk && after.w.db.rollouts == sys.w.db.rollouts)
                  && (drift.config ==>
                        var site := Site(sys.w.db.rollouts, sys.disk);
                        var s := Deploy(sys.w.db.t, site, tools, n, path.value, i.attempt).0;
                        after.disk == s.disk && after.w.db.rollouts == s.rollouts))
  {
    var path := PathFor(sys, n, i);
    if path.Some? && n in sys.w.db.t.nodes {
      var drift := DetectDrift(sys.w.db.t, sys.disk, tools, n, path.value, i);
      if drift != NO_DRIFT {
        var noted := Noted(sys, n);
        var deployed := if drift.config then Redeploy(noted, tools, n, path.value, i.attempt) else noted;
        var synced := SyncEach(deployed.w, drift.missing, i.nodeOrder, i.oracle);
        SyncEachEffect(deployed.w, drift.missing, i.nodeOrder, i.oracle);
        DropOrphansEffect(synced, n, drift.orphaned, i.oracle);
      }
    }
  }

  lemma {:induction false} SyncNodesLogs(w: World, c: Id, nodes: seq<Id>, oracle: (Id, Id) -> Reply)
    ensures w.db.audit <= SyncNodes(w, c, nodes, oracle).db.audit
  {
    if nodes != [] {
      SyncNodesLogs(w, c, nodes[..|nodes| - 1], oracle);
    }
  }

  lemma {:induction false} SyncEachLogs(w: World, consumers: seq<Id>, order: seq<Id>, oracle: (Id, Id) -> Reply)
    ensures w.db.audit <= SyncEach(w, consumers, order, oracle).db.audit
  {
    if consumers != [] {
      var m := |consumers| - 1;
      var before := SyncEach(w, consumers[..m], order, oracle);
      SyncEachLogs(w, consumers[..m], order, oracle);
      SyncNodesLogs(before, consumers[m], ActiveProxies(before.db.t, order), oracle);
    }
  }

  lemma {:induction false} DropOrphansLogs(w: World, n: Id, orphans: seq<Id>, oracle: (Id, Id) -> Reply)
    ensures w.db.audit <= DropOrphans(w, n, orphans, oracle).db.audit
  {
    if orphans != [] {
      DropOrphansLogs(w, n, orphans[..|orphans| - 1], oracle);
    }
  }

  // ---------- What drift, sync and repair promise, column by column ----------

  /** Config drift is a file that is absent, does not load, or loads to another config. A key is missing
      for a consumer with status `active` and no row with status `active` on the node; a key is orphaned
      whose consumer does not have status `active`. */
  lemma DriftColumns(t: Tables, disk: map<string, string>, tools: Tools, n: Id, path: string, i: PassOver, c: Id)
    ensures var drift := DetectDrift(t, disk, tools, n, path, i);
            && (drift.config <==>
                  path !in disk || tools.load(disk[path]) != Some(Generate(t, tools.outside, n, tools.scan)))
            && (c in drift.missing <==>
                  && c in i.consumerOrder && c in t.consumers && t.consumers[c].status == ConsumerActive
                  && !((c, n) in t.keys && t.keys[(c, n)].status == KeyActive))
            && (c in drift.orphaned <==>
                  && c in i.keyOrder && (c, n) in t.keys
                  && !(c in t.consumers && t.consumers[c].status == ConsumerActive))
  {
    MissingMeaning(t, n, i.consumerOrder, c);
    OrphanedMeaning(t, n, i.keyOrder, c);
  }

  /** What a sync leaves of a row, from the row before and the adapter's reply: a row that is absent or
      pending gets a new key and is active if one came back; one that is absent becomes a placeholder
      and one that is pending stays as it is otherwise; any other row stays, or turns pending if its
      update failed. */
  predicate AfterSync(before: Option<ConsumerKey>, after: ConsumerKey, r: Reply, minted: nat, c: Id, n: Id) {
    match before
    case None =>
      if r.generation == Minted then after.key.Issued? && minted <= after.key.serial && after.status == KeyActive
      else after == ConsumerKey(Placeholder(n, c), PendingSync)
    case Some(row) =>
      if row.status == PendingSync then
        if r.generation == Minted then after.key.Issued? && minted <= after.key.serial && after.status == KeyActive
        else after == row
      else after == if r.updated then row else ConsumerKey(row.key, PendingSync)
  }

  function RowOn(t: Tables, c: Id, n: Id): Option<ConsumerKey> {
    if (c, n) in t.keys then Some(t.keys[(c, n)]) else None
  }

  lemma SyncNodeColumns(w: World, c: Id, n: Id, r: Reply, minted: nat)
    requires c in w.db.t.consumers && n in w.db.t.nodes && minted <= w.p.minted
    ensures var after := SyncNode(w, c, n, r);
            (c, n) in after.db.t.keys && AfterSync(RowOn(w.db.t, c, n), after.db.t.keys[(c, n)], r, minted, c, n)
  {
    SyncNodeEffect(w, c, n, r);
  }

  lemma {:induction false} SyncNodesColumns(w: World, c: Id, nodes: seq<Id>, oracle: (Id, Id) -> Reply, n: Id)
    requires Distinct(nodes) && n in nodes && c in w.db.t.consumers && n in w.db.t.nodes
    ensures var after := SyncNodes(w, c, nodes, oracle);
            && (c, n) in after.db.t.keys
            && AfterSync(RowOn(w.db.t, c, n), after.db.t.keys[(c, n)], oracle(c, n), w.p.minted, c, n)
  {
    var m := |nodes| - 1;
    DistinctPrefix(nodes);
    var before := SyncNodes(w, c, nodes[..m], oracle);
    SyncNodesOnlyKeys(w, c, nodes[..m], oracle);
    if nodes[m] == n {
      assert SameKey(w.db.t, before.db.t, (c, n));
      SyncNodesMintMore(w, c, nodes[..m], oracle);
      SyncNodeColumns(before, c, n, oracle(c, n), w.p.minted);
      assert RowOn(before.db.t, c, n) == RowOn(w.db.t, c, n);
    } else {
      SyncNodesColumns(w, c, nodes[..m], oracle, n);
      SyncNodeOnlyKeys(before, c, nodes[m], oracle(c, nodes[m]));
      assert SameKey(before.db.t, SyncNodes(w, c, nodes, oracle).db.t, (c, n));
    }
  }

  lemma {:induction false} SyncNodesMintMore(w: World, c: Id, nodes: seq<Id>, oracle: (Id, Id) -> Reply)
    ensures w.p.minted <= SyncNodes(w, c, nodes, oracle).p.minted
  {
    if nodes != [] {
      SyncNodesMintMore(w, c, nodes[..|nodes| - 1], oracle);
    }
  }

  /** A sync of a registered consumer reaches every node with status `active` and role `proxy`, and every
      one with role `exit`, and no row of any other node or consumer changes. */
  lemma SyncColumns(w: World, c: Id, order: seq<Id>, oracle: (Id, Id) -> Reply, n: Id)
    requires Enumerates(order, w.db.t.nodes.Keys) && c in w.db.t.consumers && n in w.db.t.nodes
    ensures var t := Sync(w, c, order, oracle).db.t;
            var node := w.db.t.nodes[n];
            && t == w.db.t.(keys := t.keys)
            && (node.status == NodeActive && (node.role == "proxy" || node.role == "exit") ==>
                  (c, n) in t.keys && AfterSync(RowOn(w.db.t, c, n), t.keys[(c, n)], oracle(c, n), w.p.minted, c, n))
            && (!(node.status == NodeActive && (node.role == "proxy" || node.role == "exit")) ==>
                  RowOn(t, c, n) == RowOn(w.db.t, c, n))
            && (forall d :: d != c ==> RowOn(t, d, n) == RowOn(w.db.t, d, n))
  {
    var t := Sync(w, c, order, oracle).db.t;
    SyncEffect(w, c, order, oracle);
    ActiveProxiesMeaning(w.db.t, order, n);
    ActiveProxiesDistinct(w.db.t, order);
    assert n in w.db.t.nodes.Keys;
    forall d | d != c ensures RowOn(t, d, n) == RowOn(w.db.t, d, n) {
      assert SameKey(w.db.t, t, (d, n));
    }
    if n in ActiveProxies(w.db.t, order) {
      SyncNodesColumns(w, c, ActiveProxies(w.db.t, order), oracle, n);
    } else {
      assert SameKey(w.db.t, t, (c, n));
    }
  }

  /** A consumer that is not registered is not synced. */
  lemma UnknownConsumerIsNotSynced(w: World, c: Id, order: seq<Id>, oracle: (Id, Id) -> Reply)
    requires c !in w.db.t.consumers
    ensures Sync(w, c, order, oracle) == w
  {
  }

  /** After a pass that goes well, no row of a consumer whose status is not `active` is left on the node;
      and on a node with status `active` and role `proxy` or `exit`, every consumer with status
      `active` has an active row. */
  lemma GoodPassColumns(sys: System, tools: Tools, n: Id, i: PassOver, c: Id)
    requires SoundTables(sys.w.db.t) && ProperOrders(sys.w.db.t, i) && ManagedKeys(sys.w.db.t, n)
    requires RoundTrip(tools) && n in sys.w.db.t.nodes && PathFor(sys, n, i).Some? && GoesWell(n, i)
    requires c in sys.w.db.t.consumers
    ensures var t, node := ReconcileNode(sys, tools, n, i).w.db.t, sys.w.db.t.nodes[n];
            && t == sys.w.db.t.(keys := t.keys)
            && (t.consumers[c].status == ConsumerDisabled ==> (c, n) !in t.keys)
            && (t.consumers[c].status == ConsumerActive && node.status == NodeActive
                && (node.role == "proxy" || node.role == "exit") ==>
                  (c, n) in t.keys && t.keys[(c, n)].status == KeyActive)
  {
    GoodPassRepairs(sys, tools, n, i, c);
    KeyColumns(sys.w.db.t, ReconcileNode(sys, tools, n, i).w.db.t, n, c);
  }

  lemma GoodPassRepairs(sys: System, tools: Tools, n: Id, i: PassOver, c: Id)
    requires SoundTables(sys.w.db.t) && ProperOrders(sys.w.db.t, i) && ManagedKeys(sys.w.db.t, n)
    requires RoundTrip(tools) && n in sys.w.db.t.nodes && PathFor(sys, n, i).Some? && GoesWell(n, i)
    ensures var after := ReconcileNode(sys, tools, n, i).w.db.t;
            && OnlyKeys(sys.w.db.t, after) && !OrphanedKey(after, n, c)
            && (MissingKey(after, n, c) ==> !ActiveProxy(sys.w.db.t, n))
  {
    var t, path := sys.w.db.t, PathFor(sys, n, i).value;
    var drift := DetectDrift(t, sys.disk, tools, n, path, i);
    MissingDistinct(t, n, i.consumerOrder);
    DetectMeaning(t, sys.disk, tools, n, path, i);
    if drift != NO_DRIFT {
      var noted := Noted(sys, n);
      var deployed := if drift.config then Redeploy(noted, tools, n, path, i.attempt) else noted;
      RedeployFixesConfig(noted, tools, n, path, i.attempt);
      assert deployed.w.db.t == t;
      RepairedKeys(deployed.w, n, drift, i, c);
    }
  }

  lemma KeyColumns(t: Tables, after: Tables, n: Id, c: Id)
    requires OnlyKeys(t, after) && n in t.nodes && c in t.consumers && !OrphanedKey(after, n, c)
    requires MissingKey(after, n, c) ==> !ActiveProxy(t, n)
    ensures after.consumers == t.consumers && after.nodes == t.nodes
    ensures t.consumers[c].status == ConsumerDisabled ==> (c, n) !in after.keys
    ensures t.consumers[c].status == ConsumerActive && t.nodes[n].status == NodeActive
            && (t.nodes[n].role == "proxy" || t.nodes[n].role == "exit") ==>
              (c, n) in after.keys && after.keys[(c, n)].status == KeyActive
  {
  }

  // ---------- Orphaned keys are revoked ----------

  /** An orphaned row that is not pending and holds a real key: its key is revoked if the adapter says so. */
  lemma {:induction false} OrphansAreRevoked(w: World, n: Id, orphans: seq<Id>, oracle: (Id, Id) -> Reply, c: Id)
    requires c in orphans && (c, n) in w.db.t.keys && n in w.db.t.nodes
    requires w.db.t.keys[(c, n)].key.Issued? && w.db.t.keys[(c, n)].status != PendingSync && oracle(c, n).revoked
    ensures w.db.t.keys[(c, n)].key !in Live(DropOrphans(w, n, orphans, oracle).p, n)
  {
    var m := |orphans| - 1;
    var before := DropOrphans(w, n, orphans[..m], oracle);
    assert orphans == orphans[..m] + [orphans[m]];
    DropOrphansEffect(w, n, orphans[..m], oracle);
    if c in orphans[..m] {
      OrphansAreRevoked(w, n, orphans[..m], oracle, c);
    } else {
      assert (c, n) in before.db.t.keys && before.db.t.keys[(c, n)] == w.db.t.keys[(c, n)];
      assert before.db.t.nodes == w.db.t.nodes;
    }
  }

  // ---------- The procedures ----------

  method RunDetectDrift(db: Database, disk: Disk, tools: Tools, n: Id, path: string, i: PassOver)
    returns (drift: DriftReport)
    ensures drift == DetectDrift(db.Registry(), disk.files, tools, n, path, i)
  {
    var stale := true;
    if path in disk.files {
      var loaded := tools.load(disk.files[path]);
      if loaded.Some? {
        var desired := Generate(db.Registry(), tools.outside, n, tools.scan);
        stale := loaded.value != desired;
      }
    }
    var missing: seq<Id> := [];
    for k := 0 to |i.consumerOrder|
      invariant missing == MissingKeys(db.Registry(), n, i.consumerOrder[..k])
    {
      var c := i.consumerOrder[k];
      assert i.consumerOrder[..k + 1][..k] == i.consumerOrder[..k];
      if c in db.consumers && db.consumers[c].status == ConsumerActive {
        var covered := (c, n) in db.keys && db.keys[(c, n)].status == KeyActive;
        if !covered {
          missing := missing + [c];
        }
      }
    }
    assert i.consumerOrder[..|i.consumerOrder|] == i.consumerOrder;
    var orphaned: seq<Id> := [];
    for k := 0 to |i.keyOrder|
      invariant orphaned == OrphanedKeys(db.Registry(), n, i.keyOrder[..k])
    {
      var c := i.keyOrder[k];
      assert i.keyOrder[..k + 1][..k] == i.keyOrder[..k];
      if (c, n) in db.keys && !(c in db.consumers && db.consumers[c].status == ConsumerActive) {
        orphaned := orphaned + [c];
      }
    }
    assert i.keyOrder[..|i.keyOrder|] == i.keyOrder;
    return DriftReport(stale, missing, orphaned);
  }

  ghost function Snapshot(db: Database, fleet: Fleet, disk: Disk, orchestrator: RolloutOrchestrator): System
    reads db, fleet, disk, orchestrator
  {
    System(World(db.State(), fleet.View()), disk.files, orchestrator.nodeConfigPaths)
  }

  method RunRepairKeys(db: Database, fleet: Fleet, n: Id, drift: DriftReport, i: PassOver)
    modifies db, fleet
    ensures World(db.State(), fleet.View()) == RepairKeys(old(World(db.State(), fleet.View())), n, drift, i)
  {
    ghost var start := World(db.State(), fleet.View());
    for k := 0 to |drift.missing|
      invariant World(db.State(), fleet.View()) == SyncEach(start, drift.missing[..k], i.nodeOrder, i.oracle)
    {
      assert drift.missing[..k + 1][..k] == drift.missing[..k];
      RunSync(db, fleet, drift.missing[k], i.nodeOrder, i.oracle);
    }
    assert drift.missing[..|drift.missing|] == drift.missing;
    ghost var synced := World(db.State(), fleet.View());
    for k := 0 to |drift.orphaned|
      invariant World(db.State(), fleet.View()) == DropOrphans(synced, n, drift.orphaned[..k], i.oracle)
    {
      assert drift.orphaned[..k + 1][..k] == drift.orphaned[..k];
      RunDropKey(db, fleet, drift.orphaned[k], n, i.oracle(drift.orphaned[k], n), WORKER);
    }
    assert drift.orphaned[..|drift.orphaned|] == drift.orphaned;
  }

  method RunReconcileNode(orchestrator: RolloutOrchestrator, db: Database, fleet: Fleet, disk: Disk,
                          tools: Tools, n: Id, i: PassOver)
    requires Fresh(db.rollouts, i.attempt)
    modifies orchestrator, db, fleet, disk
    ensures Snapshot(db, fleet, disk, orchestrator)
         == ReconcileNode(old(Snapshot(db, fleet, disk, orchestrator)), tools, n, i)
  {
    var path := i.path.OrElse(if n in orchestrator.nodeConfigPaths then Some(orchestrator.nodeConfigPaths[n])
                              else None);
    if path.None? || n !in db.nodes { return; }
    var drift := RunDetectDrift(db, disk, tools, n, path.value, i);
    if drift == NO_DRIFT { return; }
    db.LogAudit(WORKER, DriftDetected, Drift(n));
    if drift.config {
      var _ := orchestrator.DeployConfig(db, disk, tools, n, path.value, i.attempt);
    }
    if drift.missing != [] || drift.orphaned != [] {
      RunRepairKeys(db, fleet, n, drift, i);
    }
  }
}
