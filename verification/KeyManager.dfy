/**
 The virtual-key synchroniser: `consumer_keys` rows here, live keys on the proxies. Every
 adapter call may fail, and a failed generation may still have minted a key.
 */
module KeyManager {
  import opened Prelude
  import opened Schema
  import opened Store
  import opened AuditReplay
  import opened Connection

  const KEY_ACTOR := "key-manager"

  // ---------- The proxies ----------

  /** Keys live on each proxy, and how many have ever been minted: a minted key is fresh. */
  datatype Proxies = Proxies(live: map<Id, set<VirtualKey>>, minted: nat)

  datatype Generation = Minted | NotMinted | MintedButLost

  /** What the adapter's calls for one consumer on one node would return. */
  datatype Reply = Reply(generation: Generation, updated: bool, revoked: bool)

  const ALL_WELL := Reply(Minted, true, true)

  function Live(p: Proxies, node: Id): set<VirtualKey> {
    if node in p.live then p.live[node] else {}
  }

  function Mint(p: Proxies, node: Id, g: Generation): Proxies {
    if g == NotMinted then p
    else Proxies(p.live[node := Live(p, node) + {Issued(p.minted)}], p.minted + 1)
  }

  function Revoke(p: Proxies, node: Id, key: VirtualKey, done: bool): Proxies {
    if done then p.(live := p.live[node := Live(p, node) - {key}]) else p
  }

  class Fleet {
    var live: map<Id, set<VirtualKey>>
    var minted: nat

    function View(): Proxies
      reads this
    {
      Proxies(live, minted)
    }

    method GenerateKey(node: Id, g: Generation) returns (key: Option<VirtualKey>)
      modifies this
      ensures View() == Mint(old(View()), node, g)
      ensures key == if g == Minted then Some(Issued(old(minted))) else None
    {
      if g == NotMinted { return None; }
      var newKey := Issued(minted);
      live := live[node := (if node in live then live[node] else {}) + {newKey}];
      minted := minted + 1;
      return if g == Minted then Some(newKey) else None;
    }

    method DeleteKey(node: Id, key: VirtualKey, done: bool)
      modifies this
      ensures View() == Revoke(old(View()), node, key, done)
    {
      if done {
        live := live[node := (if node in live then live[node] else {}) - {key}];
      }
    }
  }

  // ---------- Specification ----------

  datatype World = World(db: Db, p: Proxies)

  predicate ActiveProxy(t: Tables, n: Id) {
    n in t.nodes && t.nodes[n].status == NodeActive && (t.nodes[n].role == "proxy" || t.nodes[n].role == "exit")
  }

  function ActiveProxies(t: Tables, order: seq<Id>): seq<Id> {
    if order == [] then []
    else ActiveProxies(t, order[..|order| - 1])
         + (if ActiveProxy(t, order[|order| - 1]) then [order[|order| - 1]] else [])
  }

  function SyncNode(w: World, c: Id, n: Id, r: Reply): World {
    if (c, n) !in w.db.t.keys then
      var key := if r.generation == Minted then ConsumerKey(Issued(w.p.minted), KeyActive)
                 else ConsumerKey(Placeholder(n, c), PendingSync);
      World(CreateRow(w.db, KeyRow(c, n, key), KEY_ACTOR), Mint(w.p, n, r.generation))
    else if w.db.t.keys[(c, n)].status == PendingSync then
      World(if r.generation == Minted then WriteKey(w.db, c, n, Issued(w.p.minted), KeyActive, KEY_ACTOR) else w.db,
            Mint(w.p, n, r.generation))
    else
      World(if r.updated then w.db else WriteKeyStatus(w.db, c, n, PendingSync, KEY_ACTOR), w.p)
  }

  function SyncNodes(w: World, c: Id, nodes: seq<Id>, oracle: (Id, Id) -> Reply): World {
    if nodes == [] then w
    else
      var n := nodes[|nodes| - 1];
      SyncNode(SyncNodes(w, c, nodes[..|nodes| - 1], oracle), c, n, oracle(c, n))
  }

  function Sync(w: World, c: Id, order: seq<Id>, oracle: (Id, Id) -> Reply): World {
    if c !in w.db.t.consumers then w else SyncNodes(w, c, ActiveProxies(w.db.t, order), oracle)
  }

  /** A real key of a row that is not waiting for recovery; only such keys are revoked. */
  predicate Revocable(k: ConsumerKey) {
    k.key.Issued? && k.status != PendingSync
  }

  function DropKey(w: World, c: Id, n: Id, r: Reply, actor: string): World {
    if (c, n) !in w.db.t.keys then w
    else
      var k := w.db.t.keys[(c, n)];
      World(DeleteRow(w.db, KeyT(c, n), actor),
            if Revocable(k) && n in w.db.t.nodes then Revoke(w.p, n, k.key, r.revoked) else w.p)
  }

  function KeyNodes(t: Tables, c: Id, order: seq<Id>): seq<Id> {
    if order == [] then []
    else KeyNodes(t, c, order[..|order| - 1])
         + (if (c, order[|order| - 1]) in t.keys then [order[|order| - 1]] else [])
  }

  function DropKeys(w: World, c: Id, nodes: seq<Id>, oracle: (Id, Id) -> Reply): World {
    if nodes == [] then w
    else
      var n := nodes[|nodes| - 1];
      DropKey(DropKeys(w, c, nodes[..|nodes| - 1], oracle), c, n, oracle(c, n), KEY_ACTOR)
  }

  /** DELETE of a consumer: revoke and delete its keys everywhere, then the consumer. */
  function RemoveConsumer(w: World, c: Id, order: seq<Id>, oracle: (Id, Id) -> Reply, actor: string): World {
    if c !in w.db.t.consumers then w
    else
      var dropped := DropKeys(w, c, KeyNodes(w.db.t, c, order), oracle);
      dropped.(db := DeleteRow(dropped.db, ConsumerT(c), actor))
  }

  predicate Stale(t: Tables, c: Id) {
    exists k :: k in t.keys && k.0 == c && t.keys[k].status == PendingSync
  }

  function StaleConsumers(t: Tables, order: seq<Id>): seq<Id> {
    if order == [] then []
    else StaleConsumers(t, order[..|order| - 1])
         + (if Stale(t, order[|order| - 1]) then [order[|order| - 1]] else [])
  }

  function SyncEach(w: World, consumers: seq<Id>, order: seq<Id>, oracle: (Id, Id) -> Reply): World {
    if consumers == [] then w
    else Sync(SyncEach(w, consumers[..|consumers| - 1], order, oracle), consumers[|consumers| - 1], order, oracle)
  }

  function ReconcileAllKeys(w: World, consumerOrder: seq<Id>, order: seq<Id>, oracle: (Id, Id) -> Reply): World {
    SyncEach(w, StaleConsumers(w.db.t, consumerOrder), order, oracle)
  }

  // ---------- Every active row holds a live key ----------

  /** Only the two statuses the manager writes occur; an active row holds a real key; every real key
      was minted earlier. */
  predicate RowManaged(p: Proxies, row: ConsumerKey) {
    && (row.status == KeyActive || row.status == PendingSync)
    && (row.status == KeyActive ==> row.key.Issued?)
    && (row.key.Issued? ==> row.key.serial < p.minted)
  }

  /** And the key of an active row is live on its node. */
  predicate RowBacked(p: Proxies, k: (Id, Id), row: ConsumerKey) {
    RowManaged(p, row) && (row.status == KeyActive ==> row.key in Live(p, k.1))
  }

  predicate AllBacked(keys: map<(Id, Id), ConsumerKey>, p: Proxies) {
    forall k :: k in keys ==> RowBacked(p, k, keys[k])
  }

  /** No two rows share a real key. */
  predicate NoSharing(keys: map<(Id, Id), ConsumerKey>) {
    forall j, k :: j in keys && k in keys && keys[j].key.Issued? && keys[j].key == keys[k].key ==> j == k
  }

  predicate Backed(w: World) {
    AllBacked(w.db.t.keys, w.p) && NoSharing(w.db.t.keys)
  }

  lemma MintKeepsRows(keys: map<(Id, Id), ConsumerKey>, p: Proxies, n: Id, g: Generation)
    requires AllBacked(keys, p)
    ensures AllBacked(keys, Mint(p, n, g))
  {
    forall k | k in keys ensures RowBacked(Mint(p, n, g), k, keys[k]) {
      assert RowBacked(p, k, keys[k]);
    }
  }

  /** Storing a freshly minted key, or a placeholder, in any row. */
  lemma StoreKey(keys: map<(Id, Id), ConsumerKey>, p: Proxies, c: Id, n: Id, g: Generation, row: ConsumerKey)
    requires AllBacked(keys, p) && NoSharing(keys)
    requires || (row == ConsumerKey(Issued(p.minted), KeyActive) && g == Minted)
             || row == ConsumerKey(Placeholder(n, c), PendingSync)
    ensures AllBacked(keys[(c, n) := row], Mint(p, n, g)) && NoSharing(keys[(c, n) := row])
  {
    MintKeepsRows(keys, p, n, g);
    forall k | k in keys && keys[k].key.Issued? ensures keys[k].key != Issued(p.minted) {
      assert RowBacked(p, k, keys[k]);
    }
  }

  /** The row that a sync of one node leaves, if it writes one. */
  function SyncedRow(w: World, c: Id, n: Id, r: Reply): Option<ConsumerKey> {
    var keys := w.db.t.keys;
    if (c, n) !in keys then
      if c !in w.db.t.consumers || n !in w.db.t.nodes then None
      else if r.generation == Minted then Some(ConsumerKey(Issued(w.p.minted), KeyActive))
      else Some(ConsumerKey(Placeholder(n, c), PendingSync))
    else if keys[(c, n)].status == PendingSync then
      if r.generation == Minted then Some(ConsumerKey(Issued(w.p.minted), KeyActive)) else None
    else
      if r.updated then None else Some(keys[(c, n)].(status := PendingSync))
  }

  function SyncedProxies(w: World, c: Id, n: Id, r: Reply): Proxies {
    if (c, n) in w.db.t.keys && w.db.t.keys[(c, n)].status != PendingSync then w.p else Mint(w.p, n, r.generation)
  }

  predicate Registered(t: Tables, c: Id, n: Id) {
    c in t.consumers && n in t.nodes
  }

  /** A sync asks the proxy for a new key exactly if there is no row, or the row is pending. */
  predicate Generates(t: Tables, c: Id, n: Id) {
    (c, n) in t.keys ==> t.keys[(c, n)].status == PendingSync
  }

  lemma SyncNodeEffect(w: World, c: Id, n: Id, r: Reply)
    ensures var after, row := SyncNode(w, c, n, r), SyncedRow(w, c, n, r);
            && after.db.t == (if row.Some? then Put(w.db.t, KeyRow(c, n, row.value)) else w.db.t)
            && after.p == SyncedProxies(w, c, n, r)
            && after.db.rollouts == w.db.rollouts
  {
  }

  lemma SyncNodeBacked(w: World, c: Id, n: Id, r: Reply)
    requires Backed(w)
    ensures Backed(SyncNode(w, c, n, r))
  {
    var keys, row := w.db.t.keys, SyncedRow(w, c, n, r);
    SyncNodeEffect(w, c, n, r);
    MintKeepsRows(keys, w.p, n, r.generation);
    if row.Some? {
      if (c, n) in keys && keys[(c, n)].status != PendingSync {
        assert RowBacked(w.p, (c, n), keys[(c, n)]);
      } else {
        StoreKey(keys, w.p, c, n, r.generation, row.value);
      }
    }
  }

  lemma {:induction false} SyncNodesBacked(w: World, c: Id, nodes: seq<Id>, oracle: (Id, Id) -> Reply)
    requires Backed(w)
    ensures Backed(SyncNodes(w, c, nodes, oracle))
  {
    if nodes != [] {
      var m := |nodes| - 1;
      SyncNodesBacked(w, c, nodes[..m], oracle);
      SyncNodeBacked(SyncNodes(w, c, nodes[..m], oracle), c, nodes[m], oracle(c, nodes[m]));
    }
  }

  lemma {:induction false} SyncEachBacked(w: World, consumers: seq<Id>, order: seq<Id>, oracle: (Id, Id) -> Reply)
    requires Backed(w)
    ensures Backed(SyncEach(w, consumers, order, oracle))
  {
    if consumers != [] {
      var m := |consumers| - 1;
      var before := SyncEach(w, consumers[..m], order, oracle);
      SyncEachBacked(w, consumers[..m], order, oracle);
      SyncNodesBacked(before, consumers[m], ActiveProxies(before.db.t, order), oracle);
    }
  }

  lemma FewerRowsBacked(keys: map<(Id, Id), ConsumerKey>, fewer: map<(Id, Id), ConsumerKey>, p: Proxies)
    requires AllBacked(keys, p) && NoSharing(keys)
    requires forall k :: k in fewer ==> k in keys && fewer[k] == keys[k]
    ensures AllBacked(fewer, p) && NoSharing(fewer)
  {
  }

  /** Revoking one row's key cannot kill the key of another row. */
  lemma DropKeyBacked(w: World, c: Id, n: Id, r: Reply, actor: string)
    requires Backed(w)
    ensures Backed(DropKey(w, c, n, r, actor))
  {
    var keys, after := w.db.t.keys, DropKey(w, c, n, r, actor);
    if (c, n) in keys {
      var rest := keys - {(c, n)};
      assert after.db.t.keys == rest;
      FewerRowsBacked(keys, rest, w.p);
      forall k | k in rest ensures RowBacked(after.p, k, rest[k]) {
        assert RowBacked(w.p, k, keys[k]);
        assert keys[k].key.Issued? ==> keys[k].key != keys[(c, n)].key;
      }
    }
  }

  lemma {:induction false} DropKeysBacked(w: World, c: Id, nodes: seq<Id>, oracle: (Id, Id) -> Reply)
    requires Backed(w)
    ensures Backed(DropKeys(w, c, nodes, oracle))
  {
    if nodes != [] {
      var m := |nodes| - 1;
      DropKeysBacked(w, c, nodes[..m], oracle);
      DropKeyBacked(DropKeys(w, c, nodes[..m], oracle), c, nodes[m], oracle(c, nodes[m]), KEY_ACTOR);
    }
  }

  // ---------- Runs ----------

  datatype KeyStep =
    | SyncStep(consumer: Id, order: seq<Id>, oracle: (Id, Id) -> Reply)
    | RemoveStep(consumer: Id, order: seq<Id>, oracle: (Id, Id) -> Reply, actor: string)
    | RetryStep(consumerOrder: seq<Id>, order: seq<Id>, oracle: (Id, Id) -> Reply)
    | OrphanStep(consumer: Id, node: Id, reply: Reply, actor: string)
    | RegistryStep(call: StoreCall, actor: string)

  /** The key manager alone writes key rows. */
  predicate WritesKeys(call: StoreCall) {
    || call.KeyWrite? || call.KeyStatusWrite?
    || (call.Creating? && call.row.KeyRow?)
    || (call.Deleting? && call.target.KeyT?)
  }

  function TakeKeyStep(w: World, s: KeyStep): World {
    match s
    case SyncStep(c, order, oracle) => Sync(w, c, order, oracle)
    case RemoveStep(c, order, oracle, actor) => RemoveConsumer(w, c, order, oracle, actor)
    case RetryStep(consumerOrder, order, oracle) => ReconcileAllKeys(w, consumerOrder, order, oracle)
    case OrphanStep(c, n, r, actor) => DropKey(w, c, n, r, actor)
    case RegistryStep(call, actor) => if WritesKeys(call) then w else w.(db := Apply(w.db, call, actor))
  }

  function KeyRun(w: World, steps: seq<KeyStep>): World {
    if |steps| == 0 then w else TakeKeyStep(KeyRun(w, steps[..|steps| - 1]), steps[|steps| - 1])
  }

  lemma CreateLeavesKeys(db: Db, row: Row, actor: string)
    requires !row.KeyRow?
    ensures CreateRow(db, row, actor).t.keys == db.t.keys
  {
  }

  lemma DeleteOnlyDropsKeys(db: Db, target: Target, actor: string)
    ensures var after := DeleteRow(db, target, actor).t;
            && (forall k :: k in after.keys ==> k in db.t.keys && after.keys[k] == db.t.keys[k])
            && (!target.NodeT? && !target.ConsumerT? && !target.KeyT? ==> after.keys == db.t.keys)
            && (target.NodeT? ==> after.keys == db.t.keys || after.keys == KeysOffNode(db.t.keys, target.id))
  {
  }

  /** Registry calls never add or change a key row; deletions cascade to some. */
  lemma RegistryOnlyDropsKeys(db: Db, call: StoreCall, actor: string)
    requires !WritesKeys(call)
    ensures var keys := Apply(db, call, actor).t.keys;
            && (forall k :: k in keys ==> k in db.t.keys && keys[k] == db.t.keys[k])
            && (!call.Deleting? ==> keys == db.t.keys)
  {
    match call
    case Creating(row) => CreateLeavesKeys(db, row, actor);
    case Deleting(target) => DeleteOnlyDropsKeys(db, target, actor);
    case Patching(id, p) => PatchEffect(db, id, p, actor);
    case _ =>
  }

  lemma StepBacked(w: World, s: KeyStep)
    requires Backed(w)
    ensures Backed(TakeKeyStep(w, s))
  {
    match s
    case SyncStep(c, order, oracle) => SyncNodesBacked(w, c, ActiveProxies(w.db.t, order), oracle);
    case RemoveStep(c, order, oracle, actor) =>
      var dropped := DropKeys(w, c, KeyNodes(w.db.t, c, order), oracle);
      DropKeysBacked(w, c, KeyNodes(w.db.t, c, order), oracle);
      FewerRowsBacked(dropped.db.t.keys, DeleteRow(dropped.db, ConsumerT(c), actor).t.keys, dropped.p);
    case RetryStep(consumerOrder, order, oracle) =>
      SyncEachBacked(w, StaleConsumers(w.db.t, consumerOrder), order, oracle);
    case OrphanStep(c, n, r, actor) => DropKeyBacked(w, c, n, r, actor);
    case RegistryStep(call, actor) =>
      if !WritesKeys(call) {
        RegistryOnlyDropsKeys(w.db, call, actor);
        FewerRowsBacked(w.db.t.keys, Apply(w.db, call, actor).t.keys, w.p);
      }
  }

  /** Whatever the adapters do: at every point of every run that starts without key rows, each
      active row holds a key that is live on its node, and rows are active or pending only. */
  lemma {:induction false} ActiveKeysAreLive(w: World, steps: seq<KeyStep>)
    requires Backed(w)
    ensures Backed(KeyRun(w, steps))
  {
    if |steps| > 0 {
      ActiveKeysAreLive(w, steps[..|steps| - 1]);
      StepBacked(KeyRun(w, steps[..|steps| - 1]), steps[|steps| - 1]);
    }
  }

  // ---------- Rows and nodes ----------

  function KeysAt(keys: map<(Id, Id), ConsumerKey>, n: Id): set<VirtualKey> {
    set k | k in keys && k.1 == n :: keys[k].key
  }

  predicate AllActive(keys: map<(Id, Id), ConsumerKey>) {
    forall k :: k in keys ==> keys[k].status == KeyActive
  }

  ghost predicate NeverFails(oracle: (Id, Id) -> Reply) {
    forall c, n :: oracle(c, n) == ALL_WELL
  }

  lemma SyncNodeKeepsSound(w: World, c: Id, n: Id, r: Reply)
    requires Sound(w.db)
    ensures Sound(SyncNode(w, c, n, r).db)
  {
    SyncNodeEffect(w, c, n, r);
    var row := SyncedRow(w, c, n, r);
    if row.Some? {
      PutKeepsSound(w.db.t, KeyRow(c, n, row.value));
    }
  }

  lemma {:induction false} ActiveProxiesMeaning(t: Tables, order: seq<Id>, n: Id)
    ensures n in ActiveProxies(t, order) <==> n in order && ActiveProxy(t, n)
  {
    if order != [] {
      assert order == order[..|order| - 1] + [order[|order| - 1]];
      ActiveProxiesMeaning(t, order[..|order| - 1], n);
    }
  }

  lemma DropKeyRemoves(w: World, c: Id, n: Id, r: Reply, actor: string)
    ensures var after := DropKey(w, c, n, r, actor).db.t;
            after.keys == w.db.t.keys - {(c, n)} && after == w.db.t.(keys := after.keys)
  {
    if (c, n) !in w.db.t.keys {
      assert w.db.t.keys - {(c, n)} == w.db.t.keys;
    }
  }

  lemma KeysAtOtherNode(keys: map<(Id, Id), ConsumerKey>, gone: Id, n: Id)
    requires n != gone
    ensures KeysAt(KeysOffNode(keys, gone), n) == KeysAt(keys, n)
  {
    var fewer := KeysOffNode(keys, gone);
    assert forall k :: k in keys && k.1 == n ==> k in fewer && fewer[k] == keys[k];
  }

  // ---------- The key table can be replayed too ----------

  lemma SyncNodeFaithful(w: World, c: Id, n: Id, r: Reply)
    requires Faithful(w.db)
    ensures Faithful(SyncNode(w, c, n, r).db)
  {
    var key := if r.generation == Minted then ConsumerKey(Issued(w.p.minted), KeyActive)
               else ConsumerKey(Placeholder(n, c), PendingSync);
    if (c, n) !in w.db.t.keys {
      CreateRowFaithful(w.db, KeyRow(c, n, key), KEY_ACTOR);
    } else {
      UpdateRowFaithful(w.db, UpdateKey, KeyRow(c, n, key), KEY_ACTOR);
      UpdateRowFaithful(w.db, UpdateKeyStatus, KeyRow(c, n, w.db.t.keys[(c, n)].(status := PendingSync)), KEY_ACTOR);
    }
  }

  lemma {:induction false} SyncNodesFaithful(w: World, c: Id, nodes: seq<Id>, oracle: (Id, Id) -> Reply)
    requires Faithful(w.db)
    ensures Faithful(SyncNodes(w, c, nodes, oracle).db)
  {
    if nodes != [] {
      var m := |nodes| - 1;
      SyncNodesFaithful(w, c, nodes[..m], oracle);
      SyncNodeFaithful(SyncNodes(w, c, nodes[..m], oracle), c, nodes[m], oracle(c, nodes[m]));
    }
  }

  lemma {:induction false} SyncEachFaithful(w: World, consumers: seq<Id>, order: seq<Id>, oracle: (Id, Id) -> Reply)
    requires Faithful(w.db)
    ensures Faithful(SyncEach(w, consumers, order, oracle).db)
  {
    if consumers != [] {
      var m := |consumers| - 1;
      var before := SyncEach(w, consumers[..m], order, oracle);
      SyncEachFaithful(w, consumers[..m], order, oracle);
      SyncNodesFaithful(before, consumers[m], ActiveProxies(before.db.t, order), oracle);
    }
  }

  lemma {:induction false} DropKeysFaithful(w: World, c: Id, nodes: seq<Id>, oracle: (Id, Id) -> Reply)
    requires Faithful(w.db)
    ensures Faithful(DropKeys(w, c, nodes, oracle).db)
  {
    if nodes != [] {
      var m := |nodes| - 1;
      DropKeysFaithful(w, c, nodes[..m], oracle);
      DeleteRowFaithful(DropKeys(w, c, nodes[..m], oracle).db, KeyT(c, nodes[m]), KEY_ACTOR);
    }
  }

  lemma RemoveFaithful(w: World, c: Id, order: seq<Id>, oracle: (Id, Id) -> Reply, actor: string)
    requires Faithful(w.db)
    ensures Faithful(RemoveConsumer(w, c, order, oracle, actor).db)
  {
    var nodes := KeyNodes(w.db.t, c, order);
    DropKeysFaithful(w, c, nodes, oracle);
    DeleteRowFaithful(DropKeys(w, c, nodes, oracle).db, ConsumerT(c), actor);
  }

  lemma KeyStepFaithful(w: World, s: KeyStep)
    requires Faithful(w.db)
    ensures Faithful(TakeKeyStep(w, s).db)
  {
    match s
    case SyncStep(c, order, oracle) => SyncNodesFaithful(w, c, ActiveProxies(w.db.t, order), oracle);
    case RemoveStep(c, order, oracle, actor) => RemoveFaithful(w, c, order, oracle, actor);
    case RetryStep(consumerOrder, order, oracle) =>
      SyncEachFaithful(w, StaleConsumers(w.db.t, consumerOrder), order, oracle);
    case OrphanStep(c, n, r, actor) => DeleteRowFaithful(w.db, KeyT(c, n), actor);
    case RegistryStep(call, actor) => ApplyFaithful(w.db, call, actor);
  }

  /** Whatever the adapters do, replaying the audit log still rebuilds the registry, key rows included. */
  lemma {:induction false} KeyRunsStayFaithful(w: World, steps: seq<KeyStep>)
    requires Faithful(w.db)
    ensures Faithful(KeyRun(w, steps).db)
  {
    if |steps| > 0 {
      KeyRunsStayFaithful(w, steps[..|steps| - 1]);
      KeyStepFaithful(KeyRun(w, steps[..|steps| - 1]), steps[|steps| - 1]);
    }
  }

  // ---------- The procedures ----------

  method RunSync(db: Database, fleet: Fleet, c: Id, order: seq<Id>, oracle: (Id, Id) -> Reply)
    modifies db, fleet
    ensures World(db.State(), fleet.View()) == Sync(old(World(db.State(), fleet.View())), c, order, oracle)
  {
    if c !in db.consumers { return; }
    ghost var start := World(db.State(), fleet.View());
    var nodes := ActiveProxies(db.Registry(), order);
    for i := 0 to |nodes|
      invariant World(db.State(), fleet.View()) == SyncNodes(start, c, nodes[..i], oracle)
    {
      assert nodes[..i + 1][..i] == nodes[..i];
      RunSyncNode(db, fleet, c, nodes[i], oracle(c, nodes[i]));
    }
    assert nodes[..|nodes|] == nodes;
  }

  method RunSyncNode(db: Database, fleet: Fleet, c: Id, n: Id, r: Reply)
    modifies db, fleet
    ensures World(db.State(), fleet.View()) == SyncNode(old(World(db.State(), fleet.View())), c, n, r)
  {
    if (c, n) !in db.keys {
      var minted := fleet.GenerateKey(n, r.generation);
      var key := if minted.Some? then ConsumerKey(minted.value, KeyActive)
                 else ConsumerKey(Placeholder(n, c), PendingSync);
      var _ := db.CreateConsumerKey(c, n, key, KEY_ACTOR);
    } else if db.keys[(c, n)].status == PendingSync {
      var minted := fleet.GenerateKey(n, r.generation);
      if minted.Some? {
        db.UpdateConsumerKey(c, n, minted.value, KeyActive, KEY_ACTOR);
      }
    } else if !r.updated {
      db.UpdateConsumerKeyStatus(c, n, PendingSync, KEY_ACTOR);
    }
  }

  method RunDropKey(db: Database, fleet: Fleet, c: Id, n: Id, r: Reply, actor: string)
    modifies db, fleet
    ensures World(db.State(), fleet.View()) == DropKey(old(World(db.State(), fleet.View())), c, n, r, actor)
  {
    if (c, n) !in db.keys { return; }
    var key := db.keys[(c, n)];
    var isPlaceholder := key.key.Placeholder? || key.status == PendingSync;
    if !isPlaceholder {
      if n in db.nodes {
        fleet.DeleteKey(n, key.key, r.revoked);
      }
    }
    var _ := db.DeleteConsumerKey(c, n, actor);
  }

  method RunRemoveConsumer(db: Database, fleet: Fleet, c: Id, order: seq<Id>, oracle: (Id, Id) -> Reply, actor: string)
    modifies db, fleet
    ensures World(db.State(), fleet.View())
         == RemoveConsumer(old(World(db.State(), fleet.View())), c, order, oracle, actor)
  {
    if c !in db.consumers { return; }
    ghost var start := World(db.State(), fleet.View());
    var nodes := KeyNodes(db.Registry(), c, order);
    for i := 0 to |nodes|
      invariant World(db.State(), fleet.View()) == DropKeys(start, c, nodes[..i], oracle)
    {
      assert nodes[..i + 1][..i] == nodes[..i];
      RunDropKey(db, fleet, c, nodes[i], oracle(c, nodes[i]), KEY_ACTOR);
    }
    assert nodes[..|nodes|] == nodes;
    var _ := db.DeleteConsumer(c, actor);
  }

  method RunReconcileAllKeys(db: Database, fleet: Fleet, consumerOrder: seq<Id>, order: seq<Id>,
                             oracle: (Id, Id) -> Reply)
    modifies db, fleet
    ensures World(db.State(), fleet.View())
         == ReconcileAllKeys(old(World(db.State(), fleet.View())), consumerOrder, order, oracle)
  {
    ghost var start := World(db.State(), fleet.View());
    var stale := StaleConsumers(db.Registry(), consumerOrder);
    for i := 0 to |stale|
      invariant World(db.State(), fleet.View()) == SyncEach(start, stale[..i], order, oracle)
    {
      assert stale[..i + 1][..i] == stale[..i];
      RunSync(db, fleet, stale[i], order, oracle);
    }
    assert stale[..|stale|] == stale;
  }
}
