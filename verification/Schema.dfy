/**
 The relational schema: one map per registry table, keyed by primary key, and the three
 append-only histories. Foreign keys and their ON DELETE actions are those of schema.sql.
 */
module Schema {
  import opened Prelude
  import opened IsoTime

  type Id = string

  // ---------- Rows ----------

  datatype Status = Active | Inactive | Cooldown | Disabled | Degraded | Probing | Recovered

  /** The columns `status`, `cooldown_until` and `failure_count` of accounts and endpoints. */
  datatype Health = Health(status: Status, until: Option<Stamp>, failures: nat)

  datatype NodeStatus = NodeActive | NodeInactive | NodeDegraded
  datatype Override = NoOverride | ForceActive | ForceDisabled
  datatype ConsumerStatus = ConsumerActive | ConsumerDisabled
  datatype KeyStatus = KeyActive | PendingSync | KeyDisabled | KeyError

  /** A key minted by a proxy, or the `pending-key-` placeholder text. */
  datatype VirtualKey = Issued(serial: nat) | Placeholder(forNode: Id, forConsumer: Id)

  datatype Node = Node(name: string, host: string, port: int, region: string, role: string, status: NodeStatus)
  datatype Provider = Provider(name: string, kind: string)
  datatype Model = Model(name: string, group: string, chat: bool, stream: bool, tools: bool, embeddings: bool)
  datatype Account = Account(name: string, provider: Id, secretRef: string, health: Health)
  datatype Endpoint = Endpoint(node: Id, account: Id, model: Id, priority: int, weight: int,
                               override: Override, health: Health)
  datatype Consumer = Consumer(name: string, maxBudget: Option<real>, rpm: Option<int>, tpm: Option<int>,
                               status: ConsumerStatus, profile: Option<Id>)
  datatype ConsumerKey = ConsumerKey(key: VirtualKey, status: KeyStatus)
  datatype Profile = Profile(name: string, groups: seq<string>, description: Option<string>)

  datatype Tables = Tables(
    nodes: map<Id, Node>,
    providers: map<Id, Provider>,
    models: map<Id, Model>,
    accounts: map<Id, Account>,
    endpoints: map<Id, Endpoint>,
    consumers: map<Id, Consumer>,
    keys: map<(Id, Id), ConsumerKey>,
    profiles: map<Id, Profile>)

  const EMPTY_TABLES := Tables(map[], map[], map[], map[], map[], map[], map[], map[])

  /** A row together with its primary key: what `model_dump()` writes into an audit record. */
  datatype Row =
    | NodeRow(id: Id, node: Node)
    | ProviderRow(id: Id, provider: Provider)
    | ModelRow(id: Id, model: Model)
    | AccountRow(id: Id, account: Account)
    | EndpointRow(id: Id, endpoint: Endpoint)
    | ConsumerRow(id: Id, consumer: Consumer)
    | KeyRow(holder: Id, at: Id, key: ConsumerKey)
    | ProfileRow(id: Id, profile: Profile)

  /** A primary key together with its table. */
  datatype Target =
    | NodeT(id: Id) | ProviderT(id: Id) | ModelT(id: Id) | AccountT(id: Id) | EndpointT(id: Id)
    | ConsumerT(id: Id) | KeyT(holder: Id, at: Id) | ProfileT(id: Id)

  function TargetOf(row: Row): Target {
    match row
    case NodeRow(id, _) => NodeT(id)
    case ProviderRow(id, _) => ProviderT(id)
    case ModelRow(id, _) => ModelT(id)
    case AccountRow(id, _) => AccountT(id)
    case EndpointRow(id, _) => EndpointT(id)
    case ConsumerRow(id, _) => ConsumerT(id)
    case KeyRow(c, n, _) => KeyT(c, n)
    case ProfileRow(id, _) => ProfileT(id)
  }

  function RowAt(t: Tables, target: Target): Option<Row> {
    match target
    case NodeT(id) => if id in t.nodes then Some(NodeRow(id, t.nodes[id])) else None
    case ProviderT(id) => if id in t.providers then Some(ProviderRow(id, t.providers[id])) else None
    case ModelT(id) => if id in t.models then Some(ModelRow(id, t.models[id])) else None
    case AccountT(id) => if id in t.accounts then Some(AccountRow(id, t.accounts[id])) else None
    case EndpointT(id) => if id in t.endpoints then Some(EndpointRow(id, t.endpoints[id])) else None
    case ConsumerT(id) => if id in t.consumers then Some(ConsumerRow(id, t.consumers[id])) else None
    case KeyT(c, n) => if (c, n) in t.keys then Some(KeyRow(c, n, t.keys[(c, n)])) else None
    case ProfileT(id) => if id in t.profiles then Some(ProfileRow(id, t.profiles[id])) else None
  }

  /** INSERT of a new row, or UPDATE of the row with the same primary key. */
  function Put(t: Tables, row: Row): Tables {
    match row
    case NodeRow(id, x) => t.(nodes := t.nodes[id := x])
    case ProviderRow(id, x) => t.(providers := t.providers[id := x])
    case ModelRow(id, x) => t.(models := t.models[id := x])
    case AccountRow(id, x) => t.(accounts := t.accounts[id := x])
    case EndpointRow(id, x) => t.(endpoints := t.endpoints[id := x])
    case ConsumerRow(id, x) => t.(consumers := t.consumers[id := x])
    case KeyRow(c, n, x) => t.(keys := t.keys[(c, n) := x])
    case ProfileRow(id, x) => t.(profiles := t.profiles[id := x])
  }

  // ---------- Foreign keys ----------

  /** Every foreign key of `row` points at an existing row. */
  predicate Refs(t: Tables, row: Row) {
    match row
    case AccountRow(_, x) => x.provider in t.providers
    case EndpointRow(_, x) => x.node in t.nodes && x.account in t.accounts && x.model in t.models
    case ConsumerRow(_, x) => x.profile.Some? ==> x.profile.value in t.profiles
    case KeyRow(c, n, _) => c in t.consumers && n in t.nodes
    case _ => true
  }

  /** A row whose deletion ON DELETE RESTRICT forbids, or that delete_policy_profile refuses. */
  predicate Restricted(t: Tables, target: Target) {
    match target
    case ProviderT(id) => exists a :: a in t.accounts && t.accounts[a].provider == id
    case ModelT(id) => exists e :: e in t.endpoints && t.endpoints[e].model == id
    case AccountT(id) => exists e :: e in t.endpoints && t.endpoints[e].account == id
    case ProfileT(id) => exists c :: c in t.consumers && t.consumers[c].profile == Some(id)
    case _ => false
  }

  function EndpointsOffNode(endpoints: map<Id, Endpoint>, node: Id): map<Id, Endpoint> {
    map e | e in endpoints && endpoints[e].node != node :: endpoints[e]
  }

  function KeysOffNode(keys: map<(Id, Id), ConsumerKey>, node: Id): map<(Id, Id), ConsumerKey> {
    map k | k in keys && k.1 != node :: keys[k]
  }

  function KeysOffConsumer(keys: map<(Id, Id), ConsumerKey>, consumer: Id): map<(Id, Id), ConsumerKey> {
    map k | k in keys && k.0 != consumer :: keys[k]
  }

  function ConsumersOffProfile(consumers: map<Id, Consumer>, profile: Id): map<Id, Consumer> {
    map c | c in consumers ::
      if consumers[c].profile == Some(profile) then consumers[c].(profile := None) else consumers[c]
  }

  /** DELETE with the schema's CASCADE and SET NULL actions. */
  function Drop(t: Tables, target: Target): Tables {
    match target
    case NodeT(id) =>
      t.(nodes := t.nodes - {id},
         endpoints := EndpointsOffNode(t.endpoints, id),
         keys := KeysOffNode(t.keys, id))
    case ProviderT(id) => t.(providers := t.providers - {id})
    case ModelT(id) => t.(models := t.models - {id})
    case AccountT(id) => t.(accounts := t.accounts - {id})
    case EndpointT(id) => t.(endpoints := t.endpoints - {id})
    case ConsumerT(id) => t.(consumers := t.consumers - {id}, keys := KeysOffConsumer(t.keys, id))
    case KeyT(c, n) => t.(keys := t.keys - {(c, n)})
    case ProfileT(id) =>
      t.(profiles := t.profiles - {id}, consumers := ConsumersOffProfile(t.consumers, id))
  }

  // ---------- Accounts and endpoints as health entities ----------

  datatype Entity = AccountRef(id: Id) | EndpointRef(id: Id)

  predicate Exists(t: Tables, e: Entity) {
    match e
    case AccountRef(id) => id in t.accounts
    case EndpointRef(id) => id in t.endpoints
  }

  function HealthOf(t: Tables, e: Entity): Health
    requires Exists(t, e)
  {
    match e
    case AccountRef(id) => t.accounts[id].health
    case EndpointRef(id) => t.endpoints[id].health
  }

  function EntityRow(t: Tables, e: Entity): Row
    requires Exists(t, e)
  {
    match e
    case AccountRef(id) => AccountRow(id, t.accounts[id])
    case EndpointRef(id) => EndpointRow(id, t.endpoints[id])
  }

  function WithHealth(row: Row, h: Health): Row {
    match row
    case AccountRow(id, x) => AccountRow(id, x.(health := h))
    case EndpointRow(id, x) => EndpointRow(id, x.(health := h))
    case _ => row
  }

  // ---------- Histories ----------

  datatype Action =
    | Create | Delete | Update | UpdateStatus | UpdateRouting
    | CreateKey | UpdateKey | UpdateKeyStatus | DeleteKey | DriftDetected

  datatype Changes = Image(row: Row) | Diff(before: Row, after: Row) | Drift(node: Id)

  datatype AuditRecord = AuditRecord(actor: string, action: Action, changes: Changes)

  datatype Incident = Incident(entity: Entity, from: Status, to: Status)

  datatype RolloutStatus = Pending | Applying | Success | Failed | RolledBack

  datatype Rollout = Rollout(id: Id, node: Id, version: string, status: RolloutStatus,
                             content: string, timestamp: nat)

  datatype Db = Db(t: Tables, rollouts: seq<Rollout>, incidents: seq<Incident>, audit: seq<AuditRecord>)

  const EMPTY_DB := Db(EMPTY_TABLES, [], [], [])

  function RolloutsOffNode(rollouts: seq<Rollout>, node: Id): seq<Rollout> {
    if rollouts == [] then []
    else
      var rest := RolloutsOffNode(rollouts[1..], node);
      if rollouts[0].node == node then rest else [rollouts[0]] + rest
  }
}
