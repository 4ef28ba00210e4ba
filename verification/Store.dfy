/** The registry store: what each store call does to the database, as a function on its value. */
module Store {
  import opened Prelude
  import opened IsoTime
  import opened Schema

  // ---------- What each call does ----------

  function CreateAction(row: Row): Action {
    if row.KeyRow? then CreateKey else Create
  }

  function DeleteAction(target: Target): Action {
    if target.KeyT? then DeleteKey else Delete
  }

  /** INSERT lists no timer and no counter, so those columns start at their defaults. */
  function Stored(row: Row): Row {
    match row
    case AccountRow(_, x) => WithHealth(row, Health(x.health.status, None, 0))
    case EndpointRow(_, x) => WithHealth(row, Health(x.health.status, None, 0))
    case _ => row
  }

  /** Primary key free and foreign keys satisfied; otherwise INSERT raises IntegrityError. */
  predicate CanInsert(t: Tables, row: Row) {
    RowAt(t, TargetOf(row)).None? && Refs(t, row)
  }

  function CreateRow(db: Db, row: Row, actor: string): Db {
    if CanInsert(db.t, row)
    then db.(t := Put(db.t, Stored(row)),
             audit := db.audit + [AuditRecord(actor, CreateAction(row), Image(Stored(row)))])
    else db
  }

  function DeleteRow(db: Db, target: Target, actor: string): Db {
    var row := RowAt(db.t, target);
    if row.None? || Restricted(db.t, target) then db
    else db.(t := Drop(db.t, target),
             rollouts := if target.NodeT? then RolloutsOffNode(db.rollouts, target.id) else db.rollouts,
             audit := db.audit + [AuditRecord(actor, DeleteAction(target), Image(row.value))])
  }

  /** UPDATE of an existing row to `after`, with its before/after audit record. Only a consumer's
      foreign key can change this way. */
  function UpdateRow(db: Db, action: Action, after: Row, actor: string): Db {
    var before := RowAt(db.t, TargetOf(after));
    if before.None? || (after.ConsumerRow? && !Refs(db.t, after)) then db
    else db.(t := Put(db.t, after),
             audit := db.audit + [AuditRecord(actor, action, Diff(before.value, after))])
  }

  /** A PATCH body: the fields that are not None. */
  datatype Patch =
    | NodePatch(name: Option<string>, host: Option<string>, port: Option<int>, region: Option<string>,
                role: Option<string>, nodeStatus: Option<NodeStatus>)
    | ProviderPatch(name: Option<string>, kind: Option<string>)
    | ModelPatch(name: Option<string>, group: Option<string>, chat: Option<bool>, stream: Option<bool>,
                 tools: Option<bool>, embeddings: Option<bool>)
    | ConsumerPatch(name: Option<string>, maxBudget: Option<real>, rpm: Option<int>, tpm: Option<int>,
                    consumerStatus: Option<ConsumerStatus>, profile: Option<Id>)
    | ProfilePatch(name: Option<string>, groups: Option<seq<string>>, description: Option<string>)

  predicate EmptyPatch(p: Patch) {
    p == NodePatch(None, None, None, None, None, None)
    || p == ProviderPatch(None, None)
    || p == ModelPatch(None, None, None, None, None, None)
    || p == ConsumerPatch(None, None, None, None, None, None)
    || p == ProfilePatch(None, None, None)
  }

  function Or<T>(change: Option<T>, current: T): T {
    if change.Some? then change.value else current
  }

  function PatchTarget(id: Id, p: Patch): Target {
    match p
    case NodePatch(_, _, _, _, _, _) => NodeT(id)
    case ProviderPatch(_, _) => ProviderT(id)
    case ModelPatch(_, _, _, _, _, _) => ModelT(id)
    case ConsumerPatch(_, _, _, _, _, _) => ConsumerT(id)
    case ProfilePatch(_, _, _) => ProfileT(id)
  }

  function Patched(row: Row, p: Patch): Row {
    match (row, p)
    case (NodeRow(id, x), NodePatch(name, host, port, region, role, status)) =>
      NodeRow(id, Node(Or(name, x.name), Or(host, x.host), Or(port, x.port), Or(region, x.region),
                       Or(role, x.role), Or(status, x.status)))
    case (ProviderRow(id, x), ProviderPatch(name, kind)) =>
      ProviderRow(id, Provider(Or(name, x.name), Or(kind, x.kind)))
    case (ModelRow(id, x), ModelPatch(name, group, chat, stream, tools, embeddings)) =>
      ModelRow(id, Model(Or(name, x.name), Or(group, x.group), Or(chat, x.chat), Or(stream, x.stream),
                         Or(tools, x.tools), Or(embeddings, x.embeddings)))
    case (ConsumerRow(id, x), ConsumerPatch(name, budget, rpm, tpm, status, profile)) =>
      ConsumerRow(id, Consumer(Or(name, x.name), budget.OrElse(x.maxBudget), rpm.OrElse(x.rpm),
                               tpm.OrElse(x.tpm), Or(status, x.status), profile.OrElse(x.profile)))
    case (ProfileRow(id, x), ProfilePatch(name, groups, description)) =>
      ProfileRow(id, Profile(Or(name, x.name), Or(groups, x.groups), description.OrElse(x.description)))
    case _ => row
  }

  function PatchRow(db: Db, id: Id, p: Patch, actor: string): Db {
    var row := RowAt(db.t, PatchTarget(id, p));
    if row.None? || EmptyPatch(p) then db else UpdateRow(db, Update, Patched(row.value, p), actor)
  }

  /** Writing `active` also clears the timer and the counter. */
  function WrittenStatus(h: Health, status: Status): Health {
    if status == Active then Health(Active, None, 0) else h.(status := status)
  }

  function SetHealth(db: Db, e: Entity, h: Health): Db {
    if !Exists(db.t, e) then db else db.(t := Put(db.t, WithHealth(EntityRow(db.t, e), h)))
  }

  function LogHealth(db: Db, e: Entity, h: Health, actor: string): Db {
    if !Exists(db.t, e) then db
    else
      var before := EntityRow(db.t, e);
      SetHealth(db, e, h).(audit := db.audit + [AuditRecord(actor, UpdateStatus, Diff(before, WithHealth(before, h)))])
  }

  function WriteStatus(db: Db, e: Entity, status: Status, actor: string): Db {
    if !Exists(db.t, e) then db else LogHealth(db, e, WrittenStatus(HealthOf(db.t, e), status), actor)
  }

  function WriteCooldown(db: Db, e: Entity, until: Stamp, actor: string): Db {
    if !Exists(db.t, e) then db
    else LogHealth(db, e, HealthOf(db.t, e).(status := Cooldown, until := Some(until)), actor)
  }

  function WriteEndpointStatus(db: Db, id: Id, status: Option<Status>, override: Option<Override>, actor: string): Db {
    if id !in db.t.endpoints then db
    else
      var row := db.t.endpoints[id];
      var changed := row.(override := Or(override, row.override),
                       health := WrittenStatus(row.health, Or(status, row.health.status)));
      db.(t := Put(db.t, EndpointRow(id, changed)),
          audit := db.audit + [AuditRecord(actor, UpdateStatus, Diff(EndpointRow(id, row), EndpointRow(id, changed)))])
  }

  function Route(db: Db, id: Id, priority: Option<int>, weight: Option<int>, actor: string): Db {
    if id !in db.t.endpoints then db
    else
      var row := db.t.endpoints[id];
      var changed := row.(priority := Or(priority, row.priority), weight := Or(weight, row.weight));
      db.(t := Put(db.t, EndpointRow(id, changed)),
          audit := db.audit + [AuditRecord(actor, UpdateRouting, Diff(EndpointRow(id, row), EndpointRow(id, changed)))])
  }

  function CountFailure(db: Db, e: Entity): Db {
    if !Exists(db.t, e) then db
    else
      var h := HealthOf(db.t, e);
      SetHealth(db, e, h.(failures := h.failures + 1))
  }

  function WriteKey(db: Db, consumer: Id, node: Id, key: VirtualKey, status: KeyStatus, actor: string): Db {
    UpdateRow(db, UpdateKey, KeyRow(consumer, node, ConsumerKey(key, status)), actor)
  }

  function WriteKeyStatus(db: Db, consumer: Id, node: Id, status: KeyStatus, actor: string): Db {
    if (consumer, node) !in db.t.keys then db
    else UpdateRow(db, UpdateKeyStatus, KeyRow(consumer, node, db.t.keys[(consumer, node)].(status := status)), actor)
  }

  // ---------- The calls as one type, for runs ----------

  datatype StoreCall =
    | Creating(row: Row)
    | Deleting(target: Target)
    | Patching(id: Id, patch: Patch)
    | Routing(id: Id, priority: Option<int>, weight: Option<int>)
    | AccountStatus(id: Id, status: Status)
    | EndpointStatus(id: Id, epStatus: Option<Status>, override: Option<Override>)
    | KeyWrite(holder: Id, at: Id, key: VirtualKey, keyStatus: KeyStatus)
    | KeyStatusWrite(holder: Id, at: Id, keyStatus: KeyStatus)

  function Apply(db: Db, call: StoreCall, actor: string): Db {
    match call
    case Creating(row) => CreateRow(db, row, actor)
    case Deleting(target) => DeleteRow(db, target, actor)
    case Patching(id, p) => PatchRow(db, id, p, actor)
    case Routing(id, priority, weight) => Route(db, id, priority, weight, actor)
    case AccountStatus(id, status) => WriteStatus(db, AccountRef(id), status, actor)
    case EndpointStatus(id, status, override) => WriteEndpointStatus(db, id, status, override, actor)
    case KeyWrite(c, n, key, status) => WriteKey(db, c, n, key, status, actor)
    case KeyStatusWrite(c, n, status) => WriteKeyStatus(db, c, n, status, actor)
  }

  // ---------- What the calls promise, column by column ----------

  /** A field of a PATCH body that is given is written, and one that is not is kept. */
  predicate Given<T(==)>(change: Option<T>, before: T, after: T) {
    (change.Some? ==> after == change.value) && (change.None? ==> after == before)
  }

  predicate GivenOption<T(==)>(change: Option<T>, before: Option<T>, after: Option<T>) {
    (change.Some? ==> after == change) && (change.None? ==> after == before)
  }

  lemma PatchNodeColumns(db: Db, id: Id, p: Patch, actor: string)
    requires p.NodePatch? && id in db.t.nodes
    ensures var after := PatchRow(db, id, p, actor).t;
            && id in after.nodes && after == db.t.(nodes := db.t.nodes[id := after.nodes[id]])
            && var x, y := db.t.nodes[id], after.nodes[id];
               && Given(p.name, x.name, y.name) && Given(p.host, x.host, y.host) && Given(p.port, x.port, y.port)
               && Given(p.region, x.region, y.region) && Given(p.role, x.role, y.role)
               && Given(p.nodeStatus, x.status, y.status)
  {
    assert db.t.nodes[id := db.t.nodes[id]] == db.t.nodes;
    NodePatched(id, db.t.nodes[id], p);
    if EmptyPatch(p) {
      assert PatchRow(db, id, p, actor) == db;
    } else {
      assert PatchRow(db, id, p, actor).t == Put(db.t, Patched(NodeRow(id, db.t.nodes[id]), p));
    }
  }

  lemma NodePatched(id: Id, x: Node, p: Patch)
    requires p.NodePatch?
    ensures var row := Patched(NodeRow(id, x), p);
            && row.NodeRow? && row.id == id
            && Given(p.name, x.name, row.node.name) && Given(p.host, x.host, row.node.host)
            && Given(p.port, x.port, row.node.port) && Given(p.region, x.region, row.node.region)
            && Given(p.role, x.role, row.node.role) && Given(p.nodeStatus, x.status, row.node.status)
  {
  }

  lemma PatchProviderColumns(db: Db, id: Id, p: Patch, actor: string)
    requires p.ProviderPatch? && id in db.t.providers
    ensures var after := PatchRow(db, id, p, actor).t;
            && id in after.providers && after == db.t.(providers := db.t.providers[id := after.providers[id]])
            && var x, y := db.t.providers[id], after.providers[id];
               Given(p.name, x.name, y.name) && Given(p.kind, x.kind, y.kind)
  {
    assert db.t.providers[id := db.t.providers[id]] == db.t.providers;
  }

  lemma PatchModelColumns(db: Db, id: Id, p: Patch, actor: string)
    requires p.ModelPatch? && id in db.t.models
    ensures var after := PatchRow(db, id, p, actor).t;
            && id in after.models && after == db.t.(models := db.t.models[id := after.models[id]])
            && var x, y := db.t.models[id], after.models[id];
               && Given(p.name, x.name, y.name) && Given(p.group, x.group, y.group) && Given(p.chat, x.chat, y.chat)
               && Given(p.stream, x.stream, y.stream) && Given(p.tools, x.tools, y.tools)
               && Given(p.embeddings, x.embeddings, y.embeddings)
  {
    assert db.t.models[id := db.t.models[id]] == db.t.models;
    ModelPatched(id, db.t.models[id], p);
    if EmptyPatch(p) {
      assert PatchRow(db, id, p, actor) == db;
    } else {
      assert PatchRow(db, id, p, actor).t == Put(db.t, Patched(ModelRow(id, db.t.models[id]), p));
    }
  }

  lemma ModelPatched(id: Id, x: Model, p: Patch)
    requires p.ModelPatch?
    ensures var row := Patched(ModelRow(id, x), p);
            && row.ModelRow? && row.id == id
            && Given(p.name, x.name, row.model.name) && Given(p.group, x.group, row.model.group)
            && Given(p.chat, x.chat, row.model.chat) && Given(p.stream, x.stream, row.model.stream)
            && Given(p.tools, x.tools, row.model.tools) && Given(p.embeddings, x.embeddings, row.model.embeddings)
  {
  }

  /** A profile that does not exist is refused, and then nothing is written. */
  lemma PatchConsumerColumns(db: Db, id: Id, p: Patch, actor: string)
    requires p.ConsumerPatch? && id in db.t.consumers
    requires db.t.consumers[id].profile.Some? ==> db.t.consumers[id].profile.value in db.t.profiles
    ensures var after := PatchRow(db, id, p, actor);
            && (p.profile.Some? && p.profile.value !in db.t.profiles ==> after == db)
            && (p.profile.None? || p.profile.value in db.t.profiles ==>
                  && id in after.t.consumers
                  && after.t == db.t.(consumers := db.t.consumers[id := after.t.consumers[id]])
                  && var x, y := db.t.consumers[id], after.t.consumers[id];
                     && Given(p.name, x.name, y.name) && GivenOption(p.maxBudget, x.maxBudget, y.maxBudget)
                     && GivenOption(p.rpm, x.rpm, y.rpm) && GivenOption(p.tpm, x.tpm, y.tpm)
                     && Given(p.consumerStatus, x.status, y.status) && GivenOption(p.profile, x.profile, y.profile))
  {
    var x, after := db.t.consumers[id], PatchRow(db, id, p, actor);
    var y := Patched(ConsumerRow(id, x), p).consumer;
    ConsumerPatched(id, x, p);
    if EmptyPatch(p) {
      assert db.t.consumers[id := x] == db.t.consumers && after == db;
    } else {
      ConsumerPatchRow(db, id, p, actor, y);
      assert y.profile == if p.profile.Some? then p.profile else x.profile;
      if p.profile.None? || p.profile.value in db.t.profiles {
        assert after.t.consumers == db.t.consumers[id := y] && after.t.consumers[id] == y;
      }
    }
  }

  lemma ConsumerPatchRow(db: Db, id: Id, p: Patch, actor: string, y: Consumer)
    requires p.ConsumerPatch? && id in db.t.consumers && !EmptyPatch(p)
    requires Patched(ConsumerRow(id, db.t.consumers[id]), p) == ConsumerRow(id, y)
    ensures var after := PatchRow(db, id, p, actor);
            if y.profile.Some? && y.profile.value !in db.t.profiles then after == db
            else after.t == db.t.(consumers := db.t.consumers[id := y])
  {
  }

  lemma ConsumerPatched(id: Id, x: Consumer, p: Patch)
    requires p.ConsumerPatch?
    ensures var row := Patched(ConsumerRow(id, x), p);
            && row.ConsumerRow? && row.id == id
            && var y := row.consumer;
               && Given(p.name, x.name, y.name) && GivenOption(p.maxBudget, x.maxBudget, y.maxBudget)
               && GivenOption(p.rpm, x.rpm, y.rpm) && GivenOption(p.tpm, x.tpm, y.tpm)
               && Given(p.consumerStatus, x.status, y.status) && GivenOption(p.profile, x.profile, y.profile)
  {
  }

  lemma PatchProfileColumns(db: Db, id: Id, p: Patch, actor: string)
    requires p.ProfilePatch? && id in db.t.profiles
    ensures var after := PatchRow(db, id, p, actor).t;
            && id in after.profiles && after == db.t.(profiles := db.t.profiles[id := after.profiles[id]])
            && var x, y := db.t.profiles[id], after.profiles[id];
               && Given(p.name, x.name, y.name) && Given(p.groups, x.groups, y.groups)
               && GivenOption(p.description, x.description, y.description)
  {
    assert db.t.profiles[id := db.t.profiles[id]] == db.t.profiles;
    ProfilePatched(id, db.t.profiles[id], p);
    if EmptyPatch(p) {
      assert PatchRow(db, id, p, actor) == db;
    } else {
      assert PatchRow(db, id, p, actor).t == Put(db.t, Patched(ProfileRow(id, db.t.profiles[id]), p));
    }
  }

  lemma ProfilePatched(id: Id, x: Profile, p: Patch)
    requires p.ProfilePatch?
    ensures var row := Patched(ProfileRow(id, x), p);
            && row.ProfileRow? && row.id == id
            && Given(p.name, x.name, row.profile.name) && Given(p.groups, x.groups, row.profile.groups)
            && GivenOption(p.description, x.description, row.profile.description)
  {
  }

  /** A body with any field is logged with both images, and an empty one is not logged. */
  lemma PatchIsLogged(db: Db, id: Id, p: Patch, actor: string)
    requires RowAt(db.t, PatchTarget(id, p)).Some?
    ensures var after, row := PatchRow(db, id, p, actor), RowAt(db.t, PatchTarget(id, p)).value;
            after == db || after.audit == db.audit + [AuditRecord(actor, Update, Diff(row, Patched(row, p)))]
  {
    PatchedTarget(RowAt(db.t, PatchTarget(id, p)).value, p);
    RowAtHasTarget(db.t, PatchTarget(id, p));
  }

  /** Every other call that changes the registry logs one record, with its actor, its action and the images
      of the row before and after. */
  lemma CallsAreLogged(db: Db, call: StoreCall, actor: string)
    requires !call.Patching?
    ensures var after := Apply(db, call, actor);
            after == db
            || (|after.audit| == |db.audit| + 1 && db.audit <= after.audit
                && var record := after.audit[|db.audit|];
                   && record.actor == actor
                   && match call
                      case Creating(row) =>
                        && record.action == (if row.KeyRow? then CreateKey else Create)
                        && record.changes.Image? && Some(record.changes.row) == RowAt(after.t, TargetOf(row))
                      case Deleting(target) =>
                        && record.action == (if target.KeyT? then DeleteKey else Delete)
                        && record.changes.Image? && Some(record.changes.row) == RowAt(db.t, target)
                      case Routing(id, _, _) =>
                        record.action == UpdateRouting && Imaged(db, after, record, EndpointT(id))
                      case AccountStatus(id, _) =>
                        record.action == UpdateStatus && Imaged(db, after, record, AccountT(id))
                      case EndpointStatus(id, _, _) =>
                        record.action == UpdateStatus && Imaged(db, after, record, EndpointT(id))
                      case KeyWrite(c, n, _, _) => record.action == UpdateKey && Imaged(db, after, record, KeyT(c, n))
                      case KeyStatusWrite(c, n, _) =>
                        record.action == UpdateKeyStatus && Imaged(db, after, record, KeyT(c, n))
                      case _ => true)
  {
    match call
    case Creating(row) => StoredTarget(db.t, row);
    case _ =>
  }

  predicate Imaged(db: Db, after: Db, record: AuditRecord, target: Target) {
    && record.changes.Diff?
    && Some(record.changes.before) == RowAt(db.t, target) && Some(record.changes.after) == RowAt(after.t, target)
  }

  lemma StoredTarget(t: Tables, row: Row)
    ensures RowAt(Put(t, Stored(row)), TargetOf(row)) == Some(Stored(row))
  {
  }

  lemma RowAtHasTarget(t: Tables, target: Target)
    ensures RowAt(t, target).Some? ==> TargetOf(RowAt(t, target).value) == target
  {
  }

  /** An operator's status write: `active` clears timer and counter, any other status keeps both. */
  predicate StatusWritten(status: Status, h: Health, k: Health) {
    && k.status == status
    && (status == Active ==> k.until == None && k.failures == 0)
    && (status != Active ==> k.until == h.until && k.failures == h.failures)
  }

  lemma AccountStatusColumns(db: Db, id: Id, status: Status, actor: string)
    requires id in db.t.accounts
    ensures var after := WriteStatus(db, AccountRef(id), status, actor).t;
            && id in after.accounts && after == db.t.(accounts := db.t.accounts[id := after.accounts[id]])
            && after.accounts[id] == db.t.accounts[id].(health := after.accounts[id].health)
            && StatusWritten(status, db.t.accounts[id].health, after.accounts[id].health)
  {
  }

  lemma EndpointStatusColumns(db: Db, id: Id, status: Option<Status>, override: Option<Override>, actor: string)
    requires id in db.t.endpoints
    ensures var after := WriteEndpointStatus(db, id, status, override, actor).t;
            && id in after.endpoints && after == db.t.(endpoints := db.t.endpoints[id := after.endpoints[id]])
            && var x, y := db.t.endpoints[id], after.endpoints[id];
               && y == x.(override := y.override, health := y.health) && Given(override, x.override, y.override)
               && StatusWritten(if status.Some? then status.value else x.health.status, x.health, y.health)
  {
  }

  lemma RoutingColumns(db: Db, id: Id, priority: Option<int>, weight: Option<int>, actor: string)
    requires id in db.t.endpoints
    ensures var after := Route(db, id, priority, weight, actor).t;
            && id in after.endpoints && after == db.t.(endpoints := db.t.endpoints[id := after.endpoints[id]])
            && var x, y := db.t.endpoints[id], after.endpoints[id];
               && y == x.(priority := y.priority, weight := y.weight)
               && Given(priority, x.priority, y.priority) && Given(weight, x.weight, y.weight)
  {
  }

  /** A create inserts exactly its row if the id is free and every reference exists, with no timer and no
      failures, and does nothing otherwise. */
  lemma CreateColumns(db: Db, row: Row, actor: string)
    ensures var t, after := db.t, CreateRow(db, row, actor);
            match row
            case NodeRow(id, x) => after.t == if id in t.nodes then t else t.(nodes := t.nodes[id := x])
            case ProviderRow(id, x) =>
              after.t == if id in t.providers then t else t.(providers := t.providers[id := x])
            case ModelRow(id, x) => after.t == if id in t.models then t else t.(models := t.models[id := x])
            case AccountRow(id, x) =>
              after.t == if id in t.accounts || x.provider !in t.providers then t
                         else t.(accounts := t.accounts[id := x.(health := Health(x.health.status, None, 0))])
            case EndpointRow(id, x) =>
              after.t == if id in t.endpoints || x.node !in t.nodes || x.account !in t.accounts || x.model !in t.models
                         then t
                         else t.(endpoints := t.endpoints[id := x.(health := Health(x.health.status, None, 0))])
            case ConsumerRow(id, x) =>
              after.t == if id in t.consumers || (x.profile.Some? && x.profile.value !in t.profiles) then t
                         else t.(consumers := t.consumers[id := x])
            case KeyRow(c, n, x) =>
              after.t == if (c, n) in t.keys || c !in t.consumers || n !in t.nodes then t
                         else t.(keys := t.keys[(c, n) := x])
            case ProfileRow(id, x) =>
              after.t == if id in t.profiles then t else t.(profiles := t.profiles[id := x])
  {
  }

  /** Providers, models and accounts go exactly if nothing refers to them; endpoints and keys always; and
      nothing else goes with them. */
  lemma DeleteColumns(db: Db, target: Target, actor: string)
    ensures var t, after := db.t, DeleteRow(db, target, actor).t;
            match target
            case ProviderT(id) =>
              after == if exists a :: a in t.accounts && t.accounts[a].provider == id then t
                       else t.(providers := t.providers - {id})
            case ModelT(id) =>
              after == if exists e :: e in t.endpoints && t.endpoints[e].model == id then t
                       else t.(models := t.models - {id})
            case AccountT(id) =>
              after == if exists e :: e in t.endpoints && t.endpoints[e].account == id then t
                       else t.(accounts := t.accounts - {id})
            case EndpointT(id) => after == t.(endpoints := t.endpoints - {id})
            case KeyT(c, n) => after == t.(keys := t.keys - {(c, n)})
            case _ => true
  {
    match target
    case ProviderT(id) => if id !in db.t.providers { assert db.t.providers - {id} == db.t.providers; }
    case ModelT(id) => if id !in db.t.models { assert db.t.models - {id} == db.t.models; }
    case AccountT(id) => if id !in db.t.accounts { assert db.t.accounts - {id} == db.t.accounts; }
    case EndpointT(id) => if id !in db.t.endpoints { assert db.t.endpoints - {id} == db.t.endpoints; }
    case KeyT(c, n) => if (c, n) !in db.t.keys { assert db.t.keys - {(c, n)} == db.t.keys; }
    case _ =>
  }

  // ---------- Referential integrity ----------

  predicate Sound(db: Db) {
    && SoundTables(db.t)
    && (forall r :: r in db.rollouts ==> r.node in db.t.nodes)
  }

  predicate SoundTables(t: Tables) {
    && (forall a :: a in t.accounts ==> t.accounts[a].provider in t.providers)
    && (forall e :: e in t.endpoints ==> t.endpoints[e].node in t.nodes)
    && (forall e :: e in t.endpoints ==> t.endpoints[e].account in t.accounts)
    && (forall e :: e in t.endpoints ==> t.endpoints[e].model in t.models)
    && (forall k :: k in t.keys ==> k.0 in t.consumers && k.1 in t.nodes)
    && (forall c :: c in t.consumers && t.consumers[c].profile.Some? ==> t.consumers[c].profile.value in t.profiles)
  }

  lemma PutKeepsSound(t: Tables, row: Row)
    requires SoundTables(t) && Refs(t, row)
    ensures SoundTables(Put(t, row))
  {
  }

  lemma DropReferencedKeepsSound(t: Tables, target: Target)
    requires SoundTables(t) && !Restricted(t, target)
    requires target.ProviderT? || target.ModelT? || target.AccountT?
    ensures SoundTables(Drop(t, target))
  {
    forall a | a in t.accounts ensures target != ProviderT(t.accounts[a].provider) { }
    forall e | e in t.endpoints
      ensures target != ModelT(t.endpoints[e].model) && target != AccountT(t.endpoints[e].account)
    { }
  }

  lemma DropKeepsSound(t: Tables, target: Target)
    requires SoundTables(t) && !Restricted(t, target)
    ensures SoundTables(Drop(t, target))
  {
    match target
    case ProviderT(id) => DropReferencedKeepsSound(t, target);
    case ModelT(id) => DropReferencedKeepsSound(t, target);
    case AccountT(id) => DropReferencedKeepsSound(t, target);
    case ProfileT(id) =>
      forall c | c in t.consumers ensures t.consumers[c].profile != Some(id) { }
    case _ =>
  }

  lemma RolloutsOffNodeMeaning(rollouts: seq<Rollout>, node: Id)
    ensures forall r :: r in RolloutsOffNode(rollouts, node) <==> r in rollouts && r.node != node
  {
    if rollouts != [] {
      RolloutsOffNodeMeaning(rollouts[1..], node);
      assert rollouts == [rollouts[0]] + rollouts[1..];
    }
  }

  lemma CreateKeepsSound(db: Db, row: Row, actor: string)
    requires Sound(db)
    ensures Sound(CreateRow(db, row, actor))
  {
    if CanInsert(db.t, row) {
      PutKeepsSound(db.t, Stored(row));
    }
  }

  lemma DeleteKeepsSound(db: Db, target: Target, actor: string)
    requires Sound(db)
    ensures Sound(DeleteRow(db, target, actor))
  {
    if !Restricted(db.t, target) {
      DropKeepsSound(db.t, target);
    }
    if target.NodeT? {
      RolloutsOffNodeMeaning(db.rollouts, target.id);
    }
  }

  lemma UpdateKeepsSound(db: Db, action: Action, after: Row, actor: string)
    requires Sound(db) && !after.AccountRow? && !after.EndpointRow?
    ensures Sound(UpdateRow(db, action, after, actor))
  {
    if RowAt(db.t, TargetOf(after)).Some? && Refs(db.t, after) {
      PutKeepsSound(db.t, after);
    }
  }

  lemma EndpointWriteKeepsSound(db: Db, id: Id, changed: Endpoint, audit: seq<AuditRecord>)
    requires Sound(db) && id in db.t.endpoints
    requires changed == db.t.endpoints[id].(priority := changed.priority, weight := changed.weight,
                                            override := changed.override, health := changed.health)
    ensures Sound(db.(t := Put(db.t, EndpointRow(id, changed)), audit := audit))
  {
    PutKeepsSound(db.t, EndpointRow(id, changed));
  }

  lemma SetHealthKeepsSound(db: Db, e: Entity, h: Health)
    requires Sound(db)
    ensures Sound(SetHealth(db, e, h))
  {
    if Exists(db.t, e) {
      PutKeepsSound(db.t, WithHealth(EntityRow(db.t, e), h));
    }
  }

  /** Every store call keeps every foreign key satisfied, whether it succeeds or is refused. */
  lemma ApplyKeepsSound(db: Db, call: StoreCall, actor: string)
    requires Sound(db)
    ensures Sound(Apply(db, call, actor))
  {
    match call
    case Creating(row) => CreateKeepsSound(db, row, actor);
    case Deleting(target) => DeleteKeepsSound(db, target, actor);
    case Patching(id, p) =>
      var row := RowAt(db.t, PatchTarget(id, p));
      if row.Some? { UpdateKeepsSound(db, Update, Patched(row.value, p), actor); }
    case Routing(id, priority, weight) =>
      var after := Route(db, id, priority, weight, actor);
      if id in db.t.endpoints { EndpointWriteKeepsSound(db, id, after.t.endpoints[id], after.audit); }
    case AccountStatus(id, status) =>
      if id in db.t.accounts {
        SetHealthKeepsSound(db, AccountRef(id), WrittenStatus(db.t.accounts[id].health, status));
      }
    case EndpointStatus(id, status, override) =>
      var after := WriteEndpointStatus(db, id, status, override, actor);
      if id in db.t.endpoints { EndpointWriteKeepsSound(db, id, after.t.endpoints[id], after.audit); }
    case KeyWrite(c, n, key, status) =>
      UpdateKeepsSound(db, UpdateKey, KeyRow(c, n, ConsumerKey(key, status)), actor);
    case KeyStatusWrite(c, n, status) =>
      if (c, n) in db.t.keys {
        UpdateKeepsSound(db, UpdateKeyStatus, KeyRow(c, n, db.t.keys[(c, n)].(status := status)), actor);
      }
  }

  /** Deleting a node removes the node and exactly the rows that hang off it. */
  lemma NodeDeletionIsExact(db: Db, node: Id, actor: string)
    requires node in db.t.nodes
    ensures var after := DeleteRow(db, NodeT(node), actor);
            && after.t.nodes.Keys == db.t.nodes.Keys - {node}
            && (forall e :: e in after.t.endpoints <==> e in db.t.endpoints && db.t.endpoints[e].node != node)
            && (forall k :: k in after.t.keys <==> k in db.t.keys && k.1 != node)
            && (forall r :: r in after.rollouts <==> r in db.rollouts && r.node != node)
            && (forall e :: e in after.t.endpoints ==> after.t.endpoints[e] == db.t.endpoints[e])
            && (forall k :: k in after.t.keys ==> after.t.keys[k] == db.t.keys[k])
            && after.t.accounts == db.t.accounts && after.t.models == db.t.models
            && after.t.providers == db.t.providers && after.t.consumers == db.t.consumers
            && after.t.profiles == db.t.profiles
  {
    RolloutsOffNodeMeaning(db.rollouts, node);
  }

  lemma ConsumerDeletionIsExact(db: Db, consumer: Id, actor: string)
    requires consumer in db.t.consumers
    ensures var after := DeleteRow(db, ConsumerT(consumer), actor);
            && after.t == db.t.(consumers := after.t.consumers, keys := after.t.keys)
            && after.t.consumers == db.t.consumers - {consumer}
            && (forall k :: k in after.t.keys <==> k in db.t.keys && k.0 != consumer)
            && (forall k :: k in after.t.keys ==> after.t.keys[k] == db.t.keys[k])
            && after.rollouts == db.rollouts
  {
  }

  /** The schema says SET NULL, but the call refuses first: no consumer ever loses its profile this way. */
  lemma ProfileDeletionNullsNothing(db: Db, profile: Id, actor: string)
    ensures DeleteRow(db, ProfileT(profile), actor).t.consumers == db.t.consumers
    ensures profile in db.t.profiles ==>
              (profile !in DeleteRow(db, ProfileT(profile), actor).t.profiles
               <==> forall c :: c in db.t.consumers ==> db.t.consumers[c].profile != Some(profile))
  {
    if !Restricted(db.t, ProfileT(profile)) {
      forall c | c in db.t.consumers ensures db.t.consumers[c].profile != Some(profile) { }
      assert ConsumersOffProfile(db.t.consumers, profile) == db.t.consumers;
    }
  }

  lemma PatchedTarget(row: Row, p: Patch)
    ensures TargetOf(Patched(row, p)) == TargetOf(row)
  {
    match (row, p)
    case (NodeRow(_, _), NodePatch(_, _, _, _, _, _)) =>
    case (ProviderRow(_, _), ProviderPatch(_, _)) =>
    case (ModelRow(_, _), ModelPatch(_, _, _, _, _, _)) =>
    case (ConsumerRow(_, _), ConsumerPatch(_, _, _, _, _, _)) =>
    case (ProfileRow(_, _), ProfilePatch(_, _, _)) =>
    case _ =>
  }

  lemma PutEffect(t: Tables, row: Row)
    requires RowAt(t, TargetOf(row)).Some?
    requires !row.AccountRow? && !row.EndpointRow? && !row.KeyRow?
    ensures var after := Put(t, row);
            && after.accounts == t.accounts && after.endpoints == t.endpoints && after.keys == t.keys
            && after.nodes.Keys == t.nodes.Keys && after.consumers.Keys == t.consumers.Keys
  {
  }

  /** A PATCH rewrites one row of its own table. */
  lemma PatchEffect(db: Db, id: Id, p: Patch, actor: string)
    ensures var after := PatchRow(db, id, p, actor);
            && after.t.accounts == db.t.accounts && after.t.endpoints == db.t.endpoints && after.t.keys == db.t.keys
            && after.t.nodes.Keys == db.t.nodes.Keys && after.t.consumers.Keys == db.t.consumers.Keys
            && after.rollouts == db.rollouts
  {
    var row := RowAt(db.t, PatchTarget(id, p));
    if row.Some? {
      PatchedTarget(row.value, p);
      PutEffect(db.t, Patched(row.value, p));
    }
  }
}
