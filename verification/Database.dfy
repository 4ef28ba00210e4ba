/**
 The SQLite connection: tables that the store functions update in place. Every method
 is one function of the registry store and is proved against its value in module Store.
 */
module Connection {
  import opened Prelude
  import opened IsoTime
  import opened Schema
  import opened Store

  /** How a call ends: done, `None`/`False` for a missing row, or a raised error. */
  datatype Outcome = Done | Missing | Refused

  function DeleteOutcome(t: Tables, target: Target): Outcome {
    if RowAt(t, target).None? then Missing else if Restricted(t, target) then Refused else Done
  }

  class Database {
    var nodes: map<Id, Node>
    var providers: map<Id, Provider>
    var models: map<Id, Model>
    var accounts: map<Id, Account>
    var endpoints: map<Id, Endpoint>
    var consumers: map<Id, Consumer>
    var keys: map<(Id, Id), ConsumerKey>
    var profiles: map<Id, Profile>
    var rollouts: seq<Rollout>
    var incidents: seq<Incident>
    var audit: seq<AuditRecord>

    constructor ()
      ensures State() == EMPTY_DB
    {
      nodes, providers, models, accounts := map[], map[], map[], map[];
      endpoints, consumers, keys, profiles := map[], map[], map[], map[];
      rollouts, incidents, audit := [], [], [];
    }

    function Registry(): Tables
      reads this
    {
      Tables(nodes, providers, models, accounts, endpoints, consumers, keys, profiles)
    }

    function State(): Db
      reads this
    {
      Db(Registry(), rollouts, incidents, audit)
    }

    method LogAudit(actor: string, action: Action, changes: Changes)
      modifies this`audit
      ensures audit == old(audit) + [AuditRecord(actor, action, changes)]
    {
      audit := audit + [AuditRecord(actor, action, changes)];
    }

    // ---------- Creates ----------

    method CreateNode(id: Id, node: Node, actor: string) returns (r: Outcome)
      modifies this
      ensures r == if CanInsert(old(Registry()), NodeRow(id, node)) then Done else Refused
      ensures State() == CreateRow(old(State()), NodeRow(id, node), actor)
    {
      if id in nodes { return Refused; }
      nodes := nodes[id := node];
      LogAudit(actor, Create, Image(NodeRow(id, nodes[id])));
      return Done;
    }

    method CreateProvider(id: Id, provider: Provider, actor: string) returns (r: Outcome)
      modifies this
      ensures r == if CanInsert(old(Registry()), ProviderRow(id, provider)) then Done else Refused
      ensures State() == CreateRow(old(State()), ProviderRow(id, provider), actor)
    {
      if id in providers { return Refused; }
      providers := providers[id := provider];
      LogAudit(actor, Create, Image(ProviderRow(id, providers[id])));
      return Done;
    }

    method CreateModel(id: Id, model: Model, actor: string) returns (r: Outcome)
      modifies this
      ensures r == if CanInsert(old(Registry()), ModelRow(id, model)) then Done else Refused
      ensures State() == CreateRow(old(State()), ModelRow(id, model), actor)
    {
      if id in models { return Refused; }
      models := models[id := model];
      LogAudit(actor, Create, Image(ModelRow(id, models[id])));
      return Done;
    }

    method CreateAccount(id: Id, account: Account, actor: string) returns (r: Outcome)
      modifies this
      ensures r == if CanInsert(old(Registry()), AccountRow(id, account)) then Done else Refused
      ensures State() == CreateRow(old(State()), AccountRow(id, account), actor)
    {
      if id in accounts || account.provider !in providers { return Refused; }
      accounts := accounts[id := account.(health := Health(account.health.status, None, 0))];
      LogAudit(actor, Create, Image(AccountRow(id, accounts[id])));
      return Done;
    }

    method CreateEndpoint(id: Id, endpoint: Endpoint, actor: string) returns (r: Outcome)
      modifies this
      ensures r == if CanInsert(old(Registry()), EndpointRow(id, endpoint)) then Done else Refused
      ensures State() == CreateRow(old(State()), EndpointRow(id, endpoint), actor)
    {
      if id in endpoints || endpoint.node !in nodes || endpoint.account !in accounts || endpoint.model !in models {
        return Refused;
      }
      endpoints := endpoints[id := endpoint.(health := Health(endpoint.health.status, None, 0))];
      LogAudit(actor, Create, Image(EndpointRow(id, endpoints[id])));
      return Done;
    }

    method CreateConsumer(id: Id, consumer: Consumer, actor: string) returns (r: Outcome)
      modifies this
      ensures r == if CanInsert(old(Registry()), ConsumerRow(id, consumer)) then Done else Refused
      ensures State() == CreateRow(old(State()), ConsumerRow(id, consumer), actor)
    {
      if id in consumers || (consumer.profile.Some? && consumer.profile.value !in profiles) { return Refused; }
      consumers := consumers[id := consumer];
      LogAudit(actor, Create, Image(ConsumerRow(id, consumers[id])));
      return Done;
    }

    method CreateConsumerKey(consumer: Id, node: Id, key: ConsumerKey, actor: string) returns (r: Outcome)
      modifies this
      ensures r == if CanInsert(old(Registry()), KeyRow(consumer, node, key)) then Done else Refused
      ensures State() == CreateRow(old(State()), KeyRow(consumer, node, key), actor)
    {
      if (consumer, node) in keys || consumer !in consumers || node !in nodes { return Refused; }
      keys := keys[(consumer, node) := key];
      LogAudit(actor, CreateKey, Image(KeyRow(consumer, node, keys[(consumer, node)])));
      return Done;
    }

    method CreatePolicyProfile(id: Id, profile: Profile, actor: string) returns (r: Outcome)
      modifies this
      ensures r == if CanInsert(old(Registry()), ProfileRow(id, profile)) then Done else Refused
      ensures State() == CreateRow(old(State()), ProfileRow(id, profile), actor)
    {
      if id in profiles { return Refused; }
      profiles := profiles[id := profile];
      LogAudit(actor, Create, Image(ProfileRow(id, profiles[id])));
      return Done;
    }

    // ---------- Deletes ----------

    method DeleteNode(id: Id, actor: string) returns (r: Outcome)
      modifies this
      ensures r == DeleteOutcome(old(Registry()), NodeT(id))
      ensures State() == DeleteRow(old(State()), NodeT(id), actor)
    {
      if id !in nodes { return Missing; }
      var node := nodes[id];
      nodes := nodes - {id};
      endpoints := EndpointsOffNode(endpoints, id);
      keys := KeysOffNode(keys, id);
      rollouts := RolloutsOffNode(rollouts, id);
      LogAudit(actor, Delete, Image(NodeRow(id, node)));
      return Done;
    }

    method DeleteProvider(id: Id, actor: string) returns (r: Outcome)
      modifies this
      ensures r == DeleteOutcome(old(Registry()), ProviderT(id))
      ensures State() == DeleteRow(old(State()), ProviderT(id), actor)
    {
      if id !in providers { return Missing; }
      var provider := providers[id];
      if exists a :: a in accounts && accounts[a].provider == id { return Refused; }
      providers := providers - {id};
      LogAudit(actor, Delete, Image(ProviderRow(id, provider)));
      return Done;
    }

    method DeleteModel(id: Id, actor: string) returns (r: Outcome)
      modifies this
      ensures r == DeleteOutcome(old(Registry()), ModelT(id))
      ensures State() == DeleteRow(old(State()), ModelT(id), actor)
    {
      if id !in models { return Missing; }
      var model := models[id];
      if exists e :: e in endpoints && endpoints[e].model == id { return Refused; }
      models := models - {id};
      LogAudit(actor, Delete, Image(ModelRow(id, model)));
      return Done;
    }

    method DeleteAccount(id: Id, actor: string) returns (r: Outcome)
      modifies this
      ensures r == DeleteOutcome(old(Registry()), AccountT(id))
      ensures State() == DeleteRow(old(State()), AccountT(id), actor)
    {
      if id !in accounts { return Missing; }
      var account := accounts[id];
      if exists e :: e in endpoints && endpoints[e].account == id { return Refused; }
      accounts := accounts - {id};
      LogAudit(actor, Delete, Image(AccountRow(id, account)));
      return Done;
    }

    method DeleteEndpoint(id: Id, actor: string) returns (r: Outcome)
      modifies this
      ensures r == DeleteOutcome(old(Registry()), EndpointT(id))
      ensures State() == DeleteRow(old(State()), EndpointT(id), actor)
    {
      if id !in endpoints { return Missing; }
      var endpoint := endpoints[id];
      endpoints := endpoints - {id};
      LogAudit(actor, Delete, Image(EndpointRow(id, endpoint)));
      return Done;
    }

    method DeleteConsumer(id: Id, actor: string) returns (r: Outcome)
      modifies this
      ensures r == DeleteOutcome(old(Registry()), ConsumerT(id))
      ensures State() == DeleteRow(old(State()), ConsumerT(id), actor)
    {
      if id !in consumers { return Missing; }
      var consumer := consumers[id];
      consumers := consumers - {id};
      keys := KeysOffConsumer(keys, id);
      LogAudit(actor, Delete, Image(ConsumerRow(id, consumer)));
      return Done;
    }

    method DeleteConsumerKey(consumer: Id, node: Id, actor: string) returns (r: Outcome)
      modifies this
      ensures r == DeleteOutcome(old(Registry()), KeyT(consumer, node))
      ensures State() == DeleteRow(old(State()), KeyT(consumer, node), actor)
    {
      if (consumer, node) !in keys { return Missing; }
      var key := keys[(consumer, node)];
      keys := keys - {(consumer, node)};
      LogAudit(actor, DeleteKey, Image(KeyRow(consumer, node, key)));
      return Done;
    }

    method DeletePolicyProfile(id: Id, actor: string) returns (r: Outcome)
      modifies this
      ensures r == DeleteOutcome(old(Registry()), ProfileT(id))
      ensures State() == DeleteRow(old(State()), ProfileT(id), actor)
    {
      if id !in profiles { return Missing; }
      var profile := profiles[id];
      if exists c :: c in consumers && consumers[c].profile == Some(id) { return Refused; }
      profiles := profiles - {id};
      consumers := ConsumersOffProfile(consumers, id);
      LogAudit(actor, Delete, Image(ProfileRow(id, profile)));
      return Done;
    }

    // ---------- Updates ----------

    method UpdateNode(id: Id, patch: Patch, actor: string) returns (r: Outcome)
      modifies this
      requires patch.NodePatch?
      ensures r == if id in old(nodes) then Done else Missing
      ensures State() == PatchRow(old(State()), id, patch, actor)
    {
      if id !in nodes { return Missing; }
      var before := NodeRow(id, nodes[id]);
      if EmptyPatch(patch) { return Done; }
      var after := Patched(before, patch);
      nodes := nodes[id := after.node];
      LogAudit(actor, Update, Diff(before, NodeRow(id, nodes[id])));
      return Done;
    }

    method UpdateProvider(id: Id, patch: Patch, actor: string) returns (r: Outcome)
      modifies this
      requires patch.ProviderPatch?
      ensures r == if id in old(providers) then Done else Missing
      ensures State() == PatchRow(old(State()), id, patch, actor)
    {
      if id !in providers { return Missing; }
      var before := ProviderRow(id, providers[id]);
      if EmptyPatch(patch) { return Done; }
      var after := Patched(before, patch);
      providers := providers[id := after.provider];
      LogAudit(actor, Update, Diff(before, ProviderRow(id, providers[id])));
      return Done;
    }

    method UpdateModel(id: Id, patch: Patch, actor: string) returns (r: Outcome)
      modifies this
      requires patch.ModelPatch?
      ensures r == if id in old(models) then Done else Missing
      ensures State() == PatchRow(old(State()), id, patch, actor)
    {
      if id !in models { return Missing; }
      var before := ModelRow(id, models[id]);
      if EmptyPatch(patch) { return Done; }
      var after := Patched(before, patch);
      models := models[id := after.model];
      LogAudit(actor, Update, Diff(before, ModelRow(id, models[id])));
      return Done;
    }

    method UpdateConsumer(id: Id, patch: Patch, actor: string) returns (r: Outcome)
      modifies this
      requires patch.ConsumerPatch?
      ensures r == if id !in old(consumers) then Missing
                   else if || EmptyPatch(patch)
                           || Refs(old(Registry()), Patched(ConsumerRow(id, old(consumers)[id]), patch))
                   then Done else Refused
      ensures State() == PatchRow(old(State()), id, patch, actor)
    {
      if id !in consumers { return Missing; }
      var before := ConsumerRow(id, consumers[id]);
      if EmptyPatch(patch) { return Done; }
      var after := Patched(before, patch);
      if after.consumer.profile.Some? && after.consumer.profile.value !in profiles { return Refused; }
      consumers := consumers[id := after.consumer];
      LogAudit(actor, Update, Diff(before, ConsumerRow(id, consumers[id])));
      return Done;
    }

    method UpdatePolicyProfile(id: Id, patch: Patch, actor: string) returns (r: Outcome)
      modifies this
      requires patch.ProfilePatch?
      ensures r == if id in old(profiles) then Done else Missing
      ensures State() == PatchRow(old(State()), id, patch, actor)
    {
      if id !in profiles { return Missing; }
      var before := ProfileRow(id, profiles[id]);
      if EmptyPatch(patch) { return Done; }
      var after := Patched(before, patch);
      profiles := profiles[id := after.profile];
      LogAudit(actor, Update, Diff(before, ProfileRow(id, profiles[id])));
      return Done;
    }

    method UpdateEndpointRouting(id: Id, priority: Option<int>, weight: Option<int>, actor: string)
      returns (r: Outcome)
      modifies this
      ensures r == if id in old(endpoints) then Done else Missing
      ensures State() == Route(old(State()), id, priority, weight, actor)
    {
      if id !in endpoints { return Missing; }
      var before := endpoints[id];
      var newPriority := if priority.Some? then priority.value else before.priority;
      var newWeight := if weight.Some? then weight.value else before.weight;
      endpoints := endpoints[id := before.(priority := newPriority, weight := newWeight)];
      LogAudit(actor, UpdateRouting, Diff(EndpointRow(id, before), EndpointRow(id, endpoints[id])));
      return Done;
    }

    method UpdateAccountStatus(id: Id, status: Status, actor: string) returns (r: Outcome)
      modifies this
      ensures r == if id in old(accounts) then Done else Missing
      ensures State() == WriteStatus(old(State()), AccountRef(id), status, actor)
    {
      if id !in accounts { return Missing; }
      var before := accounts[id];
      var after := before.(health := before.health.(status := status));
      if status == Active {
        after := after.(health := after.health.(until := None, failures := 0));
      }
      accounts := accounts[id := after];
      LogAudit(actor, UpdateStatus, Diff(AccountRow(id, before), AccountRow(id, after)));
      return Done;
    }

    method UpdateEndpointStatus(id: Id, status: Option<Status>, override: Option<Override>, actor: string)
      returns (r: Outcome)
      modifies this
      ensures r == if id in old(endpoints) then Done else Missing
      ensures State() == WriteEndpointStatus(old(State()), id, status, override, actor)
    {
      if id !in endpoints { return Missing; }
      var before := endpoints[id];
      var newStatus := if status.Some? then status.value else before.health.status;
      var newOverride := if override.Some? then override.value else before.override;
      var after := before.(override := newOverride, health := before.health.(status := newStatus));
      if newStatus == Active {
        after := after.(health := after.health.(until := None, failures := 0));
      }
      endpoints := endpoints[id := after];
      LogAudit(actor, UpdateStatus, Diff(EndpointRow(id, before), EndpointRow(id, after)));
      return Done;
    }

    method UpdateConsumerKeyStatus(consumer: Id, node: Id, status: KeyStatus, actor: string)
      modifies this
      ensures State() == WriteKeyStatus(old(State()), consumer, node, status, actor)
    {
      if (consumer, node) !in keys { return; }
      var before := keys[(consumer, node)];
      keys := keys[(consumer, node) := before.(status := status)];
      LogAudit(actor, UpdateKeyStatus,
               Diff(KeyRow(consumer, node, before), KeyRow(consumer, node, keys[(consumer, node)])));
    }

    method UpdateConsumerKey(consumer: Id, node: Id, key: VirtualKey, status: KeyStatus, actor: string)
      modifies this
      ensures State() == WriteKey(old(State()), consumer, node, key, status, actor)
    {
      if (consumer, node) !in keys { return; }
      var before := keys[(consumer, node)];
      keys := keys[(consumer, node) := ConsumerKey(key, status)];
      LogAudit(actor, UpdateKey,
               Diff(KeyRow(consumer, node, before), KeyRow(consumer, node, keys[(consumer, node)])));
    }

    // ---------- State machine helpers ----------

    method SetAccountCooldown(id: Id, until: Stamp, actor: string)
      modifies this
      ensures State() == WriteCooldown(old(State()), AccountRef(id), until, actor)
    {
      if id !in accounts { return; }
      var before := accounts[id];
      var after := before.(health := before.health.(status := Cooldown, until := Some(until)));
      accounts := accounts[id := after];
      LogAudit(actor, UpdateStatus, Diff(AccountRow(id, before), AccountRow(id, after)));
    }

    method SetEndpointCooldown(id: Id, until: Stamp, actor: string)
      modifies this
      ensures State() == WriteCooldown(old(State()), EndpointRef(id), until, actor)
    {
      if id !in endpoints { return; }
      var before := endpoints[id];
      var after := before.(health := before.health.(status := Cooldown, until := Some(until)));
      endpoints := endpoints[id := after];
      LogAudit(actor, UpdateStatus, Diff(EndpointRow(id, before), EndpointRow(id, after)));
    }

    method IncrementAccountFailure(id: Id) returns (failures: nat)
      modifies this
      ensures State() == CountFailure(old(State()), AccountRef(id))
      ensures failures == if id in accounts then accounts[id].health.failures else 0
    {
      if id !in accounts { return 0; }
      var account := accounts[id];
      accounts := accounts[id := account.(health := account.health.(failures := account.health.failures + 1))];
      return accounts[id].health.failures;
    }

    method IncrementEndpointFailure(id: Id) returns (failures: nat)
      modifies this
      ensures State() == CountFailure(old(State()), EndpointRef(id))
      ensures failures == if id in endpoints then endpoints[id].health.failures else 0
    {
      if id !in endpoints { return 0; }
      var endpoint := endpoints[id];
      endpoints := endpoints[id := endpoint.(health := endpoint.health.(failures := endpoint.health.failures + 1))];
      return endpoints[id].health.failures;
    }

    method CreateIncident(entity: Entity, from: Status, to: Status)
      modifies this`incidents
      ensures incidents == old(incidents) + [Incident(entity, from, to)]
    {
      incidents := incidents + [Incident(entity, from, to)];
    }
  }
}
