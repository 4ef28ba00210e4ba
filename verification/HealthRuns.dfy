/**
 Runs that mix operator calls, callback batches and cooldown passes, and what every such
 run keeps: foreign keys, the audit log as an event source, clean `active` rows, and
 incidents that agree with the audit log.
 */
module HealthRuns {
  import opened Prelude
  import opened IsoTime
  import opened Schema
  import opened Store
  import opened AuditReplay
  import opened StateMachine
  import opened Ingestion
  import opened History
  import opened Probe
  import opened CooldownPass

  datatype Step =
    | Api(call: StoreCall, actor: string)
    | Callbacks(items: seq<Item>, validating: bool)
    | Pass(input: PassInput, worker: string)

  function Take(db: Db, step: Step): Db {
    match step
    case Api(call, actor) => Apply(db, call, actor)
    case Callbacks(items, validating) => Ingest(db, items, validating)
    case Pass(input, worker) => ReconcileCooldowns(db, input, worker)
  }

  function Execute(db: Db, steps: seq<Step>): Db {
    if |steps| == 0 then db else Take(Execute(db, steps[..|steps| - 1]), steps[|steps| - 1])
  }

  // ---------- Active rows are clean ----------

  /** An active row has no timer and fewer failures than the threshold. */
  predicate Clean(h: Health) {
    h.status == Active ==> h.until.None? && h.failures < FAILURE_THRESHOLD
  }

  predicate AllClean(t: Tables) {
    && (forall a :: a in t.accounts ==> Clean(t.accounts[a].health))
    && (forall e :: e in t.endpoints ==> Clean(t.endpoints[e].health))
  }

  /** The invariant of every reachable database. */
  ghost predicate Invariant(db: Db) {
    Sound(db) && Faithful(db) && AllClean(db.t)
  }

  lemma SetHealthKeepsClean(db: Db, e: Entity, h: Health)
    requires AllClean(db.t) && Clean(h)
    ensures AllClean(SetHealth(db, e, h).t)
  {
  }

  lemma TransitionFaithful(db: Db, e: Entity, next: Status, actor: string, now: Clock)
    requires Faithful(db)
    ensures Faithful(Transition(db, e, next, actor, now))
  {
    if Exists(db.t, e) && HealthOf(db.t, e).status != next {
      var noted := db.(incidents := db.incidents + [Incident(e, HealthOf(db.t, e).status, next)]);
      LogHealthFaithful(noted, e, Moved(HealthOf(db.t, e), next, now), actor);
    }
  }

  lemma SetKeeps(db: Db, e: Entity, h: Health)
    requires Sound(db) && AllClean(db.t) && Exists(db.t, e) && Clean(h)
    ensures Sound(SetHealth(db, e, h)) && AllClean(SetHealth(db, e, h).t)
  {
    SetHealthKeepsSound(db, e, h);
    SetHealthKeepsClean(db, e, h);
  }

  lemma MovedIsClean(h: Health, next: Status, now: Clock)
    requires Clean(h)
    ensures Clean(Moved(h, next, now))
  {
  }

  lemma TransitionKeeps(db: Db, e: Entity, next: Status, actor: string, now: Clock)
    requires Invariant(db)
    ensures Invariant(Transition(db, e, next, actor, now))
  {
    TransitionFaithful(db, e, next, actor, now);
    if Exists(db.t, e) {
      CleanNow(db.t, e);
      MovedIsClean(HealthOf(db.t, e), next, now);
      TransitionIsMoved(db, e, next, actor, now);
      SetKeeps(db, e, Moved(HealthOf(db.t, e), next, now));
    }
  }

  lemma CleanNow(t: Tables, e: Entity)
    requires AllClean(t) && Exists(t, e)
    ensures Clean(HealthOf(t, e))
  {
  }

  lemma CountFaithful(db: Db, e: Entity)
    requires Faithful(db) && Exists(db.t, e)
    ensures Faithful(CountFailure(db, e))
  {
    var h := HealthOf(db.t, e);
    assert CountFailure(db, e) == SetHealth(db, e, h.(failures := h.failures + 1));
    UnrecordedCount(db, e, h.failures + 1);
  }

  lemma TransientFaithful(db: Db, e: Entity, actor: string, now: Clock)
    requires Faithful(db) && Exists(db.t, e)
    ensures Faithful(Handle(db, e, Fault(Transient), actor, now))
  {
    var counted, after := CountFailure(db, e), Handle(db, e, Fault(Transient), actor, now);
    CountFaithful(db, e);
    TransitionFaithful(counted, e, Degraded, actor, now);
    TransientIsCountAndTransition(db, e, actor, now);
    assert after == counted || after == Transition(counted, e, Degraded, actor, now);
  }

  lemma HandleKeepsSoundAndClean(db: Db, e: Entity, signal: Signal, actor: string, now: Clock)
    requires Sound(db) && AllClean(db.t) && Exists(db.t, e)
    ensures Sound(Handle(db, e, signal, actor, now)) && AllClean(Handle(db, e, signal, actor, now).t)
  {
    var h := React(HealthOf(db.t, e), signal, actor, now);
    assert Clean(HealthOf(db.t, e));
    HandleIsReact(db, e, signal, actor, now);
    SetHealthKeepsSound(db, e, h);
    SetHealthKeepsClean(db, e, h);
  }

  lemma TransientKeeps(db: Db, e: Entity, actor: string, now: Clock)
    requires Invariant(db)
    ensures Invariant(Handle(db, e, Fault(Transient), actor, now))
  {
    if Exists(db.t, e) {
      TransientFaithful(db, e, actor, now);
      HandleKeepsSoundAndClean(db, e, Fault(Transient), actor, now);
    }
  }

  lemma ResetKeeps(db: Db, e: Entity)
    requires Invariant(db) && Exists(db.t, e)
    ensures Invariant(SetHealth(db, e, HealthOf(db.t, e).(failures := 0)))
  {
    UnrecordedCount(db, e, 0);
    SetHealthKeepsSound(db, e, HealthOf(db.t, e).(failures := 0));
    SetHealthKeepsClean(db, e, HealthOf(db.t, e).(failures := 0));
  }

  lemma GoodKeeps(db: Db, e: Entity, actor: string, now: Clock)
    requires Invariant(db)
    ensures Invariant(Handle(db, e, Good, actor, now))
  {
    if Exists(db.t, e) {
      GoodIsResetOrTransition(db, e, actor, now);
      ResetKeeps(db, e);
      TransitionKeeps(db, e, Active, actor, now);
    }
  }

  lemma HandleKeeps(db: Db, e: Entity, signal: Signal, actor: string, now: Clock)
    requires Invariant(db)
    ensures Invariant(Handle(db, e, signal, actor, now))
  {
    match signal
    case Fault(Transient) => TransientKeeps(db, e, actor, now);
    case Fault(AuthError) => TransitionKeeps(db, e, Disabled, actor, now);
    case Fault(RateLimit) => TransitionKeeps(db, e, Cooldown, actor, now);
    case Good => GoodKeeps(db, e, actor, now);
  }

  /** One half of an item: a signal for an entity, if there is one to name. */
  lemma NamedKeeps(db: Db, e: Option<Entity>, signal: Signal, now: Clock)
    requires Invariant(db)
    ensures Invariant(if e.None? then db else Handle(db, e.value, signal, CALLBACK_ACTOR, now))
  {
    if e.Some? {
      HandleKeeps(db, e.value, signal, CALLBACK_ACTOR, now);
    }
  }

  lemma IngestOneKeeps(db: Db, item: Item, validating: bool)
    requires Invariant(db)
    ensures Invariant(IngestOne(db, item, validating))
  {
    var ids, signal := Resolved(item, db.t, validating), SignalOf(item.report);
    var endpoint := if ids.endpoint.None? then None else Some(EndpointRef(ids.endpoint.value));
    var account := if ids.account.None? then None else Some(AccountRef(ids.account.value));
    var first := if endpoint.None? then db else Handle(db, endpoint.value, signal, CALLBACK_ACTOR, item.endpointClock);
    NamedKeeps(db, endpoint, signal, item.endpointClock);
    NamedKeeps(first, account, signal, item.accountClock);
    var after := IngestOne(db, item, validating);
    assert after == first || after == Handle(first, account.value, signal, CALLBACK_ACTOR, item.accountClock);
  }

  lemma {:induction false} IngestKeeps(db: Db, items: seq<Item>, validating: bool)
    requires Invariant(db)
    ensures Invariant(Ingest(db, items, validating))
  {
    if items != [] {
      var n := |items| - 1;
      IngestKeeps(db, items[..n], validating);
      IngestOneKeeps(Ingest(db, items[..n], validating), items[n], validating);
    }
  }

  lemma ProbeKeeps(db: Db, id: Id, actor: string, r: Reading)
    requires Invariant(db)
    ensures Invariant(ProbeEndpoint(db, id, actor, r))
  {
    var e := EndpointRef(id);
    match r.outcome
    case SecretFailure => HandleKeeps(db, e, Fault(AuthError), actor, r.now);
    case Passed =>
      var probing := Transition(db, e, Probing, actor, r.now);
      TransitionKeeps(db, e, Probing, actor, r.now);
      TransitionKeeps(probing, e, Recovered, actor, r.now);
      HandleKeeps(Transition(probing, e, Recovered, actor, r.now), e, Good, actor, r.now);
    case Rejected(error) =>
      TransitionKeeps(db, e, Probing, actor, r.now);
      HandleKeeps(Transition(db, e, Probing, actor, r.now), e, Fault(Classify(error)), actor, r.now);
  }

  lemma {:induction false} ProbeAllKeeps(db: Db, ids: seq<Id>, input: PassInput, actor: string)
    requires Invariant(db)
    ensures Invariant(ProbeAll(db, ids, input, actor))
  {
    if ids != [] {
      var n := |ids| - 1;
      ProbeAllKeeps(db, ids[..n], input, actor);
      ProbeKeeps(ProbeAll(db, ids[..n], input, actor), ids[n], actor, input.endpointReading(ids[n]));
    }
  }

  lemma ReviveKeeps(db: Db, id: Id, input: PassInput, actor: string)
    requires Invariant(db)
    ensures Invariant(ReviveAccount(db, id, input, actor))
  {
    var a := AccountRef(id);
    var probing := Transition(db, a, Probing, actor, input.now);
    TransitionKeeps(db, a, Probing, actor, input.now);
    var pick := FirstCandidate(probing.t, input.probeOrder, id);
    if pick.None? {
      TransitionKeeps(probing, a, Degraded, actor, input.now);
    } else {
      var reading := input.accountReading(id);
      ProbeKeeps(probing, pick.value, actor, reading);
      TransitionKeeps(ProbeEndpoint(probing, pick.value, actor, reading), a,
                      if ProbePasses(probing.t, pick.value, reading) then Active else Degraded, actor, input.now);
    }
  }

  lemma {:induction false} ReviveAllKeeps(db: Db, ids: seq<Id>, input: PassInput, actor: string)
    requires Invariant(db)
    ensures Invariant(ReviveAll(db, ids, input, actor))
  {
    if ids != [] {
      var n := |ids| - 1;
      ReviveAllKeeps(db, ids[..n], input, actor);
      ReviveKeeps(ReviveAll(db, ids[..n], input, actor), ids[n], input, actor);
    }
  }

  predicate RowClean(row: Row) {
    match row
    case AccountRow(_, x) => Clean(x.health)
    case EndpointRow(_, x) => Clean(x.health)
    case _ => true
  }

  lemma PutKeepsClean(t: Tables, row: Row)
    requires AllClean(t) && RowClean(row)
    ensures AllClean(Put(t, row))
  {
  }

  lemma DropKeepsClean(t: Tables, target: Target)
    requires AllClean(t)
    ensures AllClean(Drop(t, target))
  {
  }

  lemma ApplyKeepsClean(db: Db, call: StoreCall, actor: string)
    requires AllClean(db.t)
    ensures AllClean(Apply(db, call, actor).t)
  {
    match call
    case Creating(row) => PutKeepsClean(db.t, Stored(row));
    case Deleting(target) => DropKeepsClean(db.t, target);
    case Patching(id, p) =>
      var row := RowAt(db.t, PatchTarget(id, p));
      if row.Some? { PutKeepsClean(db.t, Patched(row.value, p)); }
    case Routing(id, priority, weight) =>
      var after := Route(db, id, priority, weight, actor);
      if id in db.t.endpoints { PutKeepsClean(db.t, EndpointRow(id, after.t.endpoints[id])); }
    case AccountStatus(id, status) =>
      if id in db.t.accounts {
        SetHealthKeepsClean(db, AccountRef(id), WrittenStatus(db.t.accounts[id].health, status));
      }
    case EndpointStatus(id, status, override) =>
      var after := WriteEndpointStatus(db, id, status, override, actor);
      if id in db.t.endpoints { PutKeepsClean(db.t, EndpointRow(id, after.t.endpoints[id])); }
    case _ =>
  }

  lemma TakeKeeps(db: Db, step: Step)
    requires Invariant(db)
    ensures Invariant(Take(db, step))
  {
    match step
    case Api(call, actor) =>
      ApplyKeepsSound(db, call, actor);
      ApplyFaithful(db, call, actor);
      ApplyKeepsClean(db, call, actor);
    case Callbacks(items, validating) => IngestKeeps(db, items, validating);
    case Pass(input, worker) =>
      var first := ProbeAll(db, ExpiredEndpoints(db.t, input.endpointOrder, input.now), input, worker);
      ProbeAllKeeps(db, ExpiredEndpoints(db.t, input.endpointOrder, input.now), input, worker);
      ReviveAllKeeps(first, ExpiredAccounts(first.t, input.accountOrder, input.now), input, worker);
  }

  /** In every database reachable from the empty one, by any run of operator calls, callback
      batches and passes: foreign keys hold; replaying the audit log gives back every registry
      table except the failure counters; and active rows carry no timer and fewer than three failures. */
  lemma {:induction false} ReachableInvariant(steps: seq<Step>)
    ensures Invariant(Execute(EMPTY_DB, steps))
  {
    if |steps| > 0 {
      ReachableInvariant(steps[..|steps| - 1]);
      TakeKeeps(Execute(EMPTY_DB, steps[..|steps| - 1]), steps[|steps| - 1]);
    }
  }

  // ---------- Incidents agree with the audit log ----------

  predicate SameStatus(s: Tables, t: Tables, x: Entity) {
    Exists(s, x) && Exists(t, x) && HealthOf(s, x).status == HealthOf(t, x).status
  }

  /** `x` exists throughout the run, and no operator call changes its status. */
  predicate Undisturbed(db: Db, steps: seq<Step>, x: Entity) {
    if |steps| == 0 then Exists(db.t, x)
    else
      var n := |steps| - 1;
      var before, after := Execute(db, steps[..n]), Execute(db, steps);
      && Undisturbed(db, steps[..n], x)
      && Exists(after.t, x) && (steps[n].Api? ==> SameStatus(before.t, after.t, x))
  }

  lemma UpdateRowIsQuiet(db: Db, action: Action, row: Row, actor: string, x: Entity)
    requires action != UpdateStatus
    ensures StatusChangesOf(UpdateRow(db, action, row, actor).audit, x) == StatusChangesOf(db.audit, x)
  {
    var before := RowAt(db.t, TargetOf(row));
    if before.Some? {
      AppendRecord(db.audit, AuditRecord(actor, action, Diff(before.value, row)), x);
    }
  }

  lemma OneQuietRecord(audit: seq<AuditRecord>, after: seq<AuditRecord>, x: Entity)
    requires after == audit || (|after| == |audit| + 1 && after == audit + [after[|audit|]]
                                && StatusChange(after[|audit|], x) == [])
    ensures StatusChangesOf(after, x) == StatusChangesOf(audit, x)
  {
    if after != audit {
      AppendRecord(audit, after[|audit|], x);
    }
  }

  lemma RowWriteIsQuiet(db: Db, call: StoreCall, actor: string, x: Entity)
    requires call.Creating? || call.Deleting? || call.Routing?
    ensures StatusChangesOf(Apply(db, call, actor).audit, x) == StatusChangesOf(db.audit, x)
  {
    OneQuietRecord(db.audit, Apply(db, call, actor).audit, x);
  }

  lemma AccountWriteIsQuiet(db: Db, id: Id, status: Status, actor: string, x: Entity)
    requires SameStatus(db.t, WriteStatus(db, AccountRef(id), status, actor).t, x)
    ensures StatusChangesOf(WriteStatus(db, AccountRef(id), status, actor).audit, x) == StatusChangesOf(db.audit, x)
  {
    OneQuietRecord(db.audit, WriteStatus(db, AccountRef(id), status, actor).audit, x);
  }

  lemma EndpointWriteIsQuiet(db: Db, id: Id, status: Option<Status>, override: Option<Override>, actor: string,
                             x: Entity)
    requires SameStatus(db.t, WriteEndpointStatus(db, id, status, override, actor).t, x)
    ensures StatusChangesOf(WriteEndpointStatus(db, id, status, override, actor).audit, x)
         == StatusChangesOf(db.audit, x)
  {
    OneQuietRecord(db.audit, WriteEndpointStatus(db, id, status, override, actor).audit, x);
  }

  /** Store calls add no status change for an entity whose status they do not change. */
  lemma ApplyIsQuiet(db: Db, call: StoreCall, actor: string, x: Entity)
    requires SameStatus(db.t, Apply(db, call, actor).t, x)
    ensures StatusChangesOf(Apply(db, call, actor).audit, x) == StatusChangesOf(db.audit, x)
  {
    match call
    case Creating(row) => RowWriteIsQuiet(db, call, actor, x);
    case Deleting(target) => RowWriteIsQuiet(db, call, actor, x);
    case Routing(_, _, _) => RowWriteIsQuiet(db, call, actor, x);
    case AccountStatus(id, status) => AccountWriteIsQuiet(db, id, status, actor, x);
    case EndpointStatus(id, status, override) => EndpointWriteIsQuiet(db, id, status, override, actor, x);
    case Patching(id, p) =>
      var row := RowAt(db.t, PatchTarget(id, p));
      if row.Some? { UpdateRowIsQuiet(db, Update, Patched(row.value, p), actor, x); }
    case KeyWrite(c, n, key, status) =>
      UpdateRowIsQuiet(db, UpdateKey, KeyRow(c, n, ConsumerKey(key, status)), actor, x);
    case KeyStatusWrite(c, n, status) =>
      if (c, n) in db.t.keys {
        UpdateRowIsQuiet(db, UpdateKeyStatus, KeyRow(c, n, db.t.keys[(c, n)].(status := status)), actor, x);
      }
  }

  lemma ApplyAddsNoIncident(db: Db, call: StoreCall, actor: string)
    ensures Apply(db, call, actor).incidents == db.incidents
  {
  }

  lemma ApplyWalks(start: Db, db: Db, call: StoreCall, actor: string, x: Entity, path: seq<Move>)
    requires Walked(start, db, x, path) && SameStatus(db.t, Apply(db, call, actor).t, x)
    ensures Walked(start, Apply(db, call, actor), x, path)
  {
    ApplyIsQuiet(db, call, actor, x);
    ApplyAddsNoIncident(db, call, actor);
  }

  lemma {:induction false} IngestWalks(start: Db, db: Db, items: seq<Item>, validating: bool, x: Entity,
                                       path: seq<Move>)
    returns (longer: seq<Move>)
    requires Walked(start, db, x, path)
    ensures Walked(start, Ingest(db, items, validating), x, longer)
  {
    longer := path;
    if items != [] {
      var n := |items| - 1;
      var before, item := Ingest(db, items[..n], validating), items[n];
      longer := IngestWalks(start, db, items[..n], validating, x, path);
      var ids, signal := Resolved(item, before.t, validating), SignalOf(item.report);
      var first := before;
      if ids.endpoint.Some? {
        first := Handle(before, EndpointRef(ids.endpoint.value), signal, CALLBACK_ACTOR, item.endpointClock);
        longer := HandleWalks(start, before, EndpointRef(ids.endpoint.value), signal, CALLBACK_ACTOR,
                              item.endpointClock, x, longer);
      }
      if Ingest(db, items, validating) != first {
        longer := HandleWalks(start, first, AccountRef(ids.account.value), signal, CALLBACK_ACTOR, item.accountClock,
                              x, longer);
      }
    }
  }

  lemma TakeWalks(start: Db, db: Db, step: Step, x: Entity, path: seq<Move>) returns (longer: seq<Move>)
    requires Walked(start, db, x, path) && Exists(Take(db, step).t, x)
    requires step.Api? ==> SameStatus(db.t, Take(db, step).t, x)
    ensures Walked(start, Take(db, step), x, longer)
  {
    match step
    case Api(call, actor) =>
      ApplyWalks(start, db, call, actor, x, path);
      longer := path;
    case Callbacks(items, validating) =>
      longer := IngestWalks(start, db, items, validating, x, path);
    case Pass(input, worker) =>
      var expired := ExpiredEndpoints(db.t, input.endpointOrder, input.now);
      var first := ProbeAll(db, expired, input, worker);
      longer := ProbeAllWalks(start, db, expired, input, worker, x, path);
      longer := ReviveAllWalks(start, first, ExpiredAccounts(first.t, input.accountOrder, input.now), input, worker, x,
                               longer);
  }

  /** Without operator changes of its status, the incidents logged for an entity during a run form a
      connected walk without self-loops from its first to its last status, and its
      `update_status` audit records carry exactly the same moves in the same order. */
  lemma {:induction false} IncidentsAgreeWithAudit(db: Db, steps: seq<Step>, x: Entity) returns (path: seq<Move>)
    requires Undisturbed(db, steps, x)
    ensures Walked(db, Execute(db, steps), x, path)
  {
    if |steps| == 0 {
      NoMovesYet(db, x);
      path := [];
    } else {
      var n := |steps| - 1;
      path := IncidentsAgreeWithAudit(db, steps[..n], x);
      path := TakeWalks(db, Execute(db, steps[..n]), steps[n], x, path);
    }
  }
}
