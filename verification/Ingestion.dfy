/**
 Webhook ingestion: a batch of callback items, each of which may drive one endpoint and
 one account. The batch loop is proved to run every entity's own automaton on just the
 items that reach it.
 */
module Ingestion {
  import opened Prelude
  import opened IsoTime
  import opened Schema
  import opened Connection
  import opened StateMachine

  const CALLBACK_ACTOR := "callback-ingest"

  datatype Ids = Ids(endpoint: Option<Id>, account: Option<Id>)

  datatype Report = Failing(error: Error) | Succeeding

  /** A callback item: the ids of its two metadata blocks, its outcome, and the clock
      readings its two handler calls would see. */
  datatype Item = Item(meta: Ids, params: Ids, report: Report, endpointClock: Clock, accountClock: Clock)

  // ---------- What a batch does ----------

  function Named(item: Item): Ids {
    Ids(item.meta.endpoint.OrElse(item.params.endpoint), item.meta.account.OrElse(item.params.account))
  }

  /** The ids left after validation has nullified unknown ones. */
  function Resolved(item: Item, t: Tables, validating: bool): Ids {
    var ids := Named(item);
    Ids(if validating && ids.endpoint.Some? && ids.endpoint.value !in t.endpoints then None else ids.endpoint,
        if validating && ids.account.Some? && ids.account.value !in t.accounts then None else ids.account)
  }

  predicate Skipped(item: Item, t: Tables, validating: bool) {
    Resolved(item, t, validating) == Ids(None, None)
  }

  function SignalOf(report: Report): Signal {
    if report.Failing? then Fault(Classify(report.error)) else Good
  }

  /** Which signal, if any, an item sends to an entity. Rate limits and transient errors stay
      with the endpoint when there is one; an authentication error also reaches the account. */
  predicate Reaches(item: Item, t: Tables, validating: bool, e: Entity) {
    var ids := Resolved(item, t, validating);
    match e
    case EndpointRef(id) => ids.endpoint == Some(id)
    case AccountRef(id) =>
      && ids.account == Some(id)
      && (SignalOf(item.report) == Good || SignalOf(item.report) == Fault(AuthError) || ids.endpoint.None?)
  }

  function IngestOne(db: Db, item: Item, validating: bool): Db {
    var ids := Resolved(item, db.t, validating);
    var signal := SignalOf(item.report);
    var first := if ids.endpoint.None? then db
                 else Handle(db, EndpointRef(ids.endpoint.value), signal, CALLBACK_ACTOR, item.endpointClock);
    if ids.account.None? || (signal != Good && signal != Fault(AuthError) && ids.endpoint.Some?) then first
    else Handle(first, AccountRef(ids.account.value), signal, CALLBACK_ACTOR, item.accountClock)
  }

  function Ingest(db: Db, items: seq<Item>, validating: bool): Db {
    if items == [] then db
    else IngestOne(Ingest(db, items[..|items| - 1], validating), items[|items| - 1], validating)
  }

  function Processed(t: Tables, items: seq<Item>, validating: bool): nat {
    if items == [] then 0
    else Processed(t, items[..|items| - 1], validating)
         + (if Skipped(items[|items| - 1], t, validating) then 0 else 1)
  }

  // ---------- One entity's own run ----------

  datatype Timed = Timed(signal: Signal, now: Clock)

  function Run(h: Health, signals: seq<Timed>): Health {
    if signals == [] then h
    else
      var last := signals[|signals| - 1];
      React(Run(h, signals[..|signals| - 1]), last.signal, CALLBACK_ACTOR, last.now)
  }

  function SignalsFor(t: Tables, items: seq<Item>, validating: bool, e: Entity): seq<Timed> {
    if items == [] then []
    else
      var item := items[|items| - 1];
      var rest := SignalsFor(t, items[..|items| - 1], validating, e);
      if Reaches(item, t, validating, e)
      then rest + [Timed(SignalOf(item.report), if e.EndpointRef? then item.endpointClock else item.accountClock)]
      else rest
  }

  // ---------- Non-interference ----------

  lemma SameKeysSameRouting(s: Tables, t: Tables, item: Item, validating: bool)
    requires SameButHealth(s, t)
    ensures Resolved(item, s, validating) == Resolved(item, t, validating)
  {
    assert forall id :: id in s.endpoints <==> id in s.endpoints.Keys;
    assert forall id :: id in t.endpoints <==> id in t.endpoints.Keys;
    assert forall id :: id in s.accounts <==> id in s.accounts.Keys;
    assert forall id :: id in t.accounts <==> id in t.accounts.Keys;
  }

  lemma HandleEffect(db: Db, e: Entity, signal: Signal, now: Clock)
    ensures var after := Handle(db, e, signal, CALLBACK_ACTOR, now);
            && SameButHealth(db.t, after.t)
            && after.rollouts == db.rollouts
            && (forall x :: Exists(after.t, x) <==> Exists(db.t, x))
            && (forall x :: Exists(db.t, x) ==>
                  HealthOf(after.t, x) == if x == e then React(HealthOf(db.t, x), signal, CALLBACK_ACTOR, now)
                                          else HealthOf(db.t, x))
  {
    if Exists(db.t, e) {
      HandleIsReact(db, e, signal, CALLBACK_ACTOR, now);
      SetHealthEffect(db, e, React(HealthOf(db.t, e), signal, CALLBACK_ACTOR, now));
    }
  }

  lemma SameButHealthTransitive(r: Tables, s: Tables, t: Tables)
    requires SameButHealth(r, s) && SameButHealth(s, t)
    ensures SameButHealth(r, t)
  {
    forall a | a in r.accounts
      ensures a in t.accounts && t.accounts[a] == r.accounts[a].(health := t.accounts[a].health)
    {
      assert a in r.accounts.Keys && a in s.accounts.Keys && a in t.accounts.Keys;
      assert s.accounts[a] == r.accounts[a].(health := s.accounts[a].health);
    }
    forall e | e in r.endpoints
      ensures e in t.endpoints && t.endpoints[e] == r.endpoints[e].(health := t.endpoints[e].health)
    {
      assert e in r.endpoints.Keys && e in s.endpoints.Keys && e in t.endpoints.Keys;
      assert s.endpoints[e] == r.endpoints[e].(health := s.endpoints[e].health);
    }
  }

  lemma IngestOneEffect(db: Db, item: Item, validating: bool)
    ensures var after := IngestOne(db, item, validating);
            && SameButHealth(db.t, after.t)
            && after.rollouts == db.rollouts
            && (forall x :: Exists(after.t, x) <==> Exists(db.t, x))
            && (forall x :: Exists(db.t, x) ==>
                  HealthOf(after.t, x) ==
                  if Reaches(item, db.t, validating, x)
                  then React(HealthOf(db.t, x), SignalOf(item.report), CALLBACK_ACTOR,
                             if x.EndpointRef? then item.endpointClock else item.accountClock)
                  else HealthOf(db.t, x))
  {
    var ids := Resolved(item, db.t, validating);
    var signal := SignalOf(item.report);
    var first := if ids.endpoint.None? then db
                 else Handle(db, EndpointRef(ids.endpoint.value), signal, CALLBACK_ACTOR, item.endpointClock);
    if ids.endpoint.Some? {
      HandleEffect(db, EndpointRef(ids.endpoint.value), signal, item.endpointClock);
    }
    if !(ids.account.None? || (signal != Good && signal != Fault(AuthError) && ids.endpoint.Some?)) {
      HandleEffect(first, AccountRef(ids.account.value), signal, item.accountClock);
      SameButHealthTransitive(db.t, first.t, IngestOne(db, item, validating).t);
    }
  }

  /** After any batch, each endpoint and each account is where its own automaton would be,
      run on just the items that reach it; nothing but health columns changes. */
  lemma {:induction false} NonInterference(db: Db, items: seq<Item>, validating: bool)
    ensures var after := Ingest(db, items, validating);
            && SameButHealth(db.t, after.t)
            && after.rollouts == db.rollouts
            && (forall e :: Exists(after.t, e) <==> Exists(db.t, e))
            && (forall e :: Exists(db.t, e) ==>
                  HealthOf(after.t, e) == Run(HealthOf(db.t, e), SignalsFor(db.t, items, validating, e)))
  {
    if items != [] {
      var n := |items| - 1;
      var before, after := Ingest(db, items[..n], validating), Ingest(db, items, validating);
      NonInterference(db, items[..n], validating);
      IngestOneEffect(before, items[n], validating);
      SameButHealthTransitive(db.t, before.t, after.t);
      SameKeysSameRouting(db.t, before.t, items[n], validating);
      forall e | Exists(db.t, e)
        ensures HealthOf(after.t, e) == Run(HealthOf(db.t, e), SignalsFor(db.t, items, validating, e))
      {
        var rest := SignalsFor(db.t, items[..n], validating, e);
        var all := SignalsFor(db.t, items, validating, e);
        if Reaches(items[n], db.t, validating, e) {
          assert all[..|all| - 1] == rest;
        }
      }
    }
  }

  lemma IngestOneMore(db: Db, items: seq<Item>, item: Item, validating: bool)
    ensures Ingest(db, items + [item], validating) == IngestOne(Ingest(db, items, validating), item, validating)
    ensures Processed(db.t, items + [item], validating)
         == Processed(db.t, items, validating) + (if Skipped(item, db.t, validating) then 0 else 1)
  {
    assert (items + [item])[..|items|] == items;
  }

  /** Batches may be cut anywhere: states compose and counts add up. */
  lemma {:induction false} IngestAppend(db: Db, a: seq<Item>, b: seq<Item>, validating: bool)
    ensures Ingest(db, a + b, validating) == Ingest(Ingest(db, a, validating), b, validating)
    ensures Processed(db.t, a + b, validating)
         == Processed(db.t, a, validating) + Processed(Ingest(db, a, validating).t, b, validating)
  {
    if b == [] {
      assert a + b == a;
    } else {
      var n := |b| - 1;
      assert a + b == (a + b[..n]) + [b[n]] && b == b[..n] + [b[n]];
      IngestOneMore(db, a + b[..n], b[n], validating);
      IngestAppend(db, a, b[..n], validating);
      NonInterference(db, a, validating);
      SameKeysSameRouting(db.t, Ingest(db, a, validating).t, b[n], validating);
    }
  }

  /** Reordering a batch is harmless as long as every entity still sees its own items in order. */
  lemma OrderMattersOnlyPerEntity(db: Db, a: seq<Item>, b: seq<Item>, validating: bool)
    requires forall e :: Exists(db.t, e) ==> SignalsFor(db.t, a, validating, e) == SignalsFor(db.t, b, validating, e)
    ensures Ingest(db, a, validating).t == Ingest(db, b, validating).t
  {
    NonInterference(db, a, validating);
    NonInterference(db, b, validating);
    var s, t := Ingest(db, a, validating).t, Ingest(db, b, validating).t;
    forall id | id in db.t.accounts ensures s.accounts[id] == t.accounts[id] {
      assert Exists(db.t, AccountRef(id)) && id in s.accounts.Keys && id in t.accounts.Keys;
      assert HealthOf(s, AccountRef(id)) == HealthOf(t, AccountRef(id));
    }
    forall id | id in db.t.endpoints ensures s.endpoints[id] == t.endpoints[id] {
      assert Exists(db.t, EndpointRef(id)) && id in s.endpoints.Keys && id in t.endpoints.Keys;
      assert HealthOf(s, EndpointRef(id)) == HealthOf(t, EndpointRef(id));
    }
    assert s.accounts == t.accounts && s.endpoints == t.endpoints;
  }

  // ---------- What one item promises, column by column ----------

  /** The id of the `metadata` block, or else the one of the `litellm_params` block. */
  predicate Names(meta: Option<Id>, params: Option<Id>, id: Id) {
    meta == Some(id) || (meta == None && params == Some(id))
  }

  /** The item still carries an endpoint id after validation. */
  ghost predicate CarriesEndpoint(item: Item, t: Tables, validating: bool) {
    exists id :: Names(item.meta.endpoint, item.params.endpoint, id) && (!validating || id in t.endpoints)
  }

  ghost predicate CarriesAccount(item: Item, t: Tables, validating: bool) {
    exists id :: Names(item.meta.account, item.params.account, id) && (!validating || id in t.accounts)
  }

  /** A failure that concerns the account too: an authentication error, or any if no endpoint is left. */
  ghost predicate ConcernsAccount(item: Item, t: Tables, validating: bool) {
    match item.report
    case Succeeding => true
    case Failing(error) =>
      || error.code == 401 || error.code == 403 || error.mentionsAuth
      || !CarriesEndpoint(item, t, validating)
  }

  /** What the report of an item does to the columns of an entity that it reaches. */
  predicate Reported(report: Report, h: Health, k: Health, now: Clock) {
    match report
    case Failing(error) => AfterFailure(error, h, k, now)
    case Succeeding => AfterSuccess(h, k, CALLBACK_ACTOR)
  }

  lemma ReactReported(report: Report, h: Health, now: Clock)
    ensures Reported(report, h, React(h, SignalOf(report), CALLBACK_ACTOR, now), now)
  {
  }

  lemma ItemReaches(item: Item, t: Tables, validating: bool)
    ensures forall id :: id in t.endpoints ==>
              (Reaches(item, t, validating, EndpointRef(id)) <==> Names(item.meta.endpoint, item.params.endpoint, id))
    ensures forall id :: id in t.accounts ==>
              (Reaches(item, t, validating, AccountRef(id)) <==>
                 Names(item.meta.account, item.params.account, id) && ConcernsAccount(item, t, validating))
  {
    var ids := Named(item);
    assert ids.endpoint.Some? ==> Names(item.meta.endpoint, item.params.endpoint, ids.endpoint.value);
  }

  /** An item reports to the endpoint it names, with `metadata` before `litellm_params`; and to the account
      it names if it is a success, an authentication error, or carries no (known) endpoint. Every
      other entity keeps its columns. */
  lemma ItemColumns(db: Db, item: Item, validating: bool)
    ensures var after := IngestOne(db, item, validating).t;
            && (forall id :: id in db.t.endpoints ==>
                  && id in after.endpoints
                  && var h, k := db.t.endpoints[id].health, after.endpoints[id].health;
                     if Names(item.meta.endpoint, item.params.endpoint, id)
                     then Reported(item.report, h, k, item.endpointClock) else k == h)
            && (forall id :: id in db.t.accounts ==>
                  && id in after.accounts
                  && var h, k := db.t.accounts[id].health, after.accounts[id].health;
                     if Names(item.meta.account, item.params.account, id) && ConcernsAccount(item, db.t, validating)
                     then Reported(item.report, h, k, item.accountClock) else k == h)
  {
    var after := IngestOne(db, item, validating).t;
    IngestOneEffect(db, item, validating);
    ItemReaches(item, db.t, validating);
    forall id | id in db.t.endpoints
      ensures id in after.endpoints
      ensures var h, k := db.t.endpoints[id].health, after.endpoints[id].health;
              if Names(item.meta.endpoint, item.params.endpoint, id)
              then Reported(item.report, h, k, item.endpointClock) else k == h
    {
      ReactReported(item.report, db.t.endpoints[id].health, item.endpointClock);
      assert Exists(db.t, EndpointRef(id)) && Exists(after, EndpointRef(id));
      assert HealthOf(after, EndpointRef(id)) == after.endpoints[id].health;
    }
    forall id | id in db.t.accounts
      ensures id in after.accounts
      ensures var h, k := db.t.accounts[id].health, after.accounts[id].health;
              if Names(item.meta.account, item.params.account, id) && ConcernsAccount(item, db.t, validating)
              then Reported(item.report, h, k, item.accountClock) else k == h
    {
      ReactReported(item.report, db.t.accounts[id].health, item.accountClock);
      assert Exists(db.t, AccountRef(id)) && Exists(after, AccountRef(id));
      assert HealthOf(after, AccountRef(id)) == after.accounts[id].health;
    }
  }

  /** An item is counted exactly if an id is left after validation. */
  lemma CountedIff(item: Item, t: Tables, validating: bool)
    ensures !Skipped(item, t, validating)
       <==> CarriesEndpoint(item, t, validating) || CarriesAccount(item, t, validating)
  {
    var ids := Named(item);
    assert ids.endpoint.Some? ==> Names(item.meta.endpoint, item.params.endpoint, ids.endpoint.value);
    assert ids.account.Some? ==> Names(item.meta.account, item.params.account, ids.account.value);
  }

  // ---------- The cooldown lock ----------

  function Transients(signals: seq<Timed>): nat {
    if signals == [] then 0
    else Transients(signals[..|signals| - 1]) + (if signals[|signals| - 1].signal == Fault(Transient) then 1 else 0)
  }

  predicate Locked(h: Health) {
    h.status == Cooldown || h.status == Disabled
  }

  /** No transient failure among the signals brings the counter to the threshold. A counter that is
      already there, as after `degraded`, tolerates none. */
  predicate SparesLock(h: Health, signals: seq<Timed>) {
    Transients(signals) == 0 || h.failures + Transients(signals) < FAILURE_THRESHOLD
  }

  /** It holds before the first signal and after every one. */
  predicate Throughout(h: Health, signals: seq<Timed>, holds: Health -> bool) {
    if signals == [] then holds(h)
    else Throughout(h, signals[..|signals| - 1], holds) && holds(Run(h, signals))
  }

  predicate HasAuthError(signals: seq<Timed>) {
    exists s :: s in signals && s.signal == Fault(AuthError)
  }

  lemma {:induction false} LockedRun(h: Health, signals: seq<Timed>)
    requires Locked(h) && SparesLock(h, signals)
    ensures Locked(Run(h, signals))
    ensures Run(h, signals).failures == h.failures + Transients(signals)
    ensures h.status == Cooldown && !HasAuthError(signals) ==>
              Run(h, signals).status == Cooldown && Run(h, signals).until == h.until
  {
    if signals != [] {
      LockedRun(h, signals[..|signals| - 1]);
      assert signals == signals[..|signals| - 1] + [signals[|signals| - 1]];
    }
  }

  /** Callbacks never release a locked entity exactly if the transient failures among them, with
      those already counted, do not reach the threshold. Successes and 429s never matter. */
  lemma {:induction false} CooldownLock(h: Health, signals: seq<Timed>)
    requires Locked(h)
    ensures Throughout(h, signals, Locked) <==> SparesLock(h, signals)
  {
    if signals != [] {
      var n := |signals| - 1;
      CooldownLock(h, signals[..n]);
      if SparesLock(h, signals[..n]) {
        LockedRun(h, signals[..n]);
      }
    }
  }

  /** It holds of an entity before the batch and after every item of it. */
  predicate ThroughoutBatch(db: Db, items: seq<Item>, validating: bool, e: Entity, holds: Health -> bool)
    requires Exists(db.t, e)
  {
    if items == [] then holds(HealthOf(db.t, e))
    else
      var after := Ingest(db, items, validating);
      && ThroughoutBatch(db, items[..|items| - 1], validating, e, holds)
      && Exists(after.t, e) && holds(HealthOf(after.t, e))
  }

  lemma {:induction false} ThroughoutBatchMeaning(db: Db, items: seq<Item>, validating: bool, e: Entity,
                                                  holds: Health -> bool)
    requires Exists(db.t, e)
    ensures ThroughoutBatch(db, items, validating, e, holds)
       <==> Throughout(HealthOf(db.t, e), SignalsFor(db.t, items, validating, e), holds)
  {
    if items != [] {
      var n := |items| - 1;
      ThroughoutBatchMeaning(db, items[..n], validating, e, holds);
      NonInterference(db, items, validating);
      var rest, all := SignalsFor(db.t, items[..n], validating, e), SignalsFor(db.t, items, validating, e);
      if all != rest {
        assert all[..|all| - 1] == rest;
      } else {
        HoldsAtEnd(HealthOf(db.t, e), all, holds);
      }
    }
  }

  lemma HoldsAtEnd(h: Health, signals: seq<Timed>, holds: Health -> bool)
    ensures Throughout(h, signals, holds) ==> holds(Run(h, signals))
  {
  }

  /** The same in the database, from the 429 on that puts an entity into cooldown, whatever counter
      it had: it stays locked after every item exactly under that condition; and then, without an
      authentication error, it stays in cooldown with its timer 30 seconds after entry. */
  lemma CooldownLockInDatabase(db: Db, e: Entity, now: Clock, items: seq<Item>, validating: bool)
    requires Exists(db.t, e) && HealthOf(db.t, e).status != Cooldown
    ensures var entered := Handle(db, e, Fault(RateLimit), CALLBACK_ACTOR, now);
            var signals := SignalsFor(entered.t, items, validating, e);
            var after := Ingest(entered, items, validating);
            && Exists(entered.t, e) && Exists(after.t, e)
            && (ThroughoutBatch(entered, items, validating, e, Locked) <==> SparesLock(HealthOf(db.t, e), signals))
            && (SparesLock(HealthOf(db.t, e), signals) && !HasAuthError(signals) ==>
                  && HealthOf(after.t, e).status == Cooldown
                  && HealthOf(after.t, e).until.Some?
                  && Micros(HealthOf(after.t, e).until.value) == Micros(now) + 30_000_000)
  {
    var entered := Handle(db, e, Fault(RateLimit), CALLBACK_ACTOR, now);
    HandleEffect(db, e, Fault(RateLimit), now);
    NonInterference(entered, items, validating);
    ThroughoutBatchMeaning(entered, items, validating, e, Locked);
    var h, signals := HealthOf(entered.t, e), SignalsFor(entered.t, items, validating, e);
    CooldownLock(h, signals);
    if SparesLock(h, signals) {
      LockedRun(h, signals);
    }
  }

  // ---------- The batch loop ----------

  method IngestItem(db: Database, item: Item, validating: bool) returns (counted: bool)
    modifies db
    ensures db.State() == IngestOne(old(db.State()), item, validating)
    ensures counted == !Skipped(item, old(db.Registry()), validating)
  {
    var endpointId, accountId := item.meta.endpoint, item.meta.account;
    if endpointId.None? || accountId.None? {
      endpointId := endpointId.OrElse(item.params.endpoint);
      accountId := accountId.OrElse(item.params.account);
    }
    if endpointId.None? && accountId.None? { return false; }
    if validating {
      if endpointId.Some? && endpointId.value !in db.endpoints { endpointId := None; }
      if accountId.Some? && accountId.value !in db.accounts { accountId := None; }
    }
    if endpointId.None? && accountId.None? { return false; }

    match item.report {
      case Failing(error) =>
        if endpointId.Some? {
          HandleEndpointFailure(db, endpointId.value, error, CALLBACK_ACTOR, item.endpointClock);
        }
        if accountId.Some? {
          if IsAuthError(error) {
            HandleAccountFailure(db, accountId.value, error, CALLBACK_ACTOR, item.accountClock);
          } else if endpointId.None? {
            HandleAccountFailure(db, accountId.value, error, CALLBACK_ACTOR, item.accountClock);
          }
        }
      case Succeeding =>
        if endpointId.Some? {
          HandleEndpointSuccess(db, endpointId.value, CALLBACK_ACTOR, item.endpointClock);
        }
        if accountId.Some? {
          HandleAccountSuccess(db, accountId.value, CALLBACK_ACTOR, item.accountClock);
        }
    }
    return true;
  }

  method IngestEventCallback(db: Database, items: seq<Item>, validating: bool) returns (processed: nat)
    modifies db
    ensures db.State() == Ingest(old(db.State()), items, validating)
    ensures processed == Processed(old(db.Registry()), items, validating)
  {
    processed := 0;
    ghost var start := db.State();
    for i := 0 to |items|
      invariant db.State() == Ingest(start, items[..i], validating)
      invariant processed == Processed(start.t, items[..i], validating)
    {
      assert items[..i + 1][..i] == items[..i];
      NonInterference(start, items[..i], validating);
      SameKeysSameRouting(start.t, db.State().t, items[i], validating);
      var counted := IngestItem(db, items[i], validating);
      if counted {
        processed := processed + 1;
      }
    }
    assert items[..|items|] == items;
  }
}
