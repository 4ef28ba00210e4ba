/**
 The account and endpoint state machines. `Moved` and `React` are the automaton of one
 entity; `Transition` and `Handle` run it inside the database, with its incident and
 audit records; the methods do the same in place.
 */
module StateMachine {
  import opened Prelude
  import opened IsoTime
  import opened Schema
  import opened Store
  import opened Connection

  const COOLDOWN_DURATION_SEC := 30
  const FAILURE_THRESHOLD := 3

  // ---------- Error classes ----------

  /** An error as the handlers see it: its code, and which texts its message contains. */
  datatype Error = Error(code: int, mentionsAuth: bool, mentionsRateLimit: bool)

  datatype ErrorClass = AuthError | RateLimit | Transient

  predicate IsAuthError(error: Error) {
    error.code == 401 || error.code == 403 || error.mentionsAuth
  }

  function Classify(error: Error): ErrorClass {
    if IsAuthError(error) then AuthError
    else if error.code == 429 || error.mentionsRateLimit then RateLimit
    else Transient
  }

  // ---------- One entity ----------

  datatype Signal = Fault(kind: ErrorClass) | Good

  function Moved(h: Health, next: Status, now: Clock): Health {
    if h.status == next then h
    else if next == Cooldown then h.(status := Cooldown, until := Some(Plus(now, COOLDOWN_DURATION_SEC)))
    else WrittenStatus(h, next)
  }

  function React(h: Health, signal: Signal, actor: string, now: Clock): Health {
    match signal
    case Fault(AuthError) => Moved(h, Disabled, now)
    case Fault(RateLimit) => Moved(h, Cooldown, now)
    case Fault(Transient) =>
      var counted := h.(failures := h.failures + 1);
      if counted.failures >= FAILURE_THRESHOLD then Moved(counted, Degraded, now) else counted
    case Good =>
      if h.status == Probing then (if actor == "probe" then Moved(h, Active, now) else h)
      else if h.status == Degraded || h.status == Recovered then Moved(h, Active, now)
      else if h.status == Active && h.failures > 0 then h.(failures := 0)
      else h
  }

  // ---------- In the database ----------

  function Transition(db: Db, e: Entity, next: Status, actor: string, now: Clock): Db {
    if !Exists(db.t, e) || HealthOf(db.t, e).status == next then db
    else
      var h := HealthOf(db.t, e);
      LogHealth(db.(incidents := db.incidents + [Incident(e, h.status, next)]), e, Moved(h, next, now), actor)
  }

  function Handle(db: Db, e: Entity, signal: Signal, actor: string, now: Clock): Db {
    if !Exists(db.t, e) then db
    else
      var h := HealthOf(db.t, e);
      match signal
      case Fault(AuthError) => Transition(db, e, Disabled, actor, now)
      case Fault(RateLimit) => Transition(db, e, Cooldown, actor, now)
      case Fault(Transient) =>
        var counted := CountFailure(db, e);
        if h.failures + 1 >= FAILURE_THRESHOLD then Transition(counted, e, Degraded, actor, now) else counted
      case Good =>
        if h.status == Probing then (if actor == "probe" then Transition(db, e, Active, actor, now) else db)
        else if h.status == Degraded || h.status == Recovered then Transition(db, e, Active, actor, now)
        else if h.status == Active && h.failures > 0 then SetHealth(db, e, h.(failures := 0))
        else db
  }

  lemma SetSameHealth(db: Db, e: Entity)
    requires Exists(db.t, e)
    ensures SetHealth(db, e, HealthOf(db.t, e)).t == db.t
  {
    match e
    case AccountRef(id) => assert db.t.accounts[id := db.t.accounts[id]] == db.t.accounts;
    case EndpointRef(id) => assert db.t.endpoints[id := db.t.endpoints[id]] == db.t.endpoints;
  }

  lemma SetHealthTwice(db: Db, e: Entity, h: Health, k: Health)
    requires Exists(db.t, e)
    ensures SetHealth(SetHealth(db, e, h), e, k).t == SetHealth(db, e, k).t
  {
    match e
    case AccountRef(id) =>
      var a, b := db.t.accounts[id].(health := h), db.t.accounts[id].(health := k);
      assert db.t.accounts[id := a][id := b] == db.t.accounts[id := b];
    case EndpointRef(id) =>
      var a, b := db.t.endpoints[id].(health := h), db.t.endpoints[id].(health := k);
      assert db.t.endpoints[id := a][id := b] == db.t.endpoints[id := b];
  }

  lemma TransitionIsMoved(db: Db, e: Entity, next: Status, actor: string, now: Clock)
    requires Exists(db.t, e)
    ensures Transition(db, e, next, actor, now).t == SetHealth(db, e, Moved(HealthOf(db.t, e), next, now)).t
  {
    SetSameHealth(db, e);
  }

  /** The database runs the entity's own automaton on its three columns and touches nothing else. */
  lemma HandleIsReact(db: Db, e: Entity, signal: Signal, actor: string, now: Clock)
    requires Exists(db.t, e)
    ensures Handle(db, e, signal, actor, now).t
         == SetHealth(db, e, React(HealthOf(db.t, e), signal, actor, now)).t
    ensures Handle(db, e, signal, actor, now).rollouts == db.rollouts
  {
    var h := HealthOf(db.t, e);
    SetSameHealth(db, e);
    if signal == Fault(Transient) {
      var counted := CountFailure(db, e);
      TransitionIsMoved(counted, e, Degraded, actor, now);
      SetHealthTwice(db, e, HealthOf(counted.t, e), Moved(HealthOf(counted.t, e), Degraded, now));
    } else if signal == Fault(AuthError) {
      TransitionIsMoved(db, e, Disabled, actor, now);
    } else if signal == Fault(RateLimit) {
      TransitionIsMoved(db, e, Cooldown, actor, now);
    } else {
      TransitionIsMoved(db, e, Active, actor, now);
    }
  }

  /** Same rows, apart from health columns. */
  predicate SameButHealth(s: Tables, t: Tables) {
    && t == s.(accounts := t.accounts, endpoints := t.endpoints)
    && t.accounts.Keys == s.accounts.Keys
    && t.endpoints.Keys == s.endpoints.Keys
    && (forall a :: a in s.accounts ==> t.accounts[a] == s.accounts[a].(health := t.accounts[a].health))
    && (forall e :: e in s.endpoints ==> t.endpoints[e] == s.endpoints[e].(health := t.endpoints[e].health))
  }

  lemma SetHealthEffect(db: Db, e: Entity, h: Health)
    requires Exists(db.t, e)
    ensures var after := SetHealth(db, e, h).t;
            && SameButHealth(db.t, after)
            && (forall x :: Exists(after, x) <==> Exists(db.t, x))
            && HealthOf(after, e) == h
            && (forall x :: Exists(db.t, x) && x != e ==> HealthOf(after, x) == HealthOf(db.t, x))
  {
  }

  // ---------- What the handlers promise, column by column ----------

  /** A failure, from the error itself: an authentication error disables and leaves timer and counter,
      also when its code is 429; else a rate limit enters cooldown for 30 seconds, or leaves a running
      cooldown as it is; anything else counts one failure and degrades from the third on. */
  predicate AfterFailure(error: Error, h: Health, k: Health, now: Clock) {
    if error.code == 401 || error.code == 403 || error.mentionsAuth then
      k.status == Disabled && k.until == h.until && k.failures == h.failures
    else if error.code == 429 || error.mentionsRateLimit then
      && k.status == Cooldown && k.failures == h.failures
      && (h.status == Cooldown ==> k.until == h.until)
      && (h.status != Cooldown ==> k.until.Some? && Micros(k.until.value) == Micros(now) + 30_000_000)
    else
      && k.failures == h.failures + 1 && k.until == h.until
      && k.status == if k.failures >= 3 then Degraded else h.status
  }

  /** A success: degraded and recovered become active and clean, and so does probe for the actor
      "probe" alone; active loses its counted failures; every other status stays as it is. */
  predicate AfterSuccess(h: Health, k: Health, actor: string) {
    match h.status
    case Degraded => k == Health(Active, None, 0)
    case Recovered => k == Health(Active, None, 0)
    case Probing => if actor == "probe" then k == Health(Active, None, 0) else k == h
    case Active => k == Health(Active, h.until, 0)
    case _ => k == h
  }

  lemma FailureColumns(db: Db, e: Entity, error: Error, actor: string, now: Clock)
    requires Exists(db.t, e)
    ensures var after := Handle(db, e, Fault(Classify(error)), actor, now).t;
            && SameButHealth(db.t, after) && Exists(after, e)
            && AfterFailure(error, HealthOf(db.t, e), HealthOf(after, e), now)
            && (forall x :: Exists(db.t, x) && x != e ==> Exists(after, x) && HealthOf(after, x) == HealthOf(db.t, x))
  {
    var h := React(HealthOf(db.t, e), Fault(Classify(error)), actor, now);
    HandleIsReact(db, e, Fault(Classify(error)), actor, now);
    SetHealthEffect(db, e, h);
  }

  lemma SuccessColumns(db: Db, e: Entity, actor: string, now: Clock)
    requires Exists(db.t, e)
    ensures var after := Handle(db, e, Good, actor, now).t;
            && SameButHealth(db.t, after) && Exists(after, e)
            && AfterSuccess(HealthOf(db.t, e), HealthOf(after, e), actor)
            && (forall x :: Exists(db.t, x) && x != e ==> Exists(after, x) && HealthOf(after, x) == HealthOf(db.t, x))
  {
    var h := React(HealthOf(db.t, e), Good, actor, now);
    HandleIsReact(db, e, Good, actor, now);
    SetHealthEffect(db, e, h);
  }

  // ---------- The procedures ----------

  method TransitionAccountState(db: Database, id: Id, next: Status, actor: string, now: Clock)
    modifies db
    ensures db.State() == Transition(old(db.State()), AccountRef(id), next, actor, now)
  {
    if id !in db.accounts { return; }
    var before := db.accounts[id].health.status;
    if before == next { return; }
    db.CreateIncident(AccountRef(id), before, next);
    if next == Cooldown {
      db.SetAccountCooldown(id, Plus(now, COOLDOWN_DURATION_SEC), actor);
    } else {
      var _ := db.UpdateAccountStatus(id, next, actor);
    }
  }

  method TransitionEndpointState(db: Database, id: Id, next: Status, actor: string, now: Clock)
    modifies db
    ensures db.State() == Transition(old(db.State()), EndpointRef(id), next, actor, now)
  {
    if id !in db.endpoints { return; }
    var before := db.endpoints[id].health.status;
    if before == next { return; }
    db.CreateIncident(EndpointRef(id), before, next);
    if next == Cooldown {
      db.SetEndpointCooldown(id, Plus(now, COOLDOWN_DURATION_SEC), actor);
    } else {
      var _ := db.UpdateEndpointStatus(id, Some(next), None, actor);
    }
  }

  method HandleAccountFailure(db: Database, id: Id, error: Error, actor: string, now: Clock)
    modifies db
    ensures db.State() == Handle(old(db.State()), AccountRef(id), Fault(Classify(error)), actor, now)
    ensures id in old(db.accounts) ==>
              id in db.accounts && AfterFailure(error, old(db.accounts)[id].health, db.accounts[id].health, now)
  {
    if id in db.accounts { FailureColumns(db.State(), AccountRef(id), error, actor, now); }
    if IsAuthError(error) {
      TransitionAccountState(db, id, Disabled, actor, now);
    } else if error.code == 429 || error.mentionsRateLimit {
      TransitionAccountState(db, id, Cooldown, actor, now);
    } else {
      var failures := db.IncrementAccountFailure(id);
      if failures >= FAILURE_THRESHOLD {
        TransitionAccountState(db, id, Degraded, actor, now);
      }
    }
  }

  method HandleEndpointFailure(db: Database, id: Id, error: Error, actor: string, now: Clock)
    modifies db
    ensures db.State() == Handle(old(db.State()), EndpointRef(id), Fault(Classify(error)), actor, now)
    ensures id in old(db.endpoints) ==>
              id in db.endpoints && AfterFailure(error, old(db.endpoints)[id].health, db.endpoints[id].health, now)
  {
    if id in db.endpoints { FailureColumns(db.State(), EndpointRef(id), error, actor, now); }
    if IsAuthError(error) {
      TransitionEndpointState(db, id, Disabled, actor, now);
    } else if error.code == 429 || error.mentionsRateLimit {
      TransitionEndpointState(db, id, Cooldown, actor, now);
    } else {
      var failures := db.IncrementEndpointFailure(id);
      if failures >= FAILURE_THRESHOLD {
        TransitionEndpointState(db, id, Degraded, actor, now);
      }
    }
  }

  method HandleAccountSuccess(db: Database, id: Id, actor: string, now: Clock)
    modifies db
    ensures db.State() == Handle(old(db.State()), AccountRef(id), Good, actor, now)
    ensures id in old(db.accounts) ==>
              id in db.accounts && AfterSuccess(old(db.accounts)[id].health, db.accounts[id].health, actor)
  {
    if id in db.accounts { SuccessColumns(db.State(), AccountRef(id), actor, now); }
    if id !in db.accounts { return; }
    var account := db.accounts[id];
    if account.health.status == Probing {
      if actor == "probe" {
        TransitionAccountState(db, id, Active, actor, now);
      }
    } else if account.health.status == Degraded || account.health.status == Recovered {
      TransitionAccountState(db, id, Active, actor, now);
    } else if account.health.status == Active && account.health.failures > 0 {
      db.accounts := db.accounts[id := account.(health := account.health.(failures := 0))];
    }
  }

  method HandleEndpointSuccess(db: Database, id: Id, actor: string, now: Clock)
    modifies db
    ensures db.State() == Handle(old(db.State()), EndpointRef(id), Good, actor, now)
    ensures id in old(db.endpoints) ==>
              id in db.endpoints && AfterSuccess(old(db.endpoints)[id].health, db.endpoints[id].health, actor)
  {
    if id in db.endpoints { SuccessColumns(db.State(), EndpointRef(id), actor, now); }
    if id !in db.endpoints { return; }
    var endpoint := db.endpoints[id];
    if endpoint.health.status == Probing {
      if actor == "probe" {
        TransitionEndpointState(db, id, Active, actor, now);
      }
    } else if endpoint.health.status == Degraded || endpoint.health.status == Recovered {
      TransitionEndpointState(db, id, Active, actor, now);
    } else if endpoint.health.status == Active && endpoint.health.failures > 0 {
      db.endpoints := db.endpoints[id := endpoint.(health := endpoint.health.(failures := 0))];
    }
  }
}
