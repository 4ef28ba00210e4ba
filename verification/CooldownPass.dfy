/** What one pass of the cooldown reconciler guarantees. */
module CooldownPass {
  import opened Prelude
  import opened IsoTime
  import opened Schema
  import opened Store
  import opened StateMachine
  import opened History
  import opened Probe
  import Ingestion

  /** The queries return each row once, and no probe's clock reads earlier than the pass's. */
  ghost predicate Proper(t: Tables, input: PassInput) {
    && Enumerates(input.endpointOrder, t.endpoints.Keys)
    && Enumerates(input.accountOrder, t.accounts.Keys)
    && Enumerates(input.probeOrder, t.endpoints.Keys)
    && (forall id :: AtOrBefore(input.now, input.endpointReading(id).now))
    && (forall id :: AtOrBefore(input.now, input.accountReading(id).now))
  }

  // ---------- One probe ----------

  function Probed(h: Health, r: Reading, actor: string): Health {
    match r.outcome
    case SecretFailure => React(h, Fault(AuthError), actor, r.now)
    case Passed => Health(Active, None, 0)
    case Rejected(error) => React(Moved(h, Probing, r.now), Fault(Classify(error)), actor, r.now)
  }

  /** Exactly the health columns of `e` were written. */
  ghost predicate Wrote(db: Db, after: Db, e: Entity, h: Health) {
    && SameButHealth(db.t, after.t) && after.rollouts == db.rollouts
    && (forall x :: Exists(after.t, x) <==> Exists(db.t, x))
    && Exists(db.t, e) && HealthOf(after.t, e) == h
    && (forall x :: Exists(db.t, x) && x != e ==> HealthOf(after.t, x) == HealthOf(db.t, x))
  }

  lemma TransitionWrites(db: Db, e: Entity, next: Status, actor: string, now: Clock)
    requires Exists(db.t, e)
    ensures Wrote(db, Transition(db, e, next, actor, now), e, Moved(HealthOf(db.t, e), next, now))
  {
    TransitionIsMoved(db, e, next, actor, now);
    SetHealthEffect(db, e, Moved(HealthOf(db.t, e), next, now));
  }

  lemma HandleWrites(db: Db, e: Entity, signal: Signal, actor: string, now: Clock)
    requires Exists(db.t, e)
    ensures Wrote(db, Handle(db, e, signal, actor, now), e, React(HealthOf(db.t, e), signal, actor, now))
  {
    HandleIsReact(db, e, signal, actor, now);
    SetHealthEffect(db, e, React(HealthOf(db.t, e), signal, actor, now));
  }

  lemma WroteTwice(db: Db, mid: Db, after: Db, e: Entity, h: Health, k: Health)
    requires Wrote(db, mid, e, h) && Wrote(mid, after, e, k)
    ensures Wrote(db, after, e, k)
  {
    Ingestion.SameButHealthTransitive(db.t, mid.t, after.t);
    forall x | Exists(db.t, x) ensures Exists(mid.t, x) { }
  }

  lemma ProbeEffect(db: Db, id: Id, actor: string, r: Reading)
    requires Probeable(db.t, id)
    ensures Wrote(db, ProbeEndpoint(db, id, actor, r), EndpointRef(id),
                  Probed(HealthOf(db.t, EndpointRef(id)), r, actor))
  {
    var e, h := EndpointRef(id), HealthOf(db.t, EndpointRef(id));
    if r.outcome == SecretFailure {
      HandleWrites(db, e, Fault(AuthError), actor, r.now);
    } else {
      var probing, p := Transition(db, e, Probing, actor, r.now), Moved(h, Probing, r.now);
      TransitionWrites(db, e, Probing, actor, r.now);
      if r.outcome == Passed {
        PassedProbe(db, probing, e, p, actor, r.now);
      } else {
        HandleWrites(probing, e, Fault(Classify(r.outcome.error)), actor, r.now);
        WroteTwice(db, probing, ProbeEndpoint(db, id, actor, r), e, p, Probed(h, r, actor));
      }
    }
  }

  lemma PassedProbe(db: Db, probing: Db, e: Entity, p: Health, actor: string, now: Clock)
    requires Wrote(db, probing, e, p)
    ensures Wrote(db, Handle(Transition(probing, e, Recovered, actor, now), e, Good, actor, now), e,
                  Health(Active, None, 0))
  {
    var recovered, q := Transition(probing, e, Recovered, actor, now), Moved(p, Recovered, now);
    TransitionWrites(probing, e, Recovered, actor, now);
    MovedStatus(p, Recovered, now);
    WroteTwice(db, probing, recovered, e, p, q);
    HandleWrites(recovered, e, Good, actor, now);
    WroteTwice(db, recovered, Handle(recovered, e, Good, actor, now), e, q, React(q, Good, actor, now));
  }

  lemma ProbeWalks(start: Db, db: Db, id: Id, actor: string, r: Reading, x: Entity, path: seq<Move>)
    returns (longer: seq<Move>)
    requires Walked(start, db, x, path)
    ensures Walked(start, ProbeEndpoint(db, id, actor, r), x, longer)
    ensures x != EndpointRef(id) ==> longer == path
  {
    var e := EndpointRef(id);
    longer := path;
    if Probeable(db.t, id) {
      if r.outcome == SecretFailure {
        longer := HandleWalks(start, db, e, Fault(AuthError), actor, r.now, x, path);
      } else {
        var probing := Transition(db, e, Probing, actor, r.now);
        longer := TransitionWalks(start, db, e, Probing, actor, r.now, x, path);
        if r.outcome == Passed {
          longer := TransitionWalks(start, probing, e, Recovered, actor, r.now, x, longer);
          longer := HandleWalks(start, Transition(probing, e, Recovered, actor, r.now), e, Good, actor, r.now, x,
                                longer);
        } else {
          longer := HandleWalks(start, probing, e, Fault(Classify(r.outcome.error)), actor, r.now, x, longer);
        }
      }
    }
  }

  /** A timer set during the pass lies after the pass's clock reading. */
  lemma FreshTimerNotExpired(now: Clock, later: Clock, h: Health)
    requires AtOrBefore(now, later)
    requires h.status == Cooldown ==> h.until == Some(Plus(later, COOLDOWN_DURATION_SEC))
    ensures !Expired(h, now)
  {
    if h.status == Cooldown {
      IsoOrderIsChronological(h.until.value, now);
    }
  }

  lemma ProbedNotExpired(h: Health, r: Reading, actor: string, now: Clock)
    requires AtOrBefore(now, r.now)
    ensures !Expired(Probed(h, r, actor), now)
  {
    FreshTimerNotExpired(now, r.now, Probed(h, r, actor));
  }

  // ---------- First phase: endpoints ----------

  lemma SameButHealthKeepsSound(s: Tables, t: Tables)
    requires SoundTables(s) && SameButHealth(s, t)
    ensures SoundTables(t)
  {
    forall id | id in t.endpoints
      ensures Probeable(t, id) && t.endpoints[id].node in t.nodes
    {
      assert id in s.endpoints.Keys && t.endpoints[id] == s.endpoints[id].(health := t.endpoints[id].health);
      assert s.endpoints[id].account in s.accounts.Keys && s.endpoints[id].account in t.accounts.Keys;
    }
    forall id | id in t.accounts ensures t.accounts[id].provider in t.providers {
      assert id in s.accounts.Keys && t.accounts[id] == s.accounts[id].(health := t.accounts[id].health);
    }
  }

  function PhaseHealth(t: Tables, x: Entity, done: seq<Id>, input: PassInput, actor: string): Health
    requires Exists(t, x)
  {
    if x.EndpointRef? && x.id in done then Probed(HealthOf(t, x), input.endpointReading(x.id), actor)
    else HealthOf(t, x)
  }

  /** The effect of having probed the endpoints `done`. */
  ghost predicate PhaseEffect(db: Db, after: Db, done: seq<Id>, input: PassInput, actor: string) {
    && SameButHealth(db.t, after.t) && after.rollouts == db.rollouts
    && (forall x :: Exists(after.t, x) <==> Exists(db.t, x))
    && (forall x :: Exists(db.t, x) ==> HealthOf(after.t, x) == PhaseHealth(db.t, x, done, input, actor))
  }

  lemma PhaseStep(db: Db, before: Db, after: Db, done: seq<Id>, id: Id, input: PassInput, actor: string)
    requires PhaseEffect(db, before, done, input, actor) && id !in done && Exists(db.t, EndpointRef(id))
    requires Wrote(before, after, EndpointRef(id),
                   Probed(HealthOf(before.t, EndpointRef(id)), input.endpointReading(id), actor))
    ensures PhaseEffect(db, after, done + [id], input, actor)
  {
    Ingestion.SameButHealthTransitive(db.t, before.t, after.t);
    forall x | Exists(db.t, x)
      ensures HealthOf(after.t, x) == PhaseHealth(db.t, x, done + [id], input, actor)
    {
      assert HealthOf(before.t, x) == PhaseHealth(db.t, x, done, input, actor);
    }
  }

  lemma {:induction false} ProbeAllEffect(db: Db, ids: seq<Id>, input: PassInput, actor: string)
    requires SoundTables(db.t) && Distinct(ids)
    requires forall id :: id in ids ==> id in db.t.endpoints
    ensures PhaseEffect(db, ProbeAll(db, ids, input, actor), ids, input, actor)
  {
    if ids != [] {
      var n := |ids| - 1;
      var before := ProbeAll(db, ids[..n], input, actor);
      DistinctPrefix(ids);
      ProbeAllEffect(db, ids[..n], input, actor);
      SameButHealthKeepsSound(db.t, before.t);
      assert Exists(db.t, EndpointRef(ids[n])) && Exists(before.t, EndpointRef(ids[n]));
      ProbeEffect(before, ids[n], actor, input.endpointReading(ids[n]));
      PhaseStep(db, before, ProbeAll(db, ids, input, actor), ids[..n], ids[n], input, actor);
    }
  }

  lemma {:induction false} ProbeAllWalks(start: Db, db: Db, ids: seq<Id>, input: PassInput, actor: string,
                                         x: Entity, path: seq<Move>)
    returns (longer: seq<Move>)
    requires Walked(start, db, x, path)
    ensures Walked(start, ProbeAll(db, ids, input, actor), x, longer)
    ensures x.AccountRef? ==> longer == path
  {
    longer := path;
    if ids != [] {
      var n := |ids| - 1;
      longer := ProbeAllWalks(start, db, ids[..n], input, actor, x, path);
      longer := ProbeWalks(start, ProbeAll(db, ids[..n], input, actor), ids[n], actor, input.endpointReading(ids[n]),
                           x, longer);
    }
  }

  lemma {:induction false} ExpiredEndpointsMeaning(t: Tables, order: seq<Id>, now: Clock)
    requires Distinct(order)
    ensures var ids := ExpiredEndpoints(t, order, now);
            && (forall id :: id in ids <==> id in order && id in t.endpoints && Expired(t.endpoints[id].health, now))
            && Distinct(ids)
  {
    if order != [] {
      var n := |order| - 1;
      ExpiredEndpointsMeaning(t, order[..n], now);
      assert order == order[..n] + [order[n]];
    }
  }

  lemma {:induction false} ExpiredAccountsMeaning(t: Tables, order: seq<Id>, now: Clock)
    requires Distinct(order)
    ensures var ids := ExpiredAccounts(t, order, now);
            && (forall id :: id in ids <==> id in order && id in t.accounts && Expired(t.accounts[id].health, now))
            && Distinct(ids)
  {
    if order != [] {
      var n := |order| - 1;
      ExpiredAccountsMeaning(t, order[..n], now);
      assert order == order[..n] + [order[n]];
    }
  }

  // ---------- Second phase: accounts ----------

  function Revived(t: Tables, id: Id, input: PassInput): Status {
    var pick := FirstCandidate(t, input.probeOrder, id);
    if pick.Some? && ProbePasses(t, pick.value, input.accountReading(id)) then Active else Degraded
  }

  /** The endpoint an account's probe goes through does not depend on the account's own status. */
  lemma {:induction false} CandidateIgnoresAccounts(s: Tables, t: Tables, order: seq<Id>, account: Id)
    requires s.endpoints == t.endpoints
    ensures FirstCandidate(s, order, account) == FirstCandidate(t, order, account)
  {
    if order != [] {
      CandidateIgnoresAccounts(s, t, order[1..], account);
    }
  }

  /** The columns of an account whose probe has ended: active and clean, or degraded with its old timer. */
  function EndHealth(h: Health, next: Status): Health {
    if next == Active then Health(Active, None, 0) else h.(status := next)
  }

  /** The effect of handling one expired account: its own status, and at most one of its endpoints. */
  ghost predicate ReviveEffect(db: Db, after: Db, id: Id, pick: Option<Id>, next: Status, input: PassInput,
                               actor: string) {
    && SameButHealth(db.t, after.t) && after.rollouts == db.rollouts
    && (forall x :: Exists(after.t, x) <==> Exists(db.t, x))
    && Exists(db.t, AccountRef(id))
    && HealthOf(after.t, AccountRef(id)) == EndHealth(HealthOf(db.t, AccountRef(id)), next)
    && (forall x :: Exists(db.t, x) && x != AccountRef(id) ==>
          HealthOf(after.t, x) ==
          if x.EndpointRef? && pick == Some(x.id) then Probed(HealthOf(db.t, x), input.accountReading(id), actor)
          else HealthOf(db.t, x))
  }

  lemma ComposeRevive(db: Db, probing: Db, probed: Db, after: Db, id: Id, pick: Option<Id>,
                      h: Health, k: Health, input: PassInput, actor: string)
    requires Wrote(db, probing, AccountRef(id), h) && Wrote(probed, after, AccountRef(id), k)
    requires if pick.None? then probed == probing
             else Exists(probing.t, EndpointRef(pick.value))
                  && Wrote(probing, probed, EndpointRef(pick.value),
                           Probed(HealthOf(probing.t, EndpointRef(pick.value)), input.accountReading(id), actor))
    requires k == EndHealth(HealthOf(db.t, AccountRef(id)), k.status)
    ensures ReviveEffect(db, after, id, pick, k.status, input, actor)
  {
    if pick.Some? {
      Ingestion.SameButHealthTransitive(db.t, probing.t, probed.t);
    }
    Ingestion.SameButHealthTransitive(db.t, probed.t, after.t);
    forall x | Exists(db.t, x) ensures Exists(probing.t, x) && Exists(probed.t, x) { }
  }

  lemma StartRevive(db: Db, id: Id, input: PassInput, actor: string)
    requires SoundTables(db.t) && id in db.t.accounts && db.t.accounts[id].health.status == Cooldown
    ensures var probing := Transition(db, AccountRef(id), Probing, actor, input.now);
            var pick := FirstCandidate(db.t, input.probeOrder, id);
            && Wrote(db, probing, AccountRef(id), Moved(HealthOf(db.t, AccountRef(id)), Probing, input.now))
            && FirstCandidate(probing.t, input.probeOrder, id) == pick
            && (pick.Some? ==> Probeable(db.t, pick.value) && Probeable(probing.t, pick.value))
  {
    var a := AccountRef(id);
    var probing := Transition(db, a, Probing, actor, input.now);
    TransitionWrites(db, a, Probing, actor, input.now);
    SameButHealthKeepsSound(db.t, probing.t);
    TransitionIsMoved(db, a, Probing, actor, input.now);
    CandidateIgnoresAccounts(db.t, probing.t, input.probeOrder, id);
  }

  lemma EndsAs(h: Health, p: Health, next: Status, now: Clock)
    requires h.status == Cooldown && p == Moved(h, Probing, now) && (next == Active || next == Degraded)
    ensures Moved(p, next, now) == EndHealth(h, next) && Moved(p, next, now).status == next
  {
  }

  lemma ReviveWithoutPick(db: Db, id: Id, input: PassInput, actor: string)
    requires SoundTables(db.t) && id in db.t.accounts && db.t.accounts[id].health.status == Cooldown
    requires FirstCandidate(db.t, input.probeOrder, id).None?
    ensures ReviveEffect(db, ReviveAccount(db, id, input, actor), id, None, Degraded, input, actor)
  {
    var a := AccountRef(id);
    var probing, h := Transition(db, a, Probing, actor, input.now), Moved(HealthOf(db.t, a), Probing, input.now);
    StartRevive(db, id, input, actor);
    TransitionWrites(probing, a, Degraded, actor, input.now);
    EndsAs(HealthOf(db.t, a), h, Degraded, input.now);
    ComposeRevive(db, probing, probing, ReviveAccount(db, id, input, actor), id, None, h,
                  Moved(h, Degraded, input.now), input, actor);
  }

  lemma ReviveThroughPick(db: Db, id: Id, input: PassInput, actor: string)
    requires SoundTables(db.t) && id in db.t.accounts && db.t.accounts[id].health.status == Cooldown
    requires FirstCandidate(db.t, input.probeOrder, id).Some?
    ensures ReviveEffect(db, ReviveAccount(db, id, input, actor), id, FirstCandidate(db.t, input.probeOrder, id),
                         Revived(db.t, id, input), input, actor)
  {
    var a, pick, next := AccountRef(id), FirstCandidate(db.t, input.probeOrder, id), Revived(db.t, id, input);
    var probing, h := Transition(db, a, Probing, actor, input.now), Moved(HealthOf(db.t, a), Probing, input.now);
    StartRevive(db, id, input, actor);
    var probed := ProbeEndpoint(probing, pick.value, actor, input.accountReading(id));
    ProbeEffect(probing, pick.value, actor, input.accountReading(id));
    TransitionWrites(probed, a, next, actor, input.now);
    EndsAs(HealthOf(db.t, a), h, next, input.now);
    assert ReviveAccount(db, id, input, actor) == Transition(probed, a, next, actor, input.now);
    ComposeRevive(db, probing, probed, ReviveAccount(db, id, input, actor), id, pick, h,
                  Moved(h, next, input.now), input, actor);
  }

  lemma ReviveHasEffect(db: Db, id: Id, input: PassInput, actor: string)
    requires SoundTables(db.t) && id in db.t.accounts && db.t.accounts[id].health.status == Cooldown
    ensures ReviveEffect(db, ReviveAccount(db, id, input, actor), id,
                         FirstCandidate(db.t, input.probeOrder, id), Revived(db.t, id, input), input, actor)
  {
    if FirstCandidate(db.t, input.probeOrder, id).None? {
      ReviveWithoutPick(db, id, input, actor);
    } else {
      ReviveThroughPick(db, id, input, actor);
    }
  }

  lemma ReviveWalks(start: Db, db: Db, id: Id, input: PassInput, actor: string, x: Entity, path: seq<Move>)
    returns (longer: seq<Move>)
    requires Walked(start, db, x, path)
    ensures Walked(start, ReviveAccount(db, id, input, actor), x, longer)
    ensures x.AccountRef? && x.id != id ==> longer == path
  {
    var a := AccountRef(id);
    var probing := Transition(db, a, Probing, actor, input.now);
    longer := TransitionWalks(start, db, a, Probing, actor, input.now, x, path);
    var pick := FirstCandidate(probing.t, input.probeOrder, id);
    if pick.None? {
      longer := TransitionWalks(start, probing, a, Degraded, actor, input.now, x, longer);
    } else {
      var reading := input.accountReading(id);
      var probed := ProbeEndpoint(probing, pick.value, actor, reading);
      longer := ProbeWalks(start, probing, pick.value, actor, reading, x, longer);
      longer := TransitionWalks(start, probed, a,
                                if ProbePasses(probing.t, pick.value, reading) then Active else Degraded,
                                actor, input.now, x, longer);
    }
  }

  /** Leaving a status for a different one adds exactly that move. */
  lemma OneMove(start: Db, db: Db, e: Entity, next: Status, actor: string, now: Clock, path: seq<Move>)
    requires Walked(start, db, e, path) && HealthOf(db.t, e).status != next
    ensures var after := Transition(db, e, next, actor, now);
            && Walked(start, after, e, path + [(HealthOf(db.t, e).status, next)])
            && HealthOf(after.t, e).status == next
  {
    var longer := TransitionWalks(start, db, e, next, actor, now, e, path);
    TransitionWrites(db, e, next, actor, now);
    MovedStatus(HealthOf(db.t, e), next, now);
  }

  lemma ProbeKeepsAccount(start: Db, db: Db, id: Id, actor: string, r: Reading, a: Id, path: seq<Move>)
    requires Walked(start, db, AccountRef(a), path) && Probeable(db.t, id)
    ensures var after := ProbeEndpoint(db, id, actor, r);
            && Walked(start, after, AccountRef(a), path)
            && HealthOf(after.t, AccountRef(a)) == HealthOf(db.t, AccountRef(a))
  {
    var _ := ProbeWalks(start, db, id, actor, r, AccountRef(a), path);
    ProbeEffect(db, id, actor, r);
  }

  lemma ReviveTwoMoves(start: Db, db: Db, id: Id, input: PassInput, actor: string, path: seq<Move>)
    requires Walked(start, db, AccountRef(id), path)
    requires SoundTables(db.t) && HealthOf(db.t, AccountRef(id)).status == Cooldown
    ensures Walked(start, ReviveAccount(db, id, input, actor), AccountRef(id),
                   path + [(Cooldown, Probing)] + [(Probing, Revived(db.t, id, input))])
  {
    var a := AccountRef(id);
    var probing := Transition(db, a, Probing, actor, input.now);
    var pick := FirstCandidate(db.t, input.probeOrder, id);
    StartRevive(db, id, input, actor);
    OneMove(start, db, a, Probing, actor, input.now, path);
    var one := path + [(Cooldown, Probing)];
    if pick.None? {
      OneMove(start, probing, a, Degraded, actor, input.now, one);
    } else {
      var probed := ProbeEndpoint(probing, pick.value, actor, input.accountReading(id));
      ProbeKeepsAccount(start, probing, pick.value, actor, input.accountReading(id), id, one);
      OneMove(start, probed, a, Revived(db.t, id, input), actor, input.now, one);
    }
  }

  predicate Settled(t: Tables, a: Id)
    requires a in t.accounts
  {
    || t.accounts[a].health.status == Degraded
    || (t.accounts[a].health.status == Active
        && exists e :: e in t.endpoints && t.endpoints[e].account == a && t.endpoints[e].health.status == Active)
  }

  predicate AccountProgress(first: Tables, t: Tables, done: seq<Id>, a: Id) {
    && a in first.accounts && a in t.accounts
    && if a in done then Settled(t, a) else t.accounts[a].health == first.accounts[a].health
  }

  predicate EndpointProgress(first: Tables, t: Tables, done: seq<Id>, e: Id, now: Clock) {
    && e in first.endpoints && e in t.endpoints
    && var h, was := t.endpoints[e].health, first.endpoints[e].health;
       && (first.endpoints[e].account !in done ==> h == was)
       && (was.status == Disabled || was.status == Cooldown ==> h == was)
       && (Expired(h, now) ==> Expired(was, now))
  }

  predicate Frame(first: Db, db: Db) {
    SameButHealth(first.t, db.t) && db.rollouts == first.rollouts
  }

  /** What has happened after some of the expired accounts have been handled. */
  predicate Progress(first: Db, db: Db, done: seq<Id>, now: Clock) {
    && Frame(first, db)
    && (forall a :: a in first.t.accounts ==> AccountProgress(first.t, db.t, done, a))
    && (forall e :: e in first.t.endpoints ==> EndpointProgress(first.t, db.t, done, e, now))
  }

  /** How an account's probe ends: degraded, or active through an endpoint that passed. */
  predicate Verdict(t: Tables, id: Id, pick: Option<Id>, next: Status, input: PassInput) {
    && (pick.Some? ==> Candidate(t, pick.value, id))
    && (next == Degraded
        || (next == Active && pick.Some? && input.accountReading(id).outcome == Passed))
  }

  lemma EndpointStep(first: Db, db: Db, after: Db, done: seq<Id>, id: Id, pick: Option<Id>, next: Status,
                     input: PassInput, actor: string, e: Id)
    requires EndpointProgress(first.t, db.t, done, e, input.now) && SameButHealth(first.t, db.t)
    requires ReviveEffect(db, after, id, pick, next, input, actor) && Verdict(db.t, id, pick, next, input)
    requires AtOrBefore(input.now, input.accountReading(id).now)
    ensures EndpointProgress(first.t, after.t, done + [id], e, input.now)
  {
    assert Exists(db.t, EndpointRef(e)) && Exists(after.t, EndpointRef(e));
    assert after.t.endpoints[e].health == HealthOf(after.t, EndpointRef(e));
    assert db.t.endpoints[e] == first.t.endpoints[e].(health := db.t.endpoints[e].health);
    ProbedNotExpired(db.t.endpoints[e].health, input.accountReading(id), actor, input.now);
  }

  /** An endpoint other than the one probed, or of an account handled before, stays active. */
  lemma StaysActive(db: Db, after: Db, id: Id, pick: Option<Id>, next: Status, input: PassInput, actor: string, e: Id)
    requires ReviveEffect(db, after, id, pick, next, input, actor) && Verdict(db.t, id, pick, next, input)
    requires e in db.t.endpoints && db.t.endpoints[e].health.status == Active
    requires db.t.endpoints[e].account != id
    ensures e in after.t.endpoints && after.t.endpoints[e] == db.t.endpoints[e]
  {
    assert Exists(db.t, EndpointRef(e)) && Exists(after.t, EndpointRef(e));
    assert HealthOf(after.t, EndpointRef(e)) == HealthOf(db.t, EndpointRef(e));
  }

  lemma OtherAccountStep(db: Db, after: Db, id: Id, pick: Option<Id>, next: Status,
                         input: PassInput, actor: string, a: Id)
    requires ReviveEffect(db, after, id, pick, next, input, actor) && Verdict(db.t, id, pick, next, input)
    requires a in db.t.accounts && a != id && a in after.t.accounts && Settled(db.t, a)
    ensures Settled(after.t, a)
  {
    assert Exists(db.t, AccountRef(a));
    assert HealthOf(after.t, AccountRef(a)) == HealthOf(db.t, AccountRef(a));
    if db.t.accounts[a].health.status == Active {
      var e :| e in db.t.endpoints && db.t.endpoints[e].account == a && db.t.endpoints[e].health.status == Active;
      StaysActive(db, after, id, pick, next, input, actor, e);
    }
  }

  lemma OwnAccountStep(db: Db, after: Db, id: Id, pick: Option<Id>, next: Status, input: PassInput, actor: string)
    requires ReviveEffect(db, after, id, pick, next, input, actor) && Verdict(db.t, id, pick, next, input)
    requires id in after.t.accounts
    ensures Settled(after.t, id)
  {
    assert HealthOf(after.t, AccountRef(id)).status == next;
    if next == Active {
      var e := pick.value;
      assert Exists(db.t, EndpointRef(e)) && Exists(after.t, EndpointRef(e));
      assert HealthOf(after.t, EndpointRef(e)) == Health(Active, None, 0);
      assert after.t.endpoints[e].account == id;
    }
  }

  lemma AccountStep(first: Db, db: Db, after: Db, done: seq<Id>, id: Id, pick: Option<Id>, next: Status,
                    input: PassInput, actor: string, a: Id)
    requires AccountProgress(first.t, db.t, done, a) && id !in done
    requires ReviveEffect(db, after, id, pick, next, input, actor) && Verdict(db.t, id, pick, next, input)
    ensures AccountProgress(first.t, after.t, done + [id], a)
  {
    assert Exists(db.t, AccountRef(a)) && Exists(after.t, AccountRef(a));
    if a == id {
      OwnAccountStep(db, after, id, pick, next, input, actor);
    } else if a in done {
      OtherAccountStep(db, after, id, pick, next, input, actor, a);
    } else {
      assert HealthOf(after.t, AccountRef(a)) == HealthOf(db.t, AccountRef(a));
    }
  }

  lemma ProgressStep(first: Db, db: Db, after: Db, done: seq<Id>, id: Id, pick: Option<Id>, next: Status,
                     input: PassInput, actor: string)
    requires Progress(first, db, done, input.now) && id !in done
    requires ReviveEffect(db, after, id, pick, next, input, actor) && Verdict(db.t, id, pick, next, input)
    requires AtOrBefore(input.now, input.accountReading(id).now)
    ensures Progress(first, after, done + [id], input.now)
  {
    Ingestion.SameButHealthTransitive(first.t, db.t, after.t);
    forall e | e in first.t.endpoints ensures EndpointProgress(first.t, after.t, done + [id], e, input.now) {
      EndpointStep(first, db, after, done, id, pick, next, input, actor, e);
    }
    forall a | a in first.t.accounts ensures AccountProgress(first.t, after.t, done + [id], a) {
      AccountStep(first, db, after, done, id, pick, next, input, actor, a);
    }
  }

  predicate AllInCooldown(t: Tables, ids: seq<Id>) {
    forall id :: id in ids ==> id in t.accounts && t.accounts[id].health.status == Cooldown
  }

  lemma {:induction false} ReviveAllProgress(first: Db, ids: seq<Id>, input: PassInput, actor: string)
    requires SoundTables(first.t) && Distinct(ids)
    requires AllInCooldown(first.t, ids)
    requires forall id :: AtOrBefore(input.now, input.accountReading(id).now)
    ensures Progress(first, ReviveAll(first, ids, input, actor), ids, input.now)
  {
    if ids != [] {
      var n := |ids| - 1;
      var db, id := ReviveAll(first, ids[..n], input, actor), ids[n];
      DistinctPrefix(ids);
      ReviveAllProgress(first, ids[..n], input, actor);
      SameButHealthKeepsSound(first.t, db.t);
      assert AccountProgress(first.t, db.t, ids[..n], id);
      ReviveHasEffect(db, id, input, actor);
      ProgressStep(first, db, ReviveAll(first, ids, input, actor), ids[..n], id,
                   FirstCandidate(db.t, input.probeOrder, id), Revived(db.t, id, input), input, actor);
    }
  }

  lemma {:induction false} ReviveAllWalks(start: Db, first: Db, ids: seq<Id>, input: PassInput, actor: string,
                                          x: Entity, path: seq<Move>)
    returns (longer: seq<Move>)
    requires Walked(start, first, x, path)
    ensures Walked(start, ReviveAll(first, ids, input, actor), x, longer)
    ensures x.AccountRef? && x.id !in ids ==> longer == path
  {
    longer := path;
    if ids != [] {
      var n := |ids| - 1;
      longer := ReviveAllWalks(start, first, ids[..n], input, actor, x, path);
      longer := ReviveWalks(start, ReviveAll(first, ids[..n], input, actor), ids[n], input, actor, x, longer);
      assert ids == ids[..n] + [ids[n]];
    }
  }

  /** An expired account's own walk through the second phase has exactly two moves. */
  lemma {:induction false} ReviveAllTwoMoves(start: Db, first: Db, ids: seq<Id>, input: PassInput, actor: string,
                                             a: Id, path: seq<Move>)
    returns (next: Status)
    requires Walked(start, first, AccountRef(a), path) && a in ids
    requires SoundTables(first.t) && Distinct(ids)
    requires AllInCooldown(first.t, ids)
    requires forall id :: AtOrBefore(input.now, input.accountReading(id).now)
    ensures Walked(start, ReviveAll(first, ids, input, actor), AccountRef(a),
                   path + [(Cooldown, Probing)] + [(Probing, next)])
  {
    var n := |ids| - 1;
    var before := ReviveAll(first, ids[..n], input, actor);
    DistinctPrefix(ids);
    if a == ids[n] {
      ReviveAllProgress(first, ids[..n], input, actor);
      SameButHealthKeepsSound(first.t, before.t);
      var mid := ReviveAllWalks(start, first, ids[..n], input, actor, AccountRef(a), path);
      assert AccountProgress(first.t, before.t, ids[..n], a);
      ReviveTwoMoves(start, before, a, input, actor, mid);
      next := Revived(before.t, a, input);
    } else {
      next := ReviveAllTwoMoves(start, first, ids[..n], input, actor, a, path);
      var _ := ReviveWalks(start, before, ids[n], input, actor, AccountRef(a),
                           path + [(Cooldown, Probing)] + [(Probing, next)]);
    }
  }

  // ---------- The pass ----------

  /** After the first phase: nothing expired among the endpoints, nothing else touched. */
  predicate FirstPhaseDone(db: Db, first: Db, now: Clock) {
    && Frame(db, first) && SoundTables(first.t) && first.t.accounts == db.t.accounts
    && (forall e :: e in db.t.endpoints ==> EndpointCleared(db.t, first.t, e, now))
  }

  predicate EndpointCleared(s: Tables, t: Tables, e: Id, now: Clock) {
    && e in s.endpoints && e in t.endpoints
    && !Expired(t.endpoints[e].health, now)
    && (!Expired(s.endpoints[e].health, now) ==> t.endpoints[e].health == s.endpoints[e].health)
  }

  lemma PhaseClears(db: Db, first: Db, ids: seq<Id>, input: PassInput, actor: string, e: Id)
    requires PhaseEffect(db, first, ids, input, actor) && e in db.t.endpoints
    requires e in ids <==> Expired(db.t.endpoints[e].health, input.now)
    requires AtOrBefore(input.now, input.endpointReading(e).now)
    ensures EndpointCleared(db.t, first.t, e, input.now)
  {
    assert Exists(db.t, EndpointRef(e)) && Exists(first.t, EndpointRef(e));
    assert HealthOf(first.t, EndpointRef(e)) == PhaseHealth(db.t, EndpointRef(e), ids, input, actor);
    ProbedNotExpired(db.t.endpoints[e].health, input.endpointReading(e), actor, input.now);
  }

  lemma PhaseKeepsAccounts(db: Db, first: Db, ids: seq<Id>, input: PassInput, actor: string)
    requires PhaseEffect(db, first, ids, input, actor)
    ensures first.t.accounts == db.t.accounts
  {
    forall a | a in db.t.accounts ensures a in first.t.accounts && first.t.accounts[a] == db.t.accounts[a] {
      assert Exists(db.t, AccountRef(a)) && Exists(first.t, AccountRef(a));
      assert HealthOf(first.t, AccountRef(a)) == PhaseHealth(db.t, AccountRef(a), ids, input, actor);
    }
  }

  lemma FirstPhase(db: Db, input: PassInput, actor: string)
    requires SoundTables(db.t) && Proper(db.t, input)
    ensures FirstPhaseDone(db, ProbeAll(db, ExpiredEndpoints(db.t, input.endpointOrder, input.now), input, actor),
                           input.now)
  {
    var ids := ExpiredEndpoints(db.t, input.endpointOrder, input.now);
    ExpiredEndpointsMeaning(db.t, input.endpointOrder, input.now);
    var first := ProbeAll(db, ids, input, actor);
    ProbeAllEffect(db, ids, input, actor);
    SameButHealthKeepsSound(db.t, first.t);
    PhaseKeepsAccounts(db, first, ids, input, actor);
    forall e | e in db.t.endpoints ensures EndpointCleared(db.t, first.t, e, input.now) {
      assert e in db.t.endpoints.Keys;
      PhaseClears(db, first, ids, input, actor, e);
    }
  }

  lemma SecondPhase(db: Db, input: PassInput, actor: string)
    requires SoundTables(db.t) && Proper(db.t, input)
    ensures var first := ProbeAll(db, ExpiredEndpoints(db.t, input.endpointOrder, input.now), input, actor);
            var ids := ExpiredAccounts(first.t, input.accountOrder, input.now);
            && FirstPhaseDone(db, first, input.now) && Distinct(ids) && AllInCooldown(first.t, ids)
            && (forall a :: a in ids <==> a in db.t.accounts && Expired(db.t.accounts[a].health, input.now))
            && Progress(first, ReconcileCooldowns(db, input, actor), ids, input.now)
  {
    FirstPhase(db, input, actor);
    var first := ProbeAll(db, ExpiredEndpoints(db.t, input.endpointOrder, input.now), input, actor);
    ExpiredAccountsMeaning(first.t, input.accountOrder, input.now);
    assert forall a :: a in db.t.accounts <==> a in db.t.accounts.Keys;
    ReviveAllProgress(first, ExpiredAccounts(first.t, input.accountOrder, input.now), input, actor);
  }

  /** What the pass does to one entity: an elapsed or NULL cooldown is over; an unexpired one,
      and `disabled`, is as before; an account that was not expired is as before, and one that
      was is degraded, or active with an active endpoint of its own. */
  predicate Cleared(s: Tables, t: Tables, x: Entity, now: Clock) {
    && Exists(s, x) && Exists(t, x)
    && var was, h := HealthOf(s, x), HealthOf(t, x);
       && (h.status == Cooldown ==> h.until.Some? && Before(now, h.until.value))
       && (was.status == Disabled || (was.status == Cooldown && !Expired(was, now)) ==> h == was)
       && (x.AccountRef? ==> if Expired(was, now) then Settled(t, x.id) else h == was)
  }

  lemma NotExpiredMeaning(h: Health, now: Clock)
    ensures h.status == Cooldown && !Expired(h, now) <==>
            h.status == Cooldown && h.until.Some? && Before(now, h.until.value)
  {
    if h.until.Some? {
      IsoOrderIsChronological(h.until.value, now);
    }
  }

  lemma ClearedStep(db: Db, first: Db, after: Db, ids: seq<Id>, now: Clock, x: Entity)
    requires FirstPhaseDone(db, first, now) && Progress(first, after, ids, now) && Exists(db.t, x)
    requires forall a :: a in ids <==> a in db.t.accounts && Expired(db.t.accounts[a].health, now)
    ensures Cleared(db.t, after.t, x, now)
  {
    match x
    case AccountRef(a) =>
      assert AccountProgress(first.t, after.t, ids, a);
      NotExpiredMeaning(after.t.accounts[a].health, now);
    case EndpointRef(e) =>
      assert EndpointCleared(db.t, first.t, e, now) && EndpointProgress(first.t, after.t, ids, e, now);
      NotExpiredMeaning(after.t.endpoints[e].health, now);
  }

  /** One pass clears every entity of the database, and changes nothing but health columns. */
  lemma PassClearsExpired(db: Db, input: PassInput, actor: string)
    requires SoundTables(db.t) && Proper(db.t, input)
    ensures Frame(db, ReconcileCooldowns(db, input, actor))
    ensures forall x :: Exists(db.t, x) ==> Cleared(db.t, ReconcileCooldowns(db, input, actor).t, x, input.now)
  {
    var first := ProbeAll(db, ExpiredEndpoints(db.t, input.endpointOrder, input.now), input, actor);
    var ids := ExpiredAccounts(first.t, input.accountOrder, input.now);
    var after := ReconcileCooldowns(db, input, actor);
    SecondPhase(db, input, actor);
    Ingestion.SameButHealthTransitive(db.t, first.t, after.t);
    forall x | Exists(db.t, x) ensures Cleared(db.t, after.t, x, input.now) {
      ClearedStep(db, first, after, ids, input.now, x);
    }
  }

  lemma AccountsUntouchedByFirstPhase(db: Db, input: PassInput, actor: string, a: Id)
    requires a in db.t.accounts
    ensures Walked(db, ProbeAll(db, ExpiredEndpoints(db.t, input.endpointOrder, input.now), input, actor),
                   AccountRef(a), [])
  {
    NoMovesYet(db, AccountRef(a));
    var _ := ProbeAllWalks(db, db, ExpiredEndpoints(db.t, input.endpointOrder, input.now), input, actor, AccountRef(a),
                           []);
  }

  lemma WalkEndsAtStatus(start: Db, db: Db, x: Entity, path: seq<Move>, last: Move)
    requires Walked(start, db, x, path + [last])
    ensures HealthOf(db.t, x).status == last.1
  {
  }

  /** During a pass an expired account is logged as `cooldown -> probe -> active or degraded`,
      in its incidents and in its audit records alike. */
  lemma PassLogsExpiredAccount(db: Db, input: PassInput, actor: string, a: Id)
    requires SoundTables(db.t) && Proper(db.t, input)
    requires a in db.t.accounts && Expired(db.t.accounts[a].health, input.now)
    ensures var after, x := ReconcileCooldowns(db, input, actor), AccountRef(a);
            && Exists(after.t, x)
            && Walked(db, after, x, [(Cooldown, Probing)] + [(Probing, HealthOf(after.t, x).status)])
  {
    var x := AccountRef(a);
    var expired := ExpiredEndpoints(db.t, input.endpointOrder, input.now);
    var first := ProbeAll(db, expired, input, actor);
    SecondPhase(db, input, actor);
    AccountsUntouchedByFirstPhase(db, input, actor, a);
    var next := ReviveAllTwoMoves(db, first, ExpiredAccounts(first.t, input.accountOrder, input.now), input, actor, a,
                                  []);
    assert [] + [(Cooldown, Probing)] == [(Cooldown, Probing)];
    WalkEndsAtStatus(db, ReconcileCooldowns(db, input, actor), x, [(Cooldown, Probing)], (Probing, next));
  }

  /** An account that was not expired is not logged at all. */
  lemma PassLogsNoOtherAccount(db: Db, input: PassInput, actor: string, a: Id)
    requires SoundTables(db.t) && Proper(db.t, input)
    requires a in db.t.accounts && !Expired(db.t.accounts[a].health, input.now)
    ensures Walked(db, ReconcileCooldowns(db, input, actor), AccountRef(a), [])
  {
    var x := AccountRef(a);
    var expired := ExpiredEndpoints(db.t, input.endpointOrder, input.now);
    var first := ProbeAll(db, expired, input, actor);
    SecondPhase(db, input, actor);
    AccountsUntouchedByFirstPhase(db, input, actor, a);
    var _ := ReviveAllWalks(db, first, ExpiredAccounts(first.t, input.accountOrder, input.now), input, actor, x, []);
  }
}
