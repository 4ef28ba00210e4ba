/**
 The cooldown pass in full: how every endpoint and every account ends, column by column, from the
 columns before and the probe readings.
 */
module CooldownExact {
  import opened Prelude
  import opened IsoTime
  import opened Schema
  import opened Store
  import opened StateMachine
  import opened Probe
  import opened CooldownPass
  import Ingestion

  /** In cooldown, with a NULL timer or one that has elapsed. */
  predicate Due(h: Health, now: Clock) {
    h.status == Cooldown && (h.until == None || Micros(h.until.value) <= Micros(now))
  }

  lemma DueIffExpired(h: Health, now: Clock)
    ensures Due(h, now) <==> Expired(h, now)
  {
    if h.until.Some? { IsoOrderIsChronological(h.until.value, now); }
  }

  lemma ProbedColumns(h: Health, r: Reading, actor: string)
    ensures AfterProbe(r, h, Probed(h, r, actor))
  {
  }

  /** A probe writes exactly its endpoint's columns, as its outcome says. */
  lemma ProbeColumns(db: Db, id: Id, actor: string, r: Reading)
    requires Probeable(db.t, id)
    ensures var after := ProbeEndpoint(db, id, actor, r).t;
            && SameButHealth(db.t, after) && id in after.endpoints
            && AfterProbe(r, db.t.endpoints[id].health, after.endpoints[id].health)
            && (forall x :: Exists(db.t, x) && x != EndpointRef(id) ==>
                  Exists(after, x) && HealthOf(after, x) == HealthOf(db.t, x))
  {
    var after := ProbeEndpoint(db, id, actor, r).t;
    ProbeEffect(db, id, actor, r);
    ProbedColumns(db.t.endpoints[id].health, r, actor);
    assert Exists(after, EndpointRef(id)) && HealthOf(after, EndpointRef(id)) == after.endpoints[id].health;
  }

  // ---------- The second phase ----------

  /** Where each entity is after the accounts in `done` have been handled. */
  function RevivedHealth(t: Tables, x: Entity, done: seq<Id>, input: PassInput, actor: string): Health
    requires Exists(t, x)
  {
    match x
    case AccountRef(a) =>
      if a in done then EndHealth(t.accounts[a].health, Revived(t, a, input)) else t.accounts[a].health
    case EndpointRef(e) =>
      var a, h := t.endpoints[e].account, t.endpoints[e].health;
      if a in done && FirstCandidate(t, input.probeOrder, a) == Some(e) then Probed(h, input.accountReading(a), actor)
      else h
  }

  predicate SameEndpointsOf(s: Tables, t: Tables, account: Id) {
    && s.endpoints.Keys == t.endpoints.Keys
    && (forall e :: e in s.endpoints ==> t.endpoints[e].account == s.endpoints[e].account)
    && (forall e :: e in s.endpoints && s.endpoints[e].account == account ==> t.endpoints[e] == s.endpoints[e])
  }

  lemma {:induction false} SamePick(s: Tables, t: Tables, order: seq<Id>, account: Id)
    requires SameEndpointsOf(s, t, account)
    ensures FirstCandidate(s, order, account) == FirstCandidate(t, order, account)
  {
    if order != [] {
      assert order[0] in s.endpoints <==> order[0] in t.endpoints by { assert s.endpoints.Keys == t.endpoints.Keys; }
      SamePick(s, t, order[1..], account);
    }
  }

  ghost predicate RevivedSoFar(first: Db, db: Db, done: seq<Id>, input: PassInput, actor: string) {
    && SameButHealth(first.t, db.t)
    && (forall x :: Exists(db.t, x) <==> Exists(first.t, x))
    && (forall x :: Exists(first.t, x) ==> HealthOf(db.t, x) == RevivedHealth(first.t, x, done, input, actor))
  }

  lemma PickUnchanged(first: Db, db: Db, done: seq<Id>, id: Id, input: PassInput, actor: string)
    requires RevivedSoFar(first, db, done, input, actor) && id !in done
    ensures FirstCandidate(db.t, input.probeOrder, id) == FirstCandidate(first.t, input.probeOrder, id)
    ensures Revived(db.t, id, input) == Revived(first.t, id, input)
  {
    forall e | e in first.t.endpoints && first.t.endpoints[e].account == id
      ensures e in db.t.endpoints && db.t.endpoints[e] == first.t.endpoints[e]
    {
      assert Exists(first.t, EndpointRef(e)) && Exists(db.t, EndpointRef(e));
      assert HealthOf(db.t, EndpointRef(e)) == first.t.endpoints[e].health;
    }
    SamePick(first.t, db.t, input.probeOrder, id);
    FirstCandidateColumns(first.t, input.probeOrder, id);
    SameProbeable(first.t, db.t);
  }

  lemma SameProbeable(s: Tables, t: Tables)
    requires SameButHealth(s, t)
    ensures forall e :: Probeable(s, e) <==> Probeable(t, e)
  {
    assert forall e :: e in s.endpoints <==> e in s.endpoints.Keys;
    assert forall e :: e in t.endpoints <==> e in t.endpoints.Keys;
    assert forall a :: a in s.accounts <==> a in s.accounts.Keys;
    assert forall a :: a in t.accounts <==> a in t.accounts.Keys;
  }

  lemma ReviveStep(first: Db, db: Db, after: Db, done: seq<Id>, id: Id, input: PassInput, actor: string)
    requires RevivedSoFar(first, db, done, input, actor) && id !in done && Exists(first.t, AccountRef(id))
    requires ReviveEffect(db, after, id, FirstCandidate(db.t, input.probeOrder, id), Revived(db.t, id, input), input,
                          actor)
    ensures RevivedSoFar(first, after, done + [id], input, actor)
  {
    PickUnchanged(first, db, done, id, input, actor);
    Ingestion.SameButHealthTransitive(first.t, db.t, after.t);
    var pick := FirstCandidate(first.t, input.probeOrder, id);
    FirstCandidateColumns(first.t, input.probeOrder, id);
    forall x | Exists(first.t, x)
      ensures HealthOf(after.t, x) == RevivedHealth(first.t, x, done + [id], input, actor)
    {
      assert HealthOf(db.t, x) == RevivedHealth(first.t, x, done, input, actor);
    }
  }

  lemma {:induction false} ReviveAllExact(first: Db, ids: seq<Id>, input: PassInput, actor: string)
    requires SoundTables(first.t) && Distinct(ids) && AllInCooldown(first.t, ids)
    ensures RevivedSoFar(first, ReviveAll(first, ids, input, actor), ids, input, actor)
  {
    if ids != [] {
      var n := |ids| - 1;
      var db := ReviveAll(first, ids[..n], input, actor);
      DistinctPrefix(ids);
      ReviveAllExact(first, ids[..n], input, actor);
      SameButHealthKeepsSound(first.t, db.t);
      assert Exists(first.t, AccountRef(ids[n])) && Exists(db.t, AccountRef(ids[n]));
      assert HealthOf(db.t, AccountRef(ids[n])) == first.t.accounts[ids[n]].health;
      ReviveHasEffect(db, ids[n], input, actor);
      ReviveStep(first, db, ReviveAll(first, ids, input, actor), ids[..n], ids[n], input, actor);
    }
  }

  // ---------- The pass ----------

  /** The first phase probes exactly the endpoints that are due. */
  predicate EndpointProbed(s: Tables, mid: Tables, e: Id, input: PassInput) {
    && e in s.endpoints && e in mid.endpoints
    && var h, k := s.endpoints[e].health, mid.endpoints[e].health;
       if Due(h, input.now) then AfterProbe(input.endpointReading(e), h, k) else k == h
  }

  /** The second phase probes exactly the first open endpoint of each account that is due. */
  predicate EndpointReprobed(mid: Tables, t: Tables, e: Id, input: PassInput) {
    && e in mid.endpoints && e in t.endpoints && mid.endpoints[e].account in mid.accounts
    && var a, h, k := mid.endpoints[e].account, mid.endpoints[e].health, t.endpoints[e].health;
       if Due(mid.accounts[a].health, input.now) && FirstOpen(mid, input.probeOrder, e, a)
       then AfterProbe(input.accountReading(a), h, k) else k == h
  }

  /** An account that is due ends active and clean exactly if that endpoint's probe passes, and degraded
      otherwise; every other account is untouched. */
  predicate AccountEnds(s: Tables, mid: Tables, t: Tables, a: Id, input: PassInput) {
    && a in s.accounts && a in t.accounts
    && var h, k := s.accounts[a].health, t.accounts[a].health;
       if !Due(h, input.now) then k == h
       else if (exists e :: e in mid.endpoints && FirstOpen(mid, input.probeOrder, e, a))
               && input.accountReading(a).outcome == Passed
       then k == Health(Active, None, 0)
       else k.status == Degraded && k.until == h.until && k.failures == h.failures
  }

  lemma FirstPhaseExact(db: Db, input: PassInput, actor: string)
    requires SoundTables(db.t) && Proper(db.t, input)
    ensures var mid := ProbeAll(db, ExpiredEndpoints(db.t, input.endpointOrder, input.now), input, actor).t;
            && SameButHealth(db.t, mid) && SoundTables(mid) && mid.accounts == db.t.accounts
            && (forall e :: e in db.t.endpoints ==> EndpointProbed(db.t, mid, e, input))
  {
    var ids := ExpiredEndpoints(db.t, input.endpointOrder, input.now);
    var mid := ProbeAll(db, ids, input, actor).t;
    ExpiredEndpointsMeaning(db.t, input.endpointOrder, input.now);
    ProbeAllEffect(db, ids, input, actor);
    SecondPhase(db, input, actor);
    forall e | e in db.t.endpoints ensures EndpointProbed(db.t, mid, e, input) {
      assert Exists(db.t, EndpointRef(e)) && Exists(mid, EndpointRef(e));
      DueIffExpired(db.t.endpoints[e].health, input.now);
      ProbedColumns(db.t.endpoints[e].health, input.endpointReading(e), actor);
      assert HealthOf(mid, EndpointRef(e)) == PhaseHealth(db.t, EndpointRef(e), ids, input, actor);
    }
  }

  lemma PickIsFirstOpen(t: Tables, order: seq<Id>, a: Id, e: Id)
    ensures FirstCandidate(t, order, a) == Some(e) <==> FirstOpen(t, order, e, a)
  {
    FirstCandidateColumns(t, order, a);
    var pick := FirstCandidate(t, order, a);
    if FirstOpen(t, order, e, a) {
      if pick.Some? { FirstOpenIsUnique(t, order, pick.value, e, a); }
    }
  }

  lemma RevivedMeaning(t: Tables, a: Id, input: PassInput)
    requires SoundTables(t)
    ensures Revived(t, a, input) == Active || Revived(t, a, input) == Degraded
    ensures Revived(t, a, input) == Active
       <==> && (exists e :: e in t.endpoints && FirstOpen(t, input.probeOrder, e, a))
            && input.accountReading(a).outcome == Passed
  {
    var pick := FirstCandidate(t, input.probeOrder, a);
    FirstCandidateColumns(t, input.probeOrder, a);
    if exists e :: e in t.endpoints && FirstOpen(t, input.probeOrder, e, a) {
      var e :| e in t.endpoints && FirstOpen(t, input.probeOrder, e, a);
      PickIsFirstOpen(t, input.probeOrder, a, e);
    }
  }

  lemma SecondPhaseAccount(s: Tables, first: Db, after: Db, ids: seq<Id>, a: Id, input: PassInput, actor: string)
    requires SoundTables(first.t) && first.t.accounts == s.accounts && a in s.accounts
    requires RevivedSoFar(first, after, ids, input, actor)
    requires a in ids <==> Expired(s.accounts[a].health, input.now)
    ensures AccountEnds(s, first.t, after.t, a, input)
  {
    assert Exists(first.t, AccountRef(a)) && Exists(after.t, AccountRef(a));
    assert HealthOf(after.t, AccountRef(a)) == RevivedHealth(first.t, AccountRef(a), ids, input, actor);
    DueIffExpired(s.accounts[a].health, input.now);
    RevivedMeaning(first.t, a, input);
  }

  lemma SecondPhaseEndpoint(first: Db, after: Db, ids: seq<Id>, e: Id, input: PassInput, actor: string)
    requires SoundTables(first.t) && e in first.t.endpoints && RevivedSoFar(first, after, ids, input, actor)
    requires var a := first.t.endpoints[e].account;
             a in first.t.accounts && (a in ids <==> Expired(first.t.accounts[a].health, input.now))
    ensures EndpointReprobed(first.t, after.t, e, input)
  {
    var a := first.t.endpoints[e].account;
    assert Exists(first.t, EndpointRef(e)) && Exists(after.t, EndpointRef(e));
    assert HealthOf(after.t, EndpointRef(e)) == RevivedHealth(first.t, EndpointRef(e), ids, input, actor);
    DueIffExpired(first.t.accounts[a].health, input.now);
    PickIsFirstOpen(first.t, input.probeOrder, a, e);
    ProbedColumns(first.t.endpoints[e].health, input.accountReading(a), actor);
  }

  /** The whole pass, exactly: `mid` is the registry between its two phases. */
  lemma PassIsExact(db: Db, input: PassInput, actor: string) returns (mid: Tables)
    requires SoundTables(db.t) && Proper(db.t, input)
    ensures var after := ReconcileCooldowns(db, input, actor).t;
            && SameButHealth(db.t, mid) && SameButHealth(mid, after)
            && (forall e :: e in db.t.endpoints ==> EndpointProbed(db.t, mid, e, input))
            && (forall e :: e in db.t.endpoints ==> EndpointReprobed(mid, after, e, input))
            && (forall a :: a in db.t.accounts ==> AccountEnds(db.t, mid, after, a, input))
  {
    var first := ProbeAll(db, ExpiredEndpoints(db.t, input.endpointOrder, input.now), input, actor);
    var ids := ExpiredAccounts(first.t, input.accountOrder, input.now);
    var after := ReconcileCooldowns(db, input, actor);
    mid := first.t;
    FirstPhaseExact(db, input, actor);
    SecondPhase(db, input, actor);
    ReviveAllExact(first, ids, input, actor);
    forall a | a in db.t.accounts ensures AccountEnds(db.t, mid, after.t, a, input) {
      SecondPhaseAccount(db.t, first, after, ids, a, input, actor);
    }
    forall e | e in db.t.endpoints ensures EndpointReprobed(mid, after.t, e, input) {
      assert e in mid.endpoints by { assert mid.endpoints.Keys == db.t.endpoints.Keys; }
      SecondPhaseEndpoint(first, after, ids, e, input, actor);
    }
  }
}
