/**
 Active probes and the cooldown reconciler. What a probe of the upstream returns is an
 oracle; everything the engine does with the answer is modelled.
 */
module Probe {
  import opened Prelude
  import opened IsoTime
  import opened Schema
  import opened Connection
  import opened StateMachine

  /** How a probe turns out: the secret cannot be resolved, HTTP 200 (or a mock key),
      or an HTTP or connection error. */
  datatype ProbeOutcome = SecretFailure | Passed | Rejected(error: Error)

  datatype Reading = Reading(outcome: ProbeOutcome, now: Clock)

  /** One pass: the clock reading that decides expiry, the row orders of its three queries,
      and the oracle for the probes of its two phases. */
  datatype PassInput = PassInput(
    now: Clock,
    endpointOrder: seq<Id>,
    accountOrder: seq<Id>,
    probeOrder: seq<Id>,
    endpointReading: Id -> Reading,
    accountReading: Id -> Reading)

  // ---------- Specification ----------

  predicate Probeable(t: Tables, id: Id) {
    && id in t.endpoints
    && t.endpoints[id].account in t.accounts
    && t.endpoints[id].model in t.models
  }

  predicate ProbePasses(t: Tables, id: Id, r: Reading) {
    Probeable(t, id) && r.outcome == Passed
  }

  function ProbeEndpoint(db: Db, id: Id, actor: string, r: Reading): Db {
    if !Probeable(db.t, id) then db
    else
      var e := EndpointRef(id);
      match r.outcome
      case SecretFailure => Handle(db, e, Fault(AuthError), actor, r.now)
      case Passed =>
        var probing := Transition(db, e, Probing, actor, r.now);
        Handle(Transition(probing, e, Recovered, actor, r.now), e, Good, actor, r.now)
      case Rejected(error) =>
        Handle(Transition(db, e, Probing, actor, r.now), e, Fault(Classify(error)), actor, r.now)
  }

  /** The WHERE clause: in cooldown with a NULL timer or one whose text is not above now's. */
  predicate Expired(h: Health, now: Clock) {
    h.status == Cooldown && (h.until.None? || TextLe(Iso(h.until.value), Iso(now)))
  }

  function ExpiredEndpoints(t: Tables, order: seq<Id>, now: Clock): seq<Id> {
    if order == [] then []
    else
      var id := order[|order| - 1];
      ExpiredEndpoints(t, order[..|order| - 1], now)
      + (if id in t.endpoints && Expired(t.endpoints[id].health, now) then [id] else [])
  }

  function ExpiredAccounts(t: Tables, order: seq<Id>, now: Clock): seq<Id> {
    if order == [] then []
    else
      var id := order[|order| - 1];
      ExpiredAccounts(t, order[..|order| - 1], now)
      + (if id in t.accounts && Expired(t.accounts[id].health, now) then [id] else [])
  }

  predicate Candidate(t: Tables, id: Id, account: Id) {
    && id in t.endpoints && t.endpoints[id].account == account
    && t.endpoints[id].health.status != Disabled
    && t.endpoints[id].health.status != Cooldown
    && t.endpoints[id].health.status != Probing
  }

  /** `LIMIT 1`: the first matching row in the query's order. */
  function FirstCandidate(t: Tables, order: seq<Id>, account: Id): (r: Option<Id>)
    ensures r.Some? ==> Candidate(t, r.value, account)
    ensures r.None? ==> forall id :: id in order ==> !Candidate(t, id, account)
  {
    if order == [] then None
    else if Candidate(t, order[0], account) then Some(order[0])
    else FirstCandidate(t, order[1..], account)
  }

  /** An endpoint of the account that is active, inactive, degraded or recovered. */
  predicate Open(t: Tables, id: Id, account: Id) {
    && id in t.endpoints && t.endpoints[id].account == account
    && t.endpoints[id].health.status in {Active, Inactive, Degraded, Recovered}
  }

  /** The first such endpoint in query order. */
  predicate FirstOpen(t: Tables, order: seq<Id>, id: Id, account: Id) {
    exists i :: 0 <= i < |order| && order[i] == id && Open(t, id, account)
                && forall j :: 0 <= j < i ==> !Open(t, order[j], account)
  }

  lemma {:induction false} FirstCandidateColumns(t: Tables, order: seq<Id>, account: Id)
    ensures var r := FirstCandidate(t, order, account);
            && (r.None? ==> forall i :: 0 <= i < |order| ==> !Open(t, order[i], account))
            && (r.Some? ==> FirstOpen(t, order, r.value, account))
  {
    if order != [] && !Candidate(t, order[0], account) {
      FirstCandidateColumns(t, order[1..], account);
      var r := FirstCandidate(t, order[1..], account);
      if r.Some? {
        var i :| 0 <= i < |order[1..]| && order[1..][i] == r.value && Open(t, r.value, account)
                 && forall j :: 0 <= j < i ==> !Open(t, order[1..][j], account);
        forall j | 0 <= j < i + 1 ensures !Open(t, order[j], account) {
          if j > 0 { assert order[j] == order[1..][j - 1]; }
        }
        assert order[i + 1] == r.value;
      } else {
        forall i | 0 <= i < |order| ensures !Open(t, order[i], account) {
          if i > 0 { assert order[i] == order[1..][i - 1]; }
        }
      }
    } else if order != [] {
      assert order[0] == FirstCandidate(t, order, account).value;
    }
  }

  lemma FirstOpenIsUnique(t: Tables, order: seq<Id>, e: Id, f: Id, account: Id)
    requires FirstOpen(t, order, e, account) && FirstOpen(t, order, f, account)
    ensures e == f
  {
    var i :| 0 <= i < |order| && order[i] == e && Open(t, e, account)
             && forall j :: 0 <= j < i ==> !Open(t, order[j], account);
    var k :| 0 <= k < |order| && order[k] == f && Open(t, f, account)
             && forall j :: 0 <= j < k ==> !Open(t, order[j], account);
    assert !(i < k) && !(k < i);
  }

  /** What a probe does to the three columns of its endpoint: a secret that cannot be resolved disables
      it, a pass makes it active and clean, and an error counts against it in status `probe`. */
  predicate AfterProbe(r: Reading, h: Health, k: Health) {
    match r.outcome
    case SecretFailure => k.status == Disabled && k.until == h.until && k.failures == h.failures
    case Passed => k == Health(Active, None, 0)
    case Rejected(error) => AfterFailure(error, h.(status := Probing), k, r.now)
  }

  function ProbeAll(db: Db, ids: seq<Id>, input: PassInput, actor: string): Db {
    if ids == [] then db
    else
      var id := ids[|ids| - 1];
      ProbeEndpoint(ProbeAll(db, ids[..|ids| - 1], input, actor), id, actor, input.endpointReading(id))
  }

  function ReviveAccount(db: Db, id: Id, input: PassInput, actor: string): Db {
    var probing := Transition(db, AccountRef(id), Probing, actor, input.now);
    var pick := FirstCandidate(probing.t, input.probeOrder, id);
    if pick.None? then Transition(probing, AccountRef(id), Degraded, actor, input.now)
    else
      var reading := input.accountReading(id);
      var probed := ProbeEndpoint(probing, pick.value, actor, reading);
      Transition(probed, AccountRef(id), if ProbePasses(probing.t, pick.value, reading) then Active else Degraded,
                 actor, input.now)
  }

  function ReviveAll(db: Db, ids: seq<Id>, input: PassInput, actor: string): Db {
    if ids == [] then db
    else ReviveAccount(ReviveAll(db, ids[..|ids| - 1], input, actor), ids[|ids| - 1], input, actor)
  }

  function ReconcileCooldowns(db: Db, input: PassInput, actor: string): Db {
    var first := ProbeAll(db, ExpiredEndpoints(db.t, input.endpointOrder, input.now), input, actor);
    ReviveAll(first, ExpiredAccounts(first.t, input.accountOrder, input.now), input, actor)
  }

  // ---------- The procedures ----------

  method RunProbe(db: Database, id: Id, actor: string, r: Reading) returns (ok: bool)
    modifies db
    ensures db.State() == ProbeEndpoint(old(db.State()), id, actor, r)
    ensures ok == ProbePasses(old(db.Registry()), id, r)
  {
    if id !in db.endpoints { return false; }
    var endpoint := db.endpoints[id];
    if endpoint.account !in db.accounts || endpoint.model !in db.models { return false; }
    if r.outcome.SecretFailure? {
      HandleEndpointFailure(db, id, Error(401, false, false), actor, r.now);
      return false;
    }
    TransitionEndpointState(db, id, Probing, actor, r.now);
    if r.outcome.Passed? {
      TransitionEndpointState(db, id, Recovered, actor, r.now);
      HandleEndpointSuccess(db, id, actor, r.now);
      return true;
    }
    HandleEndpointFailure(db, id, r.outcome.error, actor, r.now);
    return false;
  }

  method RunProbes(db: Database, ids: seq<Id>, input: PassInput, actor: string)
    modifies db
    ensures db.State() == ProbeAll(old(db.State()), ids, input, actor)
  {
    for i := 0 to |ids|
      invariant db.State() == ProbeAll(old(db.State()), ids[..i], input, actor)
    {
      assert ids[..i + 1][..i] == ids[..i];
      var _ := RunProbe(db, ids[i], actor, input.endpointReading(ids[i]));
    }
    assert ids[..|ids|] == ids;
  }

  method RunRevive(db: Database, id: Id, input: PassInput, actor: string)
    modifies db
    ensures db.State() == ReviveAccount(old(db.State()), id, input, actor)
  {
    TransitionAccountState(db, id, Probing, actor, input.now);
    var row := FirstCandidate(db.Registry(), input.probeOrder, id);
    if row.Some? {
      var passed := RunProbe(db, row.value, actor, input.accountReading(id));
      if passed {
        TransitionAccountState(db, id, Active, actor, input.now);
      } else {
        TransitionAccountState(db, id, Degraded, actor, input.now);
      }
    } else {
      TransitionAccountState(db, id, Degraded, actor, input.now);
    }
  }

  method RunReconcileCooldowns(db: Database, input: PassInput, actor: string)
    modifies db
    ensures db.State() == ReconcileCooldowns(old(db.State()), input, actor)
  {
    var expired := ExpiredEndpoints(db.Registry(), input.endpointOrder, input.now);
    RunProbes(db, expired, input, actor);

    ghost var first := db.State();
    var accounts := ExpiredAccounts(db.Registry(), input.accountOrder, input.now);
    for i := 0 to |accounts|
      invariant db.State() == ReviveAll(first, accounts[..i], input, actor)
    {
      assert accounts[..i + 1][..i] == accounts[..i];
      RunRevive(db, accounts[i], input, actor);
    }
    assert accounts[..|accounts|] == accounts;
  }
}
