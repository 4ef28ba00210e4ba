/**
 How long a disabled entity stays disabled: the exact condition on callbacks, alone and in runs that
 mix them with passes and operator calls, and what an authentication failure locks.
 */
module HealthLocks {
  import opened Prelude
  import opened Schema
  import opened Store
  import opened StateMachine
  import opened Ingestion
  import opened Probe
  import opened CooldownPass
  import opened HealthRuns

  // ---------- One automaton ----------

  predicate Off(h: Health) {
    h.status == Disabled
  }

  predicate SparesDisabled(h: Health, signals: seq<Timed>) {
    && (forall s :: s in signals ==> s.signal != Fault(RateLimit))
    && SparesLock(h, signals)
  }

  /** Callbacks leave a disabled entity disabled throughout exactly when no rate limit is among
      them and their transient failures do not bring its counter to the threshold. */
  lemma {:induction false} DisabledLock(h: Health, signals: seq<Timed>)
    requires h.status == Disabled
    ensures Throughout(h, signals, Off) <==> SparesDisabled(h, signals)
  {
    if signals != [] {
      var n := |signals| - 1;
      assert signals == signals[..n] + [signals[n]];
      DisabledLock(h, signals[..n]);
      if SparesDisabled(h, signals[..n]) {
        DisabledCount(h, signals[..n]);
      }
    }
  }

  lemma {:induction false} DisabledCount(h: Health, signals: seq<Timed>)
    requires h.status == Disabled && SparesDisabled(h, signals)
    ensures Run(h, signals) == h.(failures := h.failures + Transients(signals))
  {
    if signals != [] {
      DisabledCount(h, signals[..|signals| - 1]);
    }
  }

  // ---------- Runs of batches, passes and operator calls ----------

  /** The operator call keeps `x` and does not set it to another status than disabled. */
  predicate LeavesDisabled(db: Db, call: StoreCall, actor: string, x: Entity) {
    && Exists(Apply(db, call, actor).t, x)
    && match call
       case AccountStatus(id, status) => x == AccountRef(id) ==> status == Disabled
       case EndpointStatus(id, status, _) => x == EndpointRef(id) && status.Some? ==> status.value == Disabled
       case _ => true
  }

  lemma CreateKeepsHealth(db: Db, row: Row, actor: string, x: Entity)
    requires Exists(db.t, x)
    ensures Exists(CreateRow(db, row, actor).t, x) && HealthOf(CreateRow(db, row, actor).t, x) == HealthOf(db.t, x)
  {
  }

  lemma DeleteKeepsHealth(db: Db, target: Target, actor: string, x: Entity)
    requires Exists(db.t, x) && Exists(DeleteRow(db, target, actor).t, x)
    ensures HealthOf(DeleteRow(db, target, actor).t, x) == HealthOf(db.t, x)
  {
  }

  lemma ApplyLeavesDisabled(db: Db, call: StoreCall, actor: string, x: Entity)
    requires Exists(db.t, x) && Off(HealthOf(db.t, x)) && LeavesDisabled(db, call, actor, x)
    ensures HealthOf(Apply(db, call, actor).t, x) == HealthOf(db.t, x)
  {
    match call
    case Creating(row) => CreateKeepsHealth(db, row, actor, x);
    case Deleting(target) => DeleteKeepsHealth(db, target, actor, x);
    case Patching(id, p) => PatchEffect(db, id, p, actor);
    case _ =>
  }

  lemma ApplyKeepsSoundTables(db: Db, call: StoreCall, actor: string)
    requires SoundTables(db.t)
    ensures SoundTables(Apply(db, call, actor).t)
  {
    var bare := db.(rollouts := []);
    ApplyKeepsSound(bare, call, actor);
    assert Apply(bare, call, actor).t == Apply(db, call, actor).t;
  }

  /** The queries of a pass are proper, and operator calls leave `x` disabled. */
  ghost predicate OrdinaryStep(db: Db, step: Step, x: Entity) {
    match step
    case Api(call, actor) => LeavesDisabled(db, call, actor, x)
    case Callbacks(_, _) => true
    case Pass(input, _) => Proper(db.t, input)
  }

  ghost predicate OrdinaryRun(db: Db, steps: seq<Step>, x: Entity) {
    if |steps| == 0 then true
    else
      var n := |steps| - 1;
      OrdinaryRun(db, steps[..n], x) && OrdinaryStep(Execute(db, steps[..n]), steps[n], x)
  }

  /** The signals of all batches of the run that reach `x`. */
  function RunSignals(db: Db, steps: seq<Step>, x: Entity): seq<Timed> {
    if |steps| == 0 then []
    else
      var n := |steps| - 1;
      match steps[n]
      case Callbacks(items, validating) =>
        RunSignals(db, steps[..n], x) + SignalsFor(Execute(db, steps[..n]).t, items, validating, x)
      case _ => RunSignals(db, steps[..n], x)
  }

  /** Disabled from the start on, after every step, and after every item of every batch. */
  predicate OffThroughout(db: Db, steps: seq<Step>, x: Entity) {
    if |steps| == 0 then Exists(db.t, x) && Off(HealthOf(db.t, x))
    else
      var n := |steps| - 1;
      var before, after := Execute(db, steps[..n]), Execute(db, steps);
      && OffThroughout(db, steps[..n], x)
      && Exists(before.t, x) && Exists(after.t, x) && Off(HealthOf(after.t, x))
      && (steps[n].Callbacks? ==> ThroughoutBatch(before, steps[n].items, steps[n].validating, x, Off))
  }

  lemma {:induction false} RunAppend(h: Health, a: seq<Timed>, b: seq<Timed>)
    ensures Run(h, a + b) == Run(Run(h, a), b)
    ensures Throughout(h, a + b, Off) <==> Throughout(h, a, Off) && Throughout(Run(h, a), b, Off)
  {
    HoldsAtEnd(h, a, Off);
    if b == [] {
      assert a + b == a;
    } else {
      var n := |b| - 1;
      assert (a + b)[..|a| + n] == a + b[..n];
      RunAppend(h, a, b[..n]);
    }
  }

  lemma PassLeavesDisabled(db: Db, input: PassInput, worker: string, x: Entity)
    requires SoundTables(db.t) && Proper(db.t, input) && Exists(db.t, x) && Off(HealthOf(db.t, x))
    ensures var after := ReconcileCooldowns(db, input, worker);
            SoundTables(after.t) && Exists(after.t, x) && HealthOf(after.t, x) == HealthOf(db.t, x)
  {
    var after := ReconcileCooldowns(db, input, worker);
    PassClearsExpired(db, input, worker);
    SameButHealthKeepsSound(db.t, after.t);
    assert Cleared(db.t, after.t, x, input.now);
  }

  lemma BatchKeepsEntities(db: Db, items: seq<Item>, validating: bool, x: Entity)
    requires SoundTables(db.t) && Exists(db.t, x)
    ensures var after := Ingest(db, items, validating);
            && SoundTables(after.t) && Exists(after.t, x)
            && HealthOf(after.t, x) == Run(HealthOf(db.t, x), SignalsFor(db.t, items, validating, x))
  {
    NonInterference(db, items, validating);
    SameButHealthKeepsSound(db.t, Ingest(db, items, validating).t);
  }

  /** One more step of a run in which `x` was disabled so far. */
  lemma OffStep(db: Db, h: Health, signals: seq<Timed>, step: Step, x: Entity)
    requires SoundTables(db.t) && OrdinaryStep(db, step, x) && Exists(db.t, x)
    requires HealthOf(db.t, x) == Run(h, signals) && Throughout(h, signals, Off)
    ensures var after := Take(db, step);
            var all := if step.Callbacks? then signals + SignalsFor(db.t, step.items, step.validating, x) else signals;
            && SoundTables(after.t) && Exists(after.t, x) && HealthOf(after.t, x) == Run(h, all)
            && (Throughout(h, all, Off) <==>
                  && Off(HealthOf(after.t, x))
                  && (step.Callbacks? ==> ThroughoutBatch(db, step.items, step.validating, x, Off)))
  {
    HoldsAtEnd(h, signals, Off);
    match step
    case Api(call, actor) =>
      ApplyKeepsSoundTables(db, call, actor);
      ApplyLeavesDisabled(db, call, actor, x);
    case Callbacks(items, validating) =>
      var more := SignalsFor(db.t, items, validating, x);
      BatchKeepsEntities(db, items, validating, x);
      ThroughoutBatchMeaning(db, items, validating, x, Off);
      RunAppend(h, signals, more);
      HoldsAtEnd(Run(h, signals), more, Off);
    case Pass(input, worker) => PassLeavesDisabled(db, input, worker, x);
  }

  lemma {:induction false} OffRun(db: Db, steps: seq<Step>, x: Entity)
    requires SoundTables(db.t) && Exists(db.t, x) && Off(HealthOf(db.t, x)) && OrdinaryRun(db, steps, x)
    ensures var h, signals, after := HealthOf(db.t, x), RunSignals(db, steps, x), Execute(db, steps);
            && (OffThroughout(db, steps, x) <==> Throughout(h, signals, Off))
            && (OffThroughout(db, steps, x) ==>
                  SoundTables(after.t) && Exists(after.t, x) && HealthOf(after.t, x) == Run(h, signals))
  {
    if |steps| > 0 {
      var n := |steps| - 1;
      var h, signals := HealthOf(db.t, x), RunSignals(db, steps[..n], x);
      OffRun(db, steps[..n], x);
      if OffThroughout(db, steps[..n], x) {
        OffStep(Execute(db, steps[..n]), h, signals, steps[n], x);
      } else if steps[n].Callbacks? {
        RunAppend(h, signals,
                  SignalsFor(Execute(db, steps[..n]).t, steps[n].items, steps[n].validating, x));
      }
    }
  }

  /** In the database, over any run of batches, passes and operator calls that do not enable it: a disabled
      entity stays disabled at every point exactly if no rate limit reaches it and the transient
      failures that do leave its counter below the threshold. */
  lemma DisabledLockInDatabase(db: Db, steps: seq<Step>, x: Entity)
    requires SoundTables(db.t) && Exists(db.t, x) && Off(HealthOf(db.t, x)) && OrdinaryRun(db, steps, x)
    ensures OffThroughout(db, steps, x) <==> SparesDisabled(HealthOf(db.t, x), RunSignals(db, steps, x))
  {
    OffRun(db, steps, x);
    DisabledLock(HealthOf(db.t, x), RunSignals(db, steps, x));
  }

  // ---------- An authentication failure locks the account ----------

  /** Every item of the batch carries an endpoint id the database knows. */
  predicate KnownEndpoints(t: Tables, items: seq<Item>, validating: bool) {
    forall i :: i in items ==> Resolved(i, t, validating).endpoint.Some?
  }

  /** A step of a run under which a locked account must stay locked. */
  ghost predicate LockRespecting(db: Db, step: Step, a: Id) {
    match step
    case Api(call, actor) => LeavesDisabled(db, call, actor, AccountRef(a))
    case Callbacks(items, validating) => KnownEndpoints(db.t, items, validating)
    case Pass(input, _) => Proper(db.t, input)
  }

  ghost predicate LockRespectingRun(db: Db, steps: seq<Step>, a: Id) {
    if |steps| == 0 then true
    else
      var n := |steps| - 1;
      LockRespectingRun(db, steps[..n], a) && LockRespecting(Execute(db, steps[..n]), steps[n], a)
  }

  predicate GoodOrAuth(signals: seq<Timed>) {
    if signals == [] then true
    else
      var last := signals[|signals| - 1].signal;
      (last == Good || last == Fault(AuthError)) && GoodOrAuth(signals[..|signals| - 1])
  }

  lemma {:induction false} GoodOrAuthSpares(h: Health, signals: seq<Timed>)
    requires GoodOrAuth(signals)
    ensures SparesDisabled(h, signals) && Transients(signals) == 0
  {
    if signals != [] {
      GoodOrAuthSpares(h, signals[..|signals| - 1]);
      assert signals == signals[..|signals| - 1] + [signals[|signals| - 1]];
    }
  }

  lemma {:induction false} KnownEndpointsSpareAccounts(t: Tables, items: seq<Item>, validating: bool, a: Id)
    requires KnownEndpoints(t, items, validating)
    ensures GoodOrAuth(SignalsFor(t, items, validating, AccountRef(a)))
  {
    if items != [] {
      var n := |items| - 1;
      assert items[n] in items;
      KnownEndpointsSpareAccounts(t, items[..n], validating, a);
      var rest := SignalsFor(t, items[..n], validating, AccountRef(a));
      var all := SignalsFor(t, items, validating, AccountRef(a));
      if all != rest {
        assert all[..|all| - 1] == rest;
      }
    }
  }

  predicate IsDisabled(t: Tables, a: Id) {
    a in t.accounts && t.accounts[a].health.status == Disabled
  }

  lemma LockStep(db: Db, step: Step, a: Id)
    requires SoundTables(db.t) && LockRespecting(db, step, a)
    requires IsDisabled(db.t, a)
    ensures SoundTables(Take(db, step).t) && IsDisabled(Take(db, step).t, a)
  {
    var x := AccountRef(a);
    match step
    case Api(call, actor) =>
      ApplyKeepsSoundTables(db, call, actor);
      ApplyLeavesDisabled(db, call, actor, x);
    case Callbacks(items, validating) =>
      NonInterference(db, items, validating);
      KnownEndpointsSpareAccounts(db.t, items, validating, a);
      GoodOrAuthSpares(HealthOf(db.t, x), SignalsFor(db.t, items, validating, x));
      DisabledCount(HealthOf(db.t, x), SignalsFor(db.t, items, validating, x));
      SameButHealthKeepsSound(db.t, Take(db, step).t);
      assert Exists(Take(db, step).t, x);
    case Pass(input, worker) =>
      PassClearsExpired(db, input, worker);
      SameButHealthKeepsSound(db.t, Take(db, step).t);
      assert Exists(db.t, x);
      assert Cleared(db.t, Take(db, step).t, x, input.now);
  }

  lemma {:induction false} DisabledAccountStays(db: Db, steps: seq<Step>, a: Id)
    requires SoundTables(db.t) && LockRespectingRun(db, steps, a) && IsDisabled(db.t, a)
    ensures SoundTables(Execute(db, steps).t) && IsDisabled(Execute(db, steps).t, a)
  {
    if |steps| > 0 {
      var n := |steps| - 1;
      DisabledAccountStays(db, steps[..n], a);
      LockStep(Execute(db, steps[..n]), steps[n], a);
    }
  }

  /** An item that reports an authentication error and names the account. */
  predicate ReportsAuthFailure(item: Item, t: Tables, validating: bool, a: Id) {
    SignalOf(item.report) == Fault(AuthError) && Resolved(item, t, validating).account == Some(a)
  }

  lemma IngestKeepsRouting(db: Db, items: seq<Item>, validating: bool, item: Item, a: Id)
    requires SoundTables(db.t)
    ensures var after := Ingest(db, items, validating).t;
            SoundTables(after) && Resolved(item, after, validating) == Resolved(item, db.t, validating)
            && (a in after.accounts <==> a in db.t.accounts)
  {
    var after := Ingest(db, items, validating).t;
    NonInterference(db, items, validating);
    SameButHealthKeepsSound(db.t, after);
    SameKeysSameRouting(db.t, after, item, validating);
    assert Exists(after, AccountRef(a)) <==> Exists(db.t, AccountRef(a));
  }

  lemma ItemDisables(db: Db, item: Item, validating: bool, a: Id)
    requires a in db.t.accounts && ReportsAuthFailure(item, db.t, validating, a)
    ensures IsDisabled(IngestOne(db, item, validating).t, a)
  {
    IngestOneEffect(db, item, validating);
    var after := IngestOne(db, item, validating).t;
    assert Exists(db.t, AccountRef(a)) && Exists(after, AccountRef(a));
    assert HealthOf(after, AccountRef(a)).status == Disabled;
  }

  /** Such an item disables the account, and the rest of its batch leaves it disabled. */
  lemma AuthFailureDisables(db: Db, items: seq<Item>, k: nat, validating: bool, a: Id)
    requires SoundTables(db.t) && a in db.t.accounts && k < |items|
    requires ReportsAuthFailure(items[k], db.t, validating, a) && KnownEndpoints(db.t, items[k + 1..], validating)
    ensures SoundTables(Ingest(db, items, validating).t) && IsDisabled(Ingest(db, items, validating).t, a)
  {
    var upTo, rest := items[..k + 1], items[k + 1..];
    var hit := Ingest(db, upTo, validating);
    assert upTo[..k] == items[..k] && upTo + rest == items;
    IngestKeepsRouting(db, items[..k], validating, items[k], a);
    ItemDisables(Ingest(db, items[..k], validating), items[k], validating, a);
    forall i | i in rest ensures Resolved(i, hit.t, validating).endpoint.Some? {
      IngestKeepsRouting(db, upTo, validating, i, a);
    }
    IngestKeepsRouting(db, upTo, validating, items[k], a);
    LockStep(hit, Callbacks(rest, validating), a);
    IngestAppend(db, upTo, rest, validating);
  }

  /** After a batch with an authentication failure that names the account, it is disabled at every
      point of any run of passes, of callbacks that carry a known endpoint id, and of operator calls
      that neither set its status nor delete it. */
  lemma AuthFailureLocksAccount(db: Db, items: seq<Item>, k: nat, validating: bool, steps: seq<Step>, a: Id)
    requires SoundTables(db.t) && a in db.t.accounts && k < |items|
    requires ReportsAuthFailure(items[k], db.t, validating, a) && KnownEndpoints(db.t, items[k + 1..], validating)
    requires LockRespectingRun(Ingest(db, items, validating), steps, a)
    ensures IsDisabled(Execute(Ingest(db, items, validating), steps).t, a)
  {
    AuthFailureDisables(db, items, k, validating, a);
    DisabledAccountStays(Ingest(db, items, validating), steps, a);
  }
}
