/**
 What the two health histories say about one entity: its incidents, and the status
 changes in its `update_status` audit records.
 */
module History {
  import opened Prelude
  import opened IsoTime
  import opened Schema
  import opened Store
  import opened StateMachine

  type Move = (Status, Status)

  function IncidentsOf(incidents: seq<Incident>, e: Entity): seq<Move> {
    if incidents == [] then []
    else
      var last := incidents[|incidents| - 1];
      IncidentsOf(incidents[..|incidents| - 1], e) + (if last.entity == e then [(last.from, last.to)] else [])
  }

  function RowHealth(row: Row, e: Entity): Option<Health> {
    match (row, e)
    case (AccountRow(id, x), AccountRef(a)) => if id == a then Some(x.health) else None
    case (EndpointRow(id, x), EndpointRef(a)) => if id == a then Some(x.health) else None
    case _ => None
  }

  /** The change of status that an audit record documents; a record that leaves the status alone, as of
      a write of the override only, documents none. */
  function StatusChange(record: AuditRecord, e: Entity): seq<Move> {
    match record.changes
    case Diff(before, after) =>
      if record.action == UpdateStatus && RowHealth(before, e).Some? && RowHealth(after, e).Some?
      then ChangeOf(RowHealth(before, e).value.status, RowHealth(after, e).value.status) else []
    case _ => []
  }

  function ChangeOf(from: Status, to: Status): seq<Move> {
    if from == to then [] else [(from, to)]
  }

  function StatusChangesOf(audit: seq<AuditRecord>, e: Entity): seq<Move> {
    if audit == [] then []
    else StatusChangesOf(audit[..|audit| - 1], e) + StatusChange(audit[|audit| - 1], e)
  }

  /** A connected path with no self-loops. */
  predicate Walk(from: Status, path: seq<Move>, to: Status) {
    if path == [] then from == to
    else
      var last := path[|path| - 1];
      last.1 == to && last.0 != last.1 && Walk(from, path[..|path| - 1], last.0)
  }

  /** Since `start`, the incidents and the audited status changes of `e` are one and the same
      walk, from its status then to its status now. */
  predicate Walked(start: Db, db: Db, e: Entity, path: seq<Move>) {
    && Exists(start.t, e) && Exists(db.t, e)
    && IncidentsOf(db.incidents, e) == IncidentsOf(start.incidents, e) + path
    && StatusChangesOf(db.audit, e) == StatusChangesOf(start.audit, e) + path
    && Walk(HealthOf(start.t, e).status, path, HealthOf(db.t, e).status)
  }

  lemma NoMovesYet(db: Db, e: Entity)
    requires Exists(db.t, e)
    ensures Walked(db, db, e, [])
  {
  }

  lemma AppendIncident(incidents: seq<Incident>, i: Incident, e: Entity)
    ensures IncidentsOf(incidents + [i], e)
         == IncidentsOf(incidents, e) + (if i.entity == e then [(i.from, i.to)] else [])
  {
    assert (incidents + [i])[..|incidents|] == incidents;
  }

  lemma AppendRecord(audit: seq<AuditRecord>, record: AuditRecord, e: Entity)
    ensures StatusChangesOf(audit + [record], e) == StatusChangesOf(audit, e) + StatusChange(record, e)
  {
    assert (audit + [record])[..|audit|] == audit;
  }

  function TransitionMove(db: Db, e: Entity, next: Status, x: Entity): seq<Move> {
    if x == e && Exists(db.t, e) && HealthOf(db.t, e).status != next then [(HealthOf(db.t, e).status, next)] else []
  }

  lemma MovedStatus(h: Health, next: Status, now: Clock)
    ensures Moved(h, next, now).status == next
  {
  }

  lemma TransitionHistory(db: Db, e: Entity, next: Status, actor: string, now: Clock, x: Entity)
    ensures var after := Transition(db, e, next, actor, now);
            && IncidentsOf(after.incidents, x) == IncidentsOf(db.incidents, x) + TransitionMove(db, e, next, x)
            && StatusChangesOf(after.audit, x) == StatusChangesOf(db.audit, x) + TransitionMove(db, e, next, x)
  {
    if Exists(db.t, e) && HealthOf(db.t, e).status != next {
      var h := HealthOf(db.t, e);
      var row := EntityRow(db.t, e);
      var moved := WithHealth(row, Moved(h, next, now));
      AppendIncident(db.incidents, Incident(e, h.status, next), x);
      AppendRecord(db.audit, AuditRecord(actor, UpdateStatus, Diff(row, moved)), x);
    }
  }

  lemma WalkExtends(from: Status, path: seq<Move>, mid: Status, to: Status)
    requires Walk(from, path, mid) && mid != to
    ensures Walk(from, path + [(mid, to)], to)
  {
    assert (path + [(mid, to)])[..|path|] == path;
  }

  lemma TransitionStatus(db: Db, e: Entity, next: Status, actor: string, now: Clock, x: Entity)
    requires Exists(db.t, x)
    ensures var after := Transition(db, e, next, actor, now);
            Exists(after.t, x) && HealthOf(after.t, x).status == if x == e then next else HealthOf(db.t, x).status
  {
    if Exists(db.t, e) {
      TransitionIsMoved(db, e, next, actor, now);
      SetHealthEffect(db, e, Moved(HealthOf(db.t, e), next, now));
      MovedStatus(HealthOf(db.t, e), next, now);
    }
  }

  lemma TransitionWalks(start: Db, db: Db, e: Entity, next: Status, actor: string, now: Clock,
                        x: Entity, path: seq<Move>)
    returns (longer: seq<Move>)
    requires Walked(start, db, x, path)
    ensures Walked(start, Transition(db, e, next, actor, now), x, longer)
    ensures longer == path + TransitionMove(db, e, next, x)
  {
    longer := path + TransitionMove(db, e, next, x);
    TransitionHistory(db, e, next, actor, now, x);
    TransitionStatus(db, e, next, actor, now, x);
    ExtendWalk(start, db, Transition(db, e, next, actor, now), x, path, TransitionMove(db, e, next, x));
  }

  lemma MoveExtends(from: Status, path: seq<Move>, mid: Status, to: Status, more: seq<Move>)
    requires Walk(from, path, mid) && more == if mid == to then [] else [(mid, to)]
    ensures Walk(from, path + more, to)
  {
    if mid == to {
      assert path + more == path;
    } else {
      WalkExtends(from, path, mid, to);
    }
  }

  lemma Longer(history: seq<Move>, before: seq<Move>, path: seq<Move>, more: seq<Move>)
    requires history == before + path
    ensures history + more == before + (path + more)
  {
  }

  lemma ExtendWalk(start: Db, db: Db, after: Db, x: Entity, path: seq<Move>, more: seq<Move>)
    requires Walked(start, db, x, path) && Exists(after.t, x)
    requires var from, to := HealthOf(db.t, x).status, HealthOf(after.t, x).status;
             more == if from == to then [] else [(from, to)]
    requires IncidentsOf(after.incidents, x) == IncidentsOf(db.incidents, x) + more
    requires StatusChangesOf(after.audit, x) == StatusChangesOf(db.audit, x) + more
    ensures Walked(start, after, x, path + more)
  {
    Longer(IncidentsOf(db.incidents, x), IncidentsOf(start.incidents, x), path, more);
    Longer(StatusChangesOf(db.audit, x), StatusChangesOf(start.audit, x), path, more);
    MoveExtends(HealthOf(start.t, x).status, path, HealthOf(db.t, x).status, HealthOf(after.t, x).status, more);
  }

  /** Writing a counter logs nothing and moves nothing. */
  lemma CountWalks(start: Db, db: Db, e: Entity, failures: nat, x: Entity, path: seq<Move>)
    requires Walked(start, db, x, path) && Exists(db.t, e)
    ensures Walked(start, SetHealth(db, e, HealthOf(db.t, e).(failures := failures)), x, path)
  {
    SetHealthEffect(db, e, HealthOf(db.t, e).(failures := failures));
  }

  lemma GoodIsResetOrTransition(db: Db, e: Entity, actor: string, now: Clock)
    requires Exists(db.t, e)
    ensures var after := Handle(db, e, Good, actor, now);
            || after == db
            || after == Transition(db, e, Active, actor, now)
            || after == SetHealth(db, e, HealthOf(db.t, e).(failures := 0))
  {
  }

  lemma TransientIsCountAndTransition(db: Db, e: Entity, actor: string, now: Clock)
    requires Exists(db.t, e)
    ensures var after, counted := Handle(db, e, Fault(Transient), actor, now), CountFailure(db, e);
            after == counted || after == Transition(counted, e, Degraded, actor, now)
  {
  }

  lemma TransientWalks(start: Db, db: Db, e: Entity, actor: string, now: Clock, x: Entity, path: seq<Move>)
    returns (longer: seq<Move>)
    requires Walked(start, db, x, path) && Exists(db.t, e)
    ensures Walked(start, Handle(db, e, Fault(Transient), actor, now), x, longer)
    ensures x != e ==> longer == path
  {
    longer := path;
    TransientIsCountAndTransition(db, e, actor, now);
    CountWalks(start, db, e, HealthOf(db.t, e).failures + 1, x, path);
    if Handle(db, e, Fault(Transient), actor, now) != CountFailure(db, e) {
      longer := TransitionWalks(start, CountFailure(db, e), e, Degraded, actor, now, x, path);
    }
  }

  lemma GoodWalks(start: Db, db: Db, e: Entity, actor: string, now: Clock, x: Entity, path: seq<Move>)
    returns (longer: seq<Move>)
    requires Walked(start, db, x, path) && Exists(db.t, e)
    ensures Walked(start, Handle(db, e, Good, actor, now), x, longer)
    ensures x != e ==> longer == path
  {
    longer := path;
    var after := Handle(db, e, Good, actor, now);
    GoodIsResetOrTransition(db, e, actor, now);
    if after == SetHealth(db, e, HealthOf(db.t, e).(failures := 0)) {
      CountWalks(start, db, e, 0, x, path);
    } else if after != db {
      longer := TransitionWalks(start, db, e, Active, actor, now, x, path);
    }
  }

  /** What one handled signal adds to the walk of every entity. */
  lemma HandleWalks(start: Db, db: Db, e: Entity, signal: Signal, actor: string, now: Clock,
                    x: Entity, path: seq<Move>)
    returns (longer: seq<Move>)
    requires Walked(start, db, x, path)
    ensures Walked(start, Handle(db, e, signal, actor, now), x, longer)
    ensures x != e ==> longer == path
  {
    longer := path;
    if Exists(db.t, e) {
      match signal
      case Fault(AuthError) => longer := TransitionWalks(start, db, e, Disabled, actor, now, x, path);
      case Fault(RateLimit) => longer := TransitionWalks(start, db, e, Cooldown, actor, now, x, path);
      case Fault(Transient) => longer := TransientWalks(start, db, e, actor, now, x, path);
      case Good => longer := GoodWalks(start, db, e, actor, now, x, path);
    }
  }
}
