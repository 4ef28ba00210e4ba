/**
 The audit log as an event source: applying the records in id order, with the schema's
 ON DELETE actions, rebuilds the registry. Only `failure_count` is written without a record.
 */
module AuditReplay {
  import opened Schema
  import opened Store

  function Uncounted(h: Health): Health {
    h.(failures := 0)
  }

  function UncountedRow(row: Row): Row {
    match row
    case AccountRow(_, x) => WithHealth(row, Uncounted(x.health))
    case EndpointRow(_, x) => WithHealth(row, Uncounted(x.health))
    case _ => row
  }

  /** `r` is `t` but for the `failure_count` columns, which are all 0 in `r`. */
  ghost predicate Matches(r: Tables, t: Tables) {
    && r == t.(accounts := r.accounts, endpoints := r.endpoints)
    && (forall a :: a in r.accounts <==> a in t.accounts)
    && (forall e :: e in r.endpoints <==> e in t.endpoints)
    && (forall a :: a in t.accounts ==> r.accounts[a] == t.accounts[a].(health := Uncounted(t.accounts[a].health)))
    && (forall e :: e in t.endpoints ==> r.endpoints[e] == t.endpoints[e].(health := Uncounted(t.endpoints[e].health)))
  }

  function ReplayOne(t: Tables, record: AuditRecord): Tables {
    match record.changes
    case Image(row) =>
      if record.action == Delete || record.action == DeleteKey then Drop(t, TargetOf(row))
      else Put(t, UncountedRow(row))
    case Diff(_, after) => Put(t, UncountedRow(after))
    case Drift(_) => t
  }

  function Replay(audit: seq<AuditRecord>): Tables {
    if audit == [] then EMPTY_TABLES
    else ReplayOne(Replay(audit[..|audit| - 1]), audit[|audit| - 1])
  }

  ghost predicate Faithful(db: Db) {
    Matches(Replay(db.audit), db.t)
  }

  lemma ReplayAppend(audit: seq<AuditRecord>, record: AuditRecord)
    ensures Replay(audit + [record]) == ReplayOne(Replay(audit), record)
  {
    assert (audit + [record])[..|audit|] == audit;
  }

  lemma PutMatches(r: Tables, t: Tables, row: Row)
    requires Matches(r, t)
    ensures Matches(Put(r, UncountedRow(row)), Put(t, row))
  {
  }

  lemma DropMatches(r: Tables, t: Tables, target: Target)
    requires Matches(r, t)
    ensures Matches(Drop(r, target), Drop(t, target))
  {
  }

  /** Writing a row together with a record of its new image keeps the log faithful. */
  lemma RecordedPut(db: Db, after: Db, row: Row, record: AuditRecord)
    requires Faithful(db)
    requires after.t == Put(db.t, row) && after.audit == db.audit + [record]
    requires match record.changes
             case Image(r) => r == row && record.action != Delete && record.action != DeleteKey
             case Diff(_, r) => r == row
             case Drift(_) => false
    ensures Faithful(after)
  {
    ReplayAppend(db.audit, record);
    PutMatches(Replay(db.audit), db.t, row);
  }

  /** Dropping a row together with a record of its last image keeps the log faithful. */
  lemma RecordedDrop(db: Db, after: Db, target: Target, record: AuditRecord)
    requires Faithful(db)
    requires after.t == Drop(db.t, target) && after.audit == db.audit + [record]
    requires record.changes.Image? && TargetOf(record.changes.row) == target
    requires record.action == Delete || record.action == DeleteKey
    ensures Faithful(after)
  {
    ReplayAppend(db.audit, record);
    DropMatches(Replay(db.audit), db.t, target);
  }

  lemma CountMatches(r: Tables, t: Tables, e: Entity, failures: nat)
    requires Matches(r, t) && Exists(t, e)
    ensures Matches(r, Put(t, WithHealth(EntityRow(t, e), HealthOf(t, e).(failures := failures))))
  {
  }

  lemma UnrecordedCount(db: Db, e: Entity, failures: nat)
    requires Faithful(db) && Exists(db.t, e)
    ensures Faithful(SetHealth(db, e, HealthOf(db.t, e).(failures := failures)))
  {
    CountMatches(Replay(db.audit), db.t, e, failures);
  }

  lemma LogHealthFaithful(db: Db, e: Entity, h: Health, actor: string)
    requires Faithful(db)
    ensures Faithful(LogHealth(db, e, h, actor))
  {
    if Exists(db.t, e) {
      var before := EntityRow(db.t, e);
      var after := WithHealth(before, h);
      RecordedPut(db, LogHealth(db, e, h, actor), after, AuditRecord(actor, UpdateStatus, Diff(before, after)));
    }
  }

  lemma UpdateRowFaithful(db: Db, action: Action, row: Row, actor: string)
    requires Faithful(db)
    ensures Faithful(UpdateRow(db, action, row, actor))
  {
    var before := RowAt(db.t, TargetOf(row));
    var after := UpdateRow(db, action, row, actor);
    if before.Some? && after != db {
      RecordedPut(db, after, row, AuditRecord(actor, action, Diff(before.value, row)));
    }
  }

  lemma CreateRowFaithful(db: Db, row: Row, actor: string)
    requires Faithful(db)
    ensures Faithful(CreateRow(db, row, actor))
  {
    if CanInsert(db.t, row) {
      RecordedPut(db, CreateRow(db, row, actor), Stored(row),
                  AuditRecord(actor, CreateAction(row), Image(Stored(row))));
    }
  }

  lemma DeleteRowFaithful(db: Db, target: Target, actor: string)
    requires Faithful(db)
    ensures Faithful(DeleteRow(db, target, actor))
  {
    var row := RowAt(db.t, target);
    if row.Some? && !Restricted(db.t, target) {
      RecordedDrop(db, DeleteRow(db, target, actor), target,
                   AuditRecord(actor, DeleteAction(target), Image(row.value)));
    }
  }

  /** A write to one endpoint row that records its after image. */
  lemma EndpointWriteFaithful(db: Db, after: Db, id: Id)
    requires Faithful(db) && id in after.t.endpoints && after.t == Put(db.t, EndpointRow(id, after.t.endpoints[id]))
    requires |after.audit| == |db.audit| + 1 && after.audit == db.audit + [after.audit[|db.audit|]]
    requires var changes := after.audit[|db.audit|].changes;
             changes.Diff? && changes.after == EndpointRow(id, after.t.endpoints[id])
    ensures Faithful(after)
  {
    RecordedPut(db, after, EndpointRow(id, after.t.endpoints[id]), after.audit[|db.audit|]);
  }

  /** Every store call keeps the log faithful. */
  lemma ApplyFaithful(db: Db, call: StoreCall, actor: string)
    requires Faithful(db)
    ensures Faithful(Apply(db, call, actor))
  {
    match call
    case Creating(row) => CreateRowFaithful(db, row, actor);
    case Deleting(target) => DeleteRowFaithful(db, target, actor);
    case Patching(id, p) =>
      var row := RowAt(db.t, PatchTarget(id, p));
      if row.Some? { UpdateRowFaithful(db, Update, Patched(row.value, p), actor); }
    case Routing(id, priority, weight) =>
      if id in db.t.endpoints { EndpointWriteFaithful(db, Route(db, id, priority, weight, actor), id); }
    case AccountStatus(id, status) =>
      if id in db.t.accounts {
        LogHealthFaithful(db, AccountRef(id), WrittenStatus(db.t.accounts[id].health, status), actor);
      }
    case EndpointStatus(id, status, override) =>
      if id in db.t.endpoints {
        EndpointWriteFaithful(db, WriteEndpointStatus(db, id, status, override, actor), id);
      }
    case KeyWrite(c, n, key, status) =>
      UpdateRowFaithful(db, UpdateKey, KeyRow(c, n, ConsumerKey(key, status)), actor);
    case KeyStatusWrite(c, n, status) =>
      if (c, n) in db.t.keys {
        UpdateRowFaithful(db, UpdateKeyStatus, KeyRow(c, n, db.t.keys[(c, n)].(status := status)), actor);
      }
  }
}
