/**
 Rolling a config out to a node: record, write, verify, and on failure restore. The protocol
 works on two stores that fail independently, the rollout history and the file on disk.
 */
module Orchestrator {
  import opened Prelude
  import opened Schema
  import opened Store
  import opened Connection
  import opened Generator

  /** The libraries and the generator's surroundings. */
  datatype Tools = Tools(
    hash: string -> string,
    dump: Config -> string,
    load: string -> Option<Config>,
    outside: Outside,
    scan: seq<Id>)

  /** What one deploy meets: fresh row ids and timestamps, whether an existing file can be read for
      the backup, whether the file can be opened for writing, whether the node's master key is
      configured, the readiness replies that arrive before the timeout, and whether the file can
      be opened again to restore it. */
  datatype Attempt = Attempt(
    rolloutId: Id, rollbackId: Id, at: nat, rollbackAt: nat,
    readable: bool, opens: bool, masterKey: bool, polls: seq<bool>, restores: bool)

  datatype Ending = Deployed | Raised

  datatype Site = Site(rollouts: seq<Rollout>, disk: map<string, string>)

  // ---------- The history table ----------

  function SetStatus(rollouts: seq<Rollout>, id: Id, status: RolloutStatus): seq<Rollout> {
    if rollouts == [] then []
    else
      var first := rollouts[0];
      [if first.id == id then first.(status := status) else first] + SetStatus(rollouts[1..], id, status)
  }

  predicate IsSuccess(r: Rollout, node: Id) {
    r.node == node && r.status == Success
  }

  /** `WHERE node_id = ? AND status = 'success' ORDER BY timestamp DESC LIMIT 1`. */
  function LatestSuccess(rollouts: seq<Rollout>, node: Id): Option<Rollout> {
    if rollouts == [] then None
    else
      var last := rollouts[|rollouts| - 1];
      var best := LatestSuccess(rollouts[..|rollouts| - 1], node);
      if IsSuccess(last, node) && (best.None? || best.value.timestamp <= last.timestamp) then Some(last) else best
  }

  function Verified(polls: seq<bool>): bool {
    true in polls
  }

  // ---------- Specification of one deploy ----------

  function DesiredContent(t: Tables, tools: Tools, node: Id): string {
    tools.dump(Generate(t, tools.outside, node, tools.scan))
  }

  function NewRow(t: Tables, tools: Tools, node: Id, a: Attempt, status: RolloutStatus): Rollout {
    var content := DesiredContent(t, tools, node);
    Rollout(a.rolloutId, node, tools.hash(content), status, content, a.at)
  }

  function RollbackRow(node: Id, a: Attempt, previous: Rollout): Rollout {
    Rollout(a.rollbackId, node, previous.version, RolledBack, previous.content, a.rollbackAt)
  }

  /** What verification failure leaves: the failed row, and the file restored from the latest
      success or else from the backup taken before the write. */
  function RollBack(s: Site, failed: Rollout, node: Id, path: string, content: string, a: Attempt): Site {
    var rollouts := s.rollouts + [failed];
    var written := s.disk[path := content];
    var previous := LatestSuccess(s.rollouts, node);
    if previous.Some? then
      if a.restores then
        Site(rollouts + [RollbackRow(node, a, previous.value)], written[path := previous.value.content])
      else Site(rollouts, written)
    else if path in s.disk && a.readable && a.restores then Site(rollouts, written[path := s.disk[path]])
    else Site(rollouts, written)
  }

  function Deploy(t: Tables, s: Site, tools: Tools, node: Id, path: string, a: Attempt): (Site, Ending) {
    var content := DesiredContent(t, tools, node);
    if node !in t.nodes || tools.load(content).None? then (s, Raised)
    else if !a.opens then
      (s.(rollouts := s.rollouts + [NewRow(t, tools, node, a, Failed)]), Raised)
    else if !a.masterKey then
      (Site(s.rollouts + [NewRow(t, tools, node, a, Applying)], s.disk[path := content]), Raised)
    else if Verified(a.polls) then
      (Site(s.rollouts + [NewRow(t, tools, node, a, Success)], s.disk[path := content]), Deployed)
    else
      (RollBack(s, NewRow(t, tools, node, a, Failed), node, path, content, a), Raised)
  }

  /** Row ids are unused, and timestamps lie after all earlier ones. */
  predicate Fresh(rollouts: seq<Rollout>, a: Attempt) {
    && a.rolloutId != a.rollbackId && a.at < a.rollbackAt
    && (forall r :: r in rollouts ==> r.id != a.rolloutId && r.id != a.rollbackId && r.timestamp < a.at)
  }

  // ---------- The procedure ----------

  class Disk {
    var files: map<string, string>
  }

  /** The moves a rollout row may make. */
  predicate LegalMove(from: RolloutStatus, to: RolloutStatus) {
    (from == Pending && to == Applying) || (from == Applying && (to == Success || to == Failed))
  }

  lemma {:induction false} SetStatusOfLast(rollouts: seq<Rollout>, row: Rollout, status: RolloutStatus)
    requires forall r :: r in rollouts ==> r.id != row.id
    ensures SetStatus(rollouts + [row], row.id, status) == rollouts + [row.(status := status)]
  {
    if rollouts == [] {
      assert [row][1..] == [];
    } else {
      assert (rollouts + [row])[1..] == rollouts[1..] + [row];
      assert rollouts == [rollouts[0]] + rollouts[1..];
      SetStatusOfLast(rollouts[1..], row, status);
    }
  }

  lemma {:induction false} SetStatusKeepsLatest(rollouts: seq<Rollout>, row: Rollout, node: Id)
    requires !IsSuccess(row, node)
    ensures LatestSuccess(rollouts + [row], node) == LatestSuccess(rollouts, node)
  {
    assert (rollouts + [row])[..|rollouts|] == rollouts;
  }

  class RolloutOrchestrator {
    var nodeConfigPaths: map<Id, string>

    /** update_rollout_status, called only for legal moves of the newest row. */
    method Advance(db: Database, ghost earlier: seq<Rollout>, ghost row: Rollout, id: Id, status: RolloutStatus)
      requires db.rollouts == earlier + [row] && row.id == id && (forall r :: r in earlier ==> r.id != id)
      requires LegalMove(row.status, status)
      modifies db`rollouts
      ensures db.rollouts == earlier + [row.(status := status)]
    {
      SetStatusOfLast(earlier, row, status);
      db.rollouts := SetStatus(db.rollouts, id, status);
    }

    /** The readiness loop: stops at the first positive reply, or when the time is up. */
    method Poll(polls: seq<bool>) returns (verified: bool)
      ensures verified <==> exists i :: 0 <= i < |polls| && polls[i]
    {
      verified := false;
      var i := 0;
      while i < |polls|
        invariant 0 <= i <= |polls| && !verified && true !in polls[..i]
      {
        if polls[i] {
          return true;
        }
        i := i + 1;
      }
      assert polls[..|polls|] == polls;
    }

    method DeployConfig(db: Database, disk: Disk, tools: Tools, node: Id, path: string, a: Attempt)
      returns (ending: Ending)
      requires Fresh(db.rollouts, a)
      modifies this, db`rollouts, disk
      ensures var was := old(Site(db.rollouts, disk.files));
              (Site(db.rollouts, disk.files), ending) == Deploy(db.Registry(), was, tools, node, path, a)
      ensures nodeConfigPaths
           == if node in db.nodes && tools.load(DesiredContent(db.Registry(), tools, node)).Some?
              then old(nodeConfigPaths)[node := path] else old(nodeConfigPaths)
    {
      if node !in db.nodes { return Raised; }
      var config := Generate(db.Registry(), tools.outside, node, tools.scan);
      var content := tools.dump(config);
      if tools.load(content).None? { return Raised; }

      ghost var earlier := db.rollouts;
      ghost var row := Rollout(a.rolloutId, node, tools.hash(content), Pending, content, a.at);
      db.rollouts := db.rollouts + [Rollout(a.rolloutId, node, tools.hash(content), Pending, content, a.at)];
      var backup: Option<string> := if path in disk.files && a.readable then Some(disk.files[path]) else None;

      nodeConfigPaths := nodeConfigPaths[node := path];
      Advance(db, earlier, row, a.rolloutId, Applying);
      row := row.(status := Applying);
      if !a.opens {
        Advance(db, earlier, row, a.rolloutId, Failed);
        return Raised;
      }
      disk.files := disk.files[path := content];

      if !a.masterKey { return Raised; }
      var verified := Poll(a.polls);
      if verified {
        Advance(db, earlier, row, a.rolloutId, Success);
        return Deployed;
      }
      Advance(db, earlier, row, a.rolloutId, Failed);
      SetStatusKeepsLatest(earlier, row.(status := Failed), node);
      var previous := LatestSuccess(db.rollouts, node);
      if previous.Some? {
        if a.restores {
          disk.files := disk.files[path := previous.value.content];
          db.rollouts := db.rollouts
            + [Rollout(a.rollbackId, node, previous.value.version, RolledBack, previous.value.content, a.rollbackAt)];
        }
      } else if backup.Some? {
        if a.restores {
          disk.files := disk.files[path := backup.value];
        }
      }
      return Raised;
    }
  }

  // ---------- What a deploy promises, branch by branch ----------

  /** A deploy succeeds exactly if the node exists, the content loads, the file opens, the master key
      is configured and some reply before the timeout is positive. It then holds the new content and
      one new row says so. */
  lemma DeploySucceedsIff(t: Tables, s: Site, tools: Tools, node: Id, path: string, a: Attempt)
    ensures var (after, ending) := Deploy(t, s, tools, node, path, a);
            var content := tools.dump(Generate(t, tools.outside, node, tools.scan));
            && (ending == Deployed <==>
                  && node in t.nodes && tools.load(content).Some? && a.opens && a.masterKey
                  && exists i :: 0 <= i < |a.polls| && a.polls[i])
            && (ending == Deployed ==>
                  && after.disk == s.disk[path := content]
                  && after.rollouts
                     == s.rollouts + [Rollout(a.rolloutId, node, tools.hash(content), Success, content, a.at)])
  {
  }

  /** A deploy that fails: nothing happens for an unknown node or an unloadable config; an unwritable file
      leaves a failed row; a missing master key leaves the written file and an applying row. */
  lemma DeployFailsEarly(t: Tables, s: Site, tools: Tools, node: Id, path: string, a: Attempt)
    ensures var (after, ending) := Deploy(t, s, tools, node, path, a);
            var content := tools.dump(Generate(t, tools.outside, node, tools.scan));
            var row := (status: RolloutStatus) =>
                         Rollout(a.rolloutId, node, tools.hash(content), status, content, a.at);
            && (node !in t.nodes || tools.load(content).None? ==> after == s && ending == Raised)
            && (node in t.nodes && tools.load(content).Some? && !a.opens ==>
                  after == Site(s.rollouts + [row(Failed)], s.disk) && ending == Raised)
            && (node in t.nodes && tools.load(content).Some? && a.opens && !a.masterKey ==>
                  after == Site(s.rollouts + [row(Applying)], s.disk[path := content]) && ending == Raised)
  {
  }

  /** A deploy whose proxy never answers: a failed row, and if the file can be opened again, either the
      latest success is written back with a rolled-back row that repeats it, or, without one, the file
      as it was before, if it could be read. */
  lemma DeployFailsVerification(t: Tables, s: Site, tools: Tools, node: Id, path: string, a: Attempt)
    requires node in t.nodes && tools.load(tools.dump(Generate(t, tools.outside, node, tools.scan))).Some?
    requires a.opens && a.masterKey && (forall i :: 0 <= i < |a.polls| ==> !a.polls[i])
    ensures var (after, ending) := Deploy(t, s, tools, node, path, a);
            var content := tools.dump(Generate(t, tools.outside, node, tools.scan));
            var failed := Rollout(a.rolloutId, node, tools.hash(content), Failed, content, a.at);
            var best := LatestSuccess(s.rollouts, node);
            && ending == Raised
            && after.rollouts == s.rollouts + [failed]
                 + (if a.restores && best.Some?
                    then [Rollout(a.rollbackId, node, best.value.version, RolledBack, best.value.content, a.rollbackAt)]
                    else [])
            && after.disk == s.disk[path :=
                 if !a.restores then content
                 else if best.Some? then best.value.content
                 else if path in s.disk && a.readable then s.disk[path]
                 else content]
  {
  }

  // ---------- The history ----------

  /** A rolled-back row repeats an earlier successful rollout of its node. */
  predicate RepeatsSuccess(rollouts: seq<Rollout>, i: nat)
    requires i < |rollouts|
  {
    exists j :: 0 <= j < i && IsSuccess(rollouts[j], rollouts[i].node)
                && rollouts[j].version == rollouts[i].version && rollouts[j].content == rollouts[i].content
  }

  ghost predicate GoodHistory(rollouts: seq<Rollout>, hash: string -> string) {
    && (forall i :: 0 <= i < |rollouts| ==> rollouts[i].version == hash(rollouts[i].content))
    && (forall i :: 0 <= i < |rollouts| && rollouts[i].status == RolledBack ==> RepeatsSuccess(rollouts, i))
    && (forall i, j :: 0 <= i < j < |rollouts| ==> rollouts[i].timestamp < rollouts[j].timestamp)
  }

  /** The latest success is a success row of the node, and no success of the node is newer. */
  lemma {:induction false} LatestSuccessMeaning(rollouts: seq<Rollout>, node: Id) returns (at: nat)
    ensures var best := LatestSuccess(rollouts, node);
            && (best.Some? ==> at < |rollouts| && rollouts[at] == best.value
                               && best.value.node == node && best.value.status == Success)
            && (forall r :: r in rollouts && r.node == node && r.status == Success ==>
                  best.Some? && r.timestamp <= best.value.timestamp)
  {
    at := 0;
    if rollouts != [] {
      var n := |rollouts| - 1;
      assert rollouts == rollouts[..n] + [rollouts[n]];
      at := LatestSuccessMeaning(rollouts[..n], node);
      if LatestSuccess(rollouts, node) == Some(rollouts[n]) && LatestSuccess(rollouts[..n], node) != Some(rollouts[n]) {
        at := n;
      }
    }
  }

  lemma AppendRow(rollouts: seq<Rollout>, row: Rollout, hash: string -> string)
    requires GoodHistory(rollouts, hash) && row.version == hash(row.content)
    requires forall r :: r in rollouts ==> r.timestamp < row.timestamp
    requires row.status == RolledBack ==>
               exists j :: 0 <= j < |rollouts| && IsSuccess(rollouts[j], row.node)
                           && rollouts[j].version == row.version && rollouts[j].content == row.content
    ensures GoodHistory(rollouts + [row], hash)
  {
    var all := rollouts + [row];
    forall i | 0 <= i < |all| && all[i].status == RolledBack ensures RepeatsSuccess(all, i) {
      if i < |rollouts| {
        assert RepeatsSuccess(rollouts, i);
        var j :| 0 <= j < i && IsSuccess(rollouts[j], rollouts[i].node)
                 && rollouts[j].version == rollouts[i].version && rollouts[j].content == rollouts[i].content;
        assert all[j] == rollouts[j];
      } else {
        var j :| 0 <= j < |rollouts| && IsSuccess(rollouts[j], row.node)
                 && rollouts[j].version == row.version && rollouts[j].content == row.content;
        assert all[j] == rollouts[j];
      }
    }
  }

  /** A deploy only appends: earlier rows never change, and what it adds is one final row, a
      failed row with its rollback, or (without a master key) a row still `applying`. */
  lemma DeployAppends(t: Tables, s: Site, tools: Tools, node: Id, path: string, a: Attempt)
    ensures var (after, ending) := Deploy(t, s, tools, node, path, a);
            && s.rollouts <= after.rollouts && |after.rollouts| <= |s.rollouts| + 2
            && (ending == Deployed <==> after.rollouts == s.rollouts + [NewRow(t, tools, node, a, Success)])
            && (|after.rollouts| == |s.rollouts| + 2 ==>
                  && after.rollouts[|s.rollouts|] == NewRow(t, tools, node, a, Failed)
                  && after.rollouts[|s.rollouts| + 1].status == RolledBack)
  {
    var (after, ending) := Deploy(t, s, tools, node, path, a);
    assert (s.rollouts + [NewRow(t, tools, node, a, Success)])[|s.rollouts|].status == Success;
    assert ending == Raised && after.rollouts != s.rollouts ==> after.rollouts[|s.rollouts|].status != Success;
  }

  lemma DeployKeepsHistory(t: Tables, s: Site, tools: Tools, node: Id, path: string, a: Attempt)
    requires GoodHistory(s.rollouts, tools.hash) && Fresh(s.rollouts, a)
    ensures GoodHistory(Deploy(t, s, tools, node, path, a).0.rollouts, tools.hash)
  {
    var (after, _) := Deploy(t, s, tools, node, path, a);
    var previous := LatestSuccess(s.rollouts, node);
    var at := LatestSuccessMeaning(s.rollouts, node);
    if after.rollouts != s.rollouts {
      var first := after.rollouts[|s.rollouts|];
      AppendRow(s.rollouts, first, tools.hash);
      if |after.rollouts| == |s.rollouts| + 2 {
        var some := s.rollouts + [first];
        assert some[at] == previous.value;
        assert previous.value.version == tools.hash(previous.value.content);
        AppendRow(some, RollbackRow(node, a, previous.value), tools.hash);
      }
    }
  }

  // ---------- The disk agrees with the history ----------

  /** Once a rollout of the node has succeeded, its file is the content of the latest success. */
  predicate Agrees(s: Site, node: Id, path: string) {
    var latest := LatestSuccess(s.rollouts, node);
    latest.Some? ==> path in s.disk && s.disk[path] == latest.value.content
  }

  /** Nothing between the write and its verification or repair goes wrong. */
  predicate Repairs(a: Attempt) {
    !a.opens || (a.masterKey && (Verified(a.polls) || a.restores))
  }

  lemma AppendedLatest(rollouts: seq<Rollout>, row: Rollout, node: Id)
    ensures LatestSuccess(rollouts + [row], node)
         == var best := LatestSuccess(rollouts, node);
            if IsSuccess(row, node) && (best.None? || best.value.timestamp <= row.timestamp) then Some(row) else best
  {
    assert (rollouts + [row])[..|rollouts|] == rollouts;
  }

  /** What a deploy that wrote the file needs to leave it in agreement: verification or repair went
      through, or the content is that of the latest success anyway, or there never was a success. */
  predicate Mends(t: Tables, s: Site, tools: Tools, node: Id, a: Attempt) {
    var latest := LatestSuccess(s.rollouts, node);
    || (a.masterKey && (Verified(a.polls) || a.restores))
    || (latest.Some? ==> DesiredContent(t, tools, node) == latest.value.content)
  }

  /** The exact condition under which disk and kept rows agree after a deploy: if it wrote the file,
      Mends decides alone, whatever was on disk before; if it could not, nothing has changed. */
  lemma DeployAgreesIff(t: Tables, s: Site, tools: Tools, node: Id, path: string, a: Attempt)
    requires Fresh(s.rollouts, a) && node in t.nodes && tools.load(DesiredContent(t, tools, node)).Some?
    ensures Agrees(Deploy(t, s, tools, node, path, a).0, node, path)
       <==> if a.opens then Mends(t, s, tools, node, a) else Agrees(s, node, path)
  {
    var at := LatestSuccessMeaning(s.rollouts, node);
    var latest := LatestSuccess(s.rollouts, node);
    AppendedLatest(s.rollouts, NewRow(t, tools, node, a, Failed), node);
    AppendedLatest(s.rollouts, NewRow(t, tools, node, a, Applying), node);
    AppendedLatest(s.rollouts, NewRow(t, tools, node, a, Success), node);
    if latest.Some? {
      AppendedLatest(s.rollouts + [NewRow(t, tools, node, a, Failed)], RollbackRow(node, a, latest.value), node);
    }
  }

  /** The same exact condition when the raised error makes get_db roll the rows back. */
  lemma DiscardedRowsAgreeIff(t: Tables, s: Site, tools: Tools, node: Id, path: string, a: Attempt)
    requires node in t.nodes && tools.load(DesiredContent(t, tools, node)).Some?
    requires Deploy(t, s, tools, node, path, a).1 == Raised
    ensures Agrees(Deploy(t, s, tools, node, path, a).0.(rollouts := s.rollouts), node, path)
       <==> if a.opens then Mends(t, s, tools, node, a) else Agrees(s, node, path)
  {
  }

  /** Without an earlier success, a failing deploy leaves the file as it was exactly if the write
      never happened, or verification failed and the earlier file could be read and restored, or the content
      is the same. In every other case the unverified content stays on disk. */
  lemma FailedFirstDeployIff(t: Tables, s: Site, tools: Tools, node: Id, path: string, a: Attempt)
    requires LatestSuccess(s.rollouts, node).None?
    requires node in t.nodes && tools.load(DesiredContent(t, tools, node)).Some?
    requires Deploy(t, s, tools, node, path, a).1 == Raised
    ensures var content, after := DesiredContent(t, tools, node), Deploy(t, s, tools, node, path, a).0.disk;
            && (after == s.disk <==>
                  || !a.opens
                  || (path in s.disk && (s.disk[path] == content || (a.masterKey && a.readable && a.restores))))
            && (after == s.disk || after == s.disk[path := content])
  {
    var content := DesiredContent(t, tools, node);
    if path in s.disk {
      assert s.disk[path := content][path := s.disk[path]] == s.disk;
      assert s.disk[path] == content ==> s.disk[path := content] == s.disk;
      assert s.disk[path := content][path] == content;
    } else {
      assert path in s.disk[path := content];
    }
  }

  // ---------- Runs over many nodes ----------

  /** What one deploy's generator sees: its own answers from outside, and its own row order. */
  datatype View = View(outside: Outside, scan: seq<Id>)

  function Through(tools: Tools, view: View): Tools {
    tools.(outside := view.outside, scan := view.scan)
  }

  /** A deploy called through the API loses its rows when it raises; the reconciler keeps them.
      Registry calls may delete nodes with their history. Paths, secrets, environment and row order
      may differ from step to step. */
  datatype SiteStep =
    | ApiDeploy(node: Id, path: string, attempt: Attempt, view: View)
    | WorkerDeploy(node: Id, path: string, attempt: Attempt, view: View)
    | SiteRegistry(call: StoreCall, actor: string)

  datatype Plant = Plant(db: Db, disk: map<string, string>)

  function SiteOf(p: Plant): Site {
    Site(p.db.rollouts, p.disk)
  }

  function TakeSiteStep(p: Plant, tools: Tools, step: SiteStep): Plant {
    match step
    case ApiDeploy(node, path, a, view) =>
      var (s, ending) := Deploy(p.db.t, SiteOf(p), Through(tools, view), node, path, a);
      Plant(if ending == Raised then p.db else p.db.(rollouts := s.rollouts), s.disk)
    case WorkerDeploy(node, path, a, view) =>
      var (s, _) := Deploy(p.db.t, SiteOf(p), Through(tools, view), node, path, a);
      Plant(p.db.(rollouts := s.rollouts), s.disk)
    case SiteRegistry(call, actor) => p.(db := Apply(p.db, call, actor))
  }

  /** A deploy through the API keeps its rows exactly if it succeeds; the file stays as the deploy left it. */
  lemma ApiDeployColumns(p: Plant, tools: Tools, n: Id, path: string, a: Attempt, view: View)
    ensures var after := TakeSiteStep(p, tools, ApiDeploy(n, path, a, view));
            var (s, ending) := Deploy(p.db.t, Site(p.db.rollouts, p.disk), Through(tools, view), n, path, a);
            && after.disk == s.disk
            && (ending == Raised ==> after.db == p.db)
            && (ending == Deployed ==> after.db == p.db.(rollouts := s.rollouts))
  {
  }

  function SiteRun(p: Plant, tools: Tools, steps: seq<SiteStep>): Plant {
    if |steps| == 0 then p
    else TakeSiteStep(SiteRun(p, tools, steps[..|steps| - 1]), tools, steps[|steps| - 1])
  }

  predicate FreshStep(p: Plant, step: SiteStep) {
    !step.SiteRegistry? ==> Fresh(p.db.rollouts, step.attempt)
  }

  predicate FreshRun(p: Plant, tools: Tools, steps: seq<SiteStep>) {
    if |steps| == 0 then true
    else
      var n := |steps| - 1;
      FreshRun(p, tools, steps[..n]) && FreshStep(SiteRun(p, tools, steps[..n]), steps[n])
  }

  // ---------- What one step does to one node's file ----------

  predicate Succeeds(a: Attempt) {
    a.masterKey && Verified(a.polls)
  }

  /** The deploy of the step gets as far as writing its file. */
  predicate Writes(p: Plant, tools: Tools, step: SiteStep) {
    && !step.SiteRegistry? && step.node in p.db.t.nodes && step.attempt.opens
    && tools.load(DesiredContent(p.db.t, Through(tools, step.view), step.node)).Some?
  }

  /** What a deploy that writes its file leaves in it: the new content, unless it restores. */
  function LeftBehind(t: Tables, s: Site, tools: Tools, node: Id, path: string, a: Attempt): string {
    var content, previous := DesiredContent(t, tools, node), LatestSuccess(s.rollouts, node);
    if Succeeds(a) || !a.masterKey || !a.restores then content
    else if previous.Some? then previous.value.content
    else if path in s.disk && a.readable then s.disk[path]
    else content
  }

  /** The step writes the file at `path`, gives `n` a new latest success, or deletes `n`. */
  predicate Touches(p: Plant, tools: Tools, step: SiteStep, n: Id, path: string) {
    if step.SiteRegistry? then step.call == Deleting(NodeT(n)) && n in p.db.t.nodes
    else Writes(p, tools, step) && (step.path == path || (step.node == n && Succeeds(step.attempt)))
  }

  /** What such a step needs to leave the file at `path` in agreement with the history of `n`. */
  predicate TouchesWell(p: Plant, tools: Tools, step: SiteStep, n: Id, path: string) {
    if step.SiteRegistry? then true
    else
      var seen, s, latest := Through(tools, step.view), SiteOf(p), LatestSuccess(p.db.rollouts, n);
      if step.node == n && step.path == path then Mends(p.db.t, s, seen, n, step.attempt)
      else if step.node == n then path in p.disk && p.disk[path] == DesiredContent(p.db.t, seen, n)
      else latest.Some? ==>
             LeftBehind(p.db.t, s, seen, step.node, step.path, step.attempt) == latest.value.content
  }

  /** A deploy gives no other node a new latest success, and its own node only by succeeding. */
  lemma DeployLatest(t: Tables, s: Site, tools: Tools, node: Id, path: string, a: Attempt, n: Id)
    requires Fresh(s.rollouts, a)
    ensures var (after, ending) := Deploy(t, s, tools, node, path, a);
            LatestSuccess(after.rollouts, n)
            == if n == node && ending == Deployed then Some(NewRow(t, tools, node, a, Success))
               else LatestSuccess(s.rollouts, n)
  {
    var (after, _) := Deploy(t, s, tools, node, path, a);
    var at := LatestSuccessMeaning(s.rollouts, n);
    if after.rollouts != s.rollouts {
      var first := after.rollouts[|s.rollouts|];
      AppendedLatest(s.rollouts, first, n);
      if |after.rollouts| == |s.rollouts| + 2 {
        AppendedLatest(s.rollouts + [first], after.rollouts[|s.rollouts| + 1], n);
      }
    }
  }

  lemma DeployDisk(t: Tables, s: Site, tools: Tools, node: Id, path: string, a: Attempt)
    requires node in t.nodes && tools.load(DesiredContent(t, tools, node)).Some?
    ensures Deploy(t, s, tools, node, path, a).0.disk
         == if a.opens then s.disk[path := LeftBehind(t, s, tools, node, path, a)] else s.disk
    ensures Deploy(t, s, tools, node, path, a).1 == Deployed <==> a.opens && Succeeds(a)
  {
  }

  lemma DeployStepIff(p: Plant, tools: Tools, step: SiteStep, n: Id, path: string)
    requires !step.SiteRegistry? && Fresh(p.db.rollouts, step.attempt)
    ensures Agrees(SiteOf(TakeSiteStep(p, tools, step)), n, path)
       <==> if Touches(p, tools, step, n, path) then TouchesWell(p, tools, step, n, path)
            else Agrees(SiteOf(p), n, path)
  {
    var seen, s := Through(tools, step.view), SiteOf(p);
    DeployLatest(p.db.t, s, seen, step.node, step.path, step.attempt, n);
    if step.node in p.db.t.nodes && seen.load(DesiredContent(p.db.t, seen, step.node)).Some? {
      DeployDisk(p.db.t, s, seen, step.node, step.path, step.attempt);
    }
  }

  lemma {:induction false} OffNodeAppend(rollouts: seq<Rollout>, row: Rollout, node: Id)
    ensures RolloutsOffNode(rollouts + [row], node)
         == RolloutsOffNode(rollouts, node) + (if row.node == node then [] else [row])
  {
    if rollouts == [] {
      assert [row][1..] == [];
    } else {
      assert (rollouts + [row])[1..] == rollouts[1..] + [row];
      OffNodeAppend(rollouts[1..], row, node);
    }
  }

  /** Deleting a node forgets its own history and leaves every other node's alone. */
  lemma {:induction false} OffNodeLatest(rollouts: seq<Rollout>, gone: Id, n: Id)
    ensures LatestSuccess(RolloutsOffNode(rollouts, gone), n) == if n == gone then None else LatestSuccess(rollouts, n)
  {
    if rollouts != [] {
      var m := |rollouts| - 1;
      assert rollouts == rollouts[..m] + [rollouts[m]];
      OffNodeLatest(rollouts[..m], gone, n);
      OffNodeAppend(rollouts[..m], rollouts[m], gone);
      if rollouts[m].node != gone {
        AppendedLatest(RolloutsOffNode(rollouts[..m], gone), rollouts[m], n);
      } else {
        assert RolloutsOffNode(rollouts, gone) == RolloutsOffNode(rollouts[..m], gone);
      }
    }
  }

  /** A row that repeats a success still does once another node's rows are gone. */
  lemma StillRepeats(rollouts: seq<Rollout>, gone: Id, m: nat) returns (j: nat)
    requires m < |rollouts| && rollouts[m].node != gone && RepeatsSuccess(rollouts, m)
    ensures var kept := RolloutsOffNode(rollouts[..m], gone);
            && j < |kept| && IsSuccess(kept[j], rollouts[m].node)
            && kept[j].version == rollouts[m].version && kept[j].content == rollouts[m].content
  {
    var last, init := rollouts[m], rollouts[..m];
    var i :| 0 <= i < m && IsSuccess(rollouts[i], last.node)
             && rollouts[i].version == last.version && rollouts[i].content == last.content;
    RolloutsOffNodeMeaning(init, gone);
    assert init[i] in RolloutsOffNode(init, gone);
    j :| 0 <= j < |RolloutsOffNode(init, gone)| && RolloutsOffNode(init, gone)[j] == init[i];
  }

  lemma {:induction false} OffNodeHistory(rollouts: seq<Rollout>, gone: Id, hash: string -> string)
    requires GoodHistory(rollouts, hash)
    ensures GoodHistory(RolloutsOffNode(rollouts, gone), hash)
  {
    if rollouts != [] {
      var m := |rollouts| - 1;
      var init, last := rollouts[..m], rollouts[m];
      assert rollouts == init + [last];
      PrefixHistory(rollouts, hash);
      OffNodeHistory(init, gone, hash);
      OffNodeAppend(init, last, gone);
      if last.node != gone {
        OffNodeLastRow(rollouts, gone, hash);
      } else {
        assert RolloutsOffNode(rollouts, gone) == RolloutsOffNode(init, gone);
      }
    }
  }

  lemma OffNodeLastRow(rollouts: seq<Rollout>, gone: Id, hash: string -> string)
    requires rollouts != [] && GoodHistory(rollouts, hash) && rollouts[|rollouts| - 1].node != gone
    requires GoodHistory(RolloutsOffNode(rollouts[..|rollouts| - 1], gone), hash)
    ensures GoodHistory(RolloutsOffNode(rollouts[..|rollouts| - 1], gone) + [rollouts[|rollouts| - 1]], hash)
  {
    var m := |rollouts| - 1;
    var kept := RolloutsOffNode(rollouts[..m], gone);
    RolloutsOffNodeMeaning(rollouts[..m], gone);
    forall r | r in kept ensures r.timestamp < rollouts[m].timestamp {
      assert r in rollouts[..m];
    }
    if rollouts[m].status == RolledBack {
      var j := StillRepeats(rollouts, gone, m);
    }
    AppendRow(kept, rollouts[m], hash);
  }

  lemma PrefixHistory(rollouts: seq<Rollout>, hash: string -> string)
    requires GoodHistory(rollouts, hash) && rollouts != []
    ensures GoodHistory(rollouts[..|rollouts| - 1], hash)
  {
    var init := rollouts[..|rollouts| - 1];
    forall i | 0 <= i < |init| && init[i].status == RolledBack ensures RepeatsSuccess(init, i) {
      assert RepeatsSuccess(rollouts, i);
      var j :| 0 <= j < i && IsSuccess(rollouts[j], rollouts[i].node)
               && rollouts[j].version == rollouts[i].version && rollouts[j].content == rollouts[i].content;
      assert init[j] == rollouts[j];
    }
  }

  lemma RegistryRollouts(db: Db, call: StoreCall, actor: string)
    ensures var after := Apply(db, call, actor);
            || after.rollouts == db.rollouts
            || (call.Deleting? && call.target.NodeT? && after.rollouts == RolloutsOffNode(db.rollouts, call.target.id))
  {
    match call
    case Patching(id, p) => PatchEffect(db, id, p, actor);
    case _ =>
  }

  lemma RegistryKeepsHistory(db: Db, hash: string -> string, call: StoreCall, actor: string)
    requires GoodHistory(db.rollouts, hash)
    ensures GoodHistory(Apply(db, call, actor).rollouts, hash)
  {
    RegistryRollouts(db, call, actor);
    if Apply(db, call, actor).rollouts != db.rollouts {
      OffNodeHistory(db.rollouts, call.target.id, hash);
    }
  }

  lemma StepKeepsHistory(p: Plant, tools: Tools, step: SiteStep)
    requires GoodHistory(p.db.rollouts, tools.hash) && FreshStep(p, step)
    ensures GoodHistory(TakeSiteStep(p, tools, step).db.rollouts, tools.hash)
  {
    if step.SiteRegistry? {
      RegistryKeepsHistory(p.db, tools.hash, step.call, step.actor);
    } else {
      DeployKeepsHistory(p.db.t, SiteOf(p), Through(tools, step.view), step.node, step.path, step.attempt);
    }
  }

  /** A registry call leaves the agreement of a node alone, unless it deletes the node's history. */
  lemma RegistryStepIff(p: Plant, tools: Tools, step: SiteStep, n: Id, path: string)
    requires step.SiteRegistry?
    ensures Agrees(SiteOf(TakeSiteStep(p, tools, step)), n, path)
       <==> Touches(p, tools, step, n, path) || Agrees(SiteOf(p), n, path)
  {
    RegistryRollouts(p.db, step.call, step.actor);
    if step.call.Deleting? && step.call.target.NodeT? {
      OffNodeLatest(p.db.rollouts, step.call.target.id, n);
    }
  }

  /** The exact effect of one step on the agreement of one node's history with one file. */
  lemma StepAgreesIff(p: Plant, tools: Tools, step: SiteStep, n: Id, path: string)
    requires FreshStep(p, step)
    ensures Agrees(SiteOf(TakeSiteStep(p, tools, step)), n, path)
       <==> if Touches(p, tools, step, n, path) then TouchesWell(p, tools, step, n, path)
            else Agrees(SiteOf(p), n, path)
  {
    if step.SiteRegistry? {
      RegistryStepIff(p, tools, step, n, path);
    } else {
      DeployStepIff(p, tools, step, n, path);
    }
  }

  // ---------- Runs ----------

  /** The last step of the run that touches the file, or the node's latest success, does it well; if
      none does, they agreed from the start. */
  predicate Settled(p: Plant, tools: Tools, steps: seq<SiteStep>, n: Id, path: string) {
    if |steps| == 0 then Agrees(SiteOf(p), n, path)
    else
      var m := |steps| - 1;
      var before := SiteRun(p, tools, steps[..m]);
      if Touches(before, tools, steps[m], n, path) then TouchesWell(before, tools, steps[m], n, path)
      else Settled(p, tools, steps[..m], n, path)
  }

  /** In every run of API deploys, worker deploys and registry calls, to any paths, each step with its
      own secrets, environment and row order and each deploy with any failures: every history is
      good, and the file at a path is the latest success of a node, if it has one, exactly if the
      run settles it. */
  lemma {:induction false} DiskFollowsHistoryIff(p: Plant, tools: Tools, steps: seq<SiteStep>, n: Id, path: string)
    requires GoodHistory(p.db.rollouts, tools.hash) && FreshRun(p, tools, steps)
    ensures GoodHistory(SiteRun(p, tools, steps).db.rollouts, tools.hash)
    ensures Agrees(SiteOf(SiteRun(p, tools, steps)), n, path) <==> Settled(p, tools, steps, n, path)
  {
    if |steps| > 0 {
      var m := |steps| - 1;
      var before := SiteRun(p, tools, steps[..m]);
      DiskFollowsHistoryIff(p, tools, steps[..m], n, path);
      StepKeepsHistory(before, tools, steps[m]);
      StepAgreesIff(before, tools, steps[m], n, path);
    }
  }

  ghost predicate OwnPaths(where: Id -> string) {
    forall m, n :: m != n ==> where(m) != where(n)
  }

  /** A deploy to its node's own path that can repair what it wrote. */
  predicate CleanStep(where: Id -> string, step: SiteStep) {
    !step.SiteRegistry? ==> step.path == where(step.node) && Repairs(step.attempt)
  }

  lemma CleanStepTouchesWell(p: Plant, tools: Tools, where: Id -> string, step: SiteStep, n: Id)
    requires OwnPaths(where) && CleanStep(where, step) && Touches(p, tools, step, n, where(n))
    ensures TouchesWell(p, tools, step, n, where(n))
  {
  }

  /** So over nodes with paths of their own, when every deploy can repair what it wrote, every file is
      its node's latest success. */
  lemma {:induction false} DiskFollowsHistory(p: Plant, tools: Tools, where: Id -> string, steps: seq<SiteStep>, n: Id)
    requires Agrees(SiteOf(p), n, where(n))
    requires OwnPaths(where) && FreshRun(p, tools, steps) && (forall s :: s in steps ==> CleanStep(where, s))
    ensures Agrees(SiteOf(SiteRun(p, tools, steps)), n, where(n))
  {
    if |steps| > 0 {
      var m := |steps| - 1;
      var before := SiteRun(p, tools, steps[..m]);
      DiskFollowsHistory(p, tools, where, steps[..m], n);
      StepAgreesIff(before, tools, steps[m], n, where(n));
      if Touches(before, tools, steps[m], n, where(n)) {
        CleanStepTouchesWell(before, tools, where, steps[m], n);
      }
    }
  }
}
