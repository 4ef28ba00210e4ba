/**
 Runs from the empty control plane at whose end a promise is broken, one for each promise of which the
 exact condition is proved elsewhere.
 */
module Failures {
  import opened Prelude
  import opened IsoTime
  import opened Schema
  import opened Store
  import opened StateMachine
  import opened Ingestion
  import opened HealthLocks
  import opened Generator
  import opened KeyManager
  import opened KeyAborts
  import opened KeyLeaks
  import opened Orchestrator
  import opened Reconcile
  import opened ControlPlane

  // ---------- Health ----------

  const NEW_ROW := Health(Active, None, 0)

  function Same(signal: Signal, count: nat, now: Clock): seq<Timed> {
    if count == 0 then [] else Same(signal, count - 1, now) + [Timed(signal, now)]
  }

  lemma RunOneMore(h: Health, signals: seq<Timed>, t: Timed)
    ensures Run(h, signals + [t]) == React(Run(h, signals), t.signal, CALLBACK_ACTOR, t.now)
  {
    assert (signals + [t])[..|signals|] == signals;
  }

  /** Three transient failures and a 429 put a new row into cooldown with a full counter; a single
      further transient failure releases it. */
  lemma CooldownReleased(now: Clock)
    ensures var h := React(Run(NEW_ROW, Same(Fault(Transient), 3, now)), Fault(RateLimit), CALLBACK_ACTOR, now);
            h.status == Cooldown && h.failures == 3 && !Throughout(h, Same(Fault(Transient), 1, now), Locked)
  {
    var t := Timed(Fault(Transient), now);
    RunOneMore(NEW_ROW, Same(Fault(Transient), 0, now), t);
    RunOneMore(NEW_ROW, Same(Fault(Transient), 1, now), t);
    RunOneMore(NEW_ROW, Same(Fault(Transient), 2, now), t);
    assert Run(NEW_ROW, Same(Fault(Transient), 1, now)).failures == 1;
    assert Run(NEW_ROW, Same(Fault(Transient), 2, now)).failures == 2;
    assert Run(NEW_ROW, Same(Fault(Transient), 3, now)).failures == 3;
    var h := React(Run(NEW_ROW, Same(Fault(Transient), 3, now)), Fault(RateLimit), CALLBACK_ACTOR, now);
    assert Same(Fault(Transient), 1, now) == [t];
    CooldownLock(h, [t]);
    assert [t][..0] == [];
    assert Transients([t]) == 1;
  }

  /** An authentication failure disables a new row; a 429 brings it back into cooldown. */
  lemma DisabledRevived(now: Clock)
    ensures var h := React(NEW_ROW, Fault(AuthError), CALLBACK_ACTOR, now);
            Off(h) && !Throughout(h, Same(Fault(RateLimit), 1, now), Off)
  {
    var t := Timed(Fault(RateLimit), now);
    assert Same(Fault(RateLimit), 1, now) == [t] && [t][..0] == [];
  }

  // ---------- Setting the registry up ----------

  function Setup(rows: seq<Row>): seq<Event> {
    if rows == [] then []
    else Setup(rows[..|rows| - 1]) + [Keys(Step(RegistryStep(Creating(rows[|rows| - 1]), "operator")))]
  }

  function Loaded(rows: seq<Row>): Tables {
    if rows == [] then EMPTY_TABLES else Put(Loaded(rows[..|rows| - 1]), Stored(rows[|rows| - 1]))
  }

  predicate Insertable(rows: seq<Row>) {
    if rows == [] then true
    else
      var n := |rows| - 1;
      Insertable(rows[..n]) && !rows[n].KeyRow? && CanInsert(Loaded(rows[..n]), rows[n])
  }

  lemma OneMore(tools: Tools, events: seq<Event>, e: Event)
    ensures RunAll(START, tools, events + [e]) == Next(RunAll(START, tools, events), tools, e)
  {
    assert (events + [e])[..|events|] == events;
  }

  lemma {:induction false} SetupRun(tools: Tools, rows: seq<Row>)
    requires Insertable(rows)
    ensures var s := RunAll(START, tools, Setup(rows));
            && s.w.db.t == Loaded(rows) && s.w.db.rollouts == [] && s.w.p == START.w.p
            && s.disk == map[] && s.paths == map[]
  {
    if rows != [] {
      var n := |rows| - 1;
      SetupRun(tools, rows[..n]);
      OneMore(tools, Setup(rows[..n]), Keys(Step(RegistryStep(Creating(rows[n]), "operator"))));
    }
  }

  lemma LoadOne(rows: seq<Row>, row: Row)
    requires Insertable(rows) && !row.KeyRow? && CanInsert(Loaded(rows), row)
    ensures Insertable(rows + [row]) && Loaded(rows + [row]) == Put(Loaded(rows), Stored(row))
  {
    assert (rows + [row])[..|rows|] == rows;
  }

  function NodeNamed(id: Id, role: string): Row {
    NodeRow(id, Node("node", "host", 4000, "eu", role, NodeActive))
  }

  const CONSUMER := ConsumerRow("c", Consumer("client", None, None, None, ConsumerActive, None))

  // ---------- A missing key that no pass provisions ----------

  lemma GatewaySetup()
    ensures var rows := [NodeNamed("n", "gateway"), CONSUMER];
            && Insertable(rows) && Loaded(rows).nodes.Keys == {"n"} && Loaded(rows).consumers.Keys == {"c"}
            && Loaded(rows).nodes["n"].role == "gateway" && Loaded(rows).consumers["c"].status == ConsumerActive
            && Loaded(rows).keys == map[] && Loaded(rows).endpoints == map[]
  {
    var node, c := NodeNamed("n", "gateway"), CONSUMER;
    LoadOne([], node);
    assert [] + [node] == [node];
    LoadOne([node], c);
    assert [node] + [c] == [node, c];
  }

  /** A node that is neither proxy nor exit, and one active consumer: a pass that goes well in every way
      still leaves the key missing. */
  lemma PassDoesNotConverge(tools: Tools, i: PassOver)
    requires RoundTrip(tools) && i.consumerOrder == ["c"] && i.keyOrder == ["c"] && i.nodeOrder == ["n"]
    requires GoesWell("n", i) && i.path.Some?
    ensures var s := RunAll(START, tools, Setup([NodeNamed("n", "gateway"), CONSUMER]));
            var after := ReconcileNode(s, tools, "n", i);
            !InSync(after.w.db.t, after.disk, tools, "n", i.path.value)
  {
    GatewaySetup();
    SetupRun(tools, [NodeNamed("n", "gateway"), CONSUMER]);
    GatewayPass(RunAll(START, tools, Setup([NodeNamed("n", "gateway"), CONSUMER])), tools, i);
  }

  lemma GatewayPass(s: System, tools: Tools, i: PassOver)
    requires RoundTrip(tools) && i.consumerOrder == ["c"] && i.keyOrder == ["c"] && i.nodeOrder == ["n"]
    requires GoesWell("n", i) && i.path.Some?
    requires s.w.db.t == Loaded([NodeNamed("n", "gateway"), CONSUMER])
    ensures var after := ReconcileNode(s, tools, "n", i);
            !InSync(after.w.db.t, after.disk, tools, "n", i.path.value)
  {
    GatewaySetup();
    assert MissingKey(s.w.db.t, "n", "c");
    OnePassConvergesIff(s, tools, "n", i);
  }

  // ---------- A first deploy that leaves its file ----------

  /** One node and one API deploy whose master key is missing: no rollout ever succeeded, yet the
      unverified config is on disk. */
  lemma UnverifiedFileStays(tools: Tools, path: string, a: Attempt, view: View)
    requires RoundTrip(tools) && Fresh([], a) && a.opens && !a.masterKey
    ensures var s := RunAll(START, tools, Setup([NodeNamed("n", "proxy")]) + [ManualDeploy("n", path, a, view)]);
            && s.w.db.rollouts == []
            && s.disk == map[path := DesiredContent(s.w.db.t, Through(tools, view), "n")]
  {
    var node := NodeNamed("n", "proxy");
    LoadOne([], node);
    assert [] + [node] == [node];
    SetupRun(tools, [node]);
    OneMore(tools, Setup([node]), ManualDeploy("n", path, a, view));
  }

  // ---------- A file that is not the latest success ----------

  const NODE := NodeNamed("n", "proxy")
  const PROVIDER := ProviderRow("p", Provider("provider", "openai"))
  const MODEL := ModelRow("m", Model("model", "group", true, true, true, false))
  const ACCOUNT := AccountRow("a", Account("account", "p", "secret", NEW_ROW))
  const ENDPOINT := EndpointRow("e", Endpoint("n", "a", "m", 1, 1, NoOverride, NEW_ROW))

  /** A node with one routable endpoint of a cloud provider. */
  const ONE_ENDPOINT: seq<Row> := [NODE] + [PROVIDER] + [MODEL] + [ACCOUNT] + [ENDPOINT]

  lemma EndpointSetup()
    ensures Insertable(ONE_ENDPOINT)
    ensures Loaded(ONE_ENDPOINT)
         == EMPTY_TABLES.(nodes := map["n" := NODE.node], providers := map["p" := PROVIDER.provider],
                          models := map["m" := MODEL.model], accounts := map["a" := ACCOUNT.account],
                          endpoints := map["e" := ENDPOINT.endpoint])
  {
    LoadOne([], NODE);
    assert [] + [NODE] == [NODE];
    LoadOne([NODE], PROVIDER);
    LoadOne([NODE] + [PROVIDER], MODEL);
    LoadOne([NODE] + [PROVIDER] + [MODEL], ACCOUNT);
    LoadOne([NODE] + [PROVIDER] + [MODEL] + [ACCOUNT], ENDPOINT);
  }

  /** The config of the node holds the entry of the endpoint exactly if its secret resolves. */
  lemma EndpointConfig(view: View)
    requires view.scan == ["e"]
    ensures var t := Loaded(ONE_ENDPOINT);
            |Generate(t, view.outside, "n", view.scan).modelList|
            == if view.outside.resolve("secret").Some? then 1 else 0
  {
    var t := Loaded(ONE_ENDPOINT);
    EndpointSetup();
    assert ["e"][..0] == [];
    assert SelectNode(t, "n", []) == [];
    assert SelectNode(t, "n", ["e"]) == [] + [RowOf(t, "e")];
    var rows := SelectNode(t, "n", ["e"]);
    assert rows == [RowOf(t, "e")] && rows[..0] == [];
    assert Compile(rows[..0], view.outside) == [];
  }

  /** A deploy that succeeds, then, once the secret resolves, one that writes its file and finds no
      master key: the file holds the unverified config, not that of the latest success. */
  lemma FileIsNotLatestSuccess(tools: Tools, path: string, a: Attempt, b: Attempt, first: View, later: View)
    requires RoundTrip(tools) && first.scan == ["e"] && later.scan == ["e"]
    requires first.outside.resolve("secret").None? && later.outside.resolve("secret").Some?
    requires Fresh([], a) && a.opens && Succeeds(a) && b.opens && !b.masterKey
    requires b.rolloutId != b.rollbackId && b.rolloutId != a.rolloutId && b.rollbackId != a.rolloutId
    requires a.at < b.at < b.rollbackAt
    ensures var events := Setup(ONE_ENDPOINT) + [ManualDeploy("n", path, a, first)]
                          + [ManualDeploy("n", path, b, later)];
            FreshEvents(START, tools, events) && !Agrees(SiteOf(PlantOf(RunAll(START, tools, events))), "n", path)
  {
    var setup := Setup(ONE_ENDPOINT);
    EndpointSetup();
    SetupRun(tools, ONE_ENDPOINT);
    SetupFresh(tools, ONE_ENDPOINT);
    EndpointConfig(first);
    EndpointConfig(later);
    TwoDeploys(tools, setup, path, a, b, first, later);
  }

  lemma TwoDeploys(tools: Tools, setup: seq<Event>, path: string, a: Attempt, b: Attempt, first: View, later: View)
    requires RoundTrip(tools) && a.opens && Succeeds(a) && b.opens && !b.masterKey
    requires Fresh([], a) && FreshEvents(START, tools, setup)
    requires b.rolloutId != b.rollbackId && b.rolloutId != a.rolloutId && b.rollbackId != a.rolloutId
    requires a.at < b.at < b.rollbackAt
    requires var s := RunAll(START, tools, setup);
             && s.w.db.rollouts == [] && "n" in s.w.db.t.nodes
             && Generate(s.w.db.t, first.outside, "n", first.scan) != Generate(s.w.db.t, later.outside, "n", later.scan)
    ensures var events := setup + [ManualDeploy("n", path, a, first)] + [ManualDeploy("n", path, b, later)];
            FreshEvents(START, tools, events) && !Agrees(SiteOf(PlantOf(RunAll(START, tools, events))), "n", path)
  {
    var e1, e2 := ManualDeploy("n", path, a, first), ManualDeploy("n", path, b, later);
    OneMore(tools, setup, e1);
    OneMore(tools, setup + [e1], e2);
    FirstDeploy(RunAll(START, tools, setup), tools, path, a, first);
    FreshOneMore(tools, setup, e1);
    FreshOneMore(tools, setup + [e1], e2);
    LaterDeploy(RunAll(START, tools, setup + [e1]), tools, path, b, first, later);
  }

  lemma FirstDeploy(s: System, tools: Tools, path: string, a: Attempt, view: View)
    requires s.w.db.rollouts == [] && "n" in s.w.db.t.nodes && RoundTrip(tools) && a.opens && Succeeds(a)
    ensures var after := Next(s, tools, ManualDeploy("n", path, a, view)).w.db;
            after.t == s.w.db.t && after.rollouts == [NewRow(s.w.db.t, Through(tools, view), "n", a, Success)]
  {
    assert tools.load(DesiredContent(s.w.db.t, Through(tools, view), "n")).Some?;
  }

  lemma LaterDeploy(s: System, tools: Tools, path: string, b: Attempt, first: View, later: View)
    requires RoundTrip(tools) && "n" in s.w.db.t.nodes && |s.w.db.rollouts| == 1 && IsSuccess(s.w.db.rollouts[0], "n")
    requires s.w.db.rollouts[0].content == DesiredContent(s.w.db.t, Through(tools, first), "n")
    requires Generate(s.w.db.t, first.outside, "n", first.scan) != Generate(s.w.db.t, later.outside, "n", later.scan)
    requires Fresh(s.w.db.rollouts, b) && b.opens && !b.masterKey
    ensures !Agrees(SiteOf(PlantOf(Next(s, tools, ManualDeploy("n", path, b, later)))), "n", path)
  {
    EventAgreesIff(s, tools, ManualDeploy("n", path, b, later), "n", path);
    DifferentContent(tools, Generate(s.w.db.t, first.outside, "n", first.scan),
                     Generate(s.w.db.t, later.outside, "n", later.scan));
    assert s.w.db.rollouts[..0] == [];
    assert LatestSuccess(s.w.db.rollouts, "n") == Some(s.w.db.rollouts[0]);
  }

  lemma DifferentContent(tools: Tools, c: Config, d: Config)
    requires RoundTrip(tools) && c != d
    ensures tools.dump(c) != tools.dump(d)
  {
    assert tools.load(tools.dump(c)) == Some(c) && tools.load(tools.dump(d)) == Some(d);
  }

  lemma FreshOneMore(tools: Tools, events: seq<Event>, e: Event)
    requires FreshEvents(START, tools, events) && FreshEvent(RunAll(START, tools, events), e)
    ensures FreshEvents(START, tools, events + [e])
  {
    assert (events + [e])[..|events|] == events;
  }

  lemma {:induction false} SetupFresh(tools: Tools, rows: seq<Row>)
    ensures FreshEvents(START, tools, Setup(rows))
  {
    if rows != [] {
      var n := |rows| - 1;
      SetupFresh(tools, rows[..n]);
      FreshOneMore(tools, Setup(rows[..n]), Keys(Step(RegistryStep(Creating(rows[n]), "operator"))));
    }
  }

  // ---------- An active row with a dead key ----------

  /** Two proxies and one consumer. */
  const TWO_PROXIES: seq<Row> := [NodeNamed("a", "proxy")] + [NodeNamed("b", "proxy")] + [CONSUMER]

  lemma ProxySetup()
    ensures Insertable(TWO_PROXIES)
    ensures Loaded(TWO_PROXIES)
         == EMPTY_TABLES.(nodes := map["a" := NodeNamed("a", "proxy").node, "b" := NodeNamed("b", "proxy").node],
                          consumers := map["c" := CONSUMER.consumer])
  {
    LoadOne([], NodeNamed("a", "proxy"));
    assert [] + [NodeNamed("a", "proxy")] == [NodeNamed("a", "proxy")];
    LoadOne([NodeNamed("a", "proxy")], NodeNamed("b", "proxy"));
    LoadOne([NodeNamed("a", "proxy")] + [NodeNamed("b", "proxy")], CONSUMER);
  }

  const ORDER: seq<Id> := ["a", "b"]

  lemma BothProxies(t: Tables)
    requires t.nodes == Loaded(TWO_PROXIES).nodes
    ensures ActiveProxies(t, ORDER) == ORDER
  {
    ProxySetup();
    assert ORDER[..1] == ["a"] && ["a"][..0] == [];
    assert ActiveProxies(t, ["a"]) == [] + ["a"];
  }

  function Well(c: Id, n: Id): Reply {
    ALL_WELL
  }

  /** A synced consumer is removed while the second node has no master key: the first key is revoked,
      then the call raises and the row of the revoked key comes back as active. */
  lemma RemovalLeavesDeadKey(tools: Tools)
    ensures var events := Setup(TWO_PROXIES) + [Keys(Step(SyncStep("c", ORDER, Well)))]
                          + [Keys(RemoveCall("c", ORDER, Well, "operator", {"a"}))];
            Dead(RunAll(START, tools, events).w, "c", "a")
  {
    var setup := Setup(TWO_PROXIES);
    ProxySetup();
    SetupRun(tools, TWO_PROXIES);
    SyncThenRemove(tools, setup);
    SetupFresh(tools, TWO_PROXIES);
    StartIsFine(tools.hash);
    RunKeepsCore(START, tools, setup);
    DeadAfterRemoval(RunAll(START, tools, setup).w);
  }

  lemma SyncThenRemove(tools: Tools, events: seq<Event>)
    ensures var e1, e2 := Keys(Step(SyncStep("c", ORDER, Well))), Keys(RemoveCall("c", ORDER, Well, "operator", {"a"}));
            RunAll(START, tools, events + [e1] + [e2]).w
            == ApiRemove(Sync(RunAll(START, tools, events).w, "c", ORDER, Well), "c", ORDER, Well, "operator", {"a"})
  {
    var e1, e2 := Keys(Step(SyncStep("c", ORDER, Well))), Keys(RemoveCall("c", ORDER, Well, "operator", {"a"}));
    OneMore(tools, events, e1);
    OneMore(tools, events + [e1], e2);
  }

  lemma DeadAfterRemoval(w: World)
    requires Accounted(w) && w.db.t == Loaded(TWO_PROXIES) && w.p == START.w.p
    ensures Dead(ApiRemove(Sync(w, "c", ORDER, Well), "c", ORDER, Well, "operator", {"a"}), "c", "a")
  {
    var synced := Sync(w, "c", ORDER, Well);
    SyncedTwice(w);
    ProxySetup();
    RemovalRaises(synced);
    SyncKeepsAccounted(w);
    KilledByRemoval(synced);
  }

  lemma KilledByRemoval(w: World)
    requires Accounted(w) && Revokes(w.db.t, "c", "a")
    ensures Dead(Act(w, AbortRemoveAct("c", ["a"], Well)), "c", "a")
  {
    ActDeadIff(w, AbortRemoveAct("c", ["a"], Well), "c", "a");
  }

  lemma SyncKeepsAccounted(w: World)
    requires Accounted(w)
    ensures Accounted(Sync(w, "c", ORDER, Well))
  {
    SyncIsActs(w, "c", ORDER, Well);
    ActsTrackIff(w, ActsOfSync(w.db.t, "c", ORDER, Well), "a");
  }

  lemma SyncedTwice(w: World)
    requires w.db.t == Loaded(TWO_PROXIES) && w.p == START.w.p
    ensures var keys := Sync(w, "c", ORDER, Well).db.t.keys;
            && keys.Keys == {("c", "a"), ("c", "b")}
            && keys[("c", "a")] == ConsumerKey(Issued(0), KeyActive)
            && keys[("c", "b")] == ConsumerKey(Issued(1), KeyActive)
            && Sync(w, "c", ORDER, Well).db.t.nodes == w.db.t.nodes
            && Sync(w, "c", ORDER, Well).db.t.consumers == w.db.t.consumers
  {
    ProxySetup();
    BothProxies(w.db.t);
    assert ORDER[..1] == ["a"] && ["a"][..0] == [];
    assert SyncNodes(w, "c", [], Well) == w;
    var one := SyncNodes(w, "c", ["a"], Well);
    assert one == SyncNode(w, "c", "a", ALL_WELL);
    SyncNodeEffect(w, "c", "a", ALL_WELL);
    assert SyncNodes(w, "c", ORDER, Well) == SyncNode(one, "c", "b", ALL_WELL);
    SyncNodeEffect(one, "c", "b", ALL_WELL);
  }

  lemma RemovalRaises(w: World)
    requires w.db.t.nodes == Loaded(TWO_PROXIES).nodes && "c" in w.db.t.consumers
    requires w.db.t.keys.Keys == {("c", "a"), ("c", "b")}
    requires w.db.t.keys[("c", "a")].status == KeyActive && w.db.t.keys[("c", "a")].key.Issued?
    requires w.db.t.keys[("c", "b")].status == KeyActive && w.db.t.keys[("c", "b")].key.Issued?
    ensures ApiRemove(w, "c", ORDER, Well, "operator", {"a"}) == Act(w, AbortRemoveAct("c", ["a"], Well))
    ensures Revokes(w.db.t, "c", "a")
  {
    ProxySetup();
    assert ("c", "a") in w.db.t.keys.Keys && ("c", "b") in w.db.t.keys.Keys;
    BothRows(w.db.t);
    var raises := n => Revokes(w.db.t, "c", n) && n !in {"a"};
    SecondRaises(raises);
    assert RemoveRounds(w.db.t, "c", ORDER, {"a"}) == 1;
    assert ORDER[..1] == ["a"];
  }

  lemma SecondRaises(raises: Id -> bool)
    requires !raises("a") && raises("b")
    ensures forall k: nat ::
              k <= |ORDER| && (forall i :: 0 <= i < k ==> !raises(ORDER[i])) && (k < |ORDER| ==> raises(ORDER[k]))
              ==> k == 1
  {
    assert ORDER[0] == "a" && ORDER[1] == "b";
  }

  lemma BothRows(t: Tables)
    requires ("c", "a") in t.keys && ("c", "b") in t.keys
    ensures KeyNodes(t, "c", ORDER) == ORDER
  {
    assert ORDER[..1] == ["a"] && ["a"][..0] == [];
    assert KeyNodes(t, "c", ["a"]) == [] + ["a"];
  }
}
