/**
 Key calls that raise. A node without a master key makes the loop of a sync or of a removal raise;
 get_db then rolls the rows back, while what the proxies did stays done.
 */
module KeyAborts {
  import opened Schema
  import opened KeyManager

  /** How many rounds a loop over `nodes` completes before the first that raises. */
  function Rounds(nodes: seq<Id>, raises: Id -> bool): (k: nat)
    ensures k <= |nodes| && (forall i :: 0 <= i < k ==> !raises(nodes[i])) && (k < |nodes| ==> raises(nodes[k]))
  {
    if nodes == [] || raises(nodes[0]) then 0 else 1 + Rounds(nodes[1..], raises)
  }

  /** Every round of a sync looks the master key up. */
  function SyncRounds(t: Tables, order: seq<Id>, configured: set<Id>): nat {
    Rounds(ActiveProxies(t, order), n => n !in configured)
  }

  /** A removal looks it up only where there is a key to revoke. */
  predicate Revokes(t: Tables, c: Id, n: Id) {
    (c, n) in t.keys && Revocable(t.keys[(c, n)]) && n in t.nodes
  }

  function RemoveRounds(t: Tables, c: Id, order: seq<Id>, configured: set<Id>): nat {
    Rounds(KeyNodes(t, c, order), n => Revokes(t, c, n) && n !in configured)
  }

  predicate SyncRaises(t: Tables, c: Id, order: seq<Id>, configured: set<Id>) {
    c in t.consumers && SyncRounds(t, order, configured) < |ActiveProxies(t, order)|
  }

  predicate RemoveRaises(t: Tables, c: Id, order: seq<Id>, configured: set<Id>) {
    c in t.consumers && RemoveRounds(t, c, order, configured) < |KeyNodes(t, c, order)|
  }

  function ApiSync(w: World, c: Id, order: seq<Id>, oracle: (Id, Id) -> Reply, configured: set<Id>): World {
    if !SyncRaises(w.db.t, c, order, configured) then Sync(w, c, order, oracle)
    else
      var reached := ActiveProxies(w.db.t, order)[..SyncRounds(w.db.t, order, configured)];
      World(w.db, SyncNodes(w, c, reached, oracle).p)
  }

  function ApiRemove(w: World, c: Id, order: seq<Id>, oracle: (Id, Id) -> Reply, actor: string,
                     configured: set<Id>): World {
    if !RemoveRaises(w.db.t, c, order, configured) then RemoveConsumer(w, c, order, oracle, actor)
    else
      var reached := KeyNodes(w.db.t, c, order)[..RemoveRounds(w.db.t, c, order, configured)];
      World(w.db, DropKeys(w, c, reached, oracle).p)
  }

  /** A key step, or one of the two calls of the API that may raise. */
  datatype KeyCall =
    | Step(step: KeyStep)
    | SyncCall(consumer: Id, order: seq<Id>, oracle: (Id, Id) -> Reply, configured: set<Id>)
    | RemoveCall(consumer: Id, order: seq<Id>, oracle: (Id, Id) -> Reply, actor: string, configured: set<Id>)

  function TakeCall(w: World, call: KeyCall): World {
    match call
    case Step(step) => TakeKeyStep(w, step)
    case SyncCall(c, order, oracle, configured) => ApiSync(w, c, order, oracle, configured)
    case RemoveCall(c, order, oracle, actor, configured) => ApiRemove(w, c, order, oracle, actor, configured)
  }

  function CallRun(w: World, calls: seq<KeyCall>): World {
    if |calls| == 0 then w else TakeCall(CallRun(w, calls[..|calls| - 1]), calls[|calls| - 1])
  }

  // ---------- A sync that raises ----------

  /** Some round of the sync has the proxy of `m` mint a key. */
  predicate MintsAt(w: World, c: Id, nodes: seq<Id>, oracle: (Id, Id) -> Reply, m: Id) {
    if nodes == [] then false
    else
      var k := |nodes| - 1;
      || MintsAt(w, c, nodes[..k], oracle, m)
      || (nodes[k] == m && oracle(c, m).generation != NotMinted
          && Generates(SyncNodes(w, c, nodes[..k], oracle).db.t, c, m))
  }

  /** A sync revokes nothing; what it adds is new, and it adds something exactly if it mints. */
  lemma {:induction false} SyncNodesMint(w: World, c: Id, nodes: seq<Id>, oracle: (Id, Id) -> Reply, m: Id)
    ensures var after := SyncNodes(w, c, nodes, oracle);
            && w.p.minted <= after.p.minted && Live(w.p, m) <= Live(after.p, m)
            && (forall v :: v in Live(after.p, m) - Live(w.p, m) ==>
                  v.Issued? && w.p.minted <= v.serial < after.p.minted)
            && (MintsAt(w, c, nodes, oracle, m) ==>
                  exists i: nat :: w.p.minted <= i < after.p.minted && Issued(i) in Live(after.p, m))
            && (!MintsAt(w, c, nodes, oracle, m) ==> Live(after.p, m) == Live(w.p, m))
  {
    if nodes != [] {
      var k := |nodes| - 1;
      var before := SyncNodes(w, c, nodes[..k], oracle);
      SyncNodesMint(w, c, nodes[..k], oracle, m);
      SyncNodeEffect(before, c, nodes[k], oracle(c, nodes[k]));
      var after := SyncNodes(w, c, nodes, oracle);
      if MintsAt(w, c, nodes[..k], oracle, m) {
        var i: nat :| w.p.minted <= i < before.p.minted && Issued(i) in Live(before.p, m);
        assert Issued(i) in Live(after.p, m);
      } else if MintsAt(w, c, nodes, oracle, m) {
        assert Issued(before.p.minted) in Live(after.p, m);
      }
    }
  }

  lemma ApiSyncBacked(w: World, c: Id, order: seq<Id>, oracle: (Id, Id) -> Reply, configured: set<Id>)
    requires Backed(w)
    ensures Backed(ApiSync(w, c, order, oracle, configured))
  {
    if SyncRaises(w.db.t, c, order, configured) {
      var after, keys := ApiSync(w, c, order, oracle, configured), w.db.t.keys;
      forall j | j in keys ensures RowBacked(after.p, j, keys[j]) {
        assert RowBacked(w.p, j, keys[j]);
        SyncNodesMint(w, c, ActiveProxies(w.db.t, order)[..SyncRounds(w.db.t, order, configured)], oracle, j.1);
      }
    } else {
      StepBacked(w, SyncStep(c, order, oracle));
    }
  }

  // ---------- A removal that raises ----------

  lemma {:induction false} DropKeysRows(w: World, c: Id, nodes: seq<Id>, oracle: (Id, Id) -> Reply)
    ensures var after := DropKeys(w, c, nodes, oracle);
            && after.db.t.nodes == w.db.t.nodes && after.p.minted == w.p.minted
            && (forall k :: k in after.db.t.keys <==> k in w.db.t.keys && !(k.0 == c && k.1 in nodes))
            && (forall k :: k in after.db.t.keys ==> after.db.t.keys[k] == w.db.t.keys[k])
  {
    if nodes != [] {
      var k := |nodes| - 1;
      assert nodes == nodes[..k] + [nodes[k]];
      DropKeysRows(w, c, nodes[..k], oracle);
      DropKeyRemoves(DropKeys(w, c, nodes[..k], oracle), c, nodes[k], oracle(c, nodes[k]), KEY_ACTOR);
    }
  }

  lemma {:induction false} DropKeysLive(w: World, c: Id, nodes: seq<Id>, oracle: (Id, Id) -> Reply, m: Id)
    ensures Live(DropKeys(w, c, nodes, oracle).p, m)
         == if m in nodes && Revokes(w.db.t, c, m) && oracle(c, m).revoked
            then Live(w.p, m) - {w.db.t.keys[(c, m)].key} else Live(w.p, m)
  {
    if nodes != [] {
      var k := |nodes| - 1;
      assert nodes == nodes[..k] + [nodes[k]];
      DropKeysRows(w, c, nodes[..k], oracle);
      DropKeysLive(w, c, nodes[..k], oracle, m);
    }
  }

  /** The rounds before the one that raises revoked nothing. */
  predicate RevokedNothing(t: Tables, c: Id, order: seq<Id>, oracle: (Id, Id) -> Reply, configured: set<Id>) {
    forall n :: n in KeyNodes(t, c, order)[..RemoveRounds(t, c, order, configured)] ==>
      Revokes(t, c, n) ==> !oracle(c, n).revoked
  }

  /** A removal leaves every active row with a live key exactly if it does not raise, or had revoked
      nothing before it raised. Otherwise a row that came back with the rollback holds a dead key. */
  lemma ApiRemoveBackedIff(w: World, c: Id, order: seq<Id>, oracle: (Id, Id) -> Reply, actor: string,
                           configured: set<Id>)
    requires Backed(w)
    ensures Backed(ApiRemove(w, c, order, oracle, actor, configured))
       <==> RemoveRaises(w.db.t, c, order, configured) ==> RevokedNothing(w.db.t, c, order, oracle, configured)
  {
    var t, after := w.db.t, ApiRemove(w, c, order, oracle, actor, configured);
    if RemoveRaises(t, c, order, configured) {
      var reached := KeyNodes(t, c, order)[..RemoveRounds(t, c, order, configured)];
      forall k | k in t.keys
        ensures RowBacked(after.p, k, t.keys[k])
           <==> !(k.0 == c && k.1 in reached && Revokes(t, c, k.1) && oracle(c, k.1).revoked)
      {
        RemovedRow(w, c, reached, oracle, k);
      }
      forall n | n in reached && Revokes(t, c, n) && oracle(c, n).revoked ensures !AllBacked(t.keys, after.p) {
        assert (c, n) in t.keys && !RowBacked(after.p, (c, n), t.keys[(c, n)]);
      }
    } else {
      StepBacked(w, RemoveStep(c, order, oracle, actor));
    }
  }

  lemma RemovedRow(w: World, c: Id, reached: seq<Id>, oracle: (Id, Id) -> Reply, k: (Id, Id))
    requires Backed(w) && k in w.db.t.keys
    ensures RowBacked(DropKeys(w, c, reached, oracle).p, k, w.db.t.keys[k])
       <==> !(k.0 == c && k.1 in reached && Revokes(w.db.t, c, k.1) && oracle(c, k.1).revoked)
  {
    DropKeysRows(w, c, reached, oracle);
    DropKeysLive(w, c, reached, oracle, k.1);
    assert RowBacked(w.p, k, w.db.t.keys[k]);
  }

  // ---------- When the calls raise, and what a removal does, column by column ----------

  /** A sync raises exactly if it reaches a node with status `active` and role `proxy` or `exit` whose
      master key is not configured. */
  lemma SyncRaisesIff(t: Tables, c: Id, order: seq<Id>, configured: set<Id>)
    ensures SyncRaises(t, c, order, configured)
       <==> && c in t.consumers
            && exists n :: n in order && n in t.nodes && n !in configured && t.nodes[n].status == NodeActive
                           && (t.nodes[n].role == "proxy" || t.nodes[n].role == "exit")
  {
    var nodes, k := ActiveProxies(t, order), SyncRounds(t, order, configured);
    if k < |nodes| {
      assert nodes[k] in nodes;
      ActiveProxiesMeaning(t, order, nodes[k]);
    } else {
      forall n | n in order && n in t.nodes && t.nodes[n].status == NodeActive
                 && (t.nodes[n].role == "proxy" || t.nodes[n].role == "exit")
        ensures n in configured
      {
        ActiveProxiesMeaning(t, order, n);
        var i :| 0 <= i < |nodes| && nodes[i] == n;
      }
    }
  }

  /** A removal raises exactly if it reaches a row with a real key that is not pending, on a registered node
      whose master key is not configured. */
  lemma RemoveRaisesIff(t: Tables, c: Id, order: seq<Id>, configured: set<Id>)
    ensures RemoveRaises(t, c, order, configured)
       <==> && c in t.consumers
            && exists n :: n in order && (c, n) in t.keys && t.keys[(c, n)].key.Issued?
                           && t.keys[(c, n)].status != PendingSync && n in t.nodes && n !in configured
  {
    var nodes, k := KeyNodes(t, c, order), RemoveRounds(t, c, order, configured);
    if k < |nodes| {
      assert nodes[k] in nodes;
      KeyNodesMeaning(t, c, order, nodes[k]);
    } else {
      forall n | n in order && (c, n) in t.keys && t.keys[(c, n)].key.Issued? && t.keys[(c, n)].status != PendingSync
                 && n in t.nodes
        ensures n in configured
      {
        KeyNodesMeaning(t, c, order, n);
        var i :| 0 <= i < |nodes| && nodes[i] == n;
      }
    }
  }

  lemma {:induction false} KeyNodesMeaning(t: Tables, c: Id, order: seq<Id>, n: Id)
    ensures n in KeyNodes(t, c, order) <==> n in order && (c, n) in t.keys
  {
    if order != [] {
      assert order == order[..|order| - 1] + [order[|order| - 1]];
      KeyNodesMeaning(t, c, order[..|order| - 1], n);
    }
  }

  /** A removal deletes the consumer and every row of it, and no row of another consumer. On each node it
      revokes exactly the real key of a row that is not pending, if the adapter says so. */
  lemma RemoveColumns(w: World, c: Id, order: seq<Id>, oracle: (Id, Id) -> Reply, actor: string, n: Id)
    requires c in w.db.t.consumers && n in order && (forall k :: k in w.db.t.keys ==> k.1 in order)
    ensures var after, keys := RemoveConsumer(w, c, order, oracle, actor), w.db.t.keys;
            && c !in after.db.t.consumers
            && (forall k :: k in after.db.t.keys <==> k in keys && k.0 != c)
            && (forall k :: k in after.db.t.keys ==> after.db.t.keys[k] == keys[k])
            && Live(after.p, n)
               == if (c, n) in keys && keys[(c, n)].key.Issued? && keys[(c, n)].status != PendingSync
                     && n in w.db.t.nodes && oracle(c, n).revoked
                  then Live(w.p, n) - {keys[(c, n)].key} else Live(w.p, n)
  {
    var nodes := KeyNodes(w.db.t, c, order);
    DropKeysRows(w, c, nodes, oracle);
    DropKeysLive(w, c, nodes, oracle, n);
    DropKeysConsumers(w, c, nodes, oracle);
    KeyNodesMeaning(w.db.t, c, order, n);
    forall k | k in w.db.t.keys && k.0 == c ensures k.1 in nodes {
      assert k == (c, k.1);
      KeyNodesMeaning(w.db.t, c, order, k.1);
    }
  }

  lemma {:induction false} DropKeysConsumers(w: World, c: Id, nodes: seq<Id>, oracle: (Id, Id) -> Reply)
    ensures DropKeys(w, c, nodes, oracle).db.t.consumers == w.db.t.consumers
  {
    if nodes != [] {
      DropKeysConsumers(w, c, nodes[..|nodes| - 1], oracle);
    }
  }
}
