/**
 When rows and proxies come apart. A key live on a proxy that no row holds can never be revoked; an
 active row whose key is dead serves nobody. Every operation is a sequence of elementary acts, and
 each act says exactly when it causes either.
 */
module KeyLeaks {
  import opened Prelude
  import opened Schema
  import opened Store
  import opened KeyManager
  import opened KeyAborts
  import Reconcile

  /** Every key live on the proxy of `m` is held by a row of `m`. */
  predicate Tracked(w: World, m: Id) {
    Live(w.p, m) <= KeysAt(w.db.t.keys, m)
  }

  /** Live keys were minted by the proxies, earlier. */
  predicate AllMinted(p: Proxies) {
    forall n :: n in p.live ==> forall v :: v in p.live[n] ==> v.Issued? && v.serial < p.minted
  }

  predicate Managed(w: World) {
    && (forall k :: k in w.db.t.keys ==> RowManaged(w.p, w.db.t.keys[k]))
    && NoSharing(w.db.t.keys)
  }

  /** What every run keeps, whatever fails. */
  predicate Accounted(w: World) {
    Sound(w.db) && Managed(w) && AllMinted(w.p)
  }

  /** An active row whose key is not live on its node. */
  predicate Dead(w: World, c: Id, n: Id) {
    && (c, n) in w.db.t.keys && w.db.t.keys[(c, n)].status == KeyActive
    && w.db.t.keys[(c, n)].key !in Live(w.p, n)
  }

  lemma BackedIffNoneDead(w: World)
    requires Managed(w)
    ensures Backed(w) <==> forall c, n :: !Dead(w, c, n)
  {
    if forall c, n :: !Dead(w, c, n) {
      forall k | k in w.db.t.keys ensures RowBacked(w.p, k, w.db.t.keys[k]) {
        assert k == (k.0, k.1) && !Dead(w, k.0, k.1);
      }
    } else {
      var c, n :| Dead(w, c, n);
      assert !RowBacked(w.p, (c, n), w.db.t.keys[(c, n)]);
    }
  }

  // ---------- Acts ----------

  /** The last two are the rounds that a raising call completes before its rows are rolled back. */
  datatype KeyAct =
    | SyncAct(consumer: Id, node: Id, reply: Reply)
    | DropAct(consumer: Id, node: Id, reply: Reply, actor: string)
    | StoreAct(call: StoreCall, actor: string)
    | AbortSyncAct(consumer: Id, nodes: seq<Id>, oracle: (Id, Id) -> Reply)
    | AbortRemoveAct(consumer: Id, nodes: seq<Id>, oracle: (Id, Id) -> Reply)

  function Act(w: World, a: KeyAct): World {
    match a
    case SyncAct(c, n, r) => if Registered(w.db.t, c, n) then SyncNode(w, c, n, r) else w
    case DropAct(c, n, r, actor) => DropKey(w, c, n, r, actor)
    case StoreAct(call, actor) => if WritesKeys(call) then w else w.(db := Apply(w.db, call, actor))
    case AbortSyncAct(c, nodes, oracle) => w.(p := SyncNodes(w, c, nodes, oracle).p)
    case AbortRemoveAct(c, nodes, oracle) => w.(p := DropKeys(w, c, nodes, oracle).p)
  }

  /** The row of `c` on `n` holds a key that is live there. */
  predicate HoldsLive(w: World, c: Id, n: Id) {
    (c, n) in w.db.t.keys && w.db.t.keys[(c, n)].key in Live(w.p, n)
  }

  /** A sync leaks unless: whatever the proxy minted came back, and it did not replace a live key. */
  predicate SyncTracks(w: World, c: Id, n: Id, r: Reply) {
    Generates(w.db.t, c, n) ==>
      r.generation == NotMinted || (r.generation == Minted && !HoldsLive(w, c, n))
  }

  /** Deleting a row leaks unless its key is dead, or is revoked with it. */
  predicate DropTracks(w: World, c: Id, n: Id, r: Reply) {
    HoldsLive(w, c, n) ==> Revocable(w.db.t.keys[(c, n)]) && r.revoked
  }

  /** A registry call leaks on `m` only by deleting rows of live keys with a node or a consumer. */
  predicate StoreTracks(w: World, call: StoreCall, m: Id) {
    && (call == Deleting(NodeT(m)) ==> Live(w.p, m) == {})
    && (call.Deleting? && call.target.ConsumerT? ==> !HoldsLive(w, call.target.id, m))
  }

  predicate Tracks(w: World, a: KeyAct, m: Id) {
    match a
    case SyncAct(c, n, r) => n == m && Registered(w.db.t, c, n) ==> SyncTracks(w, c, n, r)
    case DropAct(c, n, r, _) => n == m ==> DropTracks(w, c, n, r)
    case StoreAct(call, _) => StoreTracks(w, call, m)
    case AbortSyncAct(c, nodes, oracle) => !MintsAt(w, c, nodes, oracle, m)
    case AbortRemoveAct(_, _, _) => true
  }

  /** The act revokes the key of an active row and has the row come back. */
  predicate Kills(w: World, a: KeyAct, c: Id, n: Id) {
    a.AbortRemoveAct? && a.consumer == c && n in a.nodes && Revokes(w.db.t, c, n) && a.oracle(c, n).revoked
  }

  /** The act marks the row as pending, or deletes it. */
  predicate Ends(a: KeyAct, c: Id, n: Id) {
    match a
    case SyncAct(d, m, r) => d == c && m == n && !r.updated
    case DropAct(d, m, _, _) => d == c && m == n
    case StoreAct(call, _) => call == Deleting(NodeT(n)) || call == Deleting(ConsumerT(c))
    case _ => false
  }

  // ---------- One act ----------

  lemma MintKeepsMinted(p: Proxies, n: Id, g: Generation)
    requires AllMinted(p)
    ensures AllMinted(Mint(p, n, g))
  {
  }

  /** Which keys the rows of `m` hold after one row is written. */
  lemma KeysAtPut(keys: map<(Id, Id), ConsumerKey>, c: Id, n: Id, row: ConsumerKey, m: Id, v: VirtualKey)
    requires NoSharing(keys) && v.Issued?
    ensures v in KeysAt(keys[(c, n) := row], m)
       <==> (m == n && v == row.key)
            || (v in KeysAt(keys, m) && !(m == n && (c, n) in keys && keys[(c, n)].key == v))
  {
    var after := keys[(c, n) := row];
    if v in KeysAt(after, m) {
      var k :| k in after && k.1 == m && after[k].key == v;
      assert k != (c, n) ==> k in keys && keys[k] == after[k];
    }
    if m == n && v == row.key {
      assert (c, n) in after && after[(c, n)].key == v;
    }
    if v in KeysAt(keys, m) && !(m == n && (c, n) in keys && keys[(c, n)].key == v) {
      var k :| k in keys && k.1 == m && keys[k].key == v;
      assert k in after && after[k] == keys[k];
    }
  }

  lemma FreshIsUnheld(w: World, m: Id)
    requires Accounted(w)
    ensures Issued(w.p.minted) !in KeysAt(w.db.t.keys, m) && Issued(w.p.minted) !in Live(w.p, m)
  {
    forall k | k in w.db.t.keys ensures w.db.t.keys[k].key != Issued(w.p.minted) {
      assert RowManaged(w.p, w.db.t.keys[k]);
    }
  }

  lemma SyncedLive(w: World, c: Id, n: Id, r: Reply, m: Id, v: VirtualKey)
    ensures v in Live(SyncNode(w, c, n, r).p, m)
       <==> || v in Live(w.p, m)
            || (m == n && Generates(w.db.t, c, n) && r.generation != NotMinted && v == Issued(w.p.minted))
  {
    SyncNodeEffect(w, c, n, r);
  }

  lemma SyncedHeld(w: World, c: Id, n: Id, r: Reply, m: Id, v: VirtualKey)
    requires Accounted(w) && Registered(w.db.t, c, n) && v.Issued?
    ensures v in KeysAt(SyncNode(w, c, n, r).db.t.keys, m)
       <==> if m == n && Generates(w.db.t, c, n) && r.generation == Minted
            then || v == Issued(w.p.minted)
                 || (v in KeysAt(w.db.t.keys, m) && !((c, n) in w.db.t.keys && w.db.t.keys[(c, n)].key == v))
            else v in KeysAt(w.db.t.keys, m)
  {
    SyncNodeEffect(w, c, n, r);
    var row := SyncedRow(w, c, n, r);
    if row.Some? {
      KeysAtPut(w.db.t.keys, c, n, row.value, m, v);
    }
    if (c, n) in w.db.t.keys && w.db.t.keys[(c, n)].key == v {
      assert v in KeysAt(w.db.t.keys, n);
    }
  }

  /** A sync of one row keeps a node without leaks exactly if it meets SyncTracks, and mends none. */
  lemma SyncTracksIff(w: World, c: Id, n: Id, r: Reply, m: Id)
    requires Accounted(w) && Registered(w.db.t, c, n)
    ensures Tracked(SyncNode(w, c, n, r), m) <==> Tracked(w, m) && (n == m ==> SyncTracks(w, c, n, r))
  {
    var after := SyncNode(w, c, n, r);
    FreshIsUnheld(w, m);
    forall v: VirtualKey | v.Issued?
      ensures v in Live(after.p, m) && v !in KeysAt(after.db.t.keys, m)
         <==> || (v in Live(w.p, m) && v !in KeysAt(w.db.t.keys, m))
              || (n == m && Generates(w.db.t, c, n) && r.generation == MintedButLost && v == Issued(w.p.minted))
              || (n == m && Generates(w.db.t, c, n) && r.generation == Minted
                  && HoldsLive(w, c, n) && v == w.db.t.keys[(c, n)].key)
    {
      SyncedLive(w, c, n, r, m, v);
      SyncedHeld(w, c, n, r, m, v);
    }
    SyncKeepsMinted(w, c, n, r);
    Unheld(w, m);
    Unheld(after, m);
  }

  lemma SyncKeepsMinted(w: World, c: Id, n: Id, r: Reply)
    requires AllMinted(w.p)
    ensures AllMinted(SyncNode(w, c, n, r).p)
  {
    SyncNodeEffect(w, c, n, r);
    MintKeepsMinted(w.p, n, r.generation);
  }

  /** A leak is a minted key that is live and not held. */
  lemma Unheld(w: World, m: Id)
    requires AllMinted(w.p)
    ensures Tracked(w, m)
       <==> forall v: VirtualKey :: v.Issued? ==> !(v in Live(w.p, m) && v !in KeysAt(w.db.t.keys, m))
  {
  }

  lemma KeysAtMinus(keys: map<(Id, Id), ConsumerKey>, c: Id, n: Id, m: Id, v: VirtualKey)
    requires NoSharing(keys) && v.Issued?
    ensures v in KeysAt(keys - {(c, n)}, m)
       <==> v in KeysAt(keys, m) && !(m == n && (c, n) in keys && keys[(c, n)].key == v)
  {
    var after := keys - {(c, n)};
    if v in KeysAt(keys, m) && !(m == n && (c, n) in keys && keys[(c, n)].key == v) {
      var k :| k in keys && k.1 == m && keys[k].key == v;
      assert k in after && after[k] == keys[k];
    }
  }

  lemma DropKeyProxies(w: World, c: Id, n: Id, r: Reply, actor: string, m: Id, v: VirtualKey)
    requires Sound(w.db)
    ensures v in Live(DropKey(w, c, n, r, actor).p, m)
       <==> v in Live(w.p, m) && !(m == n && (c, n) in w.db.t.keys && w.db.t.keys[(c, n)].key == v
                                   && Revocable(w.db.t.keys[(c, n)]) && r.revoked)
  {
  }

  /** Deleting one row keeps a node without leaks exactly if its key is dead or is revoked. */
  lemma DropTracksIff(w: World, c: Id, n: Id, r: Reply, actor: string, m: Id)
    requires Accounted(w)
    ensures Tracked(DropKey(w, c, n, r, actor), m) <==> Tracked(w, m) && (n == m ==> DropTracks(w, c, n, r))
  {
    var after := DropKey(w, c, n, r, actor);
    forall v: VirtualKey | v.Issued?
      ensures v in Live(after.p, m) && v !in KeysAt(after.db.t.keys, m)
         <==> || (v in Live(w.p, m) && v !in KeysAt(w.db.t.keys, m))
              || (n == m && !DropTracks(w, c, n, r) && v == w.db.t.keys[(c, n)].key)
    {
      DropKeyRemoves(w, c, n, r, actor);
      DropKeyProxies(w, c, n, r, actor, m, v);
      KeysAtMinus(w.db.t.keys, c, n, m, v);
    }
    DropKeepsMinted(w, c, n, r, actor);
    Unheld(w, m);
    Unheld(after, m);
  }

  lemma DropKeepsMinted(w: World, c: Id, n: Id, r: Reply, actor: string)
    requires AllMinted(w.p)
    ensures AllMinted(DropKey(w, c, n, r, actor).p)
  {
  }

  lemma KeysAtOffConsumer(keys: map<(Id, Id), ConsumerKey>, c: Id, m: Id, v: VirtualKey)
    requires NoSharing(keys) && v.Issued?
    ensures v in KeysAt(KeysOffConsumer(keys, c), m)
       <==> v in KeysAt(keys, m) && !((c, m) in keys && keys[(c, m)].key == v)
  {
    var fewer := KeysOffConsumer(keys, c);
    if v in KeysAt(keys, m) && !((c, m) in keys && keys[(c, m)].key == v) {
      var k :| k in keys && k.1 == m && keys[k].key == v;
      assert k == (k.0, m) && k in fewer;
    }
  }

  lemma NodeDeletionTracksIff(w: World, n: Id, actor: string, m: Id)
    requires Accounted(w)
    ensures Tracked(w.(db := DeleteRow(w.db, NodeT(n), actor)), m)
       <==> Tracked(w, m) && (n == m ==> Live(w.p, m) == {})
  {
    var after := DeleteRow(w.db, NodeT(n), actor);
    if n == m {
      forall k | k in after.t.keys ensures k.1 != m {
        assert k in w.db.t.keys ==> k == (k.0, k.1);
      }
      assert KeysAt(after.t.keys, m) == {};
    } else {
      DeleteOnlyDropsKeys(w.db, NodeT(n), actor);
      KeysAtOtherNode(w.db.t.keys, n, m);
    }
  }

  lemma ConsumerDeletionTracksIff(w: World, c: Id, actor: string, m: Id)
    requires Accounted(w)
    ensures Tracked(w.(db := DeleteRow(w.db, ConsumerT(c), actor)), m) <==> Tracked(w, m) && !HoldsLive(w, c, m)
  {
    var after := w.(db := DeleteRow(w.db, ConsumerT(c), actor));
    if c in w.db.t.consumers {
      forall v: VirtualKey | v.Issued?
        ensures v in Live(after.p, m) && v !in KeysAt(after.db.t.keys, m)
           <==> || (v in Live(w.p, m) && v !in KeysAt(w.db.t.keys, m))
                || (HoldsLive(w, c, m) && v == w.db.t.keys[(c, m)].key)
      {
        KeysAtOffConsumer(w.db.t.keys, c, m, v);
      }
    }
    Unheld(w, m);
    Unheld(after, m);
  }

  /** A registry call keeps a node without leaks exactly if it deletes no row of a live key there. */
  lemma StoreTracksIff(w: World, call: StoreCall, actor: string, m: Id)
    requires Accounted(w) && !WritesKeys(call)
    ensures Tracked(w.(db := Apply(w.db, call, actor)), m) <==> Tracked(w, m) && StoreTracks(w, call, m)
  {
    if call.Deleting? && call.target.NodeT? {
      NodeDeletionTracksIff(w, call.target.id, actor, m);
    } else if call.Deleting? && call.target.ConsumerT? {
      ConsumerDeletionTracksIff(w, call.target.id, actor, m);
    } else {
      RegistryOnlyDropsKeys(w.db, call, actor);
      if call.Deleting? { DeleteOnlyDropsKeys(w.db, call.target, actor); }
    }
  }

  /** Writing one row with a key that is new, or that the row held before. */
  lemma PutManaged(keys: map<(Id, Id), ConsumerKey>, p: Proxies, k: (Id, Id), row: ConsumerKey)
    requires (forall j :: j in keys ==> RowManaged(p, keys[j])) && NoSharing(keys)
    requires row.key.Issued? ==> row.key == Issued(p.minted) || (k in keys && row.key == keys[k].key)
    ensures NoSharing(keys[k := row])
  {
    forall j | j in keys ensures keys[j].key != Issued(p.minted) {
      assert RowManaged(p, keys[j]);
    }
  }

  lemma SyncKeepsManaged(w: World, c: Id, n: Id, r: Reply)
    requires Managed(w)
    ensures Managed(SyncNode(w, c, n, r))
  {
    var after, row := SyncNode(w, c, n, r), SyncedRow(w, c, n, r);
    SyncNodeEffect(w, c, n, r);
    if row.Some? { PutManaged(w.db.t.keys, w.p, (c, n), row.value); }
    forall k | k in after.db.t.keys ensures RowManaged(after.p, after.db.t.keys[k]) {
      if k in w.db.t.keys { assert RowManaged(w.p, w.db.t.keys[k]); }
    }
  }

  lemma FewerRowsManaged(w: World, after: World)
    requires Managed(w) && after.p.minted == w.p.minted
    requires forall k :: k in after.db.t.keys ==> k in w.db.t.keys && after.db.t.keys[k] == w.db.t.keys[k]
    ensures Managed(after)
  {
    forall k | k in after.db.t.keys ensures RowManaged(after.p, after.db.t.keys[k]) {
      assert RowManaged(w.p, w.db.t.keys[k]);
    }
  }

  lemma AbortSyncAccounted(w: World, c: Id, nodes: seq<Id>, oracle: (Id, Id) -> Reply)
    requires Accounted(w)
    ensures Accounted(w.(p := SyncNodes(w, c, nodes, oracle).p))
  {
    var p := SyncNodes(w, c, nodes, oracle).p;
    SyncNodesMint(w, c, nodes, oracle, c);
    forall k | k in w.db.t.keys ensures RowManaged(p, w.db.t.keys[k]) {
      assert RowManaged(w.p, w.db.t.keys[k]);
    }
    forall n, v | n in p.live && v in p.live[n] ensures v.Issued? && v.serial < p.minted {
      SyncNodesMint(w, c, nodes, oracle, n);
      assert v in Live(p, n);
    }
  }

  lemma AbortRemoveAccounted(w: World, c: Id, nodes: seq<Id>, oracle: (Id, Id) -> Reply)
    requires Accounted(w)
    ensures Accounted(w.(p := DropKeys(w, c, nodes, oracle).p))
  {
    var p := DropKeys(w, c, nodes, oracle).p;
    DropKeysRows(w, c, nodes, oracle);
    FewerRowsManaged(w, w.(p := p));
    forall n, v | n in p.live && v in p.live[n] ensures v.Issued? && v.serial < p.minted {
      DropKeysLive(w, c, nodes, oracle, n);
      assert v in Live(p, n) && v in Live(w.p, n);
    }
  }

  lemma ActAccounted(w: World, a: KeyAct)
    requires Accounted(w)
    ensures Accounted(Act(w, a))
  {
    match a
    case SyncAct(c, n, r) =>
      SyncNodeKeepsSound(w, c, n, r);
      SyncKeepsManaged(w, c, n, r);
      SyncKeepsMinted(w, c, n, r);
    case DropAct(c, n, r, actor) =>
      DeleteKeepsSound(w.db, KeyT(c, n), actor);
      DropKeyRemoves(w, c, n, r, actor);
      FewerRowsManaged(w, DropKey(w, c, n, r, actor));
      DropKeepsMinted(w, c, n, r, actor);
    case StoreAct(call, actor) =>
      ApplyKeepsSound(w.db, call, actor);
      if !WritesKeys(call) {
        RegistryOnlyDropsKeys(w.db, call, actor);
        FewerRowsManaged(w, Act(w, a));
      }
    case AbortSyncAct(c, nodes, oracle) => AbortSyncAccounted(w, c, nodes, oracle);
    case AbortRemoveAct(c, nodes, oracle) => AbortRemoveAccounted(w, c, nodes, oracle);
  }

  /** A sync that raises leaks on a node exactly if one of its completed rounds minted there. */
  lemma AbortSyncTracksIff(w: World, c: Id, nodes: seq<Id>, oracle: (Id, Id) -> Reply, m: Id)
    requires Accounted(w)
    ensures Tracked(w.(p := SyncNodes(w, c, nodes, oracle).p), m) <==> Tracked(w, m) && !MintsAt(w, c, nodes, oracle, m)
  {
    SyncNodesMint(w, c, nodes, oracle, m);
    if MintsAt(w, c, nodes, oracle, m) {
      var i: nat :| w.p.minted <= i && Issued(i) in Live(SyncNodes(w, c, nodes, oracle).p, m);
      forall k | k in w.db.t.keys ensures w.db.t.keys[k].key != Issued(i) {
        assert RowManaged(w.p, w.db.t.keys[k]);
      }
    }
  }

  /** Whether a sync mints on a node can be read off its row and reply before the call. */
  lemma {:induction false} MintsAtIff(w: World, c: Id, nodes: seq<Id>, oracle: (Id, Id) -> Reply, m: Id)
    requires Distinct(nodes)
    ensures MintsAt(w, c, nodes, oracle, m)
       <==> m in nodes && Generates(w.db.t, c, m) && oracle(c, m).generation != NotMinted
  {
    if nodes != [] {
      var k := |nodes| - 1;
      DistinctPrefix(nodes);
      MintsAtIff(w, c, nodes[..k], oracle, m);
      Reconcile.SyncNodesOnlyKeys(w, c, nodes[..k], oracle);
      assert Reconcile.SameKey(w.db.t, SyncNodes(w, c, nodes[..k], oracle).db.t, (c, nodes[k]));
    }
  }

  lemma AbortRemoveTracksIff(w: World, c: Id, nodes: seq<Id>, oracle: (Id, Id) -> Reply, m: Id)
    requires Accounted(w)
    ensures Tracked(w.(p := DropKeys(w, c, nodes, oracle).p), m) <==> Tracked(w, m)
  {
    DropKeysLive(w, c, nodes, oracle, m);
    if Revokes(w.db.t, c, m) {
      assert w.db.t.keys[(c, m)].key in KeysAt(w.db.t.keys, m);
    }
  }

  lemma ActTracksIff(w: World, a: KeyAct, m: Id)
    requires Accounted(w)
    ensures Tracked(Act(w, a), m) <==> Tracked(w, m) && Tracks(w, a, m)
  {
    match a
    case SyncAct(c, n, r) => if Registered(w.db.t, c, n) { SyncTracksIff(w, c, n, r, m); }
    case DropAct(c, n, r, actor) => DropTracksIff(w, c, n, r, actor, m);
    case StoreAct(call, actor) => if !WritesKeys(call) { StoreTracksIff(w, call, actor, m); }
    case AbortSyncAct(c, nodes, oracle) => AbortSyncTracksIff(w, c, nodes, oracle, m);
    case AbortRemoveAct(c, nodes, oracle) => AbortRemoveTracksIff(w, c, nodes, oracle, m);
  }

  // ---------- Dead keys ----------

  lemma SyncDeadIff(w: World, d: Id, m: Id, r: Reply, c: Id, n: Id)
    requires Accounted(w) && Registered(w.db.t, d, m)
    ensures Dead(SyncNode(w, d, m, r), c, n) <==> Dead(w, c, n) && !(d == c && m == n && !r.updated)
  {
    SyncNodeEffect(w, d, m, r);
    if (c, n) in w.db.t.keys { assert RowManaged(w.p, w.db.t.keys[(c, n)]); }
  }

  lemma DropDeadIff(w: World, d: Id, m: Id, r: Reply, actor: string, c: Id, n: Id)
    requires Accounted(w)
    ensures Dead(DropKey(w, d, m, r, actor), c, n) <==> Dead(w, c, n) && !(d == c && m == n)
  {
    DropKeyRemoves(w, d, m, r, actor);
    if (c, n) in w.db.t.keys {
      assert RowManaged(w.p, w.db.t.keys[(c, n)]);
      DropKeyProxies(w, d, m, r, actor, n, w.db.t.keys[(c, n)].key);
    }
  }

  lemma StoreDeadIff(w: World, call: StoreCall, actor: string, c: Id, n: Id)
    requires Accounted(w) && !WritesKeys(call)
    ensures Dead(w.(db := Apply(w.db, call, actor)), c, n)
       <==> Dead(w, c, n) && call != Deleting(NodeT(n)) && call != Deleting(ConsumerT(c))
  {
    RegistryOnlyDropsKeys(w.db, call, actor);
    if call.Deleting? { DeleteOnlyDropsKeys(w.db, call.target, actor); }
  }

  lemma AbortRemoveDeadIff(w: World, d: Id, nodes: seq<Id>, oracle: (Id, Id) -> Reply, c: Id, n: Id)
    requires Accounted(w)
    ensures Dead(w.(p := DropKeys(w, d, nodes, oracle).p), c, n)
       <==> Dead(w, c, n) || Kills(w, AbortRemoveAct(d, nodes, oracle), c, n)
  {
    DropKeysLive(w, d, nodes, oracle, n);
    if (c, n) in w.db.t.keys { assert RowManaged(w.p, w.db.t.keys[(c, n)]); }
  }

  /** An active row comes to hold a dead key only by a removal that revoked it and then raised; a failed
      update, a deletion or a cascade ends that, and nothing else does. */
  lemma ActDeadIff(w: World, a: KeyAct, c: Id, n: Id)
    requires Accounted(w)
    ensures Dead(Act(w, a), c, n) <==> Kills(w, a, c, n) || (Dead(w, c, n) && !Ends(a, c, n))
  {
    match a
    case SyncAct(d, m, r) => if Registered(w.db.t, d, m) { SyncDeadIff(w, d, m, r, c, n); }
    case DropAct(d, m, r, actor) => DropDeadIff(w, d, m, r, actor, c, n);
    case StoreAct(call, actor) => if !WritesKeys(call) { StoreDeadIff(w, call, actor, c, n); }
    case AbortSyncAct(d, nodes, oracle) =>
      SyncNodesMint(w, d, nodes, oracle, n);
      if (c, n) in w.db.t.keys { assert RowManaged(w.p, w.db.t.keys[(c, n)]); }
    case AbortRemoveAct(d, nodes, oracle) => AbortRemoveDeadIff(w, d, nodes, oracle, c, n);
  }

  // ---------- Sequences of acts ----------

  function ActAll(w: World, acts: seq<KeyAct>): World {
    if acts == [] then w else Act(ActAll(w, acts[..|acts| - 1]), acts[|acts| - 1])
  }

  /** Every act meets its condition in the state it finds. */
  predicate AllTrack(w: World, acts: seq<KeyAct>, m: Id) {
    if acts == [] then true
    else
      var n := |acts| - 1;
      AllTrack(w, acts[..n], m) && Tracks(ActAll(w, acts[..n]), acts[n], m)
  }

  lemma {:induction false} ActsTrackIff(w: World, acts: seq<KeyAct>, m: Id)
    requires Accounted(w)
    ensures Accounted(ActAll(w, acts))
    ensures Tracked(ActAll(w, acts), m) <==> Tracked(w, m) && AllTrack(w, acts, m)
  {
    if acts != [] {
      var n := |acts| - 1;
      ActsTrackIff(w, acts[..n], m);
      ActAccounted(ActAll(w, acts[..n]), acts[n]);
      ActTracksIff(ActAll(w, acts[..n]), acts[n], m);
    }
  }

  /** The last act that kills or ends the row kills it; if none does, it was dead before. */
  predicate Killed(before: bool, w: World, acts: seq<KeyAct>, c: Id, n: Id) {
    if acts == [] then before
    else
      var k := |acts| - 1;
      Kills(ActAll(w, acts[..k]), acts[k], c, n) || (Killed(before, w, acts[..k], c, n) && !Ends(acts[k], c, n))
  }

  lemma {:induction false} ActsDeadIff(w: World, acts: seq<KeyAct>, c: Id, n: Id)
    requires Accounted(w)
    ensures Accounted(ActAll(w, acts))
    ensures Dead(ActAll(w, acts), c, n) <==> Killed(Dead(w, c, n), w, acts, c, n)
  {
    if acts != [] {
      var k := |acts| - 1;
      ActsDeadIff(w, acts[..k], c, n);
      ActAccounted(ActAll(w, acts[..k]), acts[k]);
      ActDeadIff(ActAll(w, acts[..k]), acts[k], c, n);
    }
  }

  lemma ActOneMore(w: World, acts: seq<KeyAct>, a: KeyAct)
    ensures ActAll(w, acts + [a]) == Act(ActAll(w, acts), a)
  {
    assert (acts + [a])[..|acts|] == acts;
  }

  lemma OneAct(w: World, a: KeyAct)
    ensures ActAll(w, [a]) == Act(w, a)
  {
    assert [a][..0] == [];
  }

  lemma {:induction false} ActAppend(w: World, a: seq<KeyAct>, b: seq<KeyAct>)
    ensures ActAll(w, a + b) == ActAll(ActAll(w, a), b)
  {
    if b == [] {
      assert a + b == a;
    } else {
      var n := |b| - 1;
      ActAppend(w, a, b[..n]);
      assert a + b == (a + b[..n]) + [b[n]];
      ActOneMore(w, a + b[..n], b[n]);
    }
  }

  // ---------- Every operation is a sequence of acts ----------

  function SyncActs(c: Id, nodes: seq<Id>, oracle: (Id, Id) -> Reply): seq<KeyAct> {
    if nodes == [] then []
    else
      var n := nodes[|nodes| - 1];
      SyncActs(c, nodes[..|nodes| - 1], oracle) + [SyncAct(c, n, oracle(c, n))]
  }

  function DropActs(c: Id, nodes: seq<Id>, oracle: (Id, Id) -> Reply): seq<KeyAct> {
    if nodes == [] then []
    else
      var n := nodes[|nodes| - 1];
      DropActs(c, nodes[..|nodes| - 1], oracle) + [DropAct(c, n, oracle(c, n), KEY_ACTOR)]
  }

  function ActsOfSync(t: Tables, c: Id, order: seq<Id>, oracle: (Id, Id) -> Reply): seq<KeyAct> {
    if c in t.consumers then SyncActs(c, ActiveProxies(t, order), oracle) else []
  }

  function ActsOfSyncs(w: World, consumers: seq<Id>, order: seq<Id>, oracle: (Id, Id) -> Reply): seq<KeyAct> {
    if consumers == [] then []
    else
      var n := |consumers| - 1;
      ActsOfSyncs(w, consumers[..n], order, oracle)
      + ActsOfSync(SyncEach(w, consumers[..n], order, oracle).db.t, consumers[n], order, oracle)
  }

  function ActsOf(w: World, s: KeyStep): seq<KeyAct> {
    match s
    case SyncStep(c, order, oracle) => ActsOfSync(w.db.t, c, order, oracle)
    case RemoveStep(c, order, oracle, actor) =>
      if c !in w.db.t.consumers then []
      else DropActs(c, KeyNodes(w.db.t, c, order), oracle) + [StoreAct(Deleting(ConsumerT(c)), actor)]
    case RetryStep(consumerOrder, order, oracle) =>
      ActsOfSyncs(w, StaleConsumers(w.db.t, consumerOrder), order, oracle)
    case OrphanStep(c, n, r, actor) => [DropAct(c, n, r, actor)]
    case RegistryStep(call, actor) => [StoreAct(call, actor)]
  }

  function ActsOfCall(w: World, call: KeyCall): seq<KeyAct> {
    match call
    case Step(step) => ActsOf(w, step)
    case SyncCall(c, order, oracle, configured) =>
      if !SyncRaises(w.db.t, c, order, configured) then ActsOfSync(w.db.t, c, order, oracle)
      else [AbortSyncAct(c, ActiveProxies(w.db.t, order)[..SyncRounds(w.db.t, order, configured)], oracle)]
    case RemoveCall(c, order, oracle, actor, configured) =>
      if !RemoveRaises(w.db.t, c, order, configured) then ActsOf(w, RemoveStep(c, order, oracle, actor))
      else [AbortRemoveAct(c, KeyNodes(w.db.t, c, order)[..RemoveRounds(w.db.t, c, order, configured)], oracle)]
  }

  function ActsOfRun(w: World, calls: seq<KeyCall>): seq<KeyAct> {
    if |calls| == 0 then []
    else
      var n := |calls| - 1;
      ActsOfRun(w, calls[..n]) + ActsOfCall(CallRun(w, calls[..n]), calls[n])
  }

  lemma SyncNodeIsAct(w: World, c: Id, n: Id, r: Reply)
    requires Registered(w.db.t, c, n)
    ensures var after := SyncNode(w, c, n, r);
            && after == Act(w, SyncAct(c, n, r))
            && after.db.t.nodes == w.db.t.nodes && after.db.t.consumers == w.db.t.consumers
  {
    SyncNodeEffect(w, c, n, r);
  }

  lemma {:induction false} SyncNodesAreActs(w: World, c: Id, nodes: seq<Id>, oracle: (Id, Id) -> Reply)
    requires forall n :: n in nodes ==> Registered(w.db.t, c, n)
    ensures var after := SyncNodes(w, c, nodes, oracle);
            && after == ActAll(w, SyncActs(c, nodes, oracle))
            && after.db.t.nodes == w.db.t.nodes && after.db.t.consumers == w.db.t.consumers
  {
    if nodes != [] {
      var m := |nodes| - 1;
      assert nodes == nodes[..m] + [nodes[m]];
      SyncNodesAreActs(w, c, nodes[..m], oracle);
      assert nodes[m] in nodes;
      SyncNodeIsAct(SyncNodes(w, c, nodes[..m], oracle), c, nodes[m], oracle(c, nodes[m]));
      ActOneMore(w, SyncActs(c, nodes[..m], oracle), SyncAct(c, nodes[m], oracle(c, nodes[m])));
    }
  }

  lemma SyncIsActs(w: World, c: Id, order: seq<Id>, oracle: (Id, Id) -> Reply)
    ensures Sync(w, c, order, oracle) == ActAll(w, ActsOfSync(w.db.t, c, order, oracle))
  {
    if c in w.db.t.consumers {
      var nodes := ActiveProxies(w.db.t, order);
      forall n | n in nodes ensures Registered(w.db.t, c, n) {
        ActiveProxiesMeaning(w.db.t, order, n);
      }
      SyncNodesAreActs(w, c, nodes, oracle);
    }
  }

  lemma {:induction false} SyncEachIsActs(w: World, consumers: seq<Id>, order: seq<Id>, oracle: (Id, Id) -> Reply)
    ensures SyncEach(w, consumers, order, oracle) == ActAll(w, ActsOfSyncs(w, consumers, order, oracle))
  {
    if consumers != [] {
      var n := |consumers| - 1;
      var before := SyncEach(w, consumers[..n], order, oracle);
      SyncEachIsActs(w, consumers[..n], order, oracle);
      SyncIsActs(before, consumers[n], order, oracle);
      ActAppend(w, ActsOfSyncs(w, consumers[..n], order, oracle), ActsOfSync(before.db.t, consumers[n], order, oracle));
    }
  }

  lemma {:induction false} DropKeysAreActs(w: World, c: Id, nodes: seq<Id>, oracle: (Id, Id) -> Reply)
    ensures DropKeys(w, c, nodes, oracle) == ActAll(w, DropActs(c, nodes, oracle))
  {
    if nodes != [] {
      var m := |nodes| - 1;
      DropKeysAreActs(w, c, nodes[..m], oracle);
      ActOneMore(w, DropActs(c, nodes[..m], oracle), DropAct(c, nodes[m], oracle(c, nodes[m]), KEY_ACTOR));
    }
  }

  lemma RemoveIsActs(w: World, c: Id, order: seq<Id>, oracle: (Id, Id) -> Reply, actor: string)
    requires c in w.db.t.consumers
    ensures RemoveConsumer(w, c, order, oracle, actor) == ActAll(w, ActsOf(w, RemoveStep(c, order, oracle, actor)))
  {
    var nodes, last := KeyNodes(w.db.t, c, order), StoreAct(Deleting(ConsumerT(c)), actor);
    DropKeysAreActs(w, c, nodes, oracle);
    ActOneMore(w, DropActs(c, nodes, oracle), last);
    ConsumerDeletionIsAct(DropKeys(w, c, nodes, oracle), c, actor);
  }

  lemma ConsumerDeletionIsAct(w: World, c: Id, actor: string)
    ensures Act(w, StoreAct(Deleting(ConsumerT(c)), actor)) == w.(db := DeleteRow(w.db, ConsumerT(c), actor))
  {
  }

  lemma StepIsActs(w: World, s: KeyStep)
    ensures TakeKeyStep(w, s) == ActAll(w, ActsOf(w, s))
  {
    match s
    case SyncStep(c, order, oracle) => SyncIsActs(w, c, order, oracle);
    case RemoveStep(c, order, oracle, actor) =>
      if c in w.db.t.consumers { RemoveIsActs(w, c, order, oracle, actor); }
    case RetryStep(consumerOrder, order, oracle) =>
      SyncEachIsActs(w, StaleConsumers(w.db.t, consumerOrder), order, oracle);
    case OrphanStep(c, n, r, actor) => OneAct(w, DropAct(c, n, r, actor));
    case RegistryStep(call, actor) => OneAct(w, StoreAct(call, actor));
  }

  lemma CallIsActs(w: World, call: KeyCall)
    ensures TakeCall(w, call) == ActAll(w, ActsOfCall(w, call))
  {
    match call
    case Step(step) => StepIsActs(w, step);
    case SyncCall(c, order, oracle, configured) =>
      SyncIsActs(w, c, order, oracle);
      OneAct(w, AbortSyncAct(c, ActiveProxies(w.db.t, order)[..SyncRounds(w.db.t, order, configured)], oracle));
    case RemoveCall(c, order, oracle, actor, configured) =>
      StepIsActs(w, RemoveStep(c, order, oracle, actor));
      OneAct(w, AbortRemoveAct(c, KeyNodes(w.db.t, c, order)[..RemoveRounds(w.db.t, c, order, configured)], oracle));
  }

  lemma {:induction false} RunIsActs(w: World, calls: seq<KeyCall>)
    ensures CallRun(w, calls) == ActAll(w, ActsOfRun(w, calls))
  {
    if |calls| > 0 {
      var n := |calls| - 1;
      var before := CallRun(w, calls[..n]);
      RunIsActs(w, calls[..n]);
      CallIsActs(before, calls[n]);
      ActAppend(w, ActsOfRun(w, calls[..n]), ActsOfCall(before, calls[n]));
    }
  }

  /** Over every run, whatever adapters do and whichever calls raise: a node has no leaked key at the
      end exactly if it had none at the start and every act met its condition. A leak is never mended. */
  lemma RunTracksIff(w: World, calls: seq<KeyCall>, m: Id)
    requires Accounted(w)
    ensures Accounted(CallRun(w, calls))
    ensures Tracked(CallRun(w, calls), m) <==> Tracked(w, m) && AllTrack(w, ActsOfRun(w, calls), m)
  {
    RunIsActs(w, calls);
    ActsTrackIff(w, ActsOfRun(w, calls), m);
  }

  /** Over every run: an active row holds a dead key at the end exactly if the last act that kills or
      ends it is a raising removal that had revoked it. */
  lemma RunDeadIff(w: World, calls: seq<KeyCall>, c: Id, n: Id)
    requires Accounted(w)
    ensures Dead(CallRun(w, calls), c, n) <==> Killed(Dead(w, c, n), w, ActsOfRun(w, calls), c, n)
  {
    RunIsActs(w, calls);
    ActsDeadIff(w, ActsOfRun(w, calls), c, n);
  }

  lemma FailedUpdatePends(w: World, c: Id, n: Id, failed: Reply)
    requires Accounted(w) && HoldsLive(w, c, n) && w.db.t.keys[(c, n)].status == KeyActive && !failed.updated
    ensures var pending := SyncNode(w, c, n, failed);
            Registered(pending.db.t, c, n) && Generates(pending.db.t, c, n) && HoldsLive(pending, c, n)
  {
    SyncNodeEffect(w, c, n, failed);
  }

  /** A failed update and the recovery after it leak the old key, for every run that follows. */
  lemma FailedUpdateLeaks(w: World, c: Id, n: Id, failed: Reply, recovery: Reply, calls: seq<KeyCall>)
    requires Accounted(w) && HoldsLive(w, c, n) && w.db.t.keys[(c, n)].status == KeyActive
    requires !failed.updated && recovery.generation == Minted
    ensures !Tracked(CallRun(SyncNode(SyncNode(w, c, n, failed), c, n, recovery), calls), n)
  {
    var pending := SyncNode(w, c, n, failed);
    var after := SyncNode(pending, c, n, recovery);
    FailedUpdatePends(w, c, n, failed);
    ActAccounted(w, SyncAct(c, n, failed));
    assert Accounted(pending) && !SyncTracks(pending, c, n, recovery);
    SyncTracksIff(pending, c, n, recovery, n);
    ActAccounted(pending, SyncAct(c, n, recovery));
    RunTracksIff(after, calls, n);
  }

  // ---------- Without adapter failures ----------

  /** On every registered node the live keys are exactly the keys of its rows, all active. */
  predicate Exact(w: World) {
    && Accounted(w) && Backed(w) && AllActive(w.db.t.keys)
    && (forall n :: n in w.db.t.nodes ==> Live(w.p, n) == KeysAt(w.db.t.keys, n))
  }

  /** No adapter call of the step fails; registry calls are not restricted. */
  ghost predicate Smooth(s: KeyStep) {
    match s
    case SyncStep(_, _, oracle) => NeverFails(oracle)
    case RemoveStep(_, _, oracle, _) => NeverFails(oracle)
    case RetryStep(_, _, oracle) => NeverFails(oracle)
    case OrphanStep(_, _, r, _) => r == ALL_WELL
    case RegistryStep(_, _) => true
  }

  ghost predicate AllSmooth(acts: seq<KeyAct>) {
    forall a :: a in acts ==> a.StoreAct? || ((a.SyncAct? || a.DropAct?) && a.reply == ALL_WELL)
  }

  /** No registry call along the way deletes the row of a key live on `m`. */
  predicate DeletesNoLive(w: World, acts: seq<KeyAct>, m: Id) {
    if acts == [] then true
    else
      var n := |acts| - 1;
      && DeletesNoLive(w, acts[..n], m)
      && (acts[n].StoreAct? ==> StoreTracks(ActAll(w, acts[..n]), acts[n].call, m))
  }

  lemma SmoothActKeepsActive(w: World, a: KeyAct)
    requires AllActive(w.db.t.keys) && AllSmooth([a])
    ensures AllActive(Act(w, a).db.t.keys)
  {
    assert a in [a];
    match a
    case SyncAct(c, n, r) => SyncNodeEffect(w, c, n, r);
    case DropAct(c, n, r, actor) => DropKeyRemoves(w, c, n, r, actor);
    case StoreAct(call, actor) => if !WritesKeys(call) { RegistryOnlyDropsKeys(w.db, call, actor); }
  }

  lemma SmoothActTracks(w: World, a: KeyAct, m: Id)
    requires Accounted(w) && AllActive(w.db.t.keys) && AllSmooth([a])
    ensures Tracks(w, a, m) <==> (a.StoreAct? ==> StoreTracks(w, a.call, m))
  {
    assert a in [a];
    if a.DropAct? && HoldsLive(w, a.consumer, a.node) {
      assert RowManaged(w.p, w.db.t.keys[(a.consumer, a.node)]);
    }
  }

  lemma SmoothActKeepsBacked(w: World, a: KeyAct)
    requires Accounted(w) && Backed(w) && AllSmooth([a])
    ensures Backed(Act(w, a))
  {
    assert a in [a];
    ActAccounted(w, a);
    BackedIffNoneDead(w);
    BackedIffNoneDead(Act(w, a));
    forall c, n ensures !Dead(Act(w, a), c, n) {
      ActDeadIff(w, a, c, n);
    }
  }

  lemma {:induction false} SmoothActsTrackIff(w: World, acts: seq<KeyAct>, m: Id)
    requires Accounted(w) && Backed(w) && AllActive(w.db.t.keys) && AllSmooth(acts)
    ensures Accounted(ActAll(w, acts)) && Backed(ActAll(w, acts)) && AllActive(ActAll(w, acts).db.t.keys)
    ensures AllTrack(w, acts, m) <==> DeletesNoLive(w, acts, m)
  {
    if acts != [] {
      var n := |acts| - 1;
      var before := ActAll(w, acts[..n]);
      SmoothActsTrackIff(w, acts[..n], m);
      ActAccounted(before, acts[n]);
      SmoothActKeepsBacked(before, acts[n]);
      SmoothActKeepsActive(before, acts[n]);
      SmoothActTracks(before, acts[n], m);
    }
  }

  lemma {:induction false} SyncActsSmooth(c: Id, nodes: seq<Id>, oracle: (Id, Id) -> Reply)
    requires NeverFails(oracle)
    ensures AllSmooth(SyncActs(c, nodes, oracle)) && AllSmooth(DropActs(c, nodes, oracle))
  {
    if nodes != [] {
      SyncActsSmooth(c, nodes[..|nodes| - 1], oracle);
      assert oracle(c, nodes[|nodes| - 1]) == ALL_WELL;
    }
  }

  lemma {:induction false} ActsOfSyncsSmooth(w: World, consumers: seq<Id>, order: seq<Id>, oracle: (Id, Id) -> Reply)
    requires NeverFails(oracle)
    ensures AllSmooth(ActsOfSyncs(w, consumers, order, oracle))
  {
    if consumers != [] {
      var n := |consumers| - 1;
      ActsOfSyncsSmooth(w, consumers[..n], order, oracle);
      SyncActsSmooth(consumers[n], ActiveProxies(SyncEach(w, consumers[..n], order, oracle).db.t, order), oracle);
    }
  }

  lemma ActsOfSmooth(w: World, s: KeyStep)
    requires Smooth(s)
    ensures AllSmooth(ActsOf(w, s))
  {
    match s
    case SyncStep(c, order, oracle) => SyncActsSmooth(c, ActiveProxies(w.db.t, order), oracle);
    case RemoveStep(c, order, oracle, _) => SyncActsSmooth(c, KeyNodes(w.db.t, c, order), oracle);
    case RetryStep(consumerOrder, order, oracle) =>
      ActsOfSyncsSmooth(w, StaleConsumers(w.db.t, consumerOrder), order, oracle);
    case _ =>
  }

  ghost predicate SmoothRun(calls: seq<KeyCall>) {
    forall call :: call in calls ==> call.Step? && Smooth(call.step)
  }

  lemma {:induction false} ActsOfRunSmooth(w: World, calls: seq<KeyCall>)
    requires SmoothRun(calls)
    ensures AllSmooth(ActsOfRun(w, calls))
  {
    if |calls| > 0 {
      var n := |calls| - 1;
      ActsOfRunSmooth(w, calls[..n]);
      ActsOfSmooth(CallRun(w, calls[..n]), calls[n].step);
    }
  }

  lemma ExactIffTracked(w: World, n: Id)
    requires Accounted(w) && Backed(w) && AllActive(w.db.t.keys)
    ensures Live(w.p, n) == KeysAt(w.db.t.keys, n) <==> Tracked(w, n)
  {
    forall v | v in KeysAt(w.db.t.keys, n) ensures v in Live(w.p, n) {
      var k :| k in w.db.t.keys && k.1 == n && w.db.t.keys[k].key == v;
      assert RowBacked(w.p, k, w.db.t.keys[k]);
    }
  }

  lemma UnregisteredTracked(w: World, n: Id)
    requires Sound(w.db) && n !in w.db.t.nodes
    ensures Tracked(w, n) <==> Live(w.p, n) == {}
  {
    forall k | k in w.db.t.keys ensures k.1 != n {
      assert k == (k.0, k.1);
    }
    assert KeysAt(w.db.t.keys, n) == {};
  }

  /** In runs where no adapter call fails, the live keys on each node registered at the end are
      exactly those of its rows if and only if no node or consumer was deleted while a row of it held
      a live key there, and nothing was live on a proxy before its node was first registered. */
  lemma FailureFreeRunsAreExactIff(w: World, calls: seq<KeyCall>)
    requires Exact(w) && SmoothRun(calls)
    ensures Exact(CallRun(w, calls))
       <==> forall m :: m in CallRun(w, calls).db.t.nodes ==>
              && (m in w.db.t.nodes || Live(w.p, m) == {})
              && DeletesNoLive(w, ActsOfRun(w, calls), m)
  {
    var after, acts := CallRun(w, calls), ActsOfRun(w, calls);
    ActsOfRunSmooth(w, calls);
    RunIsActs(w, calls);
    forall m
      ensures Accounted(after) && Backed(after) && AllActive(after.db.t.keys)
      ensures Live(after.p, m) == KeysAt(after.db.t.keys, m)
         <==> (m in w.db.t.nodes || Live(w.p, m) == {}) && DeletesNoLive(w, acts, m)
    {
      SmoothActsTrackIff(w, acts, m);
      RunTracksIff(w, calls, m);
      ExactIffTracked(after, m);
      if m !in w.db.t.nodes { UnregisteredTracked(w, m); }
    }
    var any: Id := "";
    SmoothActsTrackIff(w, acts, any);
  }
}
