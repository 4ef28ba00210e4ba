/**
 The generator and the policy engine are written independently, over different joins and
 one node versus all nodes at a time. They select the same endpoints.
 */
module Agreement {
  import opened Prelude
  import opened Schema
  import opened Store
  import opened Generator
  import opened Policy
  import opened Ingestion
  import opened HealthRuns
  import opened HealthLocks

  /** The entries under one `model_name`. */
  function Under(entries: seq<Entry>, group: string): seq<Entry> {
    if entries == [] then []
    else
      var last := entries[|entries| - 1];
      Under(entries[..|entries| - 1], group) + (if last.modelName == group then [last] else [])
  }

  /** What all nodes' configs hold under `group`; each node's query may use its own row order. */
  function EverywhereUnder(t: Tables, outside: Outside, nodes: seq<Id>, scan: Id -> seq<Id>,
                           group: string): seq<Entry> {
    if nodes == [] then []
    else
      var node := nodes[|nodes| - 1];
      EverywhereUnder(t, outside, nodes[..|nodes| - 1], scan, group)
      + Under(Generate(t, outside, node, scan(node)).modelList, group)
  }

  /** The entries of the given endpoints: one for each that is routable and whose secret resolves. */
  function EntriesOf(t: Tables, outside: Outside, ids: seq<Id>): seq<Entry> {
    if ids == [] then []
    else EntriesOf(t, outside, ids[..|ids| - 1]) + EntryOrNone(t, outside, ids[|ids| - 1])
  }

  function EntryOrNone(t: Tables, outside: Outside, e: Id): seq<Entry> {
    if !Joined(t, e) then []
    else
      var entry := Emit(RowOf(t, e), outside);
      if entry.Some? then [entry.value] else []
  }

  // ---------- Both sides as entries of endpoint lists ----------

  function OnNodeInGroup(t: Tables, node: Id, order: seq<Id>, group: string): seq<Id> {
    if order == [] then []
    else
      var e := order[|order| - 1];
      OnNodeInGroup(t, node, order[..|order| - 1], group)
      + (if InGroup(t, e, group) && t.endpoints[e].node == node then [e] else [])
  }

  lemma EntriesAppend(t: Tables, outside: Outside, ids: seq<Id>, e: Id)
    ensures EntriesOf(t, outside, ids + [e]) == EntriesOf(t, outside, ids) + EntryOrNone(t, outside, e)
  {
    assert (ids + [e])[..|ids|] == ids;
  }

  lemma Regroup(a: seq<Entry>, b: seq<Entry>, c: seq<Entry>)
    ensures (a + b) + c == a + (b + c)
  {
  }

  lemma {:induction false} EntriesConcat(t: Tables, outside: Outside, a: seq<Id>, b: seq<Id>)
    ensures EntriesOf(t, outside, a + b) == EntriesOf(t, outside, a) + EntriesOf(t, outside, b)
  {
    if b == [] {
      assert a + b == a;
    } else {
      var n := |b| - 1;
      assert (a + b)[..|a| + n] == a + b[..n] && (a + b)[|a| + n] == b[n];
      EntriesConcat(t, outside, a, b[..n]);
      Regroup(EntriesOf(t, outside, a), EntriesOf(t, outside, b[..n]), EntryOrNone(t, outside, b[n]));
    }
  }

  lemma UnderAppend(entries: seq<Entry>, more: seq<Entry>, group: string)
    requires |more| <= 1
    ensures Under(entries + more, group)
         == Under(entries, group) + (if |more| == 1 && more[0].modelName == group then more else [])
  {
    if |more| == 1 {
      assert (entries + more)[..|entries|] == entries;
    } else {
      assert entries + more == entries;
    }
  }

  lemma RowUnder(t: Tables, outside: Outside, rows: seq<JoinRow>, e: Id, group: string)
    requires Joined(t, e)
    ensures Under(Compile(rows + [RowOf(t, e)], outside), group)
         == Under(Compile(rows, outside), group) + (if InGroup(t, e, group) then EntryOrNone(t, outside, e) else [])
  {
    assert (rows + [RowOf(t, e)])[..|rows|] == rows;
    UnderAppend(Compile(rows, outside), EntryOrNone(t, outside, e), group);
  }

  lemma {:induction false} NodeConfigUnder(t: Tables, outside: Outside, node: Id, order: seq<Id>, group: string)
    requires SoundTables(t)
    ensures Under(Generate(t, outside, node, order).modelList, group)
         == EntriesOf(t, outside, OnNodeInGroup(t, node, order, group))
  {
    if order != [] {
      var n := |order| - 1;
      var e := order[n];
      NodeConfigUnder(t, outside, node, order[..n], group);
      assert e in t.endpoints ==> Joined(t, e);
      if Joined(t, e) && t.endpoints[e].node == node {
        RowUnder(t, outside, SelectNode(t, node, order[..n]), e, group);
        EntriesAppend(t, outside, OnNodeInGroup(t, node, order[..n], group), e);
        assert SelectNode(t, node, order) == SelectNode(t, node, order[..n]) + [RowOf(t, e)];
      } else {
        assert SelectNode(t, node, order) == SelectNode(t, node, order[..n]);
      }
      if !(InGroup(t, e, group) && t.endpoints[e].node == node) {
        assert OnNodeInGroup(t, node, order, group) == OnNodeInGroup(t, node, order[..n], group);
      }
    }
  }

  function OnNodesInGroup(t: Tables, nodes: seq<Id>, scan: Id -> seq<Id>, group: string): seq<Id> {
    if nodes == [] then []
    else
      var node := nodes[|nodes| - 1];
      OnNodesInGroup(t, nodes[..|nodes| - 1], scan, group) + OnNodeInGroup(t, node, scan(node), group)
  }

  lemma {:induction false} AllConfigsUnder(t: Tables, outside: Outside, nodes: seq<Id>, scan: Id -> seq<Id>,
                                           group: string)
    requires SoundTables(t)
    ensures EverywhereUnder(t, outside, nodes, scan, group)
         == EntriesOf(t, outside, OnNodesInGroup(t, nodes, scan, group))
  {
    if nodes != [] {
      var n := |nodes| - 1;
      AllConfigsUnder(t, outside, nodes[..n], scan, group);
      NodeConfigUnder(t, outside, nodes[n], scan(nodes[n]), group);
      EntriesConcat(t, outside, OnNodesInGroup(t, nodes[..n], scan, group),
                    OnNodeInGroup(t, nodes[n], scan(nodes[n]), group));
    }
  }

  lemma DroppedHasNoEntry(t: Tables, outside: Outside, e: Id)
    requires !Eligible(t, e)
    ensures EntryOrNone(t, outside, e) == []
  {
    if Joined(t, e) {
      var row := RowOf(t, e);
      assert !Routable(row.override, row.endpointStatus, row.accountStatus);
    }
  }

  /** An endpoint the exclusion rule drops has no entry either. */
  lemma {:induction false} EntriesOfKept(t: Tables, outside: Outside, ids: seq<Id>)
    ensures EntriesOf(t, outside, Keep(t, ids)) == EntriesOf(t, outside, ids)
  {
    if ids != [] {
      var n := |ids| - 1;
      EntriesOfKept(t, outside, ids[..n]);
      if Eligible(t, ids[n]) {
        EntriesAppend(t, outside, Keep(t, ids[..n]), ids[n]);
      } else {
        DroppedHasNoEntry(t, outside, ids[n]);
        assert Keep(t, ids) == Keep(t, ids[..n]);
      }
    }
  }

  // ---------- The two lists hold the same endpoints ----------

  lemma {:induction false} SelectGroupDistinct(t: Tables, group: string, order: seq<Id>)
    requires Distinct(order)
    ensures Distinct(SelectGroup(t, group, order))
  {
    if order != [] {
      DistinctPrefix(order);
      SelectGroupDistinct(t, group, order[..|order| - 1]);
      SelectGroupMeaning(t, group, order[..|order| - 1], order[|order| - 1]);
    }
  }

  lemma {:induction false} OnNodeMeaning(t: Tables, node: Id, order: seq<Id>, group: string)
    requires Distinct(order)
    ensures Distinct(OnNodeInGroup(t, node, order, group))
    ensures forall e :: e in OnNodeInGroup(t, node, order, group)
                   <==> e in order && InGroup(t, e, group) && t.endpoints[e].node == node
  {
    if order != [] {
      DistinctPrefix(order);
      OnNodeMeaning(t, node, order[..|order| - 1], group);
    }
  }

  lemma DistinctConcat(a: seq<Id>, b: seq<Id>)
    requires Distinct(a) && Distinct(b) && (forall e :: e in a ==> e !in b)
    ensures Distinct(a + b)
  {
    forall i, j | 0 <= i < j < |a + b| ensures (a + b)[i] != (a + b)[j] {
      if i < |a| <= j {
        assert (a + b)[i] in a && (a + b)[j] in b;
      }
    }
  }

  lemma {:induction false} OnNodesMeaning(t: Tables, nodes: seq<Id>, scan: Id -> seq<Id>, group: string)
    requires Distinct(nodes) && (forall n :: Enumerates(scan(n), t.endpoints.Keys))
    ensures Distinct(OnNodesInGroup(t, nodes, scan, group))
    ensures forall e :: e in OnNodesInGroup(t, nodes, scan, group)
                   <==> InGroup(t, e, group) && t.endpoints[e].node in nodes
  {
    if nodes != [] {
      var n := |nodes| - 1;
      DistinctPrefix(nodes);
      OnNodesMeaning(t, nodes[..n], scan, group);
      OnNodeMeaning(t, nodes[n], scan(nodes[n]), group);
      assert Enumerates(scan(nodes[n]), t.endpoints.Keys);
      DistinctConcat(OnNodesInGroup(t, nodes[..n], scan, group), OnNodeInGroup(t, nodes[n], scan(nodes[n]), group));
    }
  }

  lemma {:induction false} DistinctMultiset(ids: seq<Id>, e: Id)
    requires Distinct(ids)
    ensures multiset(ids)[e] == if e in ids then 1 else 0
  {
    if ids != [] {
      DistinctPrefix(ids);
      DistinctMultiset(ids[..|ids| - 1], e);
    }
  }

  lemma SameMembersSameMultiset(a: seq<Id>, b: seq<Id>)
    requires Distinct(a) && Distinct(b) && (forall e :: e in a <==> e in b)
    ensures multiset(a) == multiset(b)
  {
    forall e ensures multiset(a)[e] == multiset(b)[e] {
      DistinctMultiset(a, e);
      DistinctMultiset(b, e);
    }
  }

  lemma RemoveOne(a: seq<Id>, left: seq<Id>, e: Id, right: seq<Id>)
    requires multiset(a + [e]) == multiset(left + [e] + right)
    ensures multiset(a) == multiset(left + right)
  {
    assert multiset(a + [e]) == multiset(a) + multiset{e};
    assert multiset(left + [e] + right) == multiset(left + right) + multiset{e};
    assert multiset(a) == multiset(a) + multiset{e} - multiset{e};
  }

  lemma EntriesAround(t: Tables, outside: Outside, left: seq<Id>, e: Id, right: seq<Id>)
    ensures multiset(EntriesOf(t, outside, left + [e] + right))
         == multiset(EntriesOf(t, outside, left + right)) + multiset(EntryOrNone(t, outside, e))
  {
    EntriesConcat(t, outside, left, right);
    EntriesConcat(t, outside, left + [e], right);
    EntriesAppend(t, outside, left, e);
  }

  /** Entries depend on which endpoints are listed, not on their order. */
  lemma {:induction false} EntriesRespectMultiset(t: Tables, outside: Outside, a: seq<Id>, b: seq<Id>)
    requires multiset(a) == multiset(b)
    ensures multiset(EntriesOf(t, outside, a)) == multiset(EntriesOf(t, outside, b))
    decreases |a|
  {
    if a == [] {
      assert |multiset(b)| == 0 && b == [];
    } else {
      var rest, e := a[..|a| - 1], a[|a| - 1];
      assert a == rest + [e];
      assert e in multiset(b);
      var i :| 0 <= i < |b| && b[i] == e;
      var left, right := b[..i], b[i + 1..];
      assert b == left + [e] + right;
      RemoveOne(rest, left, e, right);
      EntriesRespectMultiset(t, outside, rest, left + right);
      EntriesAppend(t, outside, rest, e);
      EntriesAround(t, outside, left, e, right);
    }
  }

  // ---------- The theorem ----------

  /** For a consumer allowed to use `group`, the candidates whose secrets resolve correspond one
      to one, as a multiset of entries, to what all nodes' configs hold under that group. */
  lemma GeneratorAgreesWithPolicy(t: Tables, outside: Outside, nodes: seq<Id>, scan: Id -> seq<Id>,
                                  consumer: Id, group: string, order: seq<Id>)
    requires SoundTables(t) && Allowed(t, consumer, group)
    requires Enumerates(nodes, t.nodes.Keys) && Enumerates(order, t.endpoints.Keys)
    requires forall n :: Enumerates(scan(n), t.endpoints.Keys)
    ensures multiset(EntriesOf(t, outside, Candidates(t, consumer, group, order)))
         == multiset(EverywhereUnder(t, outside, nodes, scan, group))
  {
    var everywhere, selected := OnNodesInGroup(t, nodes, scan, group), SelectGroup(t, group, order);
    AllConfigsUnder(t, outside, nodes, scan, group);
    EntriesOfKept(t, outside, selected);
    OnNodesMeaning(t, nodes, scan, group);
    SelectGroupDistinct(t, group, order);
    forall e ensures e in everywhere <==> e in selected {
      SelectGroupMeaning(t, group, order, e);
      if InGroup(t, e, group) {
        assert e in t.endpoints.Keys && t.endpoints[e].node in t.nodes.Keys;
      }
    }
    SameMembersSameMultiset(everywhere, selected);
    EntriesRespectMultiset(t, outside, everywhere, selected);
  }

  /** A candidate has an entry exactly when its secret resolves. */
  lemma CandidateEmittedIffResolvable(t: Tables, outside: Outside, consumer: Id, group: string, order: seq<Id>, e: Id)
    requires SoundTables(t) && e in Candidates(t, consumer, group, order)
    ensures Joined(t, e)
    ensures |EntryOrNone(t, outside, e)| == 1 <==> outside.resolve(t.accounts[t.endpoints[e].account].secretRef).Some?
    ensures |EntryOrNone(t, outside, e)| == 1 ==> EntryOrNone(t, outside, e)[0].modelName == group
  {
    CandidatesMeaning(t, consumer, group, order, e);
  }

  // ---------- A locked account is routed nowhere ----------

  /** Whatever its override, an endpoint of a disabled account is in no config and no candidate list. */
  lemma DisabledAccountIsRoutedNowhere(t: Tables, outside: Outside, consumer: Id, group: string, order: seq<Id>, a: Id,
                                       e: Id)
    requires IsDisabled(t, a) && e in t.endpoints && t.endpoints[e].account == a
    ensures EntryOrNone(t, outside, e) == []
    ensures e !in Candidates(t, consumer, group, order)
  {
    CandidatesMeaning(t, consumer, group, order, e);
  }

  /** From a batch with an authentication failure on, at every point of any run that respects the lock,
      no endpoint of the named account is generated or offered. */
  lemma AuthFailureStopsRouting(db: Db, items: seq<Item>, k: nat, validating: bool, steps: seq<Step>, a: Id,
                                outside: Outside, consumer: Id, group: string, order: seq<Id>, e: Id)
    requires SoundTables(db.t) && a in db.t.accounts && k < |items|
    requires ReportsAuthFailure(items[k], db.t, validating, a) && KnownEndpoints(db.t, items[k + 1..], validating)
    requires LockRespectingRun(Ingest(db, items, validating), steps, a)
    requires var t := Execute(Ingest(db, items, validating), steps).t; e in t.endpoints && t.endpoints[e].account == a
    ensures var t := Execute(Ingest(db, items, validating), steps).t;
            && (forall entry :: !EmittedBy(t, outside, e, entry))
            && e !in Candidates(t, consumer, group, order)
  {
    var last := Execute(Ingest(db, items, validating), steps);
    AuthFailureLocksAccount(db, items, k, validating, steps, a);
    DisabledAccountIsRoutedNowhere(last.t, outside, consumer, group, order, a, e);
  }
}
