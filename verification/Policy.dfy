/** The policy engine: which endpoints a consumer may use for a logical model group. */
module Policy {
  import opened Schema
  import opened Connection
  import opened Generator

  /** An active consumer whose profile exists and lists the group. */
  predicate Allowed(t: Tables, consumer: Id, group: string) {
    && consumer in t.consumers
    && t.consumers[consumer].status == ConsumerActive
    && t.consumers[consumer].profile.Some?
    && t.consumers[consumer].profile.value in t.profiles
    && group in t.profiles[t.consumers[consumer].profile.value].groups
  }

  predicate InGroup(t: Tables, e: Id, group: string) {
    && e in t.endpoints
    && t.endpoints[e].model in t.models
    && t.endpoints[e].account in t.accounts
    && t.models[t.endpoints[e].model].group == group
  }

  /** The query joins models and accounts, but not providers. */
  function SelectGroup(t: Tables, group: string, order: seq<Id>): seq<Id> {
    if order == [] then []
    else
      var e := order[|order| - 1];
      SelectGroup(t, group, order[..|order| - 1]) + (if InGroup(t, e, group) then [e] else [])
  }

  predicate Eligible(t: Tables, e: Id) {
    && e in t.endpoints && t.endpoints[e].account in t.accounts
    && Routable(t.endpoints[e].override, t.endpoints[e].health.status, t.accounts[t.endpoints[e].account].health.status)
  }

  function Keep(t: Tables, ids: seq<Id>): seq<Id> {
    if ids == [] then []
    else Keep(t, ids[..|ids| - 1]) + (if Eligible(t, ids[|ids| - 1]) then [ids[|ids| - 1]] else [])
  }

  function Candidates(t: Tables, consumer: Id, group: string, order: seq<Id>): seq<Id> {
    if Allowed(t, consumer, group) then Keep(t, SelectGroup(t, group, order)) else []
  }

  method GetCandidateEndpoints(db: Database, consumerId: Id, group: string, order: seq<Id>)
    returns (candidates: seq<Id>)
    ensures candidates == Candidates(db.Registry(), consumerId, group, order)
  {
    if consumerId !in db.consumers || db.consumers[consumerId].status != ConsumerActive { return []; }
    var consumer := db.consumers[consumerId];
    if consumer.profile.None? { return []; }
    if consumer.profile.value !in db.profiles { return []; }
    var profile := db.profiles[consumer.profile.value];
    if group !in profile.groups { return []; }

    var endpoints := SelectGroup(db.Registry(), group, order);
    candidates := [];
    for i := 0 to |endpoints|
      invariant candidates == Keep(db.Registry(), endpoints[..i])
    {
      var id := endpoints[i];
      assert endpoints[..i + 1][..i] == endpoints[..i];
      SelectGroupMeaning(db.Registry(), group, order, id);
      var endpoint := db.endpoints[id];
      if endpoint.account !in db.accounts { continue; }
      var accountStatus := db.accounts[endpoint.account].health.status;
      if endpoint.override == ForceDisabled { continue; }
      if endpoint.override != ForceActive {
        if endpoint.health.status in {Disabled, Cooldown, Degraded} { continue; }
        if accountStatus in {Disabled, Inactive, Cooldown} { continue; }
      } else {
        if accountStatus in {Disabled, Inactive} { continue; }
      }
      candidates := candidates + [id];
    }
    assert endpoints[..|endpoints|] == endpoints;
  }

  lemma {:induction false} SelectGroupMeaning(t: Tables, group: string, order: seq<Id>, e: Id)
    ensures e in SelectGroup(t, group, order) <==> e in order && InGroup(t, e, group)
  {
    if order != [] {
      assert order == order[..|order| - 1] + [order[|order| - 1]];
      SelectGroupMeaning(t, group, order[..|order| - 1], e);
    }
  }

  lemma {:induction false} KeepMeaning(t: Tables, ids: seq<Id>, e: Id)
    ensures e in Keep(t, ids) <==> e in ids && Eligible(t, e)
  {
    if ids != [] {
      assert ids == ids[..|ids| - 1] + [ids[|ids| - 1]];
      KeepMeaning(t, ids[..|ids| - 1], e);
    }
  }

  /** An endpoint is a candidate exactly when the consumer may use the group, the endpoint
      serves it, and the exclusion rule lets it through. */
  lemma CandidatesMeaning(t: Tables, consumer: Id, group: string, order: seq<Id>, e: Id)
    ensures e in Candidates(t, consumer, group, order)
       <==> Allowed(t, consumer, group) && e in order && InGroup(t, e, group) && Eligible(t, e)
  {
    SelectGroupMeaning(t, group, order, e);
    KeepMeaning(t, SelectGroup(t, group, order), e);
  }

  /** An endpoint is offered exactly if the consumer has status `active` and a profile that lists the group,
      the endpoint's model is of the group, and its statuses are served. */
  lemma CandidatesColumns(t: Tables, consumer: Id, group: string, order: seq<Id>, e: Id)
    ensures e in Candidates(t, consumer, group, order)
       <==> && consumer in t.consumers && t.consumers[consumer].status == ConsumerActive
            && t.consumers[consumer].profile.Some? && t.consumers[consumer].profile.value in t.profiles
            && group in t.profiles[t.consumers[consumer].profile.value].groups
            && e in order && e in t.endpoints && t.endpoints[e].model in t.models
            && t.models[t.endpoints[e].model].group == group && t.endpoints[e].account in t.accounts
            && Served(t.endpoints[e].override, t.endpoints[e].health.status,
                      t.accounts[t.endpoints[e].account].health.status)
  {
    CandidatesMeaning(t, consumer, group, order, e);
    if e in t.endpoints && t.endpoints[e].account in t.accounts {
      RoutableIffServed(t.endpoints[e].override, t.endpoints[e].health.status,
                        t.accounts[t.endpoints[e].account].health.status);
    }
  }

  lemma {:induction false} SelectGroupAppend(t: Tables, group: string, a: seq<Id>, b: seq<Id>)
    ensures SelectGroup(t, group, a + b) == SelectGroup(t, group, a) + SelectGroup(t, group, b)
  {
    if b == [] {
      assert a + b == a;
    } else {
      assert (a + b)[..|a + b| - 1] == a + b[..|b| - 1] && (a + b)[|a + b| - 1] == b[|b| - 1];
      SelectGroupAppend(t, group, a, b[..|b| - 1]);
    }
  }

  lemma {:induction false} KeepAppend(t: Tables, a: seq<Id>, b: seq<Id>)
    ensures Keep(t, a + b) == Keep(t, a) + Keep(t, b)
  {
    if b == [] {
      assert a + b == a;
    } else {
      assert (a + b)[..|a + b| - 1] == a + b[..|b| - 1] && (a + b)[|a + b| - 1] == b[|b| - 1];
      KeepAppend(t, a, b[..|b| - 1]);
    }
  }

  /** The candidates stand in the order of the rows. */
  lemma CandidatesKeepOrder(t: Tables, consumer: Id, group: string, a: seq<Id>, b: seq<Id>)
    ensures Candidates(t, consumer, group, a + b)
         == Candidates(t, consumer, group, a) + Candidates(t, consumer, group, b)
  {
    SelectGroupAppend(t, group, a, b);
    KeepAppend(t, SelectGroup(t, group, a), SelectGroup(t, group, b));
  }
}
