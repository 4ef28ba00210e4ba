/**
 The unified timeline: each of three sources is cut to `limit` by its own query, the pieces
 are concatenated, sorted by timestamp (newest first, stably) and cut again. The result is
 proved to be exactly what sorting the uncut union and cutting once would give.
 */
module Timeline {

  datatype Kind = AuditEvent | IncidentEvent | RolloutEvent

  /** One row of a source; the fixed-width UTC timestamp text is modelled by the instant. */
  datatype LogRow = LogRow(id: string, timestamp: int)

  datatype Event = Event(kind: Kind, id: string, timestamp: int)

  /** Rows as their queries order them: audit by id, the others by timestamp, newest first. */
  datatype Sources = Sources(audit: seq<LogRow>, incidents: seq<LogRow>, rollouts: seq<LogRow>)

  // ---------- Specification ----------

  function Events(kind: Kind, rows: seq<LogRow>): seq<Event> {
    if rows == [] then []
    else Events(kind, rows[..|rows| - 1]) + [Event(kind, rows[|rows| - 1].id, rows[|rows| - 1].timestamp)]
  }

  function Cut<T>(s: seq<T>, limit: nat): seq<T> {
    if |s| <= limit then s else s[..limit]
  }

  /** Python's stable sort with reverse=True: an event goes before the first one that is not newer. */
  function Insert(e: Event, s: seq<Event>): seq<Event> {
    if s == [] || s[0].timestamp <= e.timestamp then [e] + s
    else [s[0]] + Insert(e, s[1..])
  }

  function SortNewestFirst(s: seq<Event>): seq<Event> {
    if s == [] then [] else Insert(s[0], SortNewestFirst(s[1..]))
  }

  function Union(s: Sources): seq<Event> {
    Events(AuditEvent, s.audit) + Events(IncidentEvent, s.incidents) + Events(RolloutEvent, s.rollouts)
  }

  function CutSources(s: Sources, limit: nat): Sources {
    Sources(Cut(s.audit, limit), Cut(s.incidents, limit), Cut(s.rollouts, limit))
  }

  function UnifiedTimeline(s: Sources, limit: nat): seq<Event> {
    Cut(SortNewestFirst(Union(CutSources(s, limit))), limit)
  }

  predicate NewestFirst(s: seq<Event>) {
    forall i, j :: 0 <= i < j < |s| ==> s[i].timestamp >= s[j].timestamp
  }

  predicate RowsNewestFirst(rows: seq<LogRow>) {
    forall i, j :: 0 <= i < j < |rows| ==> rows[i].timestamp >= rows[j].timestamp
  }

  /** Nothing that `shown` leaves out of `all` is newer than anything it shows. */
  ghost predicate ShowsNewest(shown: seq<Event>, all: seq<Event>) {
    forall x, y :: x in shown && y in multiset(all) - multiset(shown) ==> y.timestamp <= x.timestamp
  }


  // ---------- The procedure ----------

  lemma EventsStep(kind: Kind, rows: seq<LogRow>, i: nat)
    requires i < |rows|
    ensures Events(kind, rows[..i + 1]) == Events(kind, rows[..i]) + [Event(kind, rows[i].id, rows[i].timestamp)]
  {
    assert rows[..i + 1][..i] == rows[..i];
  }

  method GetUnifiedTimeline(s: Sources, limit: nat) returns (timeline: seq<Event>)
    ensures timeline == UnifiedTimeline(s, limit)
  {
    timeline := [];
    var logs := Cut(s.audit, limit);
    for i := 0 to |logs|
      invariant timeline == Events(AuditEvent, logs[..i])
    {
      EventsStep(AuditEvent, logs, i);
      timeline := timeline + [Event(AuditEvent, logs[i].id, logs[i].timestamp)];
    }
    assert logs[..|logs|] == logs;
    ghost var before := timeline;
    var incidents := Cut(s.incidents, limit);
    for i := 0 to |incidents|
      invariant timeline == before + Events(IncidentEvent, incidents[..i])
    {
      EventsStep(IncidentEvent, incidents, i);
      timeline := timeline + [Event(IncidentEvent, incidents[i].id, incidents[i].timestamp)];
    }
    assert incidents[..|incidents|] == incidents;
    before := timeline;
    var rollouts := Cut(s.rollouts, limit);
    for i := 0 to |rollouts|
      invariant timeline == before + Events(RolloutEvent, rollouts[..i])
    {
      EventsStep(RolloutEvent, rollouts, i);
      timeline := timeline + [Event(RolloutEvent, rollouts[i].id, rollouts[i].timestamp)];
    }
    assert rollouts[..|rollouts|] == rollouts;
    assert timeline == Union(CutSources(s, limit));
    timeline := Cut(SortNewestFirst(timeline), limit);
  }

  lemma {:induction false} EventsMeaning(kind: Kind, rows: seq<LogRow>, e: Event)
    ensures e in Events(kind, rows) <==> e.kind == kind && LogRow(e.id, e.timestamp) in rows
  {
    if rows != [] {
      assert rows == rows[..|rows| - 1] + [rows[|rows| - 1]];
      EventsMeaning(kind, rows[..|rows| - 1], e);
    }
  }

  /** The union holds every row of every source, with its id and its timestamp, and nothing else. */
  lemma UnionMeaning(s: Sources, e: Event)
    ensures e in Union(s) <==> match e.kind
                               case AuditEvent => LogRow(e.id, e.timestamp) in s.audit
                               case IncidentEvent => LogRow(e.id, e.timestamp) in s.incidents
                               case RolloutEvent => LogRow(e.id, e.timestamp) in s.rollouts
    ensures |Union(s)| == |s.audit| + |s.incidents| + |s.rollouts|
  {
    EventsMeaning(AuditEvent, s.audit, e);
    EventsMeaning(IncidentEvent, s.incidents, e);
    EventsMeaning(RolloutEvent, s.rollouts, e);
    EventsCut(AuditEvent, s.audit, 0);
    EventsCut(IncidentEvent, s.incidents, 0);
    EventsCut(RolloutEvent, s.rollouts, 0);
  }

  // ---------- The sort ----------

  lemma ConsSorted(e: Event, s: seq<Event>)
    requires NewestFirst(s) && (s == [] || s[0].timestamp <= e.timestamp)
    ensures NewestFirst([e] + s)
  {
    forall i, j | 0 <= i < j < |[e] + s| ensures ([e] + s)[i].timestamp >= ([e] + s)[j].timestamp {
      assert ([e] + s)[j] == s[j - 1] && s[0].timestamp >= s[j - 1].timestamp;
      assert i > 0 ==> ([e] + s)[i] == s[i - 1];
    }
  }

  lemma {:induction false} InsertSorted(e: Event, s: seq<Event>)
    requires NewestFirst(s)
    ensures var inserted := Insert(e, s);
            && NewestFirst(inserted) && inserted != []
            && (inserted[0] == e || (s != [] && inserted[0] == s[0]))
  {
    if s != [] && s[0].timestamp > e.timestamp {
      var rest := s[1..];
      assert NewestFirst(rest);
      assert rest != [] ==> rest[0] == s[1];
      InsertSorted(e, rest);
      ConsSorted(s[0], Insert(e, rest));
    } else {
      ConsSorted(e, s);
    }
  }

  lemma {:induction false} InsertKeeps(e: Event, s: seq<Event>)
    ensures multiset(Insert(e, s)) == multiset(s) + multiset{e} && |Insert(e, s)| == |s| + 1
  {
    if s != [] && s[0].timestamp > e.timestamp {
      InsertKeeps(e, s[1..]);
      assert s == [s[0]] + s[1..];
    }
  }

  lemma {:induction false} SortSorts(s: seq<Event>)
    ensures NewestFirst(SortNewestFirst(s)) && multiset(SortNewestFirst(s)) == multiset(s)
    ensures |SortNewestFirst(s)| == |s|
  {
    if s != [] {
      SortSorts(s[1..]);
      InsertSorted(s[0], SortNewestFirst(s[1..]));
      InsertKeeps(s[0], SortNewestFirst(s[1..]));
      assert s == [s[0]] + s[1..];
    }
  }

  // ---------- Sorting sorted pieces is merging them ----------

  /** Newest first; of equally new events, those of `a` come first. */
  function Merge(a: seq<Event>, b: seq<Event>): seq<Event>
    decreases |a| + |b|
  {
    if a == [] then b
    else if b == [] then a
    else if b[0].timestamp <= a[0].timestamp then [a[0]] + Merge(a[1..], b)
    else [b[0]] + Merge(a, b[1..])
  }

  lemma {:induction false} InsertIntoMerge(e: Event, a: seq<Event>, b: seq<Event>)
    requires NewestFirst([e] + a)
    ensures Insert(e, Merge(a, b)) == Merge([e] + a, b)
    decreases |b|
  {
    assert ([e] + a)[1..] == a;
    if a != [] {
      assert ([e] + a)[0].timestamp >= ([e] + a)[1].timestamp;
    }
    if b != [] {
      if b[0].timestamp > e.timestamp {
        InsertIntoMerge(e, a, b[1..]);
        assert Merge(a, b) == [b[0]] + Merge(a, b[1..]);
        assert ([b[0]] + Merge(a, b[1..]))[1..] == Merge(a, b[1..]);
      }
    }
  }

  lemma {:induction false} SortIsMerge(a: seq<Event>, s: seq<Event>)
    requires NewestFirst(a)
    ensures SortNewestFirst(a + s) == Merge(a, SortNewestFirst(s))
  {
    if a == [] {
      assert a + s == s;
    } else {
      assert (a + s)[1..] == a[1..] + s;
      assert a == [a[0]] + a[1..];
      SortIsMerge(a[1..], s);
      InsertIntoMerge(a[0], a[1..], SortNewestFirst(s));
    }
  }

  // ---------- Cutting before merging ----------

  lemma CutCons(e: Event, s: seq<Event>, limit: nat)
    requires limit > 0
    ensures Cut([e] + s, limit) == [e] + Cut(s, limit - 1)
  {
  }

  lemma CutTail(s: seq<Event>, m: nat)
    requires s != [] && m > 0
    ensures Cut(s, m) != [] && Cut(s, m)[0] == s[0] && Cut(s, m)[1..] == Cut(s[1..], m - 1)
  {
  }

  /** The first `limit` of a merge only look at the first `limit` of each side. */
  lemma {:induction false} CutMerge(a: seq<Event>, b: seq<Event>, m: nat, n: nat, limit: nat)
    requires limit <= m && limit <= n
    ensures Cut(Merge(Cut(a, m), Cut(b, n)), limit) == Cut(Merge(a, b), limit)
    decreases |a| + |b|, limit
  {
    if limit == 0 {
    } else if a == [] {
      assert Merge(Cut(a, m), Cut(b, n)) == Cut(b, n);
    } else if b == [] {
      assert Merge(Cut(a, m), Cut(b, n)) == Cut(a, m);
    } else {
      CutTail(a, m);
      CutTail(b, n);
      if b[0].timestamp <= a[0].timestamp {
        CutMerge(a[1..], b, m - 1, n, limit - 1);
        CutCons(a[0], Merge(a[1..], b), limit);
        CutCons(a[0], Merge(Cut(a[1..], m - 1), Cut(b, n)), limit);
      } else {
        CutMerge(a, b[1..], m, n - 1, limit - 1);
        CutCons(b[0], Merge(a, b[1..]), limit);
        CutCons(b[0], Merge(Cut(a, m), Cut(b[1..], n - 1)), limit);
      }
    }
  }

  lemma {:induction false} EventsCut(kind: Kind, rows: seq<LogRow>, limit: nat)
    ensures Events(kind, Cut(rows, limit)) == Cut(Events(kind, rows), limit)
    ensures |Events(kind, rows)| == |rows|
  {
    if rows != [] {
      EventsCut(kind, rows[..|rows| - 1], limit);
      if |rows| > limit {
        assert Cut(rows, limit) == Cut(rows[..|rows| - 1], limit);
      }
    }
  }

  lemma {:induction false} EventsSorted(kind: Kind, rows: seq<LogRow>)
    requires RowsNewestFirst(rows)
    ensures NewestFirst(Events(kind, rows)) && |Events(kind, rows)| == |rows|
    ensures forall i :: 0 <= i < |rows| ==> Events(kind, rows)[i].timestamp == rows[i].timestamp
  {
    if rows != [] {
      EventsSorted(kind, rows[..|rows| - 1]);
    }
  }

  lemma {:induction false} SortedIsFixed(a: seq<Event>)
    requires NewestFirst(a)
    ensures SortNewestFirst(a) == a
  {
    SortIsMerge(a, []);
    assert a + [] == a;
  }

  lemma SortTwo(a: seq<Event>, b: seq<Event>)
    requires NewestFirst(a) && NewestFirst(b)
    ensures SortNewestFirst(a + b) == Merge(a, b)
  {
    SortIsMerge(a, b);
    SortedIsFixed(b);
  }

  lemma Regroup(a: seq<Event>, b: seq<Event>, c: seq<Event>)
    ensures a + b + c == a + (b + c)
  {
  }

  /** Sorting three sorted pieces is merging them. */
  lemma SortThree(a: seq<Event>, b: seq<Event>, c: seq<Event>)
    requires NewestFirst(a) && NewestFirst(b) && NewestFirst(c)
    ensures SortNewestFirst(a + b + c) == Merge(a, Merge(b, c))
  {
    var rest := b + c;
    Regroup(a, b, c);
    SortTwo(b, c);
    SortIsMerge(a, rest);
  }

  lemma CutIsSorted(s: seq<Event>, limit: nat)
    requires NewestFirst(s)
    ensures NewestFirst(Cut(s, limit))
  {
  }

  lemma CutTwice(s: seq<Event>, limit: nat)
    ensures Cut(Cut(s, limit), limit) == Cut(s, limit)
  {
  }

  lemma CutMergeThree(a: seq<Event>, b: seq<Event>, c: seq<Event>, limit: nat)
    ensures Cut(Merge(Cut(a, limit), Merge(Cut(b, limit), Cut(c, limit))), limit) == Cut(Merge(a, Merge(b, c)), limit)
  {
    var cut, inner := Cut(a, limit), Merge(Cut(b, limit), Cut(c, limit));
    CutMerge(b, c, limit, limit, limit);
    CutMerge(cut, inner, limit, limit, limit);
    CutMerge(a, Merge(b, c), limit, limit, limit);
    CutTwice(a, limit);
  }

  // ---------- The theorem ----------

  lemma CutUnion(s: Sources, limit: nat)
    ensures Union(CutSources(s, limit))
         == Cut(Events(AuditEvent, s.audit), limit) + Cut(Events(IncidentEvent, s.incidents), limit)
            + Cut(Events(RolloutEvent, s.rollouts), limit)
  {
    EventsCut(AuditEvent, s.audit, limit);
    EventsCut(IncidentEvent, s.incidents, limit);
    EventsCut(RolloutEvent, s.rollouts, limit);
  }

  /** Cutting each source first loses nothing: given audit timestamps that do not decrease with the
      id, the timeline is the beginning of the stable sort of everything, ties included. */
  lemma TimelineIsNewestOfAll(s: Sources, limit: nat)
    requires RowsNewestFirst(s.audit) && RowsNewestFirst(s.incidents) && RowsNewestFirst(s.rollouts)
    ensures UnifiedTimeline(s, limit) == Cut(SortNewestFirst(Union(s)), limit)
  {
    var a, b, c := Events(AuditEvent, s.audit), Events(IncidentEvent, s.incidents), Events(RolloutEvent, s.rollouts);
    EventsSorted(AuditEvent, s.audit);
    EventsSorted(IncidentEvent, s.incidents);
    EventsSorted(RolloutEvent, s.rollouts);
    CutUnion(s, limit);
    SortThree(a, b, c);
    CutIsSorted(a, limit);
    CutIsSorted(b, limit);
    CutIsSorted(c, limit);
    SortThree(Cut(a, limit), Cut(b, limit), Cut(c, limit));
    CutMergeThree(a, b, c, limit);
  }

  lemma PrefixIsNewest(sorted: seq<Event>, limit: nat)
    requires NewestFirst(sorted)
    ensures var shown := Cut(sorted, limit);
            && NewestFirst(shown)
            && |shown| == (if |sorted| <= limit then |sorted| else limit)
            && multiset(shown) <= multiset(sorted)
            && ShowsNewest(shown, sorted)
  {
    var shown := Cut(sorted, limit);
    var rest := sorted[|shown|..];
    assert sorted == shown + rest;
    assert multiset(sorted) == multiset(shown) + multiset(rest);
    forall x, y | x in shown && y in multiset(sorted) - multiset(shown) ensures y.timestamp <= x.timestamp {
      assert y in rest;
      PrefixIsNewer(shown, rest, x, y);
    }
  }

  lemma PrefixIsNewer(shown: seq<Event>, rest: seq<Event>, x: Event, y: Event)
    requires NewestFirst(shown + rest) && x in shown && y in rest
    ensures y.timestamp <= x.timestamp
  {
    var i :| 0 <= i < |shown| && shown[i] == x;
    var j :| 0 <= j < |rest| && rest[j] == y;
    assert (shown + rest)[i] == x && (shown + rest)[|shown| + j] == y;
  }

  /** What a reader of the timeline may rely on: it is descending, has min(limit, total) events,
      holds events of the union only, and leaves out nothing newer than what it shows. */
  lemma TimelineShowsTheNewest(s: Sources, limit: nat)
    requires RowsNewestFirst(s.audit) && RowsNewestFirst(s.incidents) && RowsNewestFirst(s.rollouts)
    ensures var shown, all := UnifiedTimeline(s, limit), Union(s);
            && NewestFirst(shown)
            && |shown| == (if |all| <= limit then |all| else limit)
            && multiset(shown) <= multiset(all)
            && ShowsNewest(shown, all)
  {
    TimelineIsNewestOfAll(s, limit);
    SortSorts(Union(s));
    PrefixIsNewest(SortNewestFirst(Union(s)), limit);
  }

  // ---------- Without the proviso ----------

  /** How many events are stamped at `since` or later. */
  function CountSince(s: seq<Event>, since: int): nat {
    if s == [] then 0 else (if s[0].timestamp >= since then 1 else 0) + CountSince(s[1..], since)
  }

  lemma {:induction false} InsertCounts(e: Event, s: seq<Event>, since: int)
    ensures CountSince(Insert(e, s), since) == CountSince(s, since) + (if e.timestamp >= since then 1 else 0)
  {
    if s != [] && s[0].timestamp > e.timestamp {
      InsertCounts(e, s[1..], since);
    } else {
      assert ([e] + s)[1..] == s;
    }
  }

  lemma {:induction false} SortCounts(s: seq<Event>, since: int)
    ensures CountSince(SortNewestFirst(s), since) == CountSince(s, since)
  {
    if s != [] {
      SortCounts(s[1..], since);
      InsertCounts(s[0], SortNewestFirst(s[1..]), since);
    }
  }

  /** Among sorted events, at least `limit` are that new exactly if the one at place `limit` is. */
  lemma {:induction false} CountSorted(sorted: seq<Event>, since: int, limit: nat)
    requires NewestFirst(sorted) && 0 < limit <= |sorted|
    ensures CountSince(sorted, since) >= limit <==> sorted[limit - 1].timestamp >= since
  {
    var rest := sorted[1..];
    if sorted[0].timestamp < since {
      NoneSince(rest, since);
    } else if limit > 1 {
      CountSorted(rest, since, limit - 1);
    }
  }

  lemma {:induction false} NoneSince(s: seq<Event>, since: int)
    requires forall i :: 0 <= i < |s| ==> s[i].timestamp < since
    ensures CountSince(s, since) == 0
  {
    if s != [] {
      NoneSince(s[1..], since);
    }
  }

  lemma {:induction false} EventsAt(kind: Kind, rows: seq<LogRow>, i: nat)
    requires i < |rows|
    ensures |Events(kind, rows)| == |rows| && Events(kind, rows)[i].timestamp == rows[i].timestamp
  {
    var n := |rows| - 1;
    EventsCut(kind, rows, n);
    EventsCut(kind, rows[..n], n);
    if i < n {
      EventsAt(kind, rows[..n], i);
    }
  }

  lemma RestIsOmitted(all: seq<Event>, i: nat, j: nat)
    requires i < j < |all|
    ensures all[i] in multiset(all[..i + 1])
    ensures all[j] in multiset(all) - multiset(all[..i + 1])
  {
    var kept, rest := all[..i + 1], all[i + 1..];
    assert all == kept + rest;
    assert kept[i] == all[i] && rest[j - i - 1] == all[j];
    assert multiset(all) == multiset(kept) + multiset(rest);
  }

  lemma OmittedIsNotNewer(sorted: seq<Event>, limit: nat, kept: multiset<Event>, all: multiset<Event>, x: Event,
                          y: Event)
    requires NewestFirst(sorted) && multiset(sorted) == all && multiset(Cut(sorted, limit)) == kept
    requires x in kept && y in all - kept
    ensures y.timestamp <= x.timestamp
  {
    PrefixIsNewest(sorted, limit);
    assert x in Cut(sorted, limit);
  }

  lemma InversionIsNotSorted(all: seq<Event>, i: nat, j: nat)
    requires i < j < |all| && all[i].timestamp < all[j].timestamp
    ensures SortNewestFirst(all[..i + 1]) != Cut(SortNewestFirst(all), i + 1)
  {
    var kept, sorted := all[..i + 1], SortNewestFirst(all);
    SortSorts(kept);
    SortSorts(all);
    if SortNewestFirst(kept) == Cut(sorted, i + 1) {
      RestIsOmitted(all, i, j);
      OmittedIsNotNewer(sorted, i + 1, multiset(kept), multiset(all), all[i], all[j]);
    }
  }

  lemma AuditOnly(audit: seq<LogRow>, limit: nat)
    ensures var s, all := Sources(audit, [], []), Events(AuditEvent, audit);
            Union(s) == all && Union(CutSources(s, limit)) == Cut(all, limit)
  {
    EventsCut(AuditEvent, audit, limit);
  }

  /** An audit row stamped later than a row before it is lost when the cut falls between them. */
  lemma InversionLosesEvents(audit: seq<LogRow>, i: nat, j: nat)
    requires i < j < |audit| && audit[i].timestamp < audit[j].timestamp
    ensures var s := Sources(audit, [], []);
            UnifiedTimeline(s, i + 1) != Cut(SortNewestFirst(Union(s)), i + 1)
  {
    var s, all := Sources(audit, [], []), Events(AuditEvent, audit);
    EventsAt(AuditEvent, audit, i);
    EventsAt(AuditEvent, audit, j);
    InversionIsNotSorted(all, i, j);
    AuditOnly(audit, i + 1);
    SortSorts(Cut(all, i + 1));
  }

  /** For the audit log alone, cutting first is right at every limit exactly if no row is stamped
      later than a row with a higher id. */
  lemma AuditAloneIsRightIff(audit: seq<LogRow>)
    ensures (forall limit: nat ::
               UnifiedTimeline(Sources(audit, [], []), limit)
               == Cut(SortNewestFirst(Union(Sources(audit, [], []))), limit))
       <==> RowsNewestFirst(audit)
  {
    if RowsNewestFirst(audit) {
      forall limit: nat
        ensures UnifiedTimeline(Sources(audit, [], []), limit)
             == Cut(SortNewestFirst(Union(Sources(audit, [], []))), limit)
      {
        TimelineIsNewestOfAll(Sources(audit, [], []), limit);
      }
    } else {
      var i, j :| 0 <= i < j < |audit| && audit[i].timestamp < audit[j].timestamp;
      InversionLosesEvents(audit, i, j);
    }
  }

  // ---------- The exact condition for all sources ----------

  lemma OmittedSplits(shown: multiset<Event>, kept: multiset<Event>, rest: multiset<Event>, y: Event)
    requires shown <= kept
    ensures y in kept + rest - shown <==> y in kept - shown || y in rest
  {
  }

  /** Of the kept events the newest `limit` are shown. Nothing omitted is newer exactly if for each event
      that was not kept, at least `limit` of the kept ones are as new. */
  lemma KeptShowNewestIff(kept: seq<Event>, rest: seq<Event>, all: seq<Event>, limit: nat)
    requires multiset(all) == multiset(kept) + multiset(rest) && (rest != [] ==> |kept| >= limit)
    ensures ShowsNewest(Cut(SortNewestFirst(kept), limit), all)
       <==> forall y :: y in rest ==> CountSince(kept, y.timestamp) >= limit
  {
    var sorted := SortNewestFirst(kept);
    var shown := Cut(sorted, limit);
    SortSorts(kept);
    PrefixIsNewest(sorted, limit);
    if forall y :: y in rest ==> CountSince(kept, y.timestamp) >= limit {
      forall x, y | x in shown && y in multiset(all) - multiset(shown) ensures y.timestamp <= x.timestamp {
        OmittedSplits(multiset(shown), multiset(kept), multiset(rest), y);
        if y in rest {
          CountAtPlace(kept, sorted, y.timestamp, limit);
          LastShownIsOldest(sorted, limit, x);
        }
      }
    } else {
      var y :| y in rest && CountSince(kept, y.timestamp) < limit;
      CountAtPlace(kept, sorted, y.timestamp, limit);
      OmittedSplits(multiset(shown), multiset(kept), multiset(rest), y);
      assert sorted[limit - 1] == shown[limit - 1] && shown[limit - 1] in shown;
    }
  }

  lemma CountAtPlace(kept: seq<Event>, sorted: seq<Event>, since: int, limit: nat)
    requires sorted == SortNewestFirst(kept) && |kept| >= limit
    ensures |sorted| == |kept|
    ensures limit > 0 ==> (CountSince(kept, since) >= limit <==> sorted[limit - 1].timestamp >= since)
  {
    SortSorts(kept);
    SortCounts(kept, since);
    if limit > 0 { CountSorted(sorted, since, limit); }
  }

  lemma LastShownIsOldest(sorted: seq<Event>, limit: nat, x: Event)
    requires NewestFirst(sorted) && limit <= |sorted| && x in Cut(sorted, limit)
    ensures limit > 0 && sorted[limit - 1].timestamp <= x.timestamp
  {
    var i :| 0 <= i < |Cut(sorted, limit)| && Cut(sorted, limit)[i] == x;
    assert sorted[i] == x;
  }

  function CutOff<T>(s: seq<T>, limit: nat): seq<T> {
    if |s| <= limit then [] else s[limit..]
  }

  lemma {:induction false} CountConcat(a: seq<Event>, b: seq<Event>, since: int)
    ensures CountSince(a + b, since) == CountSince(a, since) + CountSince(b, since)
  {
    if a == [] {
      assert a + b == b;
    } else {
      assert (a + b)[1..] == a[1..] + b;
      CountConcat(a[1..], b, since);
    }
  }

  /** A sorted source keeps at least `limit` events as new as any it cuts off. */
  lemma SortedSourceIsEnough(events: seq<Event>, limit: nat, y: Event)
    requires NewestFirst(events) && y in CutOff(events, limit)
    ensures CountSince(Cut(events, limit), y.timestamp) >= limit
  {
    var j :| 0 <= j < |CutOff(events, limit)| && CutOff(events, limit)[j] == y;
    assert events[limit + j] == y;
    CutIsSorted(events, limit);
    if limit > 0 { CountSorted(Cut(events, limit), y.timestamp, limit); }
  }

  lemma CutAndOff(events: seq<Event>, limit: nat)
    ensures multiset(events) == multiset(Cut(events, limit)) + multiset(CutOff(events, limit))
  {
    assert events == Cut(events, limit) + CutOff(events, limit);
  }

  /** For each audit row that its query cuts off, at least `limit` of the events read are as new. */
  predicate EnoughAsNew(s: Sources, limit: nat) {
    forall j :: limit <= j < |s.audit| ==>
      CountSince(Union(CutSources(s, limit)), s.audit[j].timestamp) >= limit
  }

  lemma CutOffAudit(s: Sources, limit: nat)
    ensures EnoughAsNew(s, limit)
       <==> forall y :: y in CutOff(Events(AuditEvent, s.audit), limit) ==>
              CountSince(Union(CutSources(s, limit)), y.timestamp) >= limit
  {
    var events, kept := Events(AuditEvent, s.audit), Union(CutSources(s, limit));
    EventsCut(AuditEvent, s.audit, limit);
    if EnoughAsNew(s, limit) {
      forall y | y in CutOff(events, limit) ensures CountSince(kept, y.timestamp) >= limit {
        var i :| 0 <= i < |CutOff(events, limit)| && CutOff(events, limit)[i] == y;
        EventsAt(AuditEvent, s.audit, limit + i);
      }
    } else {
      var j :| limit <= j < |s.audit| && CountSince(kept, s.audit[j].timestamp) < limit;
      EventsAt(AuditEvent, s.audit, j);
      assert CutOff(events, limit)[j - limit] == events[j];
    }
  }

  function NotRead(s: Sources, limit: nat): seq<Event> {
    CutOff(Events(AuditEvent, s.audit), limit)
    + (CutOff(Events(IncidentEvent, s.incidents), limit) + CutOff(Events(RolloutEvent, s.rollouts), limit))
  }

  lemma ThreeSplit(a: seq<Event>, b: seq<Event>, c: seq<Event>, limit: nat)
    ensures multiset(a + b + c)
         == multiset(Cut(a, limit) + Cut(b, limit) + Cut(c, limit))
            + multiset(CutOff(a, limit) + (CutOff(b, limit) + CutOff(c, limit)))
  {
    CutAndOff(a, limit);
    CutAndOff(b, limit);
    CutAndOff(c, limit);
  }

  lemma ReadAndNotRead(s: Sources, limit: nat)
    ensures multiset(Union(s)) == multiset(Union(CutSources(s, limit))) + multiset(NotRead(s, limit))
    ensures NotRead(s, limit) != [] ==> |Union(CutSources(s, limit))| >= limit
  {
    CutUnion(s, limit);
    ThreeSplit(Events(AuditEvent, s.audit), Events(IncidentEvent, s.incidents), Events(RolloutEvent, s.rollouts),
               limit);
  }

  lemma OthersAreEnough(s: Sources, limit: nat, y: Event)
    requires RowsNewestFirst(s.incidents) && RowsNewestFirst(s.rollouts)
    requires || y in CutOff(Events(IncidentEvent, s.incidents), limit)
             || y in CutOff(Events(RolloutEvent, s.rollouts), limit)
    ensures CountSince(Union(CutSources(s, limit)), y.timestamp) >= limit
  {
    var a, b, c := Events(AuditEvent, s.audit), Events(IncidentEvent, s.incidents), Events(RolloutEvent, s.rollouts);
    CutUnion(s, limit);
    CountConcat(Cut(a, limit) + Cut(b, limit), Cut(c, limit), y.timestamp);
    CountConcat(Cut(a, limit), Cut(b, limit), y.timestamp);
    if y in CutOff(b, limit) {
      EventsSorted(IncidentEvent, s.incidents);
      SortedSourceIsEnough(b, limit, y);
    } else {
      EventsSorted(RolloutEvent, s.rollouts);
      SortedSourceIsEnough(c, limit, y);
    }
  }

  lemma NotReadIsEnough(s: Sources, limit: nat)
    requires RowsNewestFirst(s.incidents) && RowsNewestFirst(s.rollouts)
    ensures EnoughAsNew(s, limit)
       <==> forall y :: y in NotRead(s, limit) ==> CountSince(Union(CutSources(s, limit)), y.timestamp) >= limit
  {
    var kept, off := Union(CutSources(s, limit)), CutOff(Events(AuditEvent, s.audit), limit);
    CutOffAudit(s, limit);
    forall y | y in NotRead(s, limit) && y !in off ensures CountSince(kept, y.timestamp) >= limit {
      OthersAreEnough(s, limit, y);
    }
    assert forall y :: y in off ==> y in NotRead(s, limit);
  }

  /** For any audit log and any limit, the timeline omits nothing newer than what it shows exactly if,
      for each audit row cut off by its query, at least `limit` events read are stamped no earlier. */
  lemma CuttingFirstIsRightIff(s: Sources, limit: nat)
    requires RowsNewestFirst(s.incidents) && RowsNewestFirst(s.rollouts)
    ensures ShowsNewest(UnifiedTimeline(s, limit), Union(s)) <==> EnoughAsNew(s, limit)
  {
    ReadAndNotRead(s, limit);
    KeptShowNewestIff(Union(CutSources(s, limit)), NotRead(s, limit), Union(s), limit);
    NotReadIsEnough(s, limit);
  }
}
