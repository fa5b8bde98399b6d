/**
  The summary cache: statistics aggregated from the events table, a lookup by the cache key and a
  saved summary on a miss, over any interleaving of requests, completions and event writes.
 */
module SummaryCaches {
  import opened CacheKeys
  import opened CacheTexts
  import opened EventStore
  import Intake
  import opened Options
  import opened Text

  // ---- Aggregation ----

  predicate SameKey(s: DomainStat, r: Row) {
    s.domain == r.domain && s.eventType == r.eventType
  }

  function Alone(r: Row): DomainStat {
    DomainStat(r.domain, r.eventType, 1, r.occurredAt, r.occurredAt)
  }

  function Grown(s: DomainStat, r: Row): DomainStat {
    s.(count := s.count + 1,
       firstSeen := if r.occurredAt < s.firstSeen then r.occurredAt else s.firstSeen,
       lastSeen := if r.occurredAt > s.lastSeen then r.occurredAt else s.lastSeen)
  }

  /** Put a row into its group. */
  function Absorb(stats: seq<DomainStat>, r: Row): seq<DomainStat> {
    if stats == [] then [Alone(r)]
    else
      var n := |stats| - 1;
      if SameKey(stats[n], r) then stats[..n] + [Grown(stats[n], r)] else Absorb(stats[..n], r) + [stats[n]]
  }

  /** GROUP BY domain and event type, with count, minimum and maximum, in some order. */
  function Group(rows: Table): seq<DomainStat> {
    if rows == [] then [] else Absorb(Group(rows[..|rows| - 1]), rows[|rows| - 1])
  }

  function Since(t: Table, since: int): Table {
    if t == [] then []
    else
      var n := |t| - 1;
      Since(t[..n], since) + if t[n].occurredAt >= since then [t[n]] else []
  }

  predicate Wanted(domain: string, d: string) {
    domain == "" || d == domain
  }

  function OfDomain(rows: Table, domain: string): Table {
    if rows == [] then []
    else
      var n := |rows| - 1;
      OfDomain(rows[..n], domain) + if Wanted(domain, rows[n].domain) then [rows[n]] else []
  }

  /** The rows from the window's start on, each as often as before. */
  lemma {:induction false} SinceMeaning(t: Table, since: int, r: Row)
    ensures multiset(Since(t, since))[r] == if since <= r.occurredAt then multiset(t)[r] else 0
  {
    if t != [] {
      var n := |t| - 1;
      assert t == t[..n] + [t[n]];
      SinceMeaning(t[..n], since, r);
    }
  }

  /** The rows of the domain asked for, of all domains if none is. */
  lemma {:induction false} OfDomainMeaning(rows: Table, domain: string, r: Row)
    ensures multiset(OfDomain(rows, domain))[r] == if domain == "" || r.domain == domain then multiset(rows)[r] else 0
  {
    if rows != [] {
      var n := |rows| - 1;
      assert rows == rows[..n] + [rows[n]];
      OfDomainMeaning(rows[..n], domain, r);
    }
  }

  /** The rows a request is about, in the order of insertion. */
  function Window(t: Table, since: int, domain: string): Table {
    OfDomain(Since(t, since), domain)
  }

  /** What AggregateByDomain may return: the groups of the window in any order. */
  ghost predicate Aggregated(stats: seq<DomainStat>, t: Table, since: int) {
    multiset(stats) == multiset(Group(Since(t, since)))
  }

  /** The filter of the service. */
  function ForDomain(stats: seq<DomainStat>, domain: string): seq<DomainStat> {
    if stats == [] then []
    else
      var n := |stats| - 1;
      ForDomain(stats[..n], domain) + if Wanted(domain, stats[n].domain) then [stats[n]] else []
  }

  method FilterDomain(stats: seq<DomainStat>, domain: string) returns (kept: seq<DomainStat>)
    ensures kept == ForDomain(stats, domain)
  {
    kept := [];
    for k := 0 to |stats|
      invariant kept == ForDomain(stats[..k], domain)
    {
      assert stats[..k + 1][..k] == stats[..k];
      if domain == "" || stats[k].domain == domain {
        kept := kept + [stats[k]];
      }
    }
    assert stats[..|stats|] == stats;
  }

  // ---- What the groups say ----

  /** The statistic of a key, if there is one. */
  function Find(stats: seq<DomainStat>, d: string, e: string): Option<DomainStat> {
    if stats == [] then None
    else
      var n := |stats| - 1;
      if stats[n].domain == d && stats[n].eventType == e then Some(stats[n]) else Find(stats[..n], d, e)
  }

  lemma {:induction false} FindIn(stats: seq<DomainStat>, x: DomainStat)
    requires UniqueKeys(stats)
    ensures x in stats <==> Find(stats, x.domain, x.eventType) == Some(x)
  {
    if stats != [] {
      var n := |stats| - 1;
      assert stats == stats[..n] + [stats[n]];
      FindIn(stats[..n], x);
    }
  }

  lemma {:induction false} NoneFound(stats: seq<DomainStat>, d: string, e: string)
    ensures Find(stats, d, e) == None <==> forall s | s in stats :: s.domain != d || s.eventType != e
    ensures Find(stats, d, e).Some? ==> Find(stats, d, e).value in stats
  {
    if stats != [] {
      var n := |stats| - 1;
      assert stats == stats[..n] + [stats[n]];
      NoneFound(stats[..n], d, e);
    }
  }

  function Joined(s: Option<DomainStat>, r: Row): Option<DomainStat> {
    Some(if s.Some? then Grown(s.value, r) else Alone(r))
  }

  lemma {:induction false} AbsorbFind(stats: seq<DomainStat>, r: Row, d: string, e: string)
    ensures Find(Absorb(stats, r), d, e) ==
              if d == r.domain && e == r.eventType then Joined(Find(stats, d, e), r) else Find(stats, d, e)
  {
    if stats != [] {
      var n := |stats| - 1;
      var absorbed := Absorb(stats, r);
      if !SameKey(stats[n], r) { AbsorbFind(stats[..n], r, d, e); }
      assert absorbed[..|absorbed| - 1] == if SameKey(stats[n], r) then stats[..n] else Absorb(stats[..n], r);
    }
  }

  lemma {:induction false} AbsorbUnique(stats: seq<DomainStat>, r: Row)
    requires UniqueKeys(stats)
    ensures UniqueKeys(Absorb(stats, r))
  {
    if stats != [] {
      var n := |stats| - 1;
      var front, last := stats[..n], stats[n];
      if !SameKey(last, r) {
        AbsorbUnique(front, r);
        AbsorbFind(front, r, last.domain, last.eventType);
        NoneFound(front, last.domain, last.eventType);
        NoneFound(Absorb(front, r), last.domain, last.eventType);
      }
    }
  }

  lemma {:induction false} GroupUnique(rows: Table)
    ensures UniqueKeys(Group(rows))
  {
    if rows != [] {
      GroupUnique(rows[..|rows| - 1]);
      AbsorbUnique(Group(rows[..|rows| - 1]), rows[|rows| - 1]);
    }
  }

  function CountOf(rows: Table, d: string, e: string): nat {
    if rows == [] then 0
    else
      var n := |rows| - 1;
      CountOf(rows[..n], d, e) + if rows[n].domain == d && rows[n].eventType == e then 1 else 0
  }

  ghost predicate InGroup(rows: Table, d: string, e: string, at: int) {
    exists r :: r in rows && r.domain == d && r.eventType == e && r.occurredAt == at
  }

  /**
    A statistic is returned for exactly the keys that occur, with the number of their rows and the
    least and the greatest of their times.
   */
  lemma {:induction false} GroupMeaning(rows: Table, d: string, e: string)
    ensures
      var s := Find(Group(rows), d, e);
      && (s == None <==> CountOf(rows, d, e) == 0)
      && (s.Some? ==>
            && s.value.domain == d && s.value.eventType == e && s.value.count == CountOf(rows, d, e)
            && InGroup(rows, d, e, s.value.firstSeen) && InGroup(rows, d, e, s.value.lastSeen))
      && (forall at | InGroup(rows, d, e, at) :: s.Some? && s.value.firstSeen <= at <= s.value.lastSeen)
  {
    if rows != [] {
      var n := |rows| - 1;
      var front, last := rows[..n], rows[n];
      assert rows == front + [last];
      GroupMeaning(front, d, e);
      AbsorbFind(Group(front), last, d, e);
      assert last in rows;
      assert forall at :: InGroup(rows, d, e, at) <==>
          InGroup(front, d, e, at) || (last.domain == d && last.eventType == e && last.occurredAt == at);
    }
  }

  // ---- Filtering and grouping commute ----

  lemma ForDomainLast(front: seq<DomainStat>, x: DomainStat, domain: string)
    ensures ForDomain(front + [x], domain) ==
              if Wanted(domain, x.domain) then ForDomain(front, domain) + [x] else ForDomain(front, domain)
  {
    assert (front + [x])[..|front|] == front;
  }

  lemma AbsorbLast(front: seq<DomainStat>, x: DomainStat, r: Row)
    ensures Absorb(front + [x], r) == if SameKey(x, r) then front + [Grown(x, r)] else Absorb(front, r) + [x]
  {
    assert (front + [x])[..|front|] == front;
  }

  lemma {:induction false} AbsorbForDomain(stats: seq<DomainStat>, r: Row, domain: string)
    ensures ForDomain(Absorb(stats, r), domain) ==
              if Wanted(domain, r.domain) then Absorb(ForDomain(stats, domain), r) else ForDomain(stats, domain)
  {
    if stats == [] {
      ForDomainLast([], Alone(r), domain);
      assert [] + [Alone(r)] == [Alone(r)];
    } else {
      var front, x := stats[..|stats| - 1], stats[|stats| - 1];
      assert stats == front + [x];
      AbsorbLast(front, x, r);
      ForDomainLast(front, x, domain);
      AbsorbLast(ForDomain(front, domain), x, r);
      if SameKey(x, r) {
        ForDomainLast(front, Grown(x, r), domain);
      } else {
        AbsorbForDomain(front, r, domain);
        ForDomainLast(Absorb(front, r), x, domain);
      }
    }
  }

  lemma GroupLast(front: Table, r: Row)
    ensures Group(front + [r]) == Absorb(Group(front), r)
  {
    assert (front + [r])[..|front|] == front;
  }

  lemma {:induction false} GroupForDomain(rows: Table, domain: string)
    ensures ForDomain(Group(rows), domain) == Group(OfDomain(rows, domain))
  {
    if rows != [] {
      var n := |rows| - 1;
      GroupForDomain(rows[..n], domain);
      AbsorbForDomain(Group(rows[..n]), rows[n], domain);
      GroupLast(OfDomain(rows[..n], domain), rows[n]);
      assert OfDomain(rows[..n], domain) + [] == OfDomain(rows[..n], domain);
    }
  }

  /** Filtering looks only at which statistics there are. */
  lemma {:induction false} ForDomainOccurrences(stats: seq<DomainStat>, domain: string, x: DomainStat)
    ensures multiset(ForDomain(stats, domain))[x] == if Wanted(domain, x.domain) then multiset(stats)[x] else 0
  {
    if stats != [] {
      var n := |stats| - 1;
      assert stats == stats[..n] + [stats[n]];
      ForDomainOccurrences(stats[..n], domain, x);
    }
  }

  /** Whatever order the database used, the service ends up with the groups of its window. */
  lemma FilteredGroups(stats: seq<DomainStat>, t: Table, since: int, domain: string)
    requires Aggregated(stats, t, since)
    ensures multiset(ForDomain(stats, domain)) == multiset(Group(Window(t, since, domain)))
  {
    var groups := Group(Since(t, since));
    GroupForDomain(Since(t, since), domain);
    forall x
      ensures multiset(ForDomain(stats, domain))[x] == multiset(ForDomain(groups, domain))[x]
    {
      ForDomainOccurrences(stats, domain, x);
      ForDomainOccurrences(groups, domain, x);
    }
  }

  // ---- The table only grows ----

  lemma {:induction false} CountConcat(a: Table, b: Table, d: string, e: string)
    ensures CountOf(a + b, d, e) == CountOf(a, d, e) + CountOf(b, d, e)
  {
    if b == [] {
      assert a + b == a;
    } else {
      assert (a + b)[..|a + b| - 1] == a + b[..|b| - 1];
      CountConcat(a, b[..|b| - 1], d, e);
    }
  }

  /** Rows that come on top show in the groups: equal groups of a sequence and its extension mean nothing was added. */
  lemma EqualGroupsMeanNoMore(rows: Table, more: Table)
    requires multiset(Group(rows)) == multiset(Group(rows + more))
    ensures more == []
  {
    if more != [] {
      var r := more[|more| - 1];
      var d, e := r.domain, r.eventType;
      CountConcat(rows, more, d, e);
      GroupMeaning(rows, d, e);
      GroupMeaning(rows + more, d, e);
      var x := Find(Group(rows + more), d, e).value;
      GroupUnique(rows);
      NoneFound(Group(rows + more), d, e);
      assert x in multiset(Group(rows));
      FindIn(Group(rows), x);
    }
  }

  lemma {:induction false} SinceConcat(a: Table, b: Table, since: int)
    ensures Since(a + b, since) == Since(a, since) + Since(b, since)
  {
    if b == [] {
      assert a + b == a;
    } else {
      assert (a + b)[..|a + b| - 1] == a + b[..|b| - 1];
      SinceConcat(a, b[..|b| - 1], since);
    }
  }

  lemma {:induction false} OfDomainConcat(a: Table, b: Table, domain: string)
    ensures OfDomain(a + b, domain) == OfDomain(a, domain) + OfDomain(b, domain)
  {
    if b == [] {
      assert a + b == a;
    } else {
      assert (a + b)[..|a + b| - 1] == a + b[..|b| - 1];
      OfDomainConcat(a, b[..|b| - 1], domain);
    }
  }

  /** At two points of the table's growth: the same groups exactly if the same rows. */
  lemma SameGroupsSameRows(t: Table, a: nat, b: nat, since: int, domain: string)
    requires a <= |t| && b <= |t|
    ensures multiset(Group(Window(t[..a], since, domain))) == multiset(Group(Window(t[..b], since, domain))) <==>
              Window(t[..a], since, domain) == Window(t[..b], since, domain)
  {
    if a <= b { GrowthShows(t, a, b, since, domain); } else { GrowthShows(t, b, a, since, domain); }
  }

  lemma WindowConcat(a: Table, b: Table, since: int, domain: string)
    ensures Window(a + b, since, domain) == Window(a, since, domain) + Window(b, since, domain)
  {
    SinceConcat(a, b, since);
    OfDomainConcat(Since(a, since), Since(b, since), domain);
  }

  lemma GrowthShows(t: Table, a: nat, b: nat, since: int, domain: string)
    requires a <= b <= |t|
    ensures multiset(Group(Window(t[..a], since, domain))) == multiset(Group(Window(t[..b], since, domain))) ==>
              Window(t[..a], since, domain) == Window(t[..b], since, domain)
  {
    var before, added := t[..a], t[a..b];
    assert t[..b] == before + added;
    WindowConcat(before, added, since, domain);
    var w, more := Window(before, since, domain), Window(added, since, domain);
    if multiset(Group(w)) == multiset(Group(w + more)) {
      EqualGroupsMeanNoMore(w, more);
    }
  }

  // ---- Lookups and saved summaries ----

  datatype Request = Request(domain: string, since: int)

  datatype Setup = Setup(provider: string, model: string, promptVersion: string, temperature: int, maxTokens: int)

  /** A row of the summaries table. */
  datatype Summary = Summary(
    domain: string, windowFrom: int, model: string, provider: Option<string>, promptVersion: Option<string>,
    inputHash: Option<Hash>, content: string, createdAt: int)

  function NullableString(s: string): Option<string> {
    if s == "" then None else Some(s)
  }

  function KeyFor(req: Request, setup: Setup, stats: seq<DomainStat>): CacheKey {
    BuildCacheKey(req.domain, req.since, setup.provider, setup.model, setup.promptVersion,
                  setup.temperature, setup.maxTokens, stats)
  }

  /** The conditions of the lookup; a column compares by IS with the nullable text, or by = with the text. */
  predicate Matches(r: Summary, key: CacheKey) {
    && r.domain == key.domain && r.windowFrom == key.windowFrom
    && (r.provider == NullableString(key.provider) || r.provider == Some(key.provider))
    && r.model == key.model
    && (r.promptVersion == NullableString(key.promptVersion) || r.promptVersion == Some(key.promptVersion))
    && r.inputHash == Some(key.inputHash)
  }

  /** The lookup's answer: a matching row that no other matching row is newer than, or none if none matches. */
  ghost predicate IsLatest(saved: seq<Summary>, key: CacheKey, found: Option<nat>) {
    match found
    case None => forall j | 0 <= j < |saved| :: !Matches(saved[j], key)
    case Some(k) =>
      && k < |saved| && Matches(saved[k], key)
      && forall j | 0 <= j < |saved| && Matches(saved[j], key) :: saved[j].createdAt <= saved[k].createdAt
  }

  /** What a completion comes back with; an empty model or provider name stands for the configured one. */
  datatype Response = Response(model: string, provider: string, content: string)

  const NO_EVENTS_TEXT := "No events found for the requested period."
  const NO_EVENTS: Response := Response("", "", NO_EVENTS_TEXT)

  function Named(answered: string, configured: string): string {
    if answered == "" then configured else answered
  }

  function SummaryOf(req: Request, setup: Setup, stats: seq<DomainStat>, resp: Response, createdAt: int): Summary {
    var key := KeyFor(req, setup, stats);
    Summary(req.domain, req.since, Named(resp.model, setup.model), NullableString(Named(resp.provider, setup.provider)),
            NullableString(setup.promptVersion), Some(key.inputHash), TrimSpace(resp.content), createdAt)
  }

  /** The columns of a report on these statistics, or on there being none. */
  ghost predicate Reports(r: Summary, req: Request, setup: Setup, kept: seq<DomainStat>, resp: Response, now: int) {
    && r.domain == req.domain && r.windowFrom == req.since && r.createdAt == now
    && r.content == (if kept == [] then "No events found for the requested period." else TrimSpace(resp.content))
    && r.model == (if kept == [] || resp.model == "" then setup.model else resp.model)
    && r.provider == NullableString(if kept == [] || resp.provider == "" then setup.provider else resp.provider)
    && r.promptVersion == NullableString(setup.promptVersion)
    && r.inputHash == Some(Sha256(Serialised(kept, setup.temperature, setup.maxTokens)))
  }

  lemma SummaryReports(req: Request, setup: Setup, kept: seq<DomainStat>, resp: Response, now: int)
    requires kept == [] ==> resp == NO_EVENTS
    ensures Reports(SummaryOf(req, setup, kept, resp, now), req, setup, kept, resp, now)
    ensures kept == [] ==> TrimSpace(resp.content) == NO_EVENTS_TEXT
  {
    TrimNothing(NO_EVENTS_TEXT);
  }

  /** The completion went where the configuration says, or did not say where it went. */
  predicate AsConfigured(resp: Response, setup: Setup) {
    (resp.model == "" || resp.model == setup.model) && (resp.provider == "" || resp.provider == setup.provider)
  }

  // ---- Interleaved requests ----

  datatype Phase = Looking | Missed | Finished

  /** A request under way: the filtered statistics it read when the table had `base` rows. */
  datatype Flight = Flight(req: Request, setup: Setup, stats: seq<DomainStat>, base: nat, phase: Phase)

  /** `origins[j]` is the flight that saved summary j. */
  datatype World = World(table: Table, flights: seq<Flight>, saved: seq<Summary>, origins: seq<nat>)

  datatype Move =
    | Write(rows: seq<Row>)
    | Ask(req: Request, setup: Setup, stats: seq<DomainStat>)
    | Lookup(k: nat, found: Option<nat>)
    | Save(k: nat, resp: Response, createdAt: int)
    | Abandon(k: nat)

  ghost predicate Possible(w: World, m: Move) {
    match m
    case Write(_) => true
    case Ask(req, _, stats) => Aggregated(stats, w.table, req.since)
    case Lookup(k, found) =>
      k < |w.flights| && w.flights[k].phase == Looking && IsLatest(w.saved, KeyOf(w.flights[k]), found)
    case Save(k, resp, _) =>
      k < |w.flights| && w.flights[k].phase == Missed && (w.flights[k].stats == [] ==> resp == NO_EVENTS)
    case Abandon(k) => k < |w.flights|
  }

  function KeyOf(f: Flight): CacheKey {
    KeyFor(f.req, f.setup, f.stats)
  }

  function Moved(w: World, m: Move): World {
    match m
    case Write(rows) => w.(table := InsertAll(w.table, rows))
    case Ask(req, setup, stats) =>
      w.(flights := w.flights + [Flight(req, setup, ForDomain(stats, req.domain), |w.table|, Looking)])
    case Lookup(k, found) => InPhase(w, k, if found.Some? then Finished else Missed)
    case Save(k, resp, createdAt) =>
      if k >= |w.flights| then w
      else
        var f := w.flights[k];
        InPhase(w, k, Finished)
        .(saved := w.saved + [SummaryOf(f.req, f.setup, f.stats, resp, createdAt)], origins := w.origins + [k])
    case Abandon(k) => InPhase(w, k, Finished)
  }

  function InPhase(w: World, k: nat, phase: Phase): World {
    if k < |w.flights| then w.(flights := w.flights[k := w.flights[k].(phase := phase)]) else w
  }

  ghost predicate History(w: World, moves: seq<Move>)
    decreases moves
  {
    moves == [] || (Possible(w, moves[0]) && History(Moved(w, moves[0]), moves[1..]))
  }

  function Reached(w: World, moves: seq<Move>): World
    decreases moves
  {
    if moves == [] then w else Reached(Moved(w, moves[0]), moves[1..])
  }

  function Start(table: Table): World {
    World(table, [], [], [])
  }

  /** The statistics of a flight are those of its window at its point of the table's growth. */
  ghost predicate ReadFrom(f: Flight, t: Table) {
    f.base <= |t| && multiset(f.stats) == multiset(Group(Window(t[..f.base], f.req.since, f.req.domain)))
  }

  /** The summary is the one of such a request, under some answer of the completion. */
  ghost predicate MadeOf(s: Summary, req: Request, setup: Setup, stats: seq<DomainStat>) {
    exists resp :: s == SummaryOf(req, setup, stats, resp, s.createdAt)
  }

  ghost predicate MadeBy(s: Summary, flights: seq<Flight>, k: nat) {
    k < |flights| && MadeOf(s, flights[k].req, flights[k].setup, flights[k].stats)
  }

  ghost predicate Consistent(w: World) {
    && |w.origins| == |w.saved|
    && (forall k | 0 <= k < |w.flights| :: ReadFrom(w.flights[k], w.table))
    && (forall j | 0 <= j < |w.saved| :: MadeBy(w.saved[j], w.flights, w.origins[j]))
  }

  lemma PhaseKeepsConsistent(w: World, k: nat, phase: Phase)
    requires Consistent(w)
    ensures Consistent(InPhase(w, k, phase))
  {
    var v := InPhase(w, k, phase);
    forall j | 0 <= j < |v.saved|
      ensures MadeBy(v.saved[j], v.flights, v.origins[j])
    {
      assert MadeBy(w.saved[j], w.flights, w.origins[j]);
    }
  }

  lemma SaveKeepsConsistent(w: World, k: nat, resp: Response, createdAt: int)
    requires Consistent(w) && k < |w.flights|
    ensures Consistent(Moved(w, Save(k, resp, createdAt)))
  {
    PhaseKeepsConsistent(w, k, Finished);
    var u, v, f := InPhase(w, k, Finished), Moved(w, Save(k, resp, createdAt)), w.flights[k];
    assert MadeOf(SummaryOf(f.req, f.setup, f.stats, resp, createdAt), f.req, f.setup, f.stats);
    forall j | 0 <= j < |v.saved|
      ensures MadeBy(v.saved[j], v.flights, v.origins[j])
    {
      if j < |w.saved| {
        assert MadeBy(u.saved[j], u.flights, u.origins[j]);
      }
    }
  }

  lemma WriteKeepsConsistent(w: World, rows: seq<Row>)
    requires Consistent(w)
    ensures Consistent(Moved(w, Write(rows)))
  {
    InsertAllMeaning(w.table, rows);
    var v := Moved(w, Write(rows));
    forall k | 0 <= k < |v.flights|
      ensures ReadFrom(v.flights[k], v.table)
    {
      assert ReadFrom(w.flights[k], w.table);
      assert v.table[..w.flights[k].base] == w.table[..w.flights[k].base];
    }
    forall j | 0 <= j < |v.saved|
      ensures MadeBy(v.saved[j], v.flights, v.origins[j])
    {
      assert MadeBy(w.saved[j], w.flights, w.origins[j]);
    }
  }

  lemma AskKeepsConsistent(w: World, req: Request, setup: Setup, stats: seq<DomainStat>)
    requires Consistent(w) && Aggregated(stats, w.table, req.since)
    ensures Consistent(Moved(w, Ask(req, setup, stats)))
  {
    var v := Moved(w, Ask(req, setup, stats));
    FilteredGroups(stats, w.table, req.since, req.domain);
    assert w.table[..|w.table|] == w.table;
    forall j | 0 <= j < |v.saved|
      ensures MadeBy(v.saved[j], v.flights, v.origins[j])
    {
      assert MadeBy(w.saved[j], w.flights, w.origins[j]);
    }
  }

  lemma {:induction false} HistoryKeepsConsistent(w: World, moves: seq<Move>)
    requires Consistent(w) && History(w, moves)
    ensures Consistent(Reached(w, moves))
    decreases moves
  {
    if moves != [] {
      match moves[0] {
        case Write(rows) => WriteKeepsConsistent(w, rows);
        case Ask(req, setup, stats) => AskKeepsConsistent(w, req, setup, stats);
        case Lookup(k, found) => PhaseKeepsConsistent(w, k, if found.Some? then Finished else Missed);
        case Save(k, resp, createdAt) => SaveKeepsConsistent(w, k, resp, createdAt);
        case Abandon(k) => PhaseKeepsConsistent(w, k, Finished);
      }
      HistoryKeepsConsistent(Moved(w, moves[0]), moves[1..]);
    }
  }

  // ---- What a hit means ----

  lemma StatsUnique(f: Flight, t: Table)
    requires ReadFrom(f, t)
    ensures UniqueKeys(f.stats)
  {
    var rows := Window(t[..f.base], f.req.since, f.req.domain);
    GroupUnique(rows);
    UniqueKeysOfPermutation(Group(rows), f.stats);
  }

  /** Rows that come on top take no key away. */
  lemma KeysStay(rows: Table, more: Table)
    ensures KeysWithin(Group(rows), Group(rows + more))
  {
    forall x | x in Group(rows)
      ensures HasAlike(Group(rows + more), x)
    {
      GroupUnique(rows);
      FindIn(Group(rows), x);
      GroupMeaning(rows, x.domain, x.eventType);
      CountConcat(rows, more, x.domain, x.eventType);
      GroupMeaning(rows + more, x.domain, x.eventType);
      NoneFound(Group(rows + more), x.domain, x.eventType);
      var y := Find(Group(rows + more), x.domain, x.eventType).value;
      assert y in Group(rows + more) && Alike(x, y);
    }
  }

  lemma LaterKeysWithin(t: Table, a: nat, b: nat, since: int, domain: string)
    requires a <= b <= |t|
    ensures KeysWithin(Group(Window(t[..a], since, domain)), Group(Window(t[..b], since, domain)))
  {
    assert t[..b] == t[..a] + t[a..b];
    WindowConcat(t[..a], t[a..b], since, domain);
    KeysStay(Window(t[..a], since, domain), Window(t[a..b], since, domain));
  }

  lemma SortedAsGroups(f: Flight, t: Table)
    requires ReadFrom(f, t)
    ensures var groups := Group(RowsRead(f, t));
            UniqueKeys(groups) && multiset(f.stats) == multiset(groups) && Sorted(f.stats) == Sorted(groups)
  {
    GroupUnique(RowsRead(f, t));
    PermutationsAgree(Group(RowsRead(f, t)), f.stats);
  }

  /**
    No request can meet a collision of texts: two reads of one growing table that give the same text
    have read the same statistics, whatever is in the fields.
   */
  lemma SameTextSameStats(o: Flight, f: Flight, t: Table)
    requires ReadFrom(f, t) && ReadFrom(o, t) && o.req == f.req && Lines(Sorted(o.stats)) == Lines(Sorted(f.stats))
    ensures multiset(o.stats) == multiset(f.stats)
  {
    SortedAsGroups(o, t);
    SortedAsGroups(f, t);
    if o.base <= f.base {
      LaterKeysWithin(t, o.base, f.base, f.req.since, f.req.domain);
      GrownTextTells(Group(RowsRead(o, t)), Group(RowsRead(f, t)));
    } else {
      LaterKeysWithin(t, f.base, o.base, f.req.since, f.req.domain);
      GrownTextTells(Group(RowsRead(f, t)), Group(RowsRead(o, t)));
    }
  }

  /** Two flights that read the same statistics read the same rows, and the other way round. */
  lemma SameStatsSameRows(f: Flight, g: Flight, t: Table)
    requires ReadFrom(f, t) && ReadFrom(g, t) && f.req == g.req
    ensures multiset(f.stats) == multiset(g.stats) <==>
              Window(t[..f.base], f.req.since, f.req.domain) == Window(t[..g.base], g.req.since, g.req.domain)
  {
    SameGroupsSameRows(t, f.base, g.base, f.req.since, f.req.domain);
  }

  /** The event rows that a flight has read. */
  function RowsRead(f: Flight, t: Table): Table
    requires f.base <= |t|
  {
    Window(t[..f.base], f.req.since, f.req.domain)
  }

  /** The saved summary is from the same request, under the configured names and the same parameters. */
  predicate SameQuestion(o: Flight, resp: Response, f: Flight) {
    && o.req == f.req
    && Named(resp.model, o.setup.model) == f.setup.model
    && Named(resp.provider, o.setup.provider) == f.setup.provider
    && o.setup.promptVersion == f.setup.promptVersion
    && o.setup.temperature == f.setup.temperature && o.setup.maxTokens == f.setup.maxTokens
  }

  lemma MatchByText(f: Flight, o: Flight, resp: Response, createdAt: int)
    ensures Matches(SummaryOf(o.req, o.setup, o.stats, resp, createdAt), KeyOf(f)) ==>
              SameQuestion(o, resp, f) && Lines(Sorted(o.stats)) == Lines(Sorted(f.stats))
    ensures SameQuestion(o, resp, f) && Sorted(o.stats) == Sorted(f.stats) ==>
              Matches(SummaryOf(o.req, o.setup, o.stats, resp, createdAt), KeyOf(f))
  {
    if Matches(SummaryOf(o.req, o.setup, o.stats, resp, createdAt), KeyOf(f)) {
      SplitHeader(o.setup.temperature, o.setup.maxTokens, Lines(Sorted(o.stats)),
                  f.setup.temperature, f.setup.maxTokens, Lines(Sorted(f.stats)));
    }
  }

  /**
    When a saved summary answers a later request: exactly if request, names and parameters are the
    same and it was made from the event rows that the request has read.
   */
  lemma MatchMeaning(f: Flight, o: Flight, t: Table, resp: Response, createdAt: int)
    requires ReadFrom(f, t) && ReadFrom(o, t)
    ensures Matches(SummaryOf(o.req, o.setup, o.stats, resp, createdAt), KeyOf(f)) <==>
              SameQuestion(o, resp, f) && RowsRead(o, t) == RowsRead(f, t)
  {
    MatchByText(f, o, resp, createdAt);
    StatsUnique(o, t);
    if o.req == f.req {
      SameStatsSameRows(o, f, t);
      if Lines(Sorted(o.stats)) == Lines(Sorted(f.stats)) { SameTextSameStats(o, f, t); }
    }
    if multiset(o.stats) == multiset(f.stats) { PermutationsAgree(o.stats, f.stats); }
  }

  /**
    The cache agrees with recomputation: over any history of event writes, requests under any
    configurations, completions and saves, a hit carries the requested domain and window and the
    configured provider, model and prompt version, and was made under the same parameters from
    exactly the statistics, and so from exactly the event rows, that the request has just read.
   */
  lemma HitIsCurrent(table: Table, moves: seq<Move>, k: nat, j: nat)
    requires History(Start(table), moves)
    requires
      var w := Reached(Start(table), moves);
      k < |w.flights| && IsLatest(w.saved, KeyOf(w.flights[k]), Some(j))
    ensures
      var w := Reached(Start(table), moves);
      var f, hit := w.flights[k], w.saved[j];
      && hit.domain == f.req.domain && hit.windowFrom == f.req.since
      && hit.model == f.setup.model && hit.provider == NullableString(f.setup.provider)
      && hit.promptVersion == NullableString(f.setup.promptVersion)
      && |w.origins| == |w.saved| && w.origins[j] < |w.flights|
      && var o := w.flights[w.origins[j]];
         && o.setup.temperature == f.setup.temperature && o.setup.maxTokens == f.setup.maxTokens
         && multiset(o.stats) == multiset(f.stats)
         && o.base <= |w.table| && f.base <= |w.table| && RowsRead(o, w.table) == RowsRead(f, w.table)
  {
    HistoryKeepsConsistent(Start(table), moves);
    var w := Reached(Start(table), moves);
    var f, o := w.flights[k], w.flights[w.origins[j]];
    assert MadeBy(w.saved[j], w.flights, w.origins[j]);
    var resp :| w.saved[j] == SummaryOf(o.req, o.setup, o.stats, resp, w.saved[j].createdAt);
    assert ReadFrom(f, w.table) && ReadFrom(o, w.table);
    MatchMeaning(f, o, w.table, resp, w.saved[j].createdAt);
    SameStatsSameRows(o, f, w.table);
  }

  /** Move n saved summary j: its text and time are those of that move. */
  ghost predicate SavedBy(w: World, moves: seq<Move>, j: nat, n: nat) {
    && n < |moves| && moves[n].Save? && j < |w.saved| && j < |w.origins| && w.origins[j] == moves[n].k
    && w.saved[j].content == TrimSpace(moves[n].resp.content) && w.saved[j].createdAt == moves[n].createdAt
  }

  lemma {:induction false} SavedStay(w: World, moves: seq<Move>)
    requires |w.saved| == |w.origins|
    ensures w.saved <= Reached(w, moves).saved && w.origins <= Reached(w, moves).origins
    ensures |Reached(w, moves).saved| == |Reached(w, moves).origins|
    decreases moves
  {
    if moves != [] { SavedStay(Moved(w, moves[0]), moves[1..]); }
  }

  lemma {:induction false} WhoSaved(w: World, moves: seq<Move>, j: nat) returns (n: nat)
    requires |w.saved| == |w.origins| <= j < |Reached(w, moves).saved|
    ensures SavedBy(Reached(w, moves), moves, j, n)
    decreases moves
  {
    var v := Moved(w, moves[0]);
    SavedStay(v, moves[1..]);
    if j < |v.saved| {
      n := 0;
      assert moves[0].Save?;
    } else {
      var m := WhoSaved(v, moves[1..], j);
      n := m + 1;
    }
  }

  /**
    What the caller reads: the text and the time of a hit are those that the Save of its flight gave,
    and that flight read what the request has read.
   */
  lemma HitIsAnswer(table: Table, moves: seq<Move>, k: nat, j: nat) returns (n: nat)
    requires History(Start(table), moves)
    requires
      var w := Reached(Start(table), moves);
      k < |w.flights| && IsLatest(w.saved, KeyOf(w.flights[k]), Some(j))
    ensures SavedBy(Reached(Start(table), moves), moves, j, n)
    ensures
      var w := Reached(Start(table), moves);
      moves[n].k < |w.flights| && multiset(w.flights[moves[n].k].stats) == multiset(w.flights[k].stats)
  {
    HitIsCurrent(table, moves, k, j);
    n := WhoSaved(Start(table), moves, j);
  }

  /**
    A repeated request: after a flight has saved its summary, a later one for the same request under
    the same configuration matches that summary exactly if no event of its window has been written
    between the two reads and the saved model and provider are the configured ones; it then cannot miss.
   */
  lemma RepeatHits(table: Table, moves: seq<Move>, k: nat, j: nat, resp: Response)
    requires History(Start(table), moves)
    requires
      var w := Reached(Start(table), moves);
      && k < |w.flights| && j < |w.saved| && |w.origins| == |w.saved| && w.origins[j] < |w.flights|
      && var o := w.flights[w.origins[j]];
         && w.saved[j] == SummaryOf(o.req, o.setup, o.stats, resp, w.saved[j].createdAt)
         && o.req == w.flights[k].req && o.setup == w.flights[k].setup
    ensures
      var w := Reached(Start(table), moves);
      var f, o := w.flights[k], w.flights[w.origins[j]];
      && o.base <= |w.table| && f.base <= |w.table|
      && (Matches(w.saved[j], KeyOf(f)) <==>
            AsConfigured(resp, f.setup) && RowsRead(o, w.table) == RowsRead(f, w.table))
      && (Matches(w.saved[j], KeyOf(f)) ==> !IsLatest(w.saved, KeyOf(f), None))
  {
    HistoryKeepsConsistent(Start(table), moves);
    var w := Reached(Start(table), moves);
    var f, o := w.flights[k], w.flights[w.origins[j]];
    assert ReadFrom(f, w.table) && ReadFrom(o, w.table);
    MatchMeaning(f, o, w.table, resp, w.saved[j].createdAt);
  }

  // ---- Texts of different databases ----

  ghost predicate CleanTable(t: Table) {
    forall r | r in t :: BAR !in r.domain && !HoldsLineEnd(r.eventType)
  }

  lemma GroupsClean(rows: Table)
    requires CleanTable(rows)
    ensures AllClean(Group(rows))
  {
    forall x | x in Group(rows)
      ensures Clean(x)
    {
      GroupUnique(rows);
      FindIn(Group(rows), x);
      GroupMeaning(rows, x.domain, x.eventType);
      var r :| r in rows && r.domain == x.domain && r.eventType == x.eventType && r.occurredAt == x.firstSeen;
    }
  }

  /** The row is of an event that the transformer gives under this configuration. */
  ghost predicate FromTransformer(configured: seq<string>, normalise: Intake.Normaliser, r: Row) {
    exists m, e :: Intake.Gives(configured, normalise, m, e) && e.data.Some? && r == RowOf(e)
  }

  /** No domain that the transformer writes has a bar, whatever the configuration. */
  lemma DomainsHaveNoBar(configured: seq<string>, normalise: Intake.Normaliser, r: Row)
    requires FromTransformer(configured, normalise, r)
    ensures BAR !in r.domain
  {
    var m, e :| Intake.Gives(configured, normalise, m, e) && e.data.Some? && r == RowOf(e);
    Intake.GivesMeaning(configured, normalise, m, e);
  }

  /**
    With types configured and "unknown" not among them every row is clean, and the text tells the
    statistics of any such table from those of any other.
   */
  lemma ConfiguredTableIsClean(configured: seq<string>, normalise: Intake.Normaliser, t: Table)
    requires configured != [] && Intake.UNKNOWN_TYPE !in configured
    requires forall r | r in t :: FromTransformer(configured, normalise, r)
    ensures CleanTable(t) && AllClean(Group(t))
  {
    forall r | r in t
      ensures BAR !in r.domain && !HoldsLineEnd(r.eventType)
    {
      DomainsHaveNoBar(configured, normalise, r);
      var m, e :| Intake.Gives(configured, normalise, m, e) && e.data.Some? && r == RowOf(e);
      Intake.GivesMeaning(configured, normalise, m, e);
      Intake.AcceptedTypeIsValid(configured, m);
      if HoldsLineEnd(r.eventType) { LineEndHasBar(r.eventType); }
    }
    GroupsClean(t);
  }

  lemma LineEndHasBar(text: string)
    requires HoldsLineEnd(text)
    ensures BAR in text
  {
    var x, s, w :| Holds(text, x, s, w);
    assert Figures(s)[0] == BAR && (x + Figures(s))[|x|] == BAR && text[|x|] == BAR;
  }

  // ---- The service ----

  /** What fails on the way, and what the completion says. */
  datatype Luck = Luck(
    aggregates: bool, looksUp: bool, evidence: Option<seq<string>>, response: Option<Response>,
    saves: bool, links: bool, now: int)

  datatype Link = Link(summary: nat, eventId: string)

  datatype Answer = Answer(report: Option<Summary>, ok: bool)

  class SummaryService {
    const setup: Setup
    var saved: seq<Summary>
    var links: set<Link>                // a link is a primary key: inserting one that is there does nothing

    constructor (setup: Setup)
      ensures this.setup == setup && saved == [] && links == {}
    {
      this.setup, saved, links := setup, [], {};
    }

    /** The first of the newest matching rows. */
    method LatestSummary(key: CacheKey) returns (found: Option<nat>)
      ensures IsLatest(saved, key, found)
    {
      found := None;
      for j := 0 to |saved|
        invariant IsLatest(saved[..j], key, found)
      {
        if Matches(saved[j], key) && (found.None? || saved[found.value].createdAt < saved[j].createdAt) {
          found := Some(j);
        }
      }
      assert saved[..|saved|] == saved;
    }

    method SaveSummary(r: Summary, works: bool) returns (id: Option<nat>)
      modifies this`saved
      ensures if works then saved == old(saved) + [r] && id == Some(|old(saved)|) else saved == old(saved) && id == None
    {
      if !works {
        return None;
      }
      saved := saved + [r];
      return Some(|saved| - 1);
    }

    /** All links in one transaction, or none. */
    method SaveLinks(id: nat, events: seq<string>, works: bool) returns (ok: bool)
      modifies this`links
      ensures ok <==> events == [] || works
      ensures links == if works then old(links) + (set e | e in events :: Link(id, e)) else old(links)
    {
      if |events| == 0 {
        return true;
      }
      var made: seq<Link> := [];
      for i := 0 to |events|
        invariant made == seq(i, n requires 0 <= n < i => Link(id, events[n]))
      {
        made := made + [Link(id, events[i])];
      }
      if works {
        InsertLinks(made);
        forall e | e in events
          ensures Link(id, e) in made
        {
          var n :| 0 <= n < |events| && events[n] == e;
          assert made[n] == Link(id, e);
        }
      }
      return works;
    }

    method InsertLinks(made: seq<Link>)
      modifies this`links
      ensures links == old(links) + (set l | l in made)
    {
      for i := 0 to |made|
        invariant links == old(links) + (set l | l in made[..i])
      {
        links := links + {made[i]};
      }
    }

    /**
      One request. A hit is returned as it is and changes nothing. A miss answers with the report of
      this request and these statistics - the text that there are none, or the trimmed text of the
      completion - and saves it, with its links, as far as the stores work; it answers without an error only if
      all of it was saved. Without statistics no completion is asked for.
     */
    method Summarize(req: Request, stats: seq<DomainStat>, luck: Luck) returns (answer: Answer)
      modifies this`saved, this`links
      ensures !luck.aggregates || !luck.looksUp ==>
                answer == Answer(None, false) && saved == old(saved) && links == old(links)
      ensures luck.aggregates && luck.looksUp ==>
                var kept := ForDomain(stats, req.domain);
                var key := KeyFor(req, setup, kept);
                if !IsLatest(old(saved), key, None) then
                  && saved == old(saved) && links == old(links) && answer.ok
                  && exists j: nat :: IsLatest(old(saved), key, Some(j)) && answer.report == Some(old(saved)[j])
                else if kept != [] && (luck.evidence.None? || luck.response.None?) then
                  answer == Answer(None, false) && saved == old(saved) && links == old(links)
                else
                  var resp := if kept == [] then NO_EVENTS else luck.response.value;
                  var evidence := if kept == [] then [] else luck.evidence.value;
                  && answer.report.Some? && Reports(answer.report.value, req, setup, kept, resp, luck.now)
                  && answer.report.value == SummaryOf(req, setup, kept, resp, luck.now)
                  && saved == (if luck.saves then old(saved) + [answer.report.value] else old(saved))
                  && links == (if luck.saves && luck.links
                               then old(links) + (set e | e in evidence :: Link(|old(saved)|, e)) else old(links))
                  && (answer.ok <==> luck.saves && (evidence == [] || luck.links))
    {
      if !luck.aggregates {
        return Answer(None, false);
      }
      var kept := FilterDomain(stats, req.domain);
      var hash := ComputeInputHash(kept, setup.temperature, setup.maxTokens);
      var key := CacheKey(req.domain, req.since, setup.provider, setup.model, setup.promptVersion,
                          setup.temperature, setup.maxTokens, hash);
      if !luck.looksUp {
        return Answer(None, false);
      }
      var found := LatestSummary(key);
      if found.Some? {
        assert IsLatest(saved, key, Some(found.value));
        return Answer(Some(saved[found.value]), true);
      }
      if |kept| == 0 {
        var none := Summary(req.domain, req.since, setup.model, NullableString(setup.provider),
                            NullableString(setup.promptVersion), Some(hash), NO_EVENTS_TEXT, luck.now);
        SummaryReports(req, setup, kept, NO_EVENTS, luck.now);
        var id := SaveSummary(none, luck.saves);
        return Answer(Some(none), id.Some?);
      }
      if luck.evidence.None? || luck.response.None? {
        return Answer(None, false);
      }
      var resp := luck.response.value;
      var model := if resp.model == "" then setup.model else resp.model;
      var provider := if resp.provider == "" then setup.provider else resp.provider;
      var report := Summary(req.domain, req.since, model, NullableString(provider),
                            NullableString(setup.promptVersion), Some(hash), TrimSpace(resp.content), luck.now);
      SummaryReports(req, setup, kept, resp, luck.now);
      var ok := SaveReport(report, luck.evidence.value, luck);
      return Answer(Some(report), ok);
    }

    /** Save a report and the links to its evidence. */
    method SaveReport(report: Summary, evidence: seq<string>, luck: Luck) returns (ok: bool)
      modifies this`saved, this`links
      ensures saved == if luck.saves then old(saved) + [report] else old(saved)
      ensures links == if luck.saves && luck.links
                       then old(links) + (set e | e in evidence :: Link(|old(saved)|, e)) else old(links)
      ensures ok <==> luck.saves && (evidence == [] || luck.links)
    {
      var id := SaveSummary(report, luck.saves);
      if id.None? {
        return false;
      }
      ok := SaveLinks(id.value, evidence, luck.links);
    }
  }
}
