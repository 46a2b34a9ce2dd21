/**
 * The history log of logger/log_result.go: merging tri-state statuses, grouping
 * one service's probe results by URL, and recording a run into the store of
 * per-service and per-URL histories.
 *
 * How a history grows and how old entries expire (`AddEntry`,
 * `CleanExpiredEntries`) is not modelled: both arrive as functions in
 * `HistoryOps`, and the contracts only say which history each is applied to,
 * with which entry, and how often. Reading, decoding, encoding and writing the
 * log file are likewise reduced to their outcomes.
 */
module LogResult {
  import opened Wrappers
  import opened Types

  // ------------------------------------------------------ mergeOnlineStatus

  /** The two flags of the scan in `mergeOnlineStatus`: whether NONE and whether ALL occur. */
  function Scan(statuses: seq<TestResult>): (flags: (bool, bool))
    ensures flags.0 <==> NONE in statuses
    ensures flags.1 <==> ALL in statuses
  {
    if statuses == [] then (false, false)
    else
      var rest := Scan(statuses[1..]);
      assert statuses == [statuses[0]] + statuses[1..];
      (rest.0 || statuses[0] == NONE, rest.1 || statuses[0] == ALL)
  }

  /**
   * `mergeOnlineStatus`: no statuses is NONE; otherwise NONE without ALL is
   * NONE, ALL without NONE is ALL, and both or neither is PART. PART itself
   * never decides the outcome.
   */
  function MergeOnlineStatus(statuses: seq<TestResult>): (r: TestResult)
    ensures |statuses| == 0 ==> r == NONE
    ensures |statuses| > 0 ==> (r == NONE <==> NONE in statuses && ALL !in statuses)
    ensures |statuses| > 0 ==> (r == ALL <==> ALL in statuses && NONE !in statuses)
    ensures r == PART <==> |statuses| > 0 && (NONE in statuses <==> ALL in statuses)
  {
    if |statuses| == 0 then NONE
    else
      var flags := Scan(statuses);
      var hasNone, hasAll := flags.0, flags.1;
      if hasNone && !hasAll then NONE
      else if !hasNone && hasAll then ALL
      else PART
  }

  /** The merge sees only which statuses occur: neither their order nor their repetition matters. */
  lemma MergeDependsOnlyOnMembers(a: seq<TestResult>, b: seq<TestResult>)
    requires forall x :: x in a <==> x in b
    ensures MergeOnlineStatus(a) == MergeOnlineStatus(b)
  {
    if |a| > 0 {
      assert a[0] in b;
    }
    if |b| > 0 {
      assert b[0] in a;
    }
  }

  /** In particular a permutation merges to the same status. */
  lemma MergeIgnoresOrder(a: seq<TestResult>, b: seq<TestResult>)
    requires multiset(a) == multiset(b)
    ensures MergeOnlineStatus(a) == MergeOnlineStatus(b)
  {
    forall x
      ensures x in a <==> x in b
    {
      assert x in a <==> x in multiset(a);
      assert x in b <==> x in multiset(b);
    }
    MergeDependsOnlyOnMembers(a, b);
  }

  /** The truth table as coded: PART next to a decided status does not make the merge partial. */
  lemma MergeTruthTable()
    ensures MergeOnlineStatus([]) == NONE
    ensures MergeOnlineStatus([ALL]) == ALL
    ensures MergeOnlineStatus([NONE]) == NONE
    ensures MergeOnlineStatus([PART]) == PART
    ensures MergeOnlineStatus([ALL, NONE]) == PART
    ensures MergeOnlineStatus([NONE, PART]) == NONE
    ensures MergeOnlineStatus([ALL, PART]) == ALL
  {
  }

  /**
   * Merging does not compose: merging two merged groups can differ from merging
   * everything at once, because PART forgets that both NONE and ALL were seen.
   */
  lemma MergeDoesNotCompose()
    ensures var a, b := [NONE, ALL], [NONE];
            MergeOnlineStatus([MergeOnlineStatus(a), MergeOnlineStatus(b)]) != MergeOnlineStatus(a + b)
  {
  }

  // ----------------------------------------------------- processCheckResult

  /** One probe result as the log reads it: its URL, status, start time and response time. */
  datatype ProbeRecord = ProbeRecord(url: string, status: TestResult, startTime: string, responseTime: Duration)

  /** One service's results: its own status and start time, and its health and API probes. */
  datatype ServiceResult = ServiceResult(
    name: string,
    status: TestResult,
    startTime: string,
    health: seq<ProbeRecord>,
    api: seq<ProbeRecord>)

  /** All probes of a service, health checks first, in the order the grouping visits them. */
  function Probes(svc: ServiceResult): seq<ProbeRecord>
  {
    svc.health + svc.api
  }

  /** The URLs that occur among the probes. */
  function Urls(ps: seq<ProbeRecord>): set<string>
  {
    set i | 0 <= i < |ps| :: ps[i].url
  }

  /** The statuses of the probes of `u`, in probe order. */
  function StatusesOf(ps: seq<ProbeRecord>, u: string): seq<TestResult>
  {
    if ps == [] then []
    else (if ps[0].url == u then [ps[0].status] else []) + StatusesOf(ps[1..], u)
  }

  /** The position of the first probe of `u`. */
  function FirstIndexOf(ps: seq<ProbeRecord>, u: string): (i: nat)
    requires u in Urls(ps)
    ensures i < |ps| && ps[i].url == u
    ensures forall j :: 0 <= j < i ==> ps[j].url != u
  {
    if ps[0].url == u then 0
    else
      var k :| 0 <= k < |ps| && ps[k].url == u;
      assert ps[1..][k - 1].url == u;
      1 + FirstIndexOf(ps[1..], u)
  }

  /** The largest response time among the probes of `u`. */
  function SlowestOf(ps: seq<ProbeRecord>, u: string): (d: Duration)
    requires u in Urls(ps)
    ensures forall i :: 0 <= i < |ps| && ps[i].url == u ==> ps[i].responseTime <= d
    ensures exists i :: 0 <= i < |ps| && ps[i].url == u && ps[i].responseTime == d
  {
    if u !in Urls(ps[1..]) then
      assert forall i :: 1 <= i < |ps| ==> ps[i].url == ps[1..][i - 1].url;
      ps[0].responseTime
    else
      var rest := SlowestOf(ps[1..], u);
      assert forall i :: 1 <= i < |ps| ==> ps[i] == ps[1..][i - 1];
      if ps[0].url == u && ps[0].responseTime > rest then ps[0].responseTime else rest
  }

  /** The three maps `processCheckResult` returns. */
  datatype Grouped = Grouped(
    statuses: map<string, seq<TestResult>>,
    times: map<string, string>,
    slowest: map<string, Duration>)
  {
    predicate WellFormed()
    {
      statuses.Keys == times.Keys == slowest.Keys
    }
  }

  /** One iteration of the grouping loop: append the status, keep the first time, keep the larger response time. */
  function AddProbe(g: Grouped, p: ProbeRecord): (r: Grouped)
    ensures r.statuses.Keys == g.statuses.Keys + {p.url}
    ensures g.WellFormed() ==> r.WellFormed()
    ensures p.url in g.times ==> r.times == g.times
    ensures p.url in r.slowest && r.slowest[p.url] >= p.responseTime
    ensures p.url in g.slowest ==> r.slowest[p.url] >= g.slowest[p.url]
  {
    Grouped(
      g.statuses[p.url := Lookup(g.statuses, p.url, []) + [p.status]],
      if p.url in g.times then g.times else g.times[p.url := p.startTime],
      if p.url !in g.slowest || p.responseTime > g.slowest[p.url] then g.slowest[p.url := p.responseTime]
      else g.slowest)
  }

  lemma UrlsSnoc(ps: seq<ProbeRecord>, p: ProbeRecord)
    ensures Urls(ps + [p]) == Urls(ps) + {p.url}
  {
    var qs := ps + [p];
    forall u | u in Urls(qs)
      ensures u in Urls(ps) + {p.url}
    {
      var i :| 0 <= i < |qs| && qs[i].url == u;
      if i < |ps| {
        assert ps[i].url == u;
      }
    }
    forall u | u in Urls(ps)
      ensures u in Urls(qs)
    {
      var i :| 0 <= i < |ps| && ps[i].url == u;
      assert qs[i].url == u;
    }
    assert qs[|ps|].url == p.url;
  }

  lemma {:induction false} StatusesOfSnoc(ps: seq<ProbeRecord>, p: ProbeRecord, u: string)
    ensures StatusesOf(ps + [p], u) == StatusesOf(ps, u) + (if p.url == u then [p.status] else [])
  {
    var tail := if p.url == u then [p.status] else [];
    if ps == [] {
      assert ps + [p] == [p];
      assert StatusesOf([p], u) == tail + StatusesOf([], u);
    } else {
      var qs := ps + [p];
      var head := if ps[0].url == u then [ps[0].status] else [];
      assert qs[0] == ps[0] && qs[1..] == ps[1..] + [p];
      StatusesOfSnoc(ps[1..], p, u);
      assert StatusesOf(qs, u) == head + (StatusesOf(ps[1..], u) + tail);
      assert StatusesOf(ps, u) == head + StatusesOf(ps[1..], u);
    }
  }

  lemma FirstIndexOfSnoc(ps: seq<ProbeRecord>, p: ProbeRecord, u: string)
    requires u in Urls(ps)
    ensures u in Urls(ps + [p]) && FirstIndexOf(ps + [p], u) == FirstIndexOf(ps, u)
  {
    UrlsSnoc(ps, p);
    assert forall j :: 0 <= j < |ps| ==> (ps + [p])[j] == ps[j];
  }

  lemma FirstIndexOfNew(ps: seq<ProbeRecord>, p: ProbeRecord)
    requires p.url !in Urls(ps)
    ensures p.url in Urls(ps + [p]) && FirstIndexOf(ps + [p], p.url) == |ps|
  {
    UrlsSnoc(ps, p);
    assert forall j :: 0 <= j < |ps| ==> (ps + [p])[j] == ps[j];
  }

  /** A bound on the response times of `u` that one of them attains is `SlowestOf`. */
  lemma SlowestOfIsTheMaximum(ps: seq<ProbeRecord>, u: string, d: Duration, k: nat)
    requires u in Urls(ps)
    requires forall j :: 0 <= j < |ps| && ps[j].url == u ==> ps[j].responseTime <= d
    requires k < |ps| && ps[k].url == u && ps[k].responseTime == d
    ensures SlowestOf(ps, u) == d
  {
  }

  lemma SlowestOfSnoc(ps: seq<ProbeRecord>, p: ProbeRecord, u: string)
    requires u in Urls(ps)
    ensures u in Urls(ps + [p])
    ensures SlowestOf(ps + [p], u) ==
            if p.url == u && p.responseTime > SlowestOf(ps, u) then p.responseTime else SlowestOf(ps, u)
  {
    UrlsSnoc(ps, p);
    var qs := ps + [p];
    var before := SlowestOf(ps, u);
    var expected := if p.url == u && p.responseTime > before then p.responseTime else before;
    assert forall j :: 0 <= j < |ps| ==> qs[j] == ps[j];
    assert qs[|ps|] == p;
    var k :| 0 <= k < |ps| && ps[k].url == u && ps[k].responseTime == before;
    SlowestOfIsTheMaximum(qs, u, expected, if expected == before then k else |ps|);
  }

  lemma SlowestOfNew(ps: seq<ProbeRecord>, p: ProbeRecord)
    requires p.url !in Urls(ps)
    ensures p.url in Urls(ps + [p]) && SlowestOf(ps + [p], p.url) == p.responseTime
  {
    UrlsSnoc(ps, p);
    var qs := ps + [p];
    assert forall j :: 0 <= j < |ps| ==> qs[j] == ps[j];
    assert qs[|ps|] == p;
  }

  /**
   * `g` holds, for every URL among `ps`, the list of its probes' statuses in
   * order, the start time of its first probe and the largest of its probes'
   * response times, and nothing for any other URL.
   */
  predicate GroupsCorrectly(g: Grouped, ps: seq<ProbeRecord>)
  {
    && g.WellFormed() && g.statuses.Keys == Urls(ps)
    && (forall u :: u in g.statuses ==> g.statuses[u] == StatusesOf(ps, u))
    && (forall u :: u in g.times ==> g.times[u] == ps[FirstIndexOf(ps, u)].startTime)
    && (forall u :: u in g.slowest ==> g.slowest[u] == SlowestOf(ps, u))
  }

  lemma {:induction false} StatusesOfAbsent(ps: seq<ProbeRecord>, u: string)
    requires u !in Urls(ps)
    ensures StatusesOf(ps, u) == []
  {
    if ps != [] {
      assert ps[0].url != u;
      assert u !in Urls(ps[1..]) by {
        forall i | 0 <= i < |ps[1..]| ensures ps[1..][i].url != u {
          assert ps[1..][i] == ps[i + 1];
        }
      }
      StatusesOfAbsent(ps[1..], u);
    }
  }

  lemma AddProbeStatuses(g: Grouped, init: seq<ProbeRecord>, p: ProbeRecord)
    requires g.WellFormed() && g.statuses.Keys == Urls(init)
    requires forall u :: u in g.statuses ==> g.statuses[u] == StatusesOf(init, u)
    ensures var g' := AddProbe(g, p);
            forall u :: u in g'.statuses ==> g'.statuses[u] == StatusesOf(init + [p], u)
  {
    var g' := AddProbe(g, p);
    forall u | u in g'.statuses ensures g'.statuses[u] == StatusesOf(init + [p], u) {
      StatusesOfSnoc(init, p, u);
      if u == p.url && u !in g.statuses {
        StatusesOfAbsent(init, u);
      }
    }
  }

  lemma AddProbeTimes(g: Grouped, init: seq<ProbeRecord>, p: ProbeRecord)
    requires g.WellFormed() && g.statuses.Keys == Urls(init)
    requires forall u :: u in g.times ==> g.times[u] == init[FirstIndexOf(init, u)].startTime
    ensures var g' := AddProbe(g, p);
            forall u :: u in g'.times ==> u in Urls(init + [p]) && g'.times[u] == (init + [p])[FirstIndexOf(init + [p], u)].startTime
  {
    var g' := AddProbe(g, p);
    UrlsSnoc(init, p);
    forall u | u in g'.times ensures u in Urls(init + [p]) && g'.times[u] == (init + [p])[FirstIndexOf(init + [p], u)].startTime {
      if u in g.times {
        FirstIndexOfSnoc(init, p, u);
      } else {
        FirstIndexOfNew(init, p);
      }
    }
  }

  lemma AddProbeSlowestAt(g: Grouped, init: seq<ProbeRecord>, p: ProbeRecord, u: string)
    requires g.WellFormed() && g.statuses.Keys == Urls(init)
    requires u in g.slowest ==> g.slowest[u] == SlowestOf(init, u)
    requires u in AddProbe(g, p).slowest
    ensures u in Urls(init + [p]) && AddProbe(g, p).slowest[u] == SlowestOf(init + [p], u)
  {
    UrlsSnoc(init, p);
    if u in g.slowest {
      SlowestOfSnoc(init, p, u);
    } else {
      SlowestOfNew(init, p);
    }
  }

  lemma AddProbeSlowest(g: Grouped, init: seq<ProbeRecord>, p: ProbeRecord)
    requires g.WellFormed() && g.statuses.Keys == Urls(init)
    requires forall u :: u in g.slowest ==> g.slowest[u] == SlowestOf(init, u)
    ensures var g' := AddProbe(g, p);
            forall u :: u in g'.slowest ==> u in Urls(init + [p]) && g'.slowest[u] == SlowestOf(init + [p], u)
  {
    forall u | u in AddProbe(g, p).slowest
      ensures u in Urls(init + [p]) && AddProbe(g, p).slowest[u] == SlowestOf(init + [p], u)
    {
      AddProbeSlowestAt(g, init, p, u);
    }
  }

  /** One more iteration of the grouping loop keeps the grouping correct. */
  lemma AddProbeStep(g: Grouped, init: seq<ProbeRecord>, p: ProbeRecord)
    requires GroupsCorrectly(g, init)
    ensures GroupsCorrectly(AddProbe(g, p), init + [p])
  {
    var g', ps := AddProbe(g, p), init + [p];
    UrlsSnoc(init, p);
    assert g'.WellFormed() && g'.statuses.Keys == Urls(ps);
    AddProbeStatuses(g, init, p);
    AddProbeTimes(g, init, p);
    AddProbeSlowest(g, init, p);
  }

  /** `processCheckResult` on the probes in visiting order: the grouping loop, one probe at a time. */
  function GroupByUrl(ps: seq<ProbeRecord>): (g: Grouped)
    ensures g.WellFormed() && g.statuses.Keys == Urls(ps)
    decreases |ps|
  {
    if ps == [] then Grouped(map[], map[], map[])
    else
      var init, p := ps[..|ps| - 1], ps[|ps| - 1];
      assert ps == init + [p];
      UrlsSnoc(init, p);
      var g := GroupByUrl(init);
      AddProbe(g, p)
  }

  /**
   * The grouping is right: each URL that occurs gets the list of its probes'
   * statuses in order, the start time of its first probe and the largest of its
   * probes' response times.
   */
  lemma {:induction false} GroupByUrlCorrect(ps: seq<ProbeRecord>)
    ensures GroupsCorrectly(GroupByUrl(ps), ps)
    decreases |ps|
  {
    if ps != [] {
      var init, p := ps[..|ps| - 1], ps[|ps| - 1];
      assert ps == init + [p];
      assert GroupByUrl(ps) == AddProbe(GroupByUrl(init), p);
      GroupByUrlCorrect(init);
      AddProbeStep(GroupByUrl(init), init, p);
    }
  }

  /** `processCheckResult(svc)`: health checks first, then API checks. */
  function ProcessCheckResult(svc: ServiceResult): (g: Grouped)
    ensures g.WellFormed() && g.statuses.Keys == Urls(Probes(svc))
  {
    GroupByUrl(Probes(svc))
  }

  // ------------------------------------------------------------- the store

  /** One point of a history; `responseTime` (milliseconds) stays 0 in service histories. */
  datatype HistoryEntry = HistoryEntry(time: string, status: TestResult, responseTime: int)

  type History = seq<HistoryEntry>

  /** What the log holds for one service: its own history and one history per URL. */
  datatype Entry = Entry(serviceHistory: History, portsData: map<string, History>)

  /** The whole log: one entry per service name. */
  type Store = map<string, Entry>

  /** `History.AddEntry` and `History.CleanExpiredEntries`, whose bodies are not part of this model. */
  datatype HistoryOps = HistoryOps(
    addEntry: (History, HistoryEntry) -> History,
    cleanExpired: (History, int) -> History)

  /** One new point in a history: add the entry, then drop what has expired. */
  function Record(ops: HistoryOps, h: History, e: HistoryEntry, maxLogDays: int): History
  {
    ops.cleanExpired(ops.addEntry(h, e), maxLogDays)
  }

  /** The entry of a service that the log does not know yet. */
  const EmptyEntry: Entry := Entry([], map[])

  /** The point recorded for URL `u` of a service: merged status, first start time, slowest response in ms. */
  function PortEntry(g: Grouped, u: string): HistoryEntry
    requires g.WellFormed() && u in g.statuses
  {
    HistoryEntry(g.times[u], MergeOnlineStatus(g.statuses[u]), Milliseconds(g.slowest[u]))
  }

  /** The port histories after one point has been recorded for every URL in `urls`; others are kept. */
  function PortsAfter(ports: map<string, History>, g: Grouped, urls: set<string>, maxLogDays: int, ops: HistoryOps)
    : (r: map<string, History>)
    requires g.WellFormed() && urls <= g.statuses.Keys
    ensures r.Keys == ports.Keys + urls
  {
    map u | u in ports.Keys + urls ::
      if u in urls then Record(ops, Lookup(ports, u, []), PortEntry(g, u), maxLogDays) else ports[u]
  }

  /** The Go loop over `urlStatusMap`, visiting the URLs in the order `urls`. */
  function PortsInOrder(ports: map<string, History>, g: Grouped, urls: seq<string>, maxLogDays: int, ops: HistoryOps)
    : (r: map<string, History>)
    requires g.WellFormed() && forall i :: 0 <= i < |urls| ==> urls[i] in g.statuses
    ensures r.Keys == ports.Keys + Elems(urls)
    decreases |urls|
  {
    if urls == [] then ports
    else
      var u := urls[0];
      ElemsCons(urls);
      PortsInOrder(ports[u := Record(ops, Lookup(ports, u, []), PortEntry(g, u), maxLogDays)], g, urls[1..], maxLogDays, ops)
  }

  predicate Distinct<T(==)>(xs: seq<T>)
  {
    forall i, j :: 0 <= i < j < |xs| ==> xs[i] != xs[j]
  }

  /** The elements of a sequence, as a set. */
  function Elems<T>(xs: seq<T>): set<T>
  {
    set i | 0 <= i < |xs| :: xs[i]
  }

  lemma ElemsCons<T>(xs: seq<T>)
    requires xs != []
    ensures Elems(xs) == {xs[0]} + Elems(xs[1..])
  {
  }

  lemma DistinctCons<T>(xs: seq<T>)
    requires xs != [] && Distinct(xs)
    ensures Distinct(xs[1..]) && xs[0] !in Elems(xs[1..])
  {
  }

  /** Recording `u` first and then the URLs of `rest` is recording all of them at once. */
  lemma PortsAfterCons(ports: map<string, History>, g: Grouped, u: string, rest: set<string>,
                       maxLogDays: int, ops: HistoryOps)
    requires g.WellFormed() && u in g.statuses && rest <= g.statuses.Keys && u !in rest
    ensures PortsAfter(ports[u := Record(ops, Lookup(ports, u, []), PortEntry(g, u), maxLogDays)], g, rest, maxLogDays, ops)
            == PortsAfter(ports, g, rest + {u}, maxLogDays, ops)
  {
  }

  /**
   * The order in which Go's map iteration visits the URLs does not matter: any
   * duplicate-free enumeration of the URLs yields the same port histories.
   */
  lemma {:induction false} PortsOrderIrrelevant(ports: map<string, History>, g: Grouped, urls: seq<string>,
                                                maxLogDays: int, ops: HistoryOps)
    requires g.WellFormed() && forall i :: 0 <= i < |urls| ==> urls[i] in g.statuses
    requires Distinct(urls)
    ensures PortsInOrder(ports, g, urls, maxLogDays, ops) == PortsAfter(ports, g, Elems(urls), maxLogDays, ops)
    decreases |urls|
  {
    if urls == [] {
      assert Elems(urls) == {};
      assert PortsAfter(ports, g, {}, maxLogDays, ops) == ports;
    } else {
      var u, rest := urls[0], urls[1..];
      var ports' := ports[u := Record(ops, Lookup(ports, u, []), PortEntry(g, u), maxLogDays)];
      ElemsCons(urls);
      DistinctCons(urls);
      assert forall i :: 0 <= i < |rest| ==> rest[i] == urls[i + 1];
      PortsOrderIrrelevant(ports', g, rest, maxLogDays, ops);
      PortsAfterCons(ports, g, u, Elems(rest), maxLogDays, ops);
      assert Elems(rest) + {u} == Elems(urls);
    }
  }

  /**
   * The entry of service `svc` after a run: one point for the service, then one
   * point for every URL among its probes. URLs the run did not probe keep their
   * histories.
   */
  function EntryAfter(prior: Entry, svc: ServiceResult, maxLogDays: int, ops: HistoryOps): (e: Entry)
    ensures e.serviceHistory ==
            Record(ops, prior.serviceHistory, HistoryEntry(svc.startTime, svc.status, 0), maxLogDays)
    ensures e.portsData.Keys == prior.portsData.Keys + Urls(Probes(svc))
    ensures forall u :: u in prior.portsData && u !in Urls(Probes(svc)) ==> e.portsData[u] == prior.portsData[u]
    ensures forall u :: u in Urls(Probes(svc)) ==>
              e.portsData[u] == Record(ops, Lookup(prior.portsData, u, []), ExpectedPortEntry(Probes(svc), u), maxLogDays)
  {
    var serviceHistory := Record(ops, prior.serviceHistory, HistoryEntry(svc.startTime, svc.status, 0), maxLogDays);
    var g := ProcessCheckResult(svc);
    GroupByUrlCorrect(Probes(svc));
    Entry(serviceHistory, PortsAfter(prior.portsData, g, g.statuses.Keys, maxLogDays, ops))
  }

  /** The point a URL should get, stated through the reference definitions of the grouping. */
  function ExpectedPortEntry(ps: seq<ProbeRecord>, u: string): HistoryEntry
    requires u in Urls(ps)
  {
    HistoryEntry(ps[FirstIndexOf(ps, u)].startTime, MergeOnlineStatus(StatusesOf(ps, u)), Milliseconds(SlowestOf(ps, u)))
  }

  /**
   * One iteration of the service loop of `OutputResults`: fetch the service's
   * entry (a new, empty one if it is missing), update it, store it back.
   */
  function UpdateService(store: Store, svc: ServiceResult, maxLogDays: int, ops: HistoryOps): (r: Store)
    ensures r.Keys == store.Keys + {svc.name}
    ensures forall n :: n in store && n != svc.name ==> r[n] == store[n]
    ensures r[svc.name] == EntryAfter(Lookup(store, svc.name, EmptyEntry), svc, maxLogDays, ops)
    ensures svc.name !in store ==>
              r[svc.name].serviceHistory == Record(ops, [], HistoryEntry(svc.startTime, svc.status, 0), maxLogDays)
    ensures svc.name !in store ==> r[svc.name].portsData.Keys == Urls(Probes(svc))
  {
    store[svc.name := EntryAfter(Lookup(store, svc.name, EmptyEntry), svc, maxLogDays, ops)]
  }

  function Names(results: seq<ServiceResult>): set<string>
  {
    set i | 0 <= i < |results| :: results[i].name
  }

  lemma NamesCons(results: seq<ServiceResult>)
    requires results != []
    ensures Names(results) == {results[0].name} + Names(results[1..])
  {
  }

  /**
   * The service loop of `OutputResults`, whatever each service does to its
   * entry: the services are visited in the order given, and each one's entry
   * (an empty one if the store has none) is replaced by `update` of it.
   */
  function UpdateEach(store: Store, results: seq<ServiceResult>, update: (Entry, ServiceResult) -> Entry): (r: Store)
    ensures r.Keys == store.Keys + Names(results)
    ensures forall n :: n in store && n !in Names(results) ==> r[n] == store[n]
    decreases |results|
  {
    if results == [] then store
    else
      var svc := results[0];
      NamesCons(results);
      UpdateEach(store[svc.name := update(Lookup(store, svc.name, EmptyEntry), svc)], results[1..], update)
  }

  predicate DistinctNames(results: seq<ServiceResult>)
  {
    forall i, j :: 0 <= i < j < |results| ==> results[i].name != results[j].name
  }

  /**
   * When no service occurs twice in the results, each one's entry is updated
   * exactly once, starting from what the store held before the loop.
   */
  lemma {:induction false} UpdateEachVisitsOnce(store: Store, results: seq<ServiceResult>,
                                                update: (Entry, ServiceResult) -> Entry, i: nat)
    requires DistinctNames(results) && i < |results|
    ensures UpdateEach(store, results, update)[results[i].name] ==
            update(Lookup(store, results[i].name, EmptyEntry), results[i])
    decreases |results|
  {
    var svc := results[0];
    var store' := store[svc.name := update(Lookup(store, svc.name, EmptyEntry), svc)];
    var rest := results[1..];
    assert DistinctNames(rest) by {
      forall a, b | 0 <= a < b < |rest| ensures rest[a].name != rest[b].name {
        assert rest[a] == results[a + 1] && rest[b] == results[b + 1];
      }
    }
    if i == 0 {
      assert svc.name !in Names(rest) by {
        forall k | 0 <= k < |rest| ensures rest[k].name != svc.name {
          assert rest[k] == results[k + 1];
        }
      }
    } else {
      assert rest[i - 1] == results[i];
      UpdateEachVisitsOnce(store', rest, update, i - 1);
      assert results[i].name != svc.name;
      assert Lookup(store', results[i].name, EmptyEntry) == Lookup(store, results[i].name, EmptyEntry);
    }
  }

  /** The service loop of `OutputResults`: every service in turn gets `EntryAfter` applied to its entry. */
  function UpdateStore(store: Store, results: seq<ServiceResult>, maxLogDays: int, ops: HistoryOps): (r: Store)
    ensures r.Keys == store.Keys + Names(results)
    ensures forall n :: n in store && n !in Names(results) ==> r[n] == store[n]
  {
    UpdateEach(store, results, (prior, svc) => EntryAfter(prior, svc, maxLogDays, ops))
  }

  /** The first step of the loop is one `UpdateService`. */
  lemma UpdateStoreStep(store: Store, results: seq<ServiceResult>, maxLogDays: int, ops: HistoryOps)
    requires results != []
    ensures UpdateStore(store, results, maxLogDays, ops) ==
            UpdateStore(UpdateService(store, results[0], maxLogDays, ops), results[1..], maxLogDays, ops)
  {
  }

  /**
   * When no service occurs twice in the results, each one's entry is updated
   * exactly once, starting from what the store held before the run.
   */
  lemma UpdateStoreRecordsEachServiceOnce(store: Store, results: seq<ServiceResult>,
                                          maxLogDays: int, ops: HistoryOps, i: nat)
    requires DistinctNames(results) && i < |results|
    ensures UpdateStore(store, results, maxLogDays, ops)[results[i].name] ==
            EntryAfter(Lookup(store, results[i].name, EmptyEntry), results[i], maxLogDays, ops)
  {
    UpdateEachVisitsOnce(store, results, (prior, svc) => EntryAfter(prior, svc, maxLogDays, ops), i);
  }

  /** A service named twice in the results is updated twice, in the order given. */
  lemma UpdateStoreSameNameTwice(store: Store, a: ServiceResult, b: ServiceResult, maxLogDays: int, ops: HistoryOps)
    requires a.name == b.name
    ensures UpdateStore(store, [a, b], maxLogDays, ops)[a.name] ==
            EntryAfter(EntryAfter(Lookup(store, a.name, EmptyEntry), a, maxLogDays, ops), b, maxLogDays, ops)
  {
    UpdateStoreStep(store, [a, b], maxLogDays, ops);
    assert [a, b][1..] == [b];
    UpdateStoreStep(UpdateService(store, a, maxLogDays, ops), [b], maxLogDays, ops);
    assert [b][1..] == [];
  }

  // ------------------------------------------------------ loading and saving

  /** What reading the log file gave. */
  datatype ReadOutcome =
    | NotExist                   // the file does not exist
    | ReadFailed(err: string)    // any other read error
    | Content(text: string)

  /**
   * What the JSON decoder leaves in the log variable. The text `null` sets a Go
   * map to nil (`NilStore`): a nil map reads as empty, but assigning to it panics.
   */
  datatype Loaded = Decoded(store: Store) | NilStore
  {
    /** The services a lookup sees. */
    function Contents(): Store
    {
      if Decoded? then store else map[]
    }
  }

  /** How `OutputResults` can end without a log: an error value, or the panic of an assignment to a nil map. */
  datatype Failure = Failed(err: string) | AssignToNilMap

  /**
   * `LoadExistingLog`: a missing file is an empty log and no error, any other
   * read error is returned, and readable content is whatever `decode` (the JSON
   * decoder) makes of it.
   */
  function LoadExistingLog(read: ReadOutcome, decode: string -> Result<Loaded, string>): (r: Result<Loaded, string>)
    ensures read.NotExist? ==> r == Ok(Decoded(map[]))
    ensures r.Err? <==> read.ReadFailed? || (read.Content? && decode(read.text).Err?)
    ensures read.ReadFailed? ==> r.error == read.err
    ensures read.Content? ==> r == decode(read.text)
  {
    match read
    case NotExist => Ok(Decoded(map[]))
    case ReadFailed(err) => Err(err)
    case Content(text) => decode(text)
  }

  /**
   * `OutputResults`: load the log, record every service, save. A load error
   * stops before anything is recorded; a log that decoded to nil panics at the
   * first service stored into it; a save error (`saveError`) is returned
   * instead of the store.
   */
  function OutputResults(read: ReadOutcome, decode: string -> Result<Loaded, string>, results: seq<ServiceResult>,
                         maxLogDays: int, ops: HistoryOps, saveError: Option<string>): (r: Result<Store, Failure>)
    ensures LoadExistingLog(read, decode).Err? ==> r == Err(Failed(LoadExistingLog(read, decode).error))
    ensures r == Err(AssignToNilMap) <==> LoadExistingLog(read, decode) == Ok(NilStore) && results != []
    ensures var loaded := LoadExistingLog(read, decode);
            loaded.Ok? && !(loaded.value.NilStore? && results != []) && saveError.Some? ==>
              r == Err(Failed(saveError.value))
    ensures r.Ok? ==> LoadExistingLog(read, decode).Ok? && saveError.None?
    ensures r.Ok? ==> r.value.Keys == LoadExistingLog(read, decode).value.Contents().Keys + Names(results)
    ensures r.Ok? ==> forall n :: n in LoadExistingLog(read, decode).value.Contents() && n !in Names(results) ==>
              r.value[n] == LoadExistingLog(read, decode).value.Contents()[n]
  {
    match LoadExistingLog(read, decode)
    case Err(e) => Err(Failed(e))
    case Ok(logData) =>
      if logData.NilStore? && results != [] then Err(AssignToNilMap)
      else
        var updated := UpdateStore(logData.Contents(), results, maxLogDays, ops);
        match saveError
        case Some(e) => Err(Failed(e))
        case None => Ok(updated)
  }

  /**
   * After a successful run, each service of the run (no name repeated) holds
   * `EntryAfter` of what the loaded log had for it, or of an empty entry.
   */
  lemma OutputResultsRecordsEachService(read: ReadOutcome, decode: string -> Result<Loaded, string>,
                                        results: seq<ServiceResult>, maxLogDays: int, ops: HistoryOps,
                                        saveError: Option<string>, i: nat)
    requires DistinctNames(results) && i < |results|
    ensures var r := OutputResults(read, decode, results, maxLogDays, ops, saveError);
            r.Ok? ==> LoadExistingLog(read, decode).Ok? &&
                      r.value[results[i].name] ==
                      EntryAfter(Lookup(LoadExistingLog(read, decode).value.Contents(), results[i].name, EmptyEntry),
                                 results[i], maxLogDays, ops)
  {
    if LoadExistingLog(read, decode).Ok? {
      UpdateStoreRecordsEachServiceOnce(LoadExistingLog(read, decode).value.Contents(), results, maxLogDays, ops, i);
    }
  }

  /** A log file holding `null` survives a run with no services, and stays empty. */
  lemma NilStoreSurvivesEmptyRun(text: string, decode: string -> Result<Loaded, string>,
                                 maxLogDays: int, ops: HistoryOps)
    requires decode(text) == Ok(NilStore)
    ensures OutputResults(Content(text), decode, [], maxLogDays, ops, None) == Ok(map[])
  {
  }

  /** A first run on a missing log file records exactly the services of the results. */
  lemma FirstRunStartsEmpty(decode: string -> Result<Loaded, string>, results: seq<ServiceResult>,
                            maxLogDays: int, ops: HistoryOps)
    requires DistinctNames(results)
    ensures var r := OutputResults(NotExist, decode, results, maxLogDays, ops, None);
            && r.Ok? && r.value.Keys == Names(results)
            && forall i :: 0 <= i < |results| ==>
                 r.value[results[i].name] == EntryAfter(EmptyEntry, results[i], maxLogDays, ops)
  {
    forall i | 0 <= i < |results|
      ensures UpdateStore(map[], results, maxLogDays, ops)[results[i].name] ==
              EntryAfter(EmptyEntry, results[i], maxLogDays, ops)
    {
      UpdateStoreRecordsEachServiceOnce(map[], results, maxLogDays, ops, i);
    }
  }
}
