/** app_scoring_consumer_axis_refresh_lag.py: nearest-rank percentiles of per-axis scoring lag. */
module RefreshLag {
  import opened Wrappers
  import opened Sequences
  import opened Sorting

  const LEGAL_AXES := {"overall_risk", "auth_strength", "capability_breadth", "data_sensitivity",
                       "network_egress", "maintainer_trust", "exploit_surface"}

  /** Times and lags in microseconds. */
  const DAY := 86_400_000_000

  datatype Row = Row(serverId: string, axis: string, scoredAt: int)

  datatype AxisStats = AxisStats(p50: int, p95: int, staleOver24h: nat, neverScored: int)

  predicate AtMost(a: int, b: int) {
    a <= b
  }

  /** ceil(pct / 100 * n), exactly. */
  function Rank(pct: nat, n: nat): nat {
    (pct * n + 99) / 100
  }

  function Max(a: int, b: int): int {
    if a >= b then a else b
  }

  lemma RankInRange(pct: nat, n: nat)
    requires pct <= 100 && n > 0
    ensures Rank(pct, n) <= n && (pct > 0 ==> Rank(pct, n) >= 1)
  {
    assert pct * n <= 100 * n;
    if pct > 0 {
      assert pct * n >= 1;
    }
  }

  /** `_percentile` */
  function Percentile(data: seq<int>, pct: nat): int
    requires pct <= 100
  {
    if data == [] then 0 else
      SortByCorrect(data, AtMost);
      RankInRange(pct, |data|);
      SortBy(data, AtMost)[Max(Rank(pct, |data|) - 1, 0)]
  }

  function CountAbove(data: seq<int>, bar: int): nat {
    if data == [] then 0 else (if data[0] > bar then 1 else 0) + CountAbove(data[1..], bar)
  }

  // ----- order statistics -----

  lemma {:induction false} CountAboveInsert(x: int, xs: seq<int>, bar: int)
    ensures CountAbove(Insert(x, xs, AtMost), bar) == CountAbove([x] + xs, bar)
  {
    if xs == [] || AtMost(x, xs[0]) {
    } else {
      CountAboveInsert(x, xs[1..], bar);
      assert ([x] + xs)[1..] == xs && ([x] + xs[1..])[1..] == xs[1..];
    }
  }

  lemma {:induction false} CountAboveSort(xs: seq<int>, bar: int)
    ensures CountAbove(SortBy(xs, AtMost), bar) == CountAbove(xs, bar)
  {
    if xs != [] {
      CountAboveSort(xs[1..], bar);
      CountAboveInsert(xs[0], SortBy(xs[1..], AtMost), bar);
      assert ([xs[0]] + SortBy(xs[1..], AtMost))[1..] == SortBy(xs[1..], AtMost);
    }
  }

  /** In an ordered list the i-th entry exceeds the bar exactly when at least the last |s| - i do. */
  lemma {:induction false} EntryAboveIff(s: seq<int>, i: nat, bar: int)
    requires SortedBy(s, AtMost) && i < |s|
    ensures s[i] > bar <==> CountAbove(s, bar) >= |s| - i
  {
    CountAtMostLength(s[1..], bar);
    if i > 0 {
      EntryAboveIff(s[1..], i - 1, bar);
      assert AtMost(s[0], s[i]);
    } else if s[0] > bar {
      if |s| > 1 {
        assert AtMost(s[0], s[1]);
        EntryAboveIff(s[1..], 0, bar);
      }
    }
  }

  lemma {:induction false} CountAtMostLength(s: seq<int>, bar: int)
    ensures CountAbove(s, bar) <= |s|
  {
    if s != [] {
      CountAtMostLength(s[1..], bar);
    }
  }

  lemma RankIsCeiling(pct: nat, n: nat, count: nat)
    ensures count >= Rank(pct, n) <==> 100 * count >= pct * n
  {
  }

  /** The nearest-rank percentile is the least value that at least pct percent of the sample do not exceed. */
  lemma PercentileAtMostIff(data: seq<int>, pct: nat, bar: int)
    requires data != [] && 0 < pct <= 100
    ensures CountAbove(data, bar) <= |data|
    ensures Percentile(data, pct) <= bar <==> 100 * (|data| - CountAbove(data, bar)) >= pct * |data|
  {
    SortByCorrect(data, AtMost);
    RankInRange(pct, |data|);
    CountAboveSort(data, bar);
    CountAtMostLength(data, bar);
    EntryAboveIff(SortBy(data, AtMost), Rank(pct, |data|) - 1, bar);
    RankIsCeiling(pct, |data|, |data| - CountAbove(data, bar));
  }

  /** At least pct percent of the sample are at most the percentile, and fewer are below it. */
  lemma PercentileSplitsTheSample(data: seq<int>, pct: nat)
    requires data != [] && 0 < pct <= 100
    ensures var p := Percentile(data, pct);
            && 100 * (|data| - CountAbove(data, p)) >= pct * |data|
            && 100 * (|data| - CountAbove(data, p - 1)) < pct * |data|
  {
    PercentileAtMostIff(data, pct, Percentile(data, pct));
    PercentileAtMostIff(data, pct, Percentile(data, pct) - 1);
  }

  lemma RankMonotone(p: nat, q: nat, n: nat)
    requires p <= q
    ensures Rank(p, n) <= Rank(q, n)
  {
    assert p * n <= q * n;
  }

  /** Percentiles are values of the sample and grow with the percentage. */
  lemma PercentileIsAValue(data: seq<int>, p: nat, q: nat)
    requires data != [] && p <= q <= 100
    ensures Percentile(data, p) in data && Percentile(data, p) <= Percentile(data, q)
  {
    var s := SortBy(data, AtMost);
    SortByCorrect(data, AtMost);
    RankInRange(p, |data|);
    RankInRange(q, |data|);
    RankMonotone(p, q, |data|);
    var i, j := Max(Rank(p, |data|) - 1, 0), Max(Rank(q, |data|) - 1, 0);
    assert i < j ==> AtMost(s[i], s[j]);
    assert s[i] in multiset(s) && s[i] in multiset(data);
  }

  /** ... and do not depend on the order of the sample. */
  lemma SameBagSameFigures(a: seq<int>, b: seq<int>, pct: nat, bar: int)
    requires multiset(a) == multiset(b) && pct <= 100
    ensures |a| == |b| && Percentile(a, pct) == Percentile(b, pct) && CountAbove(a, bar) == CountAbove(b, bar)
  {
    assert |a| == |multiset(a)| == |multiset(b)| == |b|;
    SortOfSameBag(a, b, AtMost);
    CountAboveSort(a, bar);
    CountAboveSort(b, bar);
  }

  // ----- the aggregation -----

  function Servers(rows: seq<Row>): set<string> {
    set r | r in rows :: r.serverId
  }

  function AxesPresent(rows: seq<Row>): set<string> {
    set r | r in rows && r.axis in LEGAL_AXES :: r.axis
  }

  /** `t` is the latest score of a server on an axis. */
  ghost predicate IsLatest(rows: seq<Row>, server: string, axis: string, t: int) {
    && Row(server, axis, t) in rows
    && forall r | r in rows && r.serverId == server && r.axis == axis :: r.scoredAt <= t
  }

  function Lag(now: int, t: int): int {
    Max(now - t, 0)
  }

  /** The lags of the servers that have a score, in some order of the servers. */
  function LagsOf(order: seq<string>, latest: map<(string, string), int>, axis: string, now: int): seq<int> {
    if order == [] then [] else
      var rest, key := LagsOf(order[..|order| - 1], latest, axis, now), (order[|order| - 1], axis);
      if key in latest then rest + [Lag(now, latest[key])] else rest
  }

  function StatsOf(lags: seq<int>, total: int): AxisStats {
    AxisStats(Percentile(lags, 50), Percentile(lags, 95), CountAbove(lags, DAY), total - |lags|)
  }

  ghost predicate IsLatestMap(rows: seq<Row>, latest: map<(string, string), int>) {
    && (forall s, a :: (s, a) in latest <==> a in LEGAL_AXES && exists t :: Row(s, a, t) in rows)
    && (forall s, a | (s, a) in latest :: IsLatest(rows, s, a, latest[(s, a)]))
  }

  ghost predicate IsOrder(order: seq<string>, servers: set<string>) {
    Distinct(order) && Elems(order) == servers
  }

  method GatherLatest(rows: seq<Row>)
    returns (servers: set<string>, axes: set<string>, latest: map<(string, string), int>)
    ensures servers == Servers(rows) && axes == AxesPresent(rows) && IsLatestMap(rows, latest)
  {
    servers := set r | r in rows :: r.serverId;
    axes, latest := {}, map[];
    for i := 0 to |rows|
      invariant axes == AxesPresent(rows[..i]) && IsLatestMap(rows[..i], latest)
    {
      var r := rows[i];
      GatherStep(rows[..i], r, latest);
      assert rows[..i + 1] == rows[..i] + [r];
      if r.axis !in LEGAL_AXES {
        continue;
      }
      axes := axes + {r.axis};
      var key := (r.serverId, r.axis);
      if key !in latest || r.scoredAt > latest[key] {
        latest := latest[key := r.scoredAt];
      }
    }
    assert rows[..|rows|] == rows;
  }

  lemma GatherStep(rows: seq<Row>, r: Row, latest: map<(string, string), int>)
    requires IsLatestMap(rows, latest)
    ensures var key := (r.serverId, r.axis);
            IsLatestMap(rows + [r],
                        if r.axis in LEGAL_AXES && (key !in latest || r.scoredAt > latest[key])
                        then latest[key := r.scoredAt] else latest)
    ensures AxesPresent(rows + [r]) == AxesPresent(rows) + if r.axis in LEGAL_AXES then {r.axis} else {}
  {
    assert forall x :: x in rows + [r] <==> x in rows || x == r;
    assert Row(r.serverId, r.axis, r.scoredAt) == r;
  }

  /** Every entry holds the figures of its axis, for the order in which the servers were visited. */
  ghost predicate FiguresOf(axes: map<string, AxisStats>, orders: map<string, seq<string>>, servers: set<string>,
                            latest: map<(string, string), int>, now: int)
  {
    && orders.Keys == axes.Keys
    && forall a | a in axes ::
         IsOrder(orders[a], servers) && axes[a] == StatsOf(LagsOf(orders[a], latest, a, now), |servers|)
  }

  /** No axis has a larger p95 than the worst one; there is one unless there are no axes. */
  ghost predicate IsWorst(axes: map<string, AxisStats>, worst: Option<string>) {
    match worst
    case None => axes == map[]
    case Some(w) => w in axes && forall a | a in axes :: axes[a].p95 <= axes[w].p95
  }

  lemma AddFigures(axes: map<string, AxisStats>, orders: map<string, seq<string>>, servers: set<string>,
                   latest: map<(string, string), int>, now: int, axis: string, order: seq<string>, stats: AxisStats)
    requires FiguresOf(axes, orders, servers, latest, now) && IsOrder(order, servers)
    requires stats == StatsOf(LagsOf(order, latest, axis, now), |servers|)
    ensures FiguresOf(axes[axis := stats], orders[axis := order], servers, latest, now)
  {
  }

  lemma AddKey(axes: map<string, AxisStats>, axis: string, stats: AxisStats, present: set<string>, todo: set<string>)
    requires axes.Keys == present - todo && axis in todo && todo <= present
    ensures axis !in axes && axes[axis := stats].Keys == present - (todo - {axis})
  {
  }

  function WorstP95(axes: map<string, AxisStats>, worst: Option<string>): int
    requires worst.Some? ==> worst.value in axes
  {
    if worst.None? then -1 else axes[worst.value].p95
  }

  lemma AddToWorst(axes: map<string, AxisStats>, worst: Option<string>, axis: string, stats: AxisStats)
    requires IsWorst(axes, worst) && axis !in axes && stats.p95 >= 0
    ensures var worst' := if stats.p95 > WorstP95(axes, worst) then Some(axis) else worst;
            IsWorst(axes[axis := stats], worst')
            && WorstP95(axes[axis := stats], worst') == Max(stats.p95, WorstP95(axes, worst))
  {
  }

  method MeasureAxis(servers: set<string>, latest: map<(string, string), int>, axis: string, now: int)
    returns (stats: AxisStats, ghost order: seq<string>)
    ensures IsOrder(order, servers) && stats.p95 >= 0
    ensures stats == StatsOf(LagsOf(order, latest, axis, now), |servers|)
  {
    var lags, visited := GatherLags(servers, latest, axis, now);
    order := visited;
    stats := StatsOf(lags, |servers|);
    P95IsNonNegative(order, latest, axis, now);
  }

  /** Lines 118-146, over the axis set in any order. */
  method MeasureAxes(servers: set<string>, present: set<string>, latest: map<(string, string), int>, now: int)
    returns (axes: map<string, AxisStats>, worst: Option<string>, ghost orders: map<string, seq<string>>)
    ensures axes.Keys == present && FiguresOf(axes, orders, servers, latest, now) && IsWorst(axes, worst)
  {
    axes, worst, orders := map[], None, map[];
    var worstP95 := -1;
    var todo := present;
    while todo != {}
      invariant todo <= present && axes.Keys == present - todo
      invariant FiguresOf(axes, orders, servers, latest, now)
      invariant IsWorst(axes, worst) && worstP95 == WorstP95(axes, worst)
      decreases |todo|
    {
      var axis :| axis in todo;
      var stats, order := MeasureAxis(servers, latest, axis, now);
      AddFigures(axes, orders, servers, latest, now, axis, order, stats);
      AddToWorst(axes, worst, axis, stats);
      AddKey(axes, axis, stats, present, todo);
      axes, orders := axes[axis := stats], orders[axis := order];
      if stats.p95 > worstP95 {
        worstP95, worst := stats.p95, Some(axis);
      }
      todo := todo - {axis};
    }
  }

  /** `compute_axis_refresh_lag` */
  method ComputeAxisRefreshLag(rows: seq<Row>, now: int)
    returns (total: nat, axes: map<string, AxisStats>, worst: Option<string>, ghost latest: map<(string, string), int>,
             ghost orders: map<string, seq<string>>)
    ensures total == |Servers(rows)| && axes.Keys == AxesPresent(rows) && IsLatestMap(rows, latest)
    ensures FiguresOf(axes, orders, Servers(rows), latest, now)
    ensures IsWorst(axes, worst)
  {
    var servers, present, latestMap := GatherLatest(rows);
    latest := latestMap;
    total := |servers|;
    axes, worst, orders := MeasureAxes(servers, present, latestMap, now);
  }

  lemma P95IsNonNegative(order: seq<string>, latest: map<(string, string), int>, axis: string, now: int)
    ensures Percentile(LagsOf(order, latest, axis, now), 95) >= 0
  {
    var lags := LagsOf(order, latest, axis, now);
    LagsAreNonNegative(order, latest, axis, now);
    if lags != [] {
      PercentileIsAValue(lags, 95, 95);
    }
  }

  method GatherLags(servers: set<string>, latest: map<(string, string), int>, axis: string, now: int)
    returns (lags: seq<int>, ghost order: seq<string>)
    ensures IsOrder(order, servers) && lags == LagsOf(order, latest, axis, now)
  {
    lags, order := [], [];
    var todo := servers;
    while todo != {}
      invariant todo <= servers && IsOrder(order, servers - todo) && lags == LagsOf(order, latest, axis, now)
      decreases |todo|
    {
      var server :| server in todo;
      ElemsAppend(order, server);
      assert (order + [server])[..|order|] == order;
      if (server, axis) in latest {
        lags := lags + [Lag(now, latest[(server, axis)])];
      }
      order := order + [server];
      todo := todo - {server};
    }
  }

  lemma {:induction false} LagsAreNonNegative(order: seq<string>, latest: map<(string, string), int>,
                                              axis: string, now: int)
    ensures forall v | v in LagsOf(order, latest, axis, now) :: v >= 0
  {
    if order != [] {
      LagsAreNonNegative(order[..|order| - 1], latest, axis, now);
    }
  }

  // ----- what the figures mean -----

  function ScoredOn(servers: set<string>, latest: map<(string, string), int>, axis: string): set<string> {
    set s | s in servers && (s, axis) in latest
  }

  lemma {:induction false} OneLagPerScoredServer(order: seq<string>, latest: map<(string, string), int>,
                                                 axis: string, now: int)
    requires Distinct(order)
    ensures |LagsOf(order, latest, axis, now)| == |ScoredOn(Elems(order), latest, axis)|
  {
    if order != [] {
      var order', s := order[..|order| - 1], order[|order| - 1];
      OneLagPerScoredServer(order', latest, axis, now);
      assert order == order' + [s];
      ElemsAppend(order', s);
      assert s !in order';
      ScoredOneMore(Elems(order'), s, latest, axis);
    }
  }

  /** The servers whose last score on the axis is at most `bar` old. */
  function ScoredWithin(servers: set<string>, latest: map<(string, string), int>, axis: string, now: int, bar: int)
    : set<string>
  {
    set s | s in servers && (s, axis) in latest && now - latest[(s, axis)] <= bar
  }

  lemma {:induction false} CountAboveAppend(data: seq<int>, x: int, bar: int)
    ensures CountAbove(data + [x], bar) == CountAbove(data, bar) + if x > bar then 1 else 0
  {
    if data == [] {
      assert data + [x] == [x];
    } else {
      CountAboveAppend(data[1..], x, bar);
      assert (data + [x])[1..] == data[1..] + [x];
    }
  }

  /** As many lags are within a bar as servers are, future scores counting as no lag at all. */
  lemma {:induction false} LagsWithin(order: seq<string>, latest: map<(string, string), int>, axis: string, now: int,
                                      bar: nat)
    requires Distinct(order)
    ensures |LagsOf(order, latest, axis, now)| - CountAbove(LagsOf(order, latest, axis, now), bar)
         == |ScoredWithin(Elems(order), latest, axis, now, bar)|
  {
    if order != [] {
      var order', s := order[..|order| - 1], order[|order| - 1];
      LagsWithin(order', latest, axis, now, bar);
      assert order == order' + [s];
      ElemsAppend(order', s);
      assert s !in order';
      WithinOneMore(Elems(order'), s, latest, axis, now, bar);
      if (s, axis) in latest {
        CountAboveAppend(LagsOf(order', latest, axis, now), Lag(now, latest[(s, axis)]), bar);
      }
    }
  }

  lemma WithinOneMore(servers: set<string>, s: string, latest: map<(string, string), int>, axis: string, now: int,
                      bar: int)
    requires s !in servers
    ensures |ScoredWithin(servers + {s}, latest, axis, now, bar)|
         == |ScoredWithin(servers, latest, axis, now, bar)|
            + if (s, axis) in latest && now - latest[(s, axis)] <= bar then 1 else 0
  {
    assert ScoredWithin(servers + {s}, latest, axis, now, bar)
        == ScoredWithin(servers, latest, axis, now, bar)
           + if (s, axis) in latest && now - latest[(s, axis)] <= bar then {s} else {};
  }

  lemma ScoredOneMore(servers: set<string>, s: string, latest: map<(string, string), int>, axis: string)
    requires s !in servers
    ensures |ScoredOn(servers + {s}, latest, axis)|
         == |ScoredOn(servers, latest, axis)| + if (s, axis) in latest then 1 else 0
  {
    assert ScoredOn(servers + {s}, latest, axis)
        == ScoredOn(servers, latest, axis) + if (s, axis) in latest then {s} else {};
  }

  lemma {:induction false} LagsOfConcat(a: seq<string>, b: seq<string>, latest: map<(string, string), int>,
                                         axis: string, now: int)
    ensures LagsOf(a + b, latest, axis, now) == LagsOf(a, latest, axis, now) + LagsOf(b, latest, axis, now)
  {
    if b == [] {
      assert a + b == a;
    } else {
      LagsOfConcat(a, b[..|b| - 1], latest, axis, now);
      assert (a + b)[..|a + b| - 1] == a + b[..|b| - 1];
    }
  }

  lemma BagWithOne(front: seq<string>, s: string, back: seq<string>, latest: map<(string, string), int>,
                   axis: string, now: int)
    ensures multiset(LagsOf(front + [s] + back, latest, axis, now))
         == multiset(LagsOf([s], latest, axis, now)) + multiset(LagsOf(front + back, latest, axis, now))
  {
    LagsOfConcat(front + [s], back, latest, axis, now);
    LagsOfConcat(front, [s], latest, axis, now);
    LagsOfConcat(front, back, latest, axis, now);
  }

  lemma MoveOne(s: string, rest: seq<string>, front: seq<string>, back: seq<string>, latest: map<(string, string), int>,
                axis: string, now: int)
    requires multiset(LagsOf(rest, latest, axis, now)) == multiset(LagsOf(front + back, latest, axis, now))
    ensures multiset(LagsOf([s] + rest, latest, axis, now)) == multiset(LagsOf(front + [s] + back, latest, axis, now))
  {
    BagWithOne([], s, rest, latest, axis, now);
    BagWithOne(front, s, back, latest, axis, now);
    assert [] + [s] + rest == [s] + rest && [] + rest == rest;
  }

  lemma SomeElems(b: seq<string>)
    requires b != []
    ensures Elems(b) != {}
  {
    assert b[0] in Elems(b);
  }

  /** The order in which the server set is visited does not matter. */
  lemma {:induction false} OrderOfServersIrrelevant(a: seq<string>, b: seq<string>, latest: map<(string, string), int>,
                                                    axis: string, now: int)
    requires Distinct(a) && Distinct(b) && Elems(a) == Elems(b)
    ensures multiset(LagsOf(a, latest, axis, now)) == multiset(LagsOf(b, latest, axis, now))
  {
    if a == [] {
      if b != [] {
        SomeElems(b);
      }
    } else {
      var s, rest := a[0], a[1..];
      assert a == [s] + rest && s in Elems(b);
      var j :| 0 <= j < |b| && b[j] == s;
      assert b == b[..j] + [s] + b[j + 1..];
      RemoveOne(a, b, j);
      OrderOfServersIrrelevant(rest, b[..j] + b[j + 1..], latest, axis, now);
      MoveOne(s, rest, b[..j], b[j + 1..], latest, axis, now);
    }
  }

  lemma RemoveOne(a: seq<string>, b: seq<string>, j: nat)
    requires Distinct(a) && Distinct(b) && Elems(a) == Elems(b)
    requires a != [] && j < |b| && b[j] == a[0]
    ensures Distinct(a[1..]) && Distinct(b[..j] + b[j + 1..]) && Elems(a[1..]) == Elems(b[..j] + b[j + 1..])
  {
    assert Elems(a[1..]) == Elems(a) - {a[0]};
    forall x ensures x in b[..j] + b[j + 1..] <==> x in b && x != b[j] {
      if x in b && x != b[j] {
        var i :| 0 <= i < |b| && b[i] == x;
        assert if i < j then b[..j][i] == x else b[j + 1..][i - j - 1] == x;
      }
    }
    assert Elems(b[..j] + b[j + 1..]) == Elems(b) - {b[j]};
  }

  /** ... nor does the order of the rows, nor repetition among them: every per-axis figure is a function of
      the set of rows. */
  lemma FiguresDependOnTheSetOfRows(rows: seq<Row>, rows': seq<Row>, latest: map<(string, string), int>,
                                    latest': map<(string, string), int>, order: seq<string>, order': seq<string>,
                                    axis: string, now: int)
    requires forall r :: r in rows <==> r in rows'
    requires IsLatestMap(rows, latest) && IsLatestMap(rows', latest')
    requires IsOrder(order, Servers(rows)) && IsOrder(order', Servers(rows'))
    ensures Servers(rows) == Servers(rows') && AxesPresent(rows) == AxesPresent(rows')
    ensures StatsOf(LagsOf(order, latest, axis, now), |Servers(rows)|)
         == StatsOf(LagsOf(order', latest', axis, now), |Servers(rows')|)
  {
    SameLatest(rows, rows', latest, latest');
    assert Servers(rows) == Servers(rows');
    OrderOfServersIrrelevant(order, order', latest, axis, now);
    var a, b := LagsOf(order, latest, axis, now), LagsOf(order', latest, axis, now);
    SameBagSameFigures(a, b, 50, DAY);
    SameBagSameFigures(a, b, 95, DAY);
  }

  lemma SameLatest(rows: seq<Row>, rows': seq<Row>, latest: map<(string, string), int>,
                   latest': map<(string, string), int>)
    requires forall r :: r in rows <==> r in rows'
    requires IsLatestMap(rows, latest) && IsLatestMap(rows', latest')
    ensures latest == latest'
  {
    forall k | k in latest ensures k in latest' && latest[k] == latest'[k] {
      SameEntry(rows, rows', latest, latest', k.0, k.1);
    }
    forall k | k in latest' ensures k in latest {
      SameEntry(rows', rows, latest', latest, k.0, k.1);
    }
  }

  lemma SameEntry(rows: seq<Row>, rows': seq<Row>, latest: map<(string, string), int>,
                  latest': map<(string, string), int>,
                  s: string, a: string)
    requires forall r :: r in rows <==> r in rows'
    requires IsLatestMap(rows, latest) && IsLatestMap(rows', latest') && (s, a) in latest
    ensures (s, a) in latest' && latest[(s, a)] == latest'[(s, a)]
  {
    var t :| Row(s, a, t) in rows;
    assert Row(s, a, t) in rows';
    assert IsLatest(rows, s, a, latest[(s, a)]) && IsLatest(rows', s, a, latest'[(s, a)]);
  }

  lemma ScoredServers(rows: seq<Row>, latest: map<(string, string), int>, axis: string)
    requires IsLatestMap(rows, latest) && axis in AxesPresent(rows)
    ensures |ScoredOn(Servers(rows), latest, axis)| >= 1
    ensures |Servers(rows)| >= |ScoredOn(Servers(rows), latest, axis)|
  {
    var scored := ScoredOn(Servers(rows), latest, axis);
    var r :| r in rows && r.axis in LEGAL_AXES && r.axis == axis;
    assert Row(r.serverId, axis, r.scoredAt) in rows;
    assert r.serverId in scored;
    assert scored <= Servers(rows) && Servers(rows) == scored + (Servers(rows) - scored);
  }

  /** The figures of a present axis in terms of its n >= 1 scored servers: never_scored counts the others,
      stale_over_24h those whose last score is more than a day old, and the lags at 50 and 95 percent are the least
      that half, and 95 of 100, of the scored servers keep. */
  lemma AxisFigures(rows: seq<Row>, latest: map<(string, string), int>, order: seq<string>, axis: string, now: int)
    requires IsLatestMap(rows, latest) && IsOrder(order, Servers(rows)) && axis in AxesPresent(rows)
    ensures var servers := Servers(rows); var n := |ScoredOn(servers, latest, axis)|;
            var stats := StatsOf(LagsOf(order, latest, axis, now), |servers|);
            && n >= 1 && stats.neverScored == |servers| - n >= 0
            && stats.staleOver24h == n - |ScoredWithin(servers, latest, axis, now, 24 * 3600 * 1_000_000)|
            && 0 <= stats.p50 <= stats.p95
            && (forall lag: nat :: stats.p50 <= lag
                                   <==> 2 * |ScoredWithin(servers, latest, axis, now, lag)| >= n)
            && (forall lag: nat :: stats.p95 <= lag
                                   <==> 100 * |ScoredWithin(servers, latest, axis, now, lag)| >= 95 * n)
  {
    var lags := LagsOf(order, latest, axis, now);
    ScoredServers(rows, latest, axis);
    OneLagPerScoredServer(order, latest, axis, now);
    LagsAreNonNegative(order, latest, axis, now);
    PercentileIsAValue(lags, 50, 95);
    LagsWithin(order, latest, axis, now, DAY);
    forall lag: nat
      ensures Percentile(lags, 50) <= lag
         <==> 2 * |ScoredWithin(Servers(rows), latest, axis, now, lag)| >= |lags|
      ensures Percentile(lags, 95) <= lag
         <==> 100 * |ScoredWithin(Servers(rows), latest, axis, now, lag)| >= 95 * |lags|
    {
      LagsWithin(order, latest, axis, now, lag);
      PercentileAtMostIff(lags, 50, lag);
      PercentileAtMostIff(lags, 95, lag);
    }
  }
}
