/** Sums of real samples and the two inequalities behind the z-score detector. */
module Samples {

  function Sum(xs: seq<real>): real {
    if xs == [] then 0.0 else Sum(xs[..|xs| - 1]) + xs[|xs| - 1]
  }

  function Times(x: real, y: real): real {
    x * y
  }

  function Square(x: real): real {
    Times(x, x)
  }

  function SumSquares(xs: seq<real>): real {
    if xs == [] then 0.0 else SumSquares(xs[..|xs| - 1]) + Square(xs[|xs| - 1])
  }

  function Mean(xs: seq<real>): real {
    if xs == [] then 0.0 else Sum(xs) / |xs| as real
  }

  function Deviations(xs: seq<real>, m: real): (ds: seq<real>)
    ensures |ds| == |xs| && forall i | 0 <= i < |xs| :: ds[i] == xs[i] - m
  {
    seq(|xs|, i requires 0 <= i < |xs| => xs[i] - m)
  }

  /** The sample variance, with n - 1 in the denominator; 0 for fewer than two values. */
  function Variance(xs: seq<real>): real {
    if |xs| < 2 then 0.0 else SumSquares(Deviations(xs, Mean(xs))) / (|xs| - 1) as real
  }

  lemma {:induction false} SumConcat(a: seq<real>, b: seq<real>)
    ensures Sum(a + b) == Sum(a) + Sum(b)
    ensures SumSquares(a + b) == SumSquares(a) + SumSquares(b)
  {
    if b == [] {
      assert a + b == a;
    } else {
      var b' := b[..|b| - 1];
      SumConcat(a, b');
      assert (a + b)[..|a + b| - 1] == a + b';
    }
  }

  lemma SumSingle(d: real)
    ensures Sum([d]) == d && SumSquares([d]) == Square(d)
  {
    assert [d][..0] == [];
  }

  lemma {:induction false} SumOfDeviations(xs: seq<real>, m: real)
    ensures Sum(Deviations(xs, m)) == Sum(xs) - |xs| as real * m
  {
    if xs != [] {
      var xs' := xs[..|xs| - 1];
      SumOfDeviations(xs', m);
      assert Deviations(xs, m)[..|xs| - 1] == Deviations(xs', m);
    }
  }

  lemma DeviationsCancel(xs: seq<real>)
    requires xs != []
    ensures Sum(Deviations(xs, Mean(xs))) == 0.0
  {
    SumOfDeviations(xs, Mean(xs));
  }

  lemma CauchySchwarzStep(n: real, s: real, q: real, x: real)
    requires n >= 1.0 && s * s <= n * q
    ensures (s + x) * (s + x) <= (n + 1.0) * (q + x * x)
  {
    var e := n * x - s;
    assert e * e >= 0.0;
    assert e * e == n * n * (x * x) - 2.0 * (n * (s * x)) + s * s;
    assert n * (2.0 * (s * x)) <= n * (n * (x * x) + q);
    assert 2.0 * (s * x) <= n * (x * x) + q;
    assert (s + x) * (s + x) == s * s + 2.0 * (s * x) + x * x;
    assert (n + 1.0) * (q + x * x) == n * q + n * (x * x) + q + x * x;
  }

  /** Cauchy-Schwarz against the all-ones vector. */
  lemma {:induction false} CauchySchwarz(xs: seq<real>)
    ensures Sum(xs) * Sum(xs) <= |xs| as real * SumSquares(xs)
  {
    if |xs| == 1 {
      assert xs[..0] == [];
    } else if |xs| > 1 {
      var xs' := xs[..|xs| - 1];
      CauchySchwarz(xs');
      CauchySchwarzStep(|xs'| as real, Sum(xs'), SumSquares(xs'), xs[|xs| - 1]);
    }
  }

  lemma LeaveOneOut(n1: real, d: real, s: real, q: real)
    requires s == -d && s * s <= n1 * q
    ensures (n1 + 1.0) * Square(d) <= n1 * (q + Square(d))
  {
    assert s * s == d * d;
  }

  lemma SumThree(a: seq<real>, d: real, b: seq<real>)
    ensures Sum(a + [d] + b) == Sum(a + b) + d
    ensures SumSquares(a + [d] + b) == SumSquares(a + b) + Square(d)
  {
    SumConcat(a + [d], b);
    SumConcat(a, [d]);
    SumConcat(a, b);
    SumSingle(d);
  }

  /** n parts like `part` fit n - 1 times into the whole. */
  ghost predicate SharesOut(n: nat, part: real, whole: real) {
    n as real * part <= (n as real - 1.0) * whole
  }

  lemma LeaveOneOutSums(a: seq<real>, d: real, b: seq<real>)
    requires Sum(a + b) == -d
    ensures SharesOut(|a + b| + 1, Square(d), SumSquares(a + b) + Square(d))
  {
    CauchySchwarz(a + b);
    LeaveOneOut(|a + b| as real, d, Sum(a + b), SumSquares(a + b));
  }

  /** In a sample that sums to zero no square exceeds (n - 1)/n of the sum of squares. */
  lemma LargestSquare(ds: seq<real>, i: nat)
    requires i < |ds| && Sum(ds) == 0.0
    ensures SharesOut(|ds|, Square(ds[i]), SumSquares(ds))
  {
    var a, d, b := ds[..i], ds[i], ds[i + 1..];
    assert ds == a + [d] + b;
    SumThree(a, d, b);
    LeaveOneOutSums(a, d, b);
  }

  lemma TimesPositive(x: real, y: real)
    requires x > 0.0 && y > 0.0
    ensures Times(x, y) > 0.0
  {
  }

  lemma TimesNegated(x: real, y: real)
    ensures Times(-x, -y) == Times(x, y)
  {
  }

  lemma SquarePositive(x: real)
    requires x != 0.0
    ensures Square(x) > 0.0
  {
    if x > 0.0 {
      TimesPositive(x, x);
    } else {
      TimesPositive(-x, -x);
      TimesNegated(x, x);
    }
  }

  lemma SquareMonotone(a: real, b: real)
    requires 0.0 <= a <= b
    ensures Square(a) <= Square(b)
  {
    assert a * a <= a * b <= b * b;
  }

  lemma ScaleMonotone(a: real, b: real, v: real)
    requires v > 0.0
    ensures a < b <==> a * v < b * v
  {
  }

  /** How many squares exceed `bar`. */
  function CountSquaresAbove(ds: seq<real>, bar: real): nat {
    if ds == [] then 0
    else CountSquaresAbove(ds[..|ds| - 1], bar) + if Square(ds[|ds| - 1]) > bar then 1 else 0
  }

  /** Chebyshev's counting argument, strict as soon as something is counted. */
  lemma {:induction false} Chebyshev(ds: seq<real>, bar: real)
    requires bar >= 0.0
    ensures CountSquaresAbove(ds, bar) as real * bar <= SumSquares(ds)
    ensures CountSquaresAbove(ds, bar) > 0 ==> CountSquaresAbove(ds, bar) as real * bar < SumSquares(ds)
  {
    if ds != [] {
      var ds', d := ds[..|ds| - 1], ds[|ds| - 1];
      Chebyshev(ds', bar);
      if d != 0.0 { SquarePositive(d); }
      var c := CountSquaresAbove(ds', bar);
      assert (c + 1) as real * bar == c as real * bar + bar;
    }
  }

  /** Fewer than a quarter of n - 1 squares exceed four times their (n - 1)-mean. */
  lemma FewLargeSquares(ds: seq<real>, v: real)
    requires |ds| >= 2 && v > 0.0 && SumSquares(ds) == (|ds| - 1) as real * v
    ensures 4 * CountSquaresAbove(ds, 4.0 * v) < |ds| - 1
  {
    var k := CountSquaresAbove(ds, 4.0 * v);
    Chebyshev(ds, 4.0 * v);
    assert k as real * (4.0 * v) == (4 * k) as real * v;
    ScaleMonotone((4 * k) as real, (|ds| - 1) as real, v);
  }
}

/** anomaly_detector.py: the z-score detector over the signal score table. */
module ZScore {
  import opened Wrappers
  import opened Sequences
  import opened Samples

  const STDDEV_THRESHOLD: real := 2.0

  datatype ScoreRow = ScoreRow(serverId: string, signalName: string, score: Option<real>, evidence: string)

  datatype Anomaly = Anomaly(row: ScoreRow, mean: real, stddev: real, zScore: real)

  /** What `math.sqrt` promises: the non-negative root. */
  ghost predicate IsRoot(s: real, v: real) {
    s >= 0.0 && Square(s) == v
  }

  function Abs(x: real): real {
    if x < 0.0 then -x else x
  }

  function Z(x: real, mean: real, stddev: real): real
    requires stddev != 0.0
  {
    Abs(x - mean) / stddev
  }

  /** The scores of one signal, in row order. */
  function Values(rows: seq<ScoreRow>, signal: string): seq<real> {
    if rows == [] then [] else
      var rest, r := Values(rows[..|rows| - 1], signal), rows[|rows| - 1];
      if r.signalName == signal && r.score.Some? then rest + [r.score.value] else rest
  }

  method GetAllSignalScores(rows: seq<ScoreRow>) returns (signals: seq<string>, scores: map<string, seq<real>>)
    ensures Distinct(signals)
    ensures scores.Keys == Elems(signals)
    ensures forall s :: s in scores <==> s != "" && Values(rows, s) != []
    ensures forall s | s in scores :: scores[s] == Values(rows, s)
  {
    signals, scores := [], map[];
    for n := 0 to |rows|
      invariant Distinct(signals)
      invariant scores.Keys == Elems(signals)
      invariant forall s :: s in scores <==> s != "" && Values(rows[..n], s) != []
      invariant forall s | s in scores :: scores[s] == Values(rows[..n], s)
    {
      assert rows[..n + 1][..n] == rows[..n];
      var name := rows[n].signalName;
      if rows[n].score.Some? && name != "" {
        if name !in scores {
          signals := signals + [name];
          scores := scores[name := []];
        }
        scores := scores[name := scores[name] + [rows[n].score.value]];
      }
    }
    assert rows[..|rows|] == rows;
  }

  /** Line 190-201: enough values, a non-zero deviation, and z above the threshold. */
  predicate Hit(r: ScoreRow, scores: map<string, seq<real>>, sqrt: real -> real) {
    && r.score.Some? && r.signalName in scores
    && var xs := scores[r.signalName];
    && |xs| >= 3
    && sqrt(Variance(xs)) != 0.0
    && Z(r.score.value, Mean(xs), sqrt(Variance(xs))) > STDDEV_THRESHOLD
  }

  /** The rows flagged within a set of signals and a set of servers. */
  function Hits(rows: seq<ScoreRow>, signals: set<string>, servers: set<string>,
                scores: map<string, seq<real>>, sqrt: real -> real): seq<ScoreRow>
  {
    if rows == [] then [] else
      var rest, r := Hits(rows[..|rows| - 1], signals, servers, scores, sqrt), rows[|rows| - 1];
      if r.signalName in signals && r.serverId in servers && Hit(r, scores, sqrt) then rest + [r] else rest
  }

  lemma {:induction false} HitsBySignal(rows: seq<ScoreRow>, signals: set<string>, k: string, servers: set<string>,
                                        scores: map<string, seq<real>>, sqrt: real -> real)
    requires k !in signals
    ensures multiset(Hits(rows, signals + {k}, servers, scores, sqrt))
         == multiset(Hits(rows, signals, servers, scores, sqrt)) + multiset(Hits(rows, {k}, servers, scores, sqrt))
  {
    if rows != [] {
      HitsBySignal(rows[..|rows| - 1], signals, k, servers, scores, sqrt);
    }
  }

  lemma {:induction false} HitsByServer(rows: seq<ScoreRow>, signals: set<string>, servers: set<string>, k: string,
                                        scores: map<string, seq<real>>, sqrt: real -> real)
    requires k !in servers
    ensures multiset(Hits(rows, signals, servers + {k}, scores, sqrt))
         == multiset(Hits(rows, signals, servers, scores, sqrt)) + multiset(Hits(rows, signals, {k}, scores, sqrt))
  {
    if rows != [] {
      HitsByServer(rows[..|rows| - 1], signals, servers, k, scores, sqrt);
    }
  }

  lemma {:induction false} NoHits(rows: seq<ScoreRow>, signals: set<string>, servers: set<string>,
                                  scores: map<string, seq<real>>, sqrt: real -> real)
    requires forall r | r in rows && r.signalName in signals && r.serverId in servers :: !Hit(r, scores, sqrt)
    ensures Hits(rows, signals, servers, scores, sqrt) == []
  {
    if rows != [] {
      NoHits(rows[..|rows| - 1], signals, servers, scores, sqrt);
    }
  }

  /** The entries the detector files under one server. */
  function Entries(rows: seq<ScoreRow>, server: string): seq<ScoreRow> {
    if rows == [] then [] else
      var rest, r := Entries(rows[..|rows| - 1], server), rows[|rows| - 1];
      if r.serverId == server && r.score.Some? then rest + [r] else rest
  }

  lemma {:induction false} HitsOfEntries(rows: seq<ScoreRow>, signal: string, server: string,
                                         scores: map<string, seq<real>>, sqrt: real -> real)
    ensures Hits(Entries(rows, server), {signal}, {server}, scores, sqrt)
         == Hits(rows, {signal}, {server}, scores, sqrt)
  {
    if rows != [] {
      HitsOfEntries(rows[..|rows| - 1], signal, server, scores, sqrt);
      var rest, r := Entries(rows[..|rows| - 1], server), rows[|rows| - 1];
      assert (rest + [r])[..|rest + [r]| - 1] == rest;
    }
  }

  lemma {:induction false} EntriesAreFiled(rows: seq<ScoreRow>, server: string)
    ensures forall r | r in Entries(rows, server) :: r.serverId == server && r.score.Some?
  {
    if rows != [] {
      EntriesAreFiled(rows[..|rows| - 1], server);
    }
  }

  function Servers(rows: seq<ScoreRow>): set<string> {
    if rows == [] then {} else Servers(rows[..|rows| - 1]) + {rows[|rows| - 1].serverId}
  }

  lemma {:induction false} ServersCover(rows: seq<ScoreRow>)
    ensures forall r | r in rows :: r.serverId in Servers(rows)
  {
    if rows != [] {
      ServersCover(rows[..|rows| - 1]);
      assert rows == rows[..|rows| - 1] + [rows[|rows| - 1]];
    }
  }

  /** What lines 173-186 have built after some rows. */
  ghost predicate Grouped(rows: seq<ScoreRow>, servers: seq<string>, byServer: map<string, seq<ScoreRow>>) {
    && Distinct(servers)
    && byServer.Keys == Elems(servers)
    && Elems(servers) == Servers(rows)
    && forall s | s in byServer :: byServer[s] == Entries(rows, s)
  }

  lemma {:induction false} NoEntriesElsewhere(rows: seq<ScoreRow>, server: string)
    requires server !in Servers(rows)
    ensures Entries(rows, server) == []
  {
    if rows != [] {
      NoEntriesElsewhere(rows[..|rows| - 1], server);
    }
  }

  /** The grouping dictionary after some rows: its keys in insertion order, and its contents. */
  function Group(rows: seq<ScoreRow>): (seq<string>, map<string, seq<ScoreRow>>) {
    if rows == [] then ([], map[]) else
      var (servers, byServer), r := Group(rows[..|rows| - 1]), rows[|rows| - 1];
      var filed := if r.serverId in byServer then byServer[r.serverId] else [];
      (if r.serverId in byServer then servers else servers + [r.serverId],
       byServer[r.serverId := if r.score.Some? then filed + [r] else filed])
  }

  lemma {:induction false} GroupIsGrouped(rows: seq<ScoreRow>)
    ensures Grouped(rows, Group(rows).0, Group(rows).1)
  {
    if rows != [] {
      var rows', r := rows[..|rows| - 1], rows[|rows| - 1];
      GroupIsGrouped(rows');
      ElemsAppend(Group(rows').0, r.serverId);
      if r.serverId !in Group(rows').1 {
        NoEntriesElsewhere(rows', r.serverId);
      }
    }
  }

  method GroupByServer(rows: seq<ScoreRow>) returns (servers: seq<string>, byServer: map<string, seq<ScoreRow>>)
    ensures Grouped(rows, servers, byServer)
  {
    servers, byServer := [], map[];
    for n := 0 to |rows|
      invariant servers == Group(rows[..n]).0 && byServer == Group(rows[..n]).1
    {
      assert rows[..n + 1][..n] == rows[..n];
      var id := rows[n].serverId;
      if id !in byServer {
        servers := servers + [id];
        byServer := byServer[id := []];
      }
      if rows[n].score.Some? {
        byServer := byServer[id := byServer[id] + [rows[n]]];
      }
    }
    assert rows[..|rows|] == rows;
    GroupIsGrouped(rows);
  }

  function RowsOf(anomalies: seq<Anomaly>): seq<ScoreRow> {
    seq(|anomalies|, i requires 0 <= i < |anomalies| => anomalies[i].row)
  }

  /** Every figure of a report is the one its row and signal call for. */
  ghost predicate Faithful(a: Anomaly, scores: map<string, seq<real>>, sqrt: real -> real) {
    && Hit(a.row, scores, sqrt)
    && a.mean == Mean(scores[a.row.signalName])
    && a.stddev == sqrt(Variance(scores[a.row.signalName]))
    && a.zScore == Z(a.row.score.value, a.mean, a.stddev)
  }

  ghost predicate AllFaithful(anomalies: seq<Anomaly>, scores: map<string, seq<real>>, sqrt: real -> real) {
    forall a | a in anomalies :: Faithful(a, scores, sqrt)
  }

  lemma JoinReports(a: seq<Anomaly>, b: seq<Anomaly>, scores: map<string, seq<real>>, sqrt: real -> real)
    requires AllFaithful(a, scores, sqrt) && AllFaithful(b, scores, sqrt)
    ensures AllFaithful(a + b, scores, sqrt) && RowsOf(a + b) == RowsOf(a) + RowsOf(b)
  {
  }

  lemma ServerStep(rows: seq<ScoreRow>, servers: seq<string>, j: nat, signal: string,
                   scores: map<string, seq<real>>, sqrt: real -> real)
    requires Distinct(servers) && j < |servers|
    ensures multiset(Hits(rows, {signal}, Elems(servers[..j + 1]), scores, sqrt))
         == multiset(Hits(rows, {signal}, Elems(servers[..j]), scores, sqrt))
            + multiset(Hits(Entries(rows, servers[j]), {signal}, {servers[j]}, scores, sqrt))
  {
    ElemsStep(servers, j);
    HitsByServer(rows, {signal}, Elems(servers[..j]), servers[j], scores, sqrt);
    HitsOfEntries(rows, signal, servers[j], scores, sqrt);
  }

  /** Lines 204-207: the entries of one server against one signal. */
  method ScanEntries(entries: seq<ScoreRow>, server: string, signal: string, mean: real, stddev: real,
                     ghost scores: map<string, seq<real>>, ghost sqrt: real -> real)
    returns (found: seq<Anomaly>)
    requires forall r | r in entries :: r.serverId == server && r.score.Some?
    requires signal in scores && |scores[signal]| >= 3
    requires mean == Mean(scores[signal]) && stddev == sqrt(Variance(scores[signal])) && stddev != 0.0
    ensures AllFaithful(found, scores, sqrt)
    ensures RowsOf(found) == Hits(entries, {signal}, {server}, scores, sqrt)
  {
    found := [];
    for k := 0 to |entries|
      invariant AllFaithful(found, scores, sqrt)
      invariant RowsOf(found) == Hits(entries[..k], {signal}, {server}, scores, sqrt)
    {
      assert entries[..k + 1][..k] == entries[..k];
      var entry := entries[k];
      if entry.signalName == signal {
        var z := Z(entry.score.value, mean, stddev);
        if z > STDDEV_THRESHOLD {
          var report := Anomaly(entry, mean, stddev, z);
          assert RowsOf(found + [report]) == RowsOf(found) + [entry];
          found := found + [report];
        }
      }
    }
    assert entries[..|entries|] == entries;
  }

  /** Lines 203-207: every server. */
  method ScanSignal(ghost rows: seq<ScoreRow>, servers: seq<string>, byServer: map<string, seq<ScoreRow>>,
                    signal: string, mean: real, stddev: real,
                    ghost scores: map<string, seq<real>>, ghost sqrt: real -> real)
    returns (found: seq<Anomaly>)
    requires Grouped(rows, servers, byServer)
    requires signal in scores && |scores[signal]| >= 3
    requires mean == Mean(scores[signal]) && stddev == sqrt(Variance(scores[signal])) && stddev != 0.0
    ensures AllFaithful(found, scores, sqrt)
    ensures multiset(RowsOf(found)) == multiset(Hits(rows, {signal}, Elems(servers), scores, sqrt))
  {
    found := [];
    ElemsAll(servers);
    NoHits(rows, {signal}, Elems(servers[..0]), scores, sqrt);
    for j := 0 to |servers|
      invariant AllFaithful(found, scores, sqrt)
      invariant multiset(RowsOf(found)) == multiset(Hits(rows, {signal}, Elems(servers[..j]), scores, sqrt))
    {
      var server := servers[j];
      ServerStep(rows, servers, j, signal, scores, sqrt);
      EntriesAreFiled(rows, server);
      var here := ScanEntries(byServer[server], server, signal, mean, stddev, scores, sqrt);
      JoinReports(found, here, scores, sqrt);
      found := found + here;
    }
  }

  /** The nested loops report each flagged row exactly as often as it occurs in the table. */
  method DetectStatisticalAnomalies(rows: seq<ScoreRow>, signals: seq<string>, scores: map<string, seq<real>>,
                                    sqrt: real -> real) returns (anomalies: seq<Anomaly>)
    requires Distinct(signals) && scores.Keys == Elems(signals)
    ensures AllFaithful(anomalies, scores, sqrt)
    ensures multiset(RowsOf(anomalies)) == multiset(Hits(rows, scores.Keys, Servers(rows), scores, sqrt))
  {
    anomalies := [];
    var servers, byServer := GroupByServer(rows);
    ghost var all := Servers(rows);
    ElemsAll(signals);
    NoHits(rows, {}, all, scores, sqrt);
    for i := 0 to |signals|
      invariant AllFaithful(anomalies, scores, sqrt)
      invariant multiset(RowsOf(anomalies)) == multiset(Hits(rows, Elems(signals[..i]), all, scores, sqrt))
    {
      var signal := signals[i];
      var xs := scores[signal];
      ElemsStep(signals, i);
      HitsBySignal(rows, Elems(signals[..i]), signal, all, scores, sqrt);
      if |xs| < 3 {
        NoHits(rows, {signal}, all, scores, sqrt);
        continue;
      }
      var mean, stddev := Mean(xs), sqrt(Variance(xs));
      if stddev == 0.0 {
        NoHits(rows, {signal}, all, scores, sqrt);
        continue;
      }
      var found := ScanSignal(rows, servers, byServer, signal, mean, stddev, scores, sqrt);
      JoinReports(anomalies, found, scores, sqrt);
      anomalies := anomalies + found;
    }
  }

  // ----- what the definitions force -----

  /** z = |d| / s with s the root of v: z^2 v = d^2. */
  lemma ZSquared(d: real, s: real, v: real)
    requires IsRoot(s, v) && s != 0.0
    ensures v > 0.0 && Abs(d) / s >= 0.0
    ensures Square(Abs(d) / s) * v == Square(d)
  {
    SquarePositive(s);
    var z := Abs(d) / s;
    assert z * s == Abs(d);
    assert (z * z) * (s * s) == (z * s) * (z * s) == d * d;
  }

  lemma SamuelsonArithmetic(n: nat, z: real, v: real, d: real, q: real)
    requires v > 0.0 && Square(z) * v == Square(d) && q == (n as real - 1.0) * v && SharesOut(n, Square(d), q)
    ensures WithinSamuelson(n, z)
  {
    var r, n1, z2 := n as real, n as real - 1.0, Square(z);
    assert (r * z2) * v == r * (z2 * v);
    assert (n1 * n1) * v == n1 * (n1 * v);
    ScaleMonotone(n1 * n1, r * z2, v);
  }

  lemma {:induction false} HitScoreIsAValue(rows: seq<ScoreRow>, r: ScoreRow) returns (i: nat)
    requires r in rows && r.score.Some?
    ensures i < |Values(rows, r.signalName)| && Values(rows, r.signalName)[i] == r.score.value
  {
    if rows[|rows| - 1] == r {
      i := |Values(rows[..|rows| - 1], r.signalName)|;
    } else {
      assert rows == rows[..|rows| - 1] + [rows[|rows| - 1]];
      i := HitScoreIsAValue(rows[..|rows| - 1], r);
    }
  }

  lemma VarianceTimesDenominator(xs: seq<real>)
    requires |xs| >= 2
    ensures SumSquares(Deviations(xs, Mean(xs))) == (|xs| - 1) as real * Variance(xs)
  {
  }

  /** z^2 <= (n - 1)^2 / n, without the division. */
  ghost predicate WithinSamuelson(n: nat, z: real) {
    n as real * Square(z) <= (n as real - 1.0) * (n as real - 1.0)
  }

  /** Samuelson's inequality for the sample deviation: z^2 <= (n - 1)^2 / n, for every value of the sample. */
  lemma Samuelson(xs: seq<real>, i: nat, stddev: real)
    requires i < |xs| && |xs| >= 2
    requires IsRoot(stddev, Variance(xs)) && stddev != 0.0
    ensures WithinSamuelson(|xs|, Z(xs[i], Mean(xs), stddev))
  {
    var m := Mean(xs);
    DeviationsCancel(xs);
    LargestSquare(Deviations(xs, m), i);
    ZSquared(xs[i] - m, stddev, Variance(xs));
    VarianceTimesDenominator(xs);
    SamuelsonArithmetic(|xs|, Z(xs[i], m, stddev), Variance(xs), xs[i] - m, SumSquares(Deviations(xs, m)));
  }

  /** ... and hence for every report made on the rows the scores came from. */
  lemma ReportedZIsBounded(rows: seq<ScoreRow>, scores: map<string, seq<real>>, sqrt: real -> real, a: Anomaly)
    requires forall s | s in scores :: scores[s] == Values(rows, s)
    requires a.row in rows && Faithful(a, scores, sqrt)
    requires IsRoot(a.stddev, Variance(scores[a.row.signalName]))
    ensures WithinSamuelson(|Values(rows, a.row.signalName)|, a.zScore)
  {
    var i := HitScoreIsAValue(rows, a.row);
    Samuelson(scores[a.row.signalName], i, a.stddev);
  }

  lemma AboveThreshold(x: real, mean: real, stddev: real, v: real)
    requires IsRoot(stddev, v) && stddev != 0.0
    ensures Z(x, mean, stddev) > STDDEV_THRESHOLD <==> Square(x - mean) > 4.0 * v
  {
    var z := Z(x, mean, stddev);
    ZSquared(x - mean, stddev, v);
    ScaleMonotone(4.0, Square(z), v);
    AboveTwo(z);
  }

  lemma AboveTwo(z: real)
    requires z >= 0.0
    ensures z > 2.0 <==> Square(z) > 4.0
  {
    if z <= 2.0 {
      SquareMonotone(z, 2.0);
    } else {
      assert z * z > 2.0 * z > 4.0;
    }
  }

  lemma CountOneMore(xs: seq<real>, x: real, m: real, bar: real)
    ensures CountSquaresAbove(Deviations(xs + [x], m), bar)
         == CountSquaresAbove(Deviations(xs, m), bar) + if Square(x - m) > bar then 1 else 0
  {
    var ds := Deviations(xs + [x], m);
    assert ds[..|xs|] == Deviations(xs, m);
  }

  lemma {:induction false} HitsAreLargeSquares(rows: seq<ScoreRow>, signal: string, servers: set<string>,
                                               scores: map<string, seq<real>>, sqrt: real -> real)
    requires signal in scores && |scores[signal]| >= 3
    requires IsRoot(sqrt(Variance(scores[signal])), Variance(scores[signal])) && sqrt(Variance(scores[signal])) != 0.0
    requires forall r | r in rows :: r.serverId in servers
    ensures |Hits(rows, {signal}, servers, scores, sqrt)|
         == CountSquaresAbove(Deviations(Values(rows, signal), Mean(scores[signal])), 4.0 * Variance(scores[signal]))
  {
    if rows != [] {
      var rows', r, m := rows[..|rows| - 1], rows[|rows| - 1], Mean(scores[signal]);
      HitsAreLargeSquares(rows', signal, servers, scores, sqrt);
      if r.signalName == signal && r.score.Some? {
        AboveThreshold(r.score.value, m, sqrt(Variance(scores[signal])), Variance(scores[signal]));
        CountOneMore(Values(rows', signal), r.score.value, m, 4.0 * Variance(scores[signal]));
      }
    }
  }

  /** How many values of a sample lie more than two deviations from its mean. */
  function FarOutCount(xs: seq<real>): nat {
    CountSquaresAbove(Deviations(xs, Mean(xs)), 4.0 * Variance(xs))
  }

  lemma FewValuesFarOut(xs: seq<real>, stddev: real)
    requires |xs| >= 2 && IsRoot(stddev, Variance(xs)) && stddev != 0.0
    ensures 4 * FarOutCount(xs) < |xs| - 1
  {
    SquarePositive(stddev);
    VarianceTimesDenominator(xs);
    FewLargeSquares(Deviations(xs, Mean(xs)), Variance(xs));
  }

  lemma HitsAreFarOut(rows: seq<ScoreRow>, signal: string, scores: map<string, seq<real>>, sqrt: real -> real)
    requires signal in scores && scores[signal] == Values(rows, signal) && |scores[signal]| >= 3
    requires IsRoot(sqrt(Variance(scores[signal])), Variance(scores[signal])) && sqrt(Variance(scores[signal])) != 0.0
    ensures |Hits(rows, {signal}, Servers(rows), scores, sqrt)| == FarOutCount(scores[signal])
  {
    ServersCover(rows);
    HitsAreLargeSquares(rows, signal, Servers(rows), scores, sqrt);
  }

  lemma NoDeviationNoHits(rows: seq<ScoreRow>, signal: string, servers: set<string>,
                          scores: map<string, seq<real>>, sqrt: real -> real)
    requires signal in scores && sqrt(Variance(scores[signal])) == 0.0
    ensures Hits(rows, {signal}, servers, scores, sqrt) == []
  {
    NoHits(rows, {signal}, servers, scores, sqrt);
  }

  lemma SomeDeviationFewHits(rows: seq<ScoreRow>, signal: string, scores: map<string, seq<real>>, sqrt: real -> real)
    requires signal in scores && scores[signal] == Values(rows, signal) && |scores[signal]| >= 3
    requires IsRoot(sqrt(Variance(scores[signal])), Variance(scores[signal])) && sqrt(Variance(scores[signal])) != 0.0
    ensures 4 * |Hits(rows, {signal}, Servers(rows), scores, sqrt)| < |Values(rows, signal)| - 1
  {
    HitsAreFarOut(rows, signal, scores, sqrt);
    FewValuesFarOut(scores[signal], sqrt(Variance(scores[signal])));
  }

  /** k flagged rows among the n values of a signal: 4k < n - 1. Both queries see the same rows. */
  lemma FlaggedRowsAreFew(rows: seq<ScoreRow>, signal: string, scores: map<string, seq<real>>, sqrt: real -> real)
    requires signal in scores && scores[signal] == Values(rows, signal) && |scores[signal]| >= 3
    requires IsRoot(sqrt(Variance(scores[signal])), Variance(scores[signal]))
    ensures 4 * |Hits(rows, {signal}, Servers(rows), scores, sqrt)| < |Values(rows, signal)| - 1
  {
    if sqrt(Variance(scores[signal])) == 0.0 {
      NoDeviationNoHits(rows, signal, Servers(rows), scores, sqrt);
    } else {
      SomeDeviationFewHits(rows, signal, scores, sqrt);
    }
  }

  /** A sample of n values in which one is 1 and the others are 0. */
  function OneOutlier(n: nat): (xs: seq<real>)
    requires n > 0
    ensures |xs| == n
  {
    seq(n - 1, _ => 0.0) + [1.0]
  }

  lemma {:induction false} ConstantSums(n: nat, c: real)
    ensures Sum(seq(n, _ => c)) == n as real * c
    ensures SumSquares(seq(n, _ => c)) == n as real * (c * c)
  {
    if n > 0 {
      ConstantSums(n - 1, c);
      assert seq(n, _ => c)[..n - 1] == seq(n - 1, _ => c);
    }
  }

  lemma OutlierArithmetic(r: real, m: real)
    requires r >= 2.0 && r * m == 1.0
    ensures (r - 1.0) * ((-m) * (-m)) + (1.0 - m) * (1.0 - m) == 1.0 - m
    ensures r * ((1.0 - m) / (r - 1.0)) == 1.0
  {
    assert r * (m * m) == m;
    assert (r - 1.0) * (m * m) == r * (m * m) - m * m;
    assert (1.0 - m) * (1.0 - m) == 1.0 - 2.0 * m + m * m;
    var w := (1.0 - m) / (r - 1.0);
    assert (r - 1.0) * w == 1.0 - m;
    assert (r - 1.0) * (r * w) == r * ((r - 1.0) * w) == r - 1.0;
  }

  lemma OutlierMean(n: nat)
    requires n >= 2
    ensures n as real * Mean(OneOutlier(n)) == 1.0
  {
    ConstantSums(n - 1, 0.0);
    SumConcat(seq(n - 1, _ => 0.0), [1.0]);
    SumSingle(1.0);
  }

  lemma OutlierSquares(n: nat, m: real)
    requires n >= 2
    ensures SumSquares(Deviations(OneOutlier(n), m)) == (n - 1) as real * ((-m) * (-m)) + (1.0 - m) * (1.0 - m)
  {
    var ds := Deviations(OneOutlier(n), m);
    assert ds == seq(n - 1, _ => -m) + [1.0 - m];
    ConstantSums(n - 1, -m);
    SumConcat(seq(n - 1, _ => -m), [1.0 - m]);
    SumSingle(1.0 - m);
  }

  lemma OutlierVariance(n: nat)
    requires n >= 2
    ensures n as real * Mean(OneOutlier(n)) == 1.0
    ensures n as real * Variance(OneOutlier(n)) == 1.0
  {
    var m := Mean(OneOutlier(n));
    OutlierMean(n);
    OutlierSquares(n, m);
    OutlierArithmetic(n as real, m);
  }

  lemma AttainedArithmetic(r: real, m: real, v: real, z: real)
    requires r * m == 1.0 && r * v == 1.0 && Square(z) * v == Square(1.0 - m)
    ensures r * Square(z) == (r - 1.0) * (r - 1.0)
  {
    var e, z2 := 1.0 - m, Square(z);
    assert r * e == r - 1.0;
    assert z2 == z2 * (r * v) == r * (z2 * v) == r * (e * e);
    assert r * (r * (e * e)) == (r * e) * (r * e);
  }

  /** The bound is attained at every size: one outlier scores z^2 = (n - 1)^2 / n exactly. */
  lemma BoundIsAttained(n: nat, stddev: real)
    requires n >= 2 && IsRoot(stddev, Variance(OneOutlier(n)))
    ensures stddev != 0.0
    ensures n as real * Square(Z(1.0, Mean(OneOutlier(n)), stddev)) == (n as real - 1.0) * (n as real - 1.0)
  {
    var m, v := Mean(OneOutlier(n)), Variance(OneOutlier(n));
    OutlierVariance(n);
    ZSquared(1.0 - m, stddev, v);
    AttainedArithmetic(n as real, m, v, Z(1.0, m, stddev));
  }

  /** (n - 1)^2 / n passes 4 between n = 5 and n = 6. */
  lemma SixIsTheThreshold(n: nat)
    requires n >= 3
    ensures 4.0 * n as real < (n as real - 1.0) * (n as real - 1.0) <==> n >= 6
  {
    var e := n as real - 1.0;
    if n >= 6 {
      assert e * e >= 5.0 * e;
    } else {
      assert n == 3 || n == 4 || n == 5;
    }
  }

  /** The test of line 207 with the root and the division cleared: see AboveThreshold. */
  ghost predicate FarOut(xs: seq<real>, i: nat)
    requires i < |xs|
  {
    Variance(xs) > 0.0 && Square(xs[i] - Mean(xs)) > 4.0 * Variance(xs)
  }

  lemma OutlierIsFarOut(n: nat)
    requires n >= 6
    ensures FarOut(OneOutlier(n), n - 1)
  {
    var r, m, v := n as real, Mean(OneOutlier(n)), Variance(OneOutlier(n));
    OutlierVariance(n);
    OutlierDistance(r, m, v);
    assert OneOutlier(n)[n - 1] == 1.0;
  }

  lemma OutlierDistance(r: real, m: real, v: real)
    requires r >= 6.0 && r * m == 1.0 && r * v == 1.0
    ensures v > 0.0 && Square(1.0 - m) > 4.0 * v
  {
    var e := 1.0 - m;
    assert r * e == r - 1.0;
    assert r * (r * (e * e)) == (r * e) * (r * e) == (r - 1.0) * (r - 1.0);
    assert (r - 1.0) * (r - 1.0) >= 5.0 * (r - 1.0) > 4.0 * r;
    ScaleMonotone(4.0, r * (e * e), r);
    ScaleMonotone(4.0 * v, e * e, r);
  }

  lemma FarOutArithmetic(n: nat, d2: real, v: real)
    requires n >= 3 && v > 0.0 && d2 > 4.0 * v && SharesOut(n, d2, (n - 1) as real * v)
    ensures n >= 6
  {
    var r, e := n as real, n as real - 1.0;
    ScaleMonotone(4.0 * v, d2, r);
    assert (4.0 * r) * v == (4.0 * v) * r && (e * e) * v == e * (e * v);
    ScaleMonotone(4.0 * r, e * e, v);
    assert 4.0 * r < e * e;
    SixIsTheThreshold(n);
  }

  lemma FarOutNeedsSix(xs: seq<real>, i: nat)
    requires |xs| >= 3 && i < |xs| && FarOut(xs, i)
    ensures |xs| >= 6
  {
    DeviationsCancel(xs);
    LargestSquare(Deviations(xs, Mean(xs)), i);
    VarianceTimesDenominator(xs);
    FarOutArithmetic(|xs|, Square(xs[i] - Mean(xs)), Variance(xs));
  }

  ghost predicate SomeSampleIsFlagged(n: nat) {
    exists xs: seq<real>, i: nat | i < |xs| :: |xs| == n && FarOut(xs, i)
  }

  /** The size guard lets samples of three values pass, but only from six on can anything be flagged. */
  lemma FlaggingNeedsSixValues(n: nat)
    requires n >= 3
    ensures SomeSampleIsFlagged(n) <==> n >= 6
  {
    if n >= 6 {
      OutlierIsFarOut(n);
      var xs, i: nat := OneOutlier(n), n - 1;
      assert |xs| == n && FarOut(xs, i);
    }
    if SomeSampleIsFlagged(n) {
      var xs: seq<real>, i: nat :| i < |xs| && |xs| == n && FarOut(xs, i);
      FarOutNeedsSix(xs, i);
    }
  }

  // ----- the reports in terms of the rows -----

  ghost function PlacesOf(rows: seq<ScoreRow>, signal: string, v: real): set<nat> {
    set i: nat | i < |rows| && rows[i].signalName == signal && rows[i].score == Some(v)
  }

  lemma OneMorePlace(rows: seq<ScoreRow>, signal: string, v: real)
    requires rows != []
    ensures var n := |rows| - 1;
            |PlacesOf(rows, signal, v)| == |PlacesOf(rows[..n], signal, v)|
                                           + if rows[n].signalName == signal && rows[n].score == Some(v) then 1 else 0
  {
    var n := |rows| - 1;
    assert PlacesOf(rows, signal, v) == PlacesOf(rows[..n], signal, v)
        + if rows[n].signalName == signal && rows[n].score == Some(v) then {n} else {};
  }

  /** The values of a signal are its scores, each as often as it occurs. */
  lemma {:induction false} ValuesAreTheScores(rows: seq<ScoreRow>, signal: string, v: real)
    ensures multiset(Values(rows, signal))[v] == |PlacesOf(rows, signal, v)|
  {
    if rows != [] {
      ValuesAreTheScores(rows[..|rows| - 1], signal, v);
      OneMorePlace(rows, signal, v);
    }
  }

  lemma {:induction false} HitsKeepEachRow(rows: seq<ScoreRow>, signals: set<string>, servers: set<string>,
                                           scores: map<string, seq<real>>, sqrt: real -> real, r: ScoreRow)
    ensures multiset(Hits(rows, signals, servers, scores, sqrt))[r]
         == if r.signalName in signals && r.serverId in servers && Hit(r, scores, sqrt) then multiset(rows)[r] else 0
  {
    if rows != [] {
      var n := |rows| - 1;
      HitsKeepEachRow(rows[..n], signals, servers, scores, sqrt, r);
      assert rows == rows[..n] + [rows[n]];
    }
  }

  /** The row has a score of a named signal with at least three values, and that score is further from their mean than
      twice their deviation, which is not zero. */
  ghost predicate Outlying(rows: seq<ScoreRow>, r: ScoreRow) {
    && r.score.Some? && r.signalName != ""
    && var xs := Values(rows, r.signalName);
    && |xs| >= 3 && Variance(xs) != 0.0 && Square(r.score.value - Mean(xs)) > 4.0 * Variance(xs)
  }

  ghost predicate IsSqrt(sqrt: real -> real) {
    forall v: real | v >= 0.0 :: IsRoot(sqrt(v), v)
  }

  lemma FarOutIff(x: real, xs: seq<real>, sqrt: real -> real)
    requires IsSqrt(sqrt)
    ensures sqrt(Variance(xs)) != 0.0 <==> Variance(xs) != 0.0
    ensures Variance(xs) != 0.0 ==>
              (Z(x, Mean(xs), sqrt(Variance(xs))) > STDDEV_THRESHOLD <==> Square(x - Mean(xs)) > 4.0 * Variance(xs))
  {
    VarianceIsNonNegative(xs);
    var v := Variance(xs);
    assert IsRoot(sqrt(v), v);
    RootOfZero(sqrt(v), v);
    if v != 0.0 {
      AboveThreshold(x, Mean(xs), sqrt(v), v);
    }
  }

  lemma HitIff(rows: seq<ScoreRow>, scores: map<string, seq<real>>, sqrt: real -> real, r: ScoreRow)
    requires r in rows && IsSqrt(sqrt)
    requires r.signalName in scores <==> r.signalName != "" && Values(rows, r.signalName) != []
    requires r.signalName in scores ==> scores[r.signalName] == Values(rows, r.signalName)
    ensures Hit(r, scores, sqrt) <==> Outlying(rows, r)
  {
    if r.score.Some? {
      var i := HitScoreIsAValue(rows, r);
      FarOutIff(r.score.value, Values(rows, r.signalName), sqrt);
    }
  }

  lemma RootOfZero(s: real, v: real)
    requires IsRoot(s, v)
    ensures s == 0.0 <==> v == 0.0
  {
    if s == 0.0 {
      assert Square(s) == Square(0.0) == 0.0;
    } else {
      ZSquared(0.0, s, v);
    }
  }

  lemma {:induction false} SumSquaresIsNonNegative(xs: seq<real>)
    ensures SumSquares(xs) >= 0.0
  {
    if xs != [] {
      SumSquaresIsNonNegative(xs[..|xs| - 1]);
    }
  }

  lemma VarianceIsNonNegative(xs: seq<real>)
    ensures Variance(xs) >= 0.0
  {
    SumSquaresIsNonNegative(Deviations(xs, Mean(xs)));
    if |xs| >= 2 {
      VarianceTimesDenominator(xs);
      NonNegativeFactor((|xs| - 1) as real, Variance(xs));
    }
  }

  lemma NonNegativeFactor(n: real, v: real)
    requires n > 0.0 && n * v >= 0.0
    ensures v >= 0.0
  {
    assert v < 0.0 ==> n * v < 0.0;
  }

  /** Of each row the reports hold as many copies as the table if it is outlying, and none otherwise. */
  lemma ReportedIffOutlying(rows: seq<ScoreRow>, anomalies: seq<Anomaly>, scores: map<string, seq<real>>,
                            sqrt: real -> real, r: ScoreRow)
    requires IsSqrt(sqrt)
    requires forall s :: s in scores <==> s != "" && Values(rows, s) != []
    requires forall s | s in scores :: scores[s] == Values(rows, s)
    requires multiset(RowsOf(anomalies)) == multiset(Hits(rows, scores.Keys, Servers(rows), scores, sqrt))
    ensures multiset(RowsOf(anomalies))[r] == if Outlying(rows, r) then multiset(rows)[r] else 0
  {
    HitsKeepEachRow(rows, scores.Keys, Servers(rows), scores, sqrt, r);
    if r in rows {
      ServersCover(rows);
      HitIff(rows, scores, sqrt, r);
    }
  }
}
