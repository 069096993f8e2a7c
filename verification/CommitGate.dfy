/** aidr_commit_gateway_integration.py: the trust score, its verdict, and the three overlapping commit gates. */
module CommitGate {
  import opened Wrappers

  /** A row of mcp_signal_scores; a NULL score is None. */
  datatype Signal = Signal(name: string, score: Option<real>, scoredAt: int)

  const VERDICTS_SAFE := {"TRUSTED_GENERAL", "TRUSTED_RESEARCH", "ENTERPRISE_CONTROLLED"}
  const VERDICTS_REJECTED := {"CAUTION_LIMITED", "HIGH_RISK_ISOLATED", "MALICIOUS", "KNOWN_THREAT"}
  const VERDICT_BLOCK_THRESHOLD: real := 45.0

  const WEIGHTS: seq<(string, real)> := [
    ("domain_trust", 0.20), ("tool_description_safety", 0.20), ("permission_scope", 0.15),
    ("supply_chain", 0.15), ("community_signal", 0.15), ("temporal_stability", 0.15)]

  /** The assignment loop of lines 148-150: a later row overwrites an earlier one. */
  function SignalMap(rows: seq<Signal>): map<string, Option<real>> {
    if rows == [] then map[] else SignalMap(rows[..|rows| - 1])[rows[|rows| - 1].name := rows[|rows| - 1].score]
  }

  function Scale(x: real, w: real): real {
    x * w
  }

  /** The weighted sum of the components that are there; None when one of them is NULL, which raises. */
  function WeightedTotal(signals: map<string, Option<real>>, weights: seq<(string, real)>): Option<real> {
    if weights == [] then Some(0.0) else
      var rest, p := WeightedTotal(signals, weights[..|weights| - 1]), weights[|weights| - 1];
      if rest.None? || p.0 !in signals then rest
      else if signals[p.0].None? then None
      else Some(rest.value + Scale(signals[p.0].value, p.1))
  }

  /** The score that is compared with the thresholds; comparing NULL raises as well. */
  function TrustScore(signals: map<string, Option<real>>): Option<real> {
    if "composite" in signals then signals["composite"]
    else if "trust_composite" in signals then signals["trust_composite"]
    else
      var total := WeightedTotal(signals, WEIGHTS);
      if total.None? || total.value > 0.0 then total else Some(0.0)
  }

  function VerdictOf(score: real): string {
    if score >= 75.0 then "TRUSTED_GENERAL"
    else if score >= 60.0 then "TRUSTED_RESEARCH"
    else if score >= 45.0 then "ENTERPRISE_CONTROLLED"
    else if score >= 30.0 then "CAUTION_LIMITED"
    else if score >= 15.0 then "HIGH_RISK_ISOLATED"
    else "KNOWN_THREAT"
  }

  datatype Check = Check(injection: Option<real>, score: real, verdict: string) | Raised

  function CheckOf(signals: map<string, Option<real>>): Check {
    var injection := if "injection_resilience" in signals then signals["injection_resilience"] else Some(0.0);
    var score := TrustScore(signals);
    if score.None? then Raised else Check(injection, score.value, VerdictOf(score.value))
  }

  /** `check_verdict`, as the source fills the map and accumulates the total. */
  method CheckVerdict(rows: seq<Signal>) returns (c: Check)
    ensures c == CheckOf(SignalMap(rows))
  {
    var signals: map<string, Option<real>> := map[];
    for i := 0 to |rows|
      invariant signals == SignalMap(rows[..i])
    {
      assert rows[..i + 1][..i] == rows[..i];
      signals := signals[rows[i].name := rows[i].score];
    }
    assert rows[..|rows|] == rows;
    var injection := if "injection_resilience" in signals then signals["injection_resilience"] else Some(0.0);
    var score := Some(0.0);
    if "composite" in signals {
      score := signals["composite"];
    } else if "trust_composite" in signals {
      score := signals["trust_composite"];
    } else {
      var total := SumWeights(signals);
      if total.None? || total.value > 0.0 {
        score := total;
      }
    }
    c := if score.None? then Raised else Check(injection, score.value, VerdictOf(score.value));
  }

  method SumWeights(signals: map<string, Option<real>>) returns (total: Option<real>)
    ensures total == WeightedTotal(signals, WEIGHTS)
  {
    total := Some(0.0);
    for i := 0 to |WEIGHTS|
      invariant total == WeightedTotal(signals, WEIGHTS[..i]) && total.Some?
    {
      assert WEIGHTS[..i + 1][..i] == WEIGHTS[..i];
      if WEIGHTS[i].0 in signals {
        if signals[WEIGHTS[i].0].None? {
          NoTotal(signals, WEIGHTS, i);
          return None;
        }
        total := Some(total.value + Scale(signals[WEIGHTS[i].0].value, WEIGHTS[i].1));
      }
    }
    assert WEIGHTS[..|WEIGHTS|] == WEIGHTS;
  }

  lemma {:induction false} NoTotal(signals: map<string, Option<real>>, weights: seq<(string, real)>, i: nat)
    requires i < |weights| && weights[i].0 in signals && signals[weights[i].0].None?
    ensures WeightedTotal(signals, weights).None?
  {
    if i < |weights| - 1 {
      NoTotal(signals, weights[..|weights| - 1], i);
    }
  }

  lemma {:induction false} TotalIsNoneIff(signals: map<string, Option<real>>, weights: seq<(string, real)>)
    ensures WeightedTotal(signals, weights).None?
       <==> exists p :: p in weights && p.0 in signals && signals[p.0].None?
  {
    if weights != [] {
      var before, last := weights[..|weights| - 1], weights[|weights| - 1];
      TotalIsNoneIff(signals, before);
      assert weights == before + [last];
    }
  }

  /** The check raises exactly when the row it takes the score from is NULL: the composite, else the trust composite,
      else any of the six components. */
  lemma RaisesIff(signals: map<string, Option<real>>)
    ensures CheckOf(signals).Raised?
       <==> if "composite" in signals then signals["composite"].None?
            else if "trust_composite" in signals then signals["trust_composite"].None?
            else exists p :: p in WEIGHTS && p.0 in signals && signals[p.0].None?
  {
    TotalIsNoneIff(signals, WEIGHTS);
  }

  // ----- which row counts -----

  /** The query orders newest first. */
  ghost predicate NewestFirst(rows: seq<Signal>) {
    forall i, j | 0 <= i < j < |rows| :: rows[i].scoredAt >= rows[j].scoredAt
  }

  ghost predicate IsFirst(rows: seq<Signal>, name: string, i: nat) {
    i < |rows| && rows[i].name == name && forall k | 0 <= k < i :: rows[k].name != name
  }

  ghost predicate IsLast(rows: seq<Signal>, name: string, j: nat) {
    j < |rows| && rows[j].name == name && forall k | j < k < |rows| :: rows[k].name != name
  }

  lemma {:induction false} MapHoldsTheLast(rows: seq<Signal>, name: string, j: nat)
    requires IsLast(rows, name, j)
    ensures name in SignalMap(rows) && SignalMap(rows)[name] == rows[j].score
  {
    if j < |rows| - 1 {
      MapHoldsTheLast(rows[..|rows| - 1], name, j);
    }
  }

  lemma {:induction false} MappedHasARow(rows: seq<Signal>, name: string) returns (j: nat)
    requires name in SignalMap(rows)
    ensures IsLast(rows, name, j)
  {
    j := |rows| - 1;
    if rows[j].name != name {
      j := MappedHasARow(rows[..|rows| - 1], name);
    }
  }

  /** The loop keeps the last row of each signal, which under that order is an oldest one. */
  lemma OldestRowWins(rows: seq<Signal>, name: string) returns (j: nat)
    requires NewestFirst(rows) && name in SignalMap(rows)
    ensures IsLast(rows, name, j) && SignalMap(rows)[name] == rows[j].score
    ensures forall k | 0 <= k < |rows| && rows[k].name == name :: rows[j].scoredAt <= rows[k].scoredAt
  {
    j := MappedHasARow(rows, name);
    MapHoldsTheLast(rows, name, j);
  }

  /** So the newest score of a signal is the one that counts if and only if it is the oldest one as well. */
  lemma NewestRowCountsIff(rows: seq<Signal>, name: string, i: nat, j: nat)
    requires NewestFirst(rows) && IsFirst(rows, name, i) && IsLast(rows, name, j)
    ensures forall k | 0 <= k < |rows| && rows[k].name == name :: rows[i].scoredAt >= rows[k].scoredAt
    ensures name in SignalMap(rows)
    ensures SignalMap(rows)[name] == rows[i].score <==> rows[i].score == rows[j].score
  {
    MapHoldsTheLast(rows, name, j);
  }

  /** A server that was trusted once and is a known threat now. */
  const FALLEN := [Signal("composite", Some(0.0), 2), Signal("composite", Some(90.0), 1)]

  lemma FallenIsTrusted()
    ensures NewestFirst(FALLEN) && FALLEN[0].score.Some?
    ensures VerdictOf(FALLEN[0].score.value) == "KNOWN_THREAT"
    ensures CheckOf(SignalMap(FALLEN)) == Check(Some(0.0), 90.0, "TRUSTED_GENERAL")
  {
    var rows := FALLEN;
    assert rows[..1] == [rows[0]] && rows[..1][..0] == [];
    assert SignalMap(rows) == map["composite" := Some(90.0)];
    assert |"injection_resilience"| == 20 && |"composite"| == 9;
  }

  function WeightSum(weights: seq<(string, real)>): real {
    if weights == [] then 0.0 else WeightSum(weights[..|weights| - 1]) + weights[|weights| - 1].1
  }

  lemma ScaleSum(x: real, v: real, w: real)
    ensures Scale(x, v + w) == Scale(x, v) + Scale(x, w)
  {
  }

  lemma ScaleMonotone(x: real, y: real, w: real)
    requires x <= y && w >= 0.0
    ensures Scale(x, w) <= Scale(y, w)
  {
  }

  lemma {:induction false} TotalBetween(signals: map<string, Option<real>>, weights: seq<(string, real)>, lo: real,
                                         hi: real)
    requires forall p | p in weights :: p.1 >= 0.0 && p.0 in signals && Within(signals[p.0], lo, hi)
    ensures var t := WeightedTotal(signals, weights);
            t.Some? && Scale(lo, WeightSum(weights)) <= t.value <= Scale(hi, WeightSum(weights))
  {
    if weights != [] {
      var before, last := weights[..|weights| - 1], weights[|weights| - 1];
      assert last in weights && forall p | p in before :: p in weights;
      TotalBetween(signals, before, lo, hi);
      ScaleMonotone(lo, signals[last.0].value, last.1);
      ScaleMonotone(signals[last.0].value, hi, last.1);
      ScaleSum(lo, WeightSum(before), last.1);
      ScaleSum(hi, WeightSum(before), last.1);
    }
  }

  predicate Within(score: Option<real>, lo: real, hi: real) {
    score.Some? && lo <= score.value <= hi
  }

  lemma WeightsSumToOne()
    ensures WeightSum(WEIGHTS) == 1.0
  {
    var w := WEIGHTS;
    assert w[..1][..0] == [] && w[..2][..1] == w[..1] && w[..3][..2] == w[..2];
    assert WeightSum(w[..1]) == 0.20 && WeightSum(w[..2]) == 0.40 && WeightSum(w[..3]) == 0.55;
    assert w[..4][..3] == w[..3] && w[..5][..4] == w[..4] && w[..6][..5] == w[..5];
    assert WeightSum(w[..4]) == 0.70 && WeightSum(w[..5]) == 0.85 && WeightSum(w[..6]) == 1.0;
    assert w[..6] == w;
  }

  /** Without a composite signal and with all six components the score is a weighted mean of them. */
  lemma CompositeIsAMean(signals: map<string, Option<real>>, lo: real, hi: real)
    requires "composite" !in signals && "trust_composite" !in signals && lo >= 0.0
    requires forall p | p in WEIGHTS :: p.0 in signals && Within(signals[p.0], lo, hi)
    ensures Within(TrustScore(signals), lo, hi)
  {
    WeightsSumToOne();
    TotalBetween(signals, WEIGHTS, lo, hi);
    assert WEIGHTS[0] in WEIGHTS;
  }

  /** ... namely this one. */
  lemma CompositeWeighs(signals: map<string, Option<real>>, domain: real, tools: real, permissions: real, supply: real,
                        community: real, stability: real)
    requires "composite" !in signals && "trust_composite" !in signals
    requires Is(signals, "domain_trust", domain) && Is(signals, "tool_description_safety", tools)
    requires Is(signals, "permission_scope", permissions) && Is(signals, "supply_chain", supply)
    requires Is(signals, "community_signal", community) && Is(signals, "temporal_stability", stability)
    ensures var mean := 0.2 * domain + 0.2 * tools + 0.15 * permissions + 0.15 * supply + 0.15 * community
                        + 0.15 * stability;
            TrustScore(signals) == Some(if mean > 0.0 then mean else 0.0)
  {
    var w := WEIGHTS;
    OneMoreWeight(signals, w, 0, domain);
    OneMoreWeight(signals, w, 1, tools);
    OneMoreWeight(signals, w, 2, permissions);
    OneMoreWeight(signals, w, 3, supply);
    OneMoreWeight(signals, w, 4, community);
    OneMoreWeight(signals, w, 5, stability);
    assert w[..6] == w && w[..0] == [];
  }

  predicate Is(signals: map<string, Option<real>>, name: string, score: real) {
    name in signals && signals[name] == Some(score)
  }

  lemma OneMoreWeight(signals: map<string, Option<real>>, weights: seq<(string, real)>, i: nat, score: real)
    requires i < |weights| && Is(signals, weights[i].0, score)
    ensures WeightedTotal(signals, weights[..i + 1])
         == if WeightedTotal(signals, weights[..i]).None? then None
            else Some(WeightedTotal(signals, weights[..i]).value + score * weights[i].1)
  {
    assert weights[..i + 1][..i] == weights[..i];
  }

  /** Each verdict stands for its own band of scores. */
  lemma VerdictBands(score: real)
    ensures VerdictOf(score) == "TRUSTED_GENERAL" <==> 75.0 <= score
    ensures VerdictOf(score) == "TRUSTED_RESEARCH" <==> 60.0 <= score < 75.0
    ensures VerdictOf(score) == "ENTERPRISE_CONTROLLED" <==> 45.0 <= score < 60.0
    ensures VerdictOf(score) == "CAUTION_LIMITED" <==> 30.0 <= score < 45.0
    ensures VerdictOf(score) == "HIGH_RISK_ISOLATED" <==> 15.0 <= score < 30.0
    ensures VerdictOf(score) == "KNOWN_THREAT" <==> score < 15.0
  {
    assert |"TRUSTED_GENERAL"| == |"CAUTION_LIMITED"| == 15;
    assert "TRUSTED_GENERAL"[0] == 'T' && "CAUTION_LIMITED"[0] == 'C';
    assert |"TRUSTED_RESEARCH"| == 16 && |"ENTERPRISE_CONTROLLED"| == 21;
    assert |"HIGH_RISK_ISOLATED"| == 18 && |"KNOWN_THREAT"| == 12;
  }

  // ----- the gates -----

  datatype Request = Request(serverId: string, force: bool, reason: Option<string>)

  datatype Outcome = NotRegistered | BlockedBy(gate: nat) | ForwardError | Forwarded

  predicate HasReason(r: Request) {
    r.reason.Some? && r.reason.value != ""
  }

  /** `process_commit`. `approved(n)` is the answer to the n-th override query, `accepts` the upstream's.
      The first gate only sees requests without force, so its own override branch (lines 239-251) is dead. */
  method ProcessCommit(r: Request, score: real, registered: bool, approved: nat -> bool, accepts: bool)
    returns (o: Outcome, queries: nat)
    ensures o.NotRegistered? <==> !registered
    ensures o in {Forwarded, ForwardError}
       <==> registered
            && (score >= 45.0
                || (r.force && r.reason.Some? && r.reason.value != ""
                    && approved(0) && (score > 0.0 ==> approved(1))))
    ensures o in {Forwarded, ForwardError} ==> (o == Forwarded <==> accepts)
    ensures queries <= 2 && (score >= 45.0 ==> queries == 0)
  {
    var verdict := VerdictOf(score);
    queries := 0;
    if !registered {
      return NotRegistered, queries;
    }
    if verdict in ["CAUTION_LIMITED", "HIGH_RISK_ISOLATED"] && !r.force {
      return BlockedBy(1), queries;
    }
    if score > 0.0 && score < VERDICT_BLOCK_THRESHOLD {
      if r.force && HasReason(r) {
        var granted := approved(queries);
        queries := queries + 1;
        if !granted {
          return BlockedBy(2), queries;
        }
      } else {
        return BlockedBy(2), queries;
      }
    }
    if verdict in VERDICTS_REJECTED {
      if r.force && HasReason(r) {
        var granted := approved(queries);
        queries := queries + 1;
        if !granted {
          return BlockedBy(3), queries;
        }
      } else {
        return BlockedBy(3), queries;
      }
    }
    o := if accepts then Forwarded else ForwardError;
  }

  /** The condition under which a forward is attempted when the override does not change between queries. */
  predicate MayForward(r: Request, score: real, registered: bool, approvedOverride: bool) {
    registered && (score >= VERDICT_BLOCK_THRESHOLD || (r.force && HasReason(r) && approvedOverride))
  }

  /** With a stable override the three gates are that one condition ... */
  method ProcessWithStableOverride(r: Request, score: real, registered: bool, approvedOverride: bool, accepts: bool)
    returns (o: Outcome)
    ensures o in {Forwarded, ForwardError} <==> MayForward(r, score, registered, approvedOverride)
  {
    var queries;
    o, queries := ProcessCommit(r, score, registered, n => approvedOverride, accepts);
  }

  /** The fallen server's commit goes out without any override. */
  method FallenIsForwarded(r: Request) returns (o: Outcome)
    ensures o == Forwarded
  {
    var c := CheckVerdict(FALLEN);
    FallenIsTrusted();
    var queries;
    o, queries := ProcessCommit(r, c.score, true, n => false, true);
  }

  /** ... and without one it is what GET /verdict reports as can_forward, for every registered server. */
  lemma AgreesWithCanForward(r: Request, score: real)
    ensures MayForward(r, score, true, false) <==> VerdictOf(score) in VERDICTS_SAFE
    ensures VerdictOf(score) in VERDICTS_SAFE <==> VerdictOf(score) !in VERDICTS_REJECTED
  {
    assert "CAUTION_LIMITED"[0] == 'C' && "HIGH_RISK_ISOLATED"[0] == 'H' && "KNOWN_THREAT"[0] == 'K';
    assert "TRUSTED_GENERAL"[0] == 'T' && "TRUSTED_RESEARCH"[0] == 'T' && "ENTERPRISE_CONTROLLED"[0] == 'E';
  }
}
