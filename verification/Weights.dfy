/** analyst_feedback_loop.py: signal accuracy against analyst overrides, and the weights suggested from it. */
module Weights {
  import opened Wrappers
  import opened Sequences

  const SIGNAL_NAMES: seq<string> := ["domain_trust", "tool_description_safety", "permission_scope",
                                      "supply_chain", "community_signal", "temporal_stability"]

  const MIN_WEIGHT: real := 0.05
  const MAX_WEIGHT: real := 0.35
  const STEP: real := 0.02
  const THRESHOLD: real := 0.15

  // ----- accuracy -----

  /** One analyst override: the final verdict and the parsed signal snapshot. */
  datatype Override = Override(finalVerdict: string, signals: map<string, real>)

  datatype Stats = Stats(correct: nat, total: nat, predictions: seq<nat>)

  datatype Accuracy = Accuracy(accuracyRate: real, correct: nat, total: nat, avgConfidence: real)

  /** `upper`, of ASCII letters */
  function Upper(s: string): string {
    seq(|s|, i requires 0 <= i < |s| => if 'a' <= s[i] <= 'z' then s[i] - 'a' + 'A' else s[i])
  }

  predicate Trusted(o: Override) {
    Upper(o.finalVerdict) in {"TRUSTED", "APPROVED", "SAFE"}
  }

  predicate Untrusted(o: Override) {
    Upper(o.finalVerdict) in {"UNTRUSTED", "BLOCKED", "MALICIOUS"}
  }

  predicate Predicted(o: Override, signal: string) {
    var score := if signal in o.signals then o.signals[signal] else 0.5;
    if Trusted(o) && score >= 0.6 then true else Untrusted(o) && score < 0.4
  }

  function Record(s: Stats, hit: bool): Stats {
    if hit then Stats(s.correct + 1, s.total + 1, s.predictions + [1])
    else Stats(s.correct, s.total + 1, s.predictions + [0])
  }

  function StatsOf(overrides: seq<Override>, signal: string): Stats {
    if overrides == [] then Stats(0, 0, []) else
      Record(StatsOf(overrides[..|overrides| - 1], signal), Predicted(overrides[|overrides| - 1], signal))
  }

  function SumOf(ns: seq<nat>): nat {
    if ns == [] then 0 else SumOf(ns[..|ns| - 1]) + ns[|ns| - 1]
  }

  function AccuracyOf(s: Stats): Accuracy {
    if s.total > 0 then
      Accuracy(s.correct as real / s.total as real, s.correct, s.total,
               if s.predictions != [] then SumOf(s.predictions) as real / |s.predictions| as real else 0.5)
    else Accuracy(0.5, 0, 0, 0.5)
  }

  /** `calculate_signal_accuracy` */
  method CalculateSignalAccuracy(overrides: seq<Override>) returns (accuracy: map<string, Accuracy>)
    ensures accuracy.Keys == Elems(SIGNAL_NAMES)
    ensures forall sig | sig in accuracy :: accuracy[sig] == AccuracyOf(StatsOf(overrides, sig))
  {
    NamesDiffer();
    var stats := map sig | sig in SIGNAL_NAMES :: Stats(0, 0, []);
    for i := 0 to |overrides|
      invariant stats.Keys == Elems(SIGNAL_NAMES)
      invariant forall sig | sig in stats :: stats[sig] == StatsOf(overrides[..i], sig)
    {
      stats := RecordOverride(stats, overrides, i, SIGNAL_NAMES);
    }
    assert overrides[..|overrides|] == overrides;
    accuracy := map sig | sig in stats :: AccuracyOf(stats[sig]);
  }

  method RecordOverride(before: map<string, Stats>, overrides: seq<Override>, i: nat, names: seq<string>)
    returns (stats: map<string, Stats>)
    requires Distinct(names) && i < |overrides| && before.Keys == Elems(names)
    requires forall sig | sig in before :: before[sig] == StatsOf(overrides[..i], sig)
    ensures stats.Keys == Elems(names)
    ensures forall sig | sig in stats :: stats[sig] == StatsOf(overrides[..i + 1], sig)
  {
    stats := before;
    assert overrides[..i + 1][..i] == overrides[..i];
    for j := 0 to |names|
      invariant stats.Keys == before.Keys
      invariant forall sig | sig in stats && sig in names[..j] ::
                  stats[sig] == Record(before[sig], Predicted(overrides[i], sig))
      invariant forall sig | sig in stats && sig !in names[..j] :: stats[sig] == before[sig]
    {
      ElemsStep(names, j);
      var sig := names[j];
      assert sig in Elems(names) && sig !in names[..j];
      stats := stats[sig := Record(stats[sig], Predicted(overrides[i], sig))];
    }
    assert names[..|names|] == names;
  }

  lemma NamesDiffer()
    ensures Distinct(SIGNAL_NAMES)
  {
    assert |SIGNAL_NAMES[0]| == 12 && |SIGNAL_NAMES[1]| == 23 && SIGNAL_NAMES[2][0] == 'p';
    assert |SIGNAL_NAMES[3]| == 12 && SIGNAL_NAMES[4][0] == 'c' && SIGNAL_NAMES[5][0] == 't';
    assert SIGNAL_NAMES[0][0] == 'd' && SIGNAL_NAMES[3][0] == 's' && |SIGNAL_NAMES[5]| == 18;
  }

  ghost predicate Approving(verdict: string) {
    Upper(verdict) in {"TRUSTED", "APPROVED", "SAFE"}
  }

  ghost predicate Refusing(verdict: string) {
    Upper(verdict) in {"UNTRUSTED", "BLOCKED", "MALICIOUS"}
  }

  /** The analyst came to trust a server whose snapshot has the signal at 0.6 or more. */
  ghost predicate Confirms(o: Override, signal: string) {
    Approving(o.finalVerdict) && signal in o.signals && o.signals[signal] >= 0.6
  }

  /** The analyst came to distrust a server whose snapshot has the signal below 0.4. */
  ghost predicate Warns(o: Override, signal: string) {
    Refusing(o.finalVerdict) && signal in o.signals && o.signals[signal] < 0.4
  }

  /** The overrides in which the signal was right. */
  ghost function RightAt(overrides: seq<Override>, signal: string): set<nat> {
    set i: nat | i < |overrides| && (Confirms(overrides[i], signal) || Warns(overrides[i], signal))
  }

  lemma RightOneMore(overrides: seq<Override>, signal: string)
    requires overrides != []
    ensures var n := |overrides| - 1;
            |RightAt(overrides, signal)|
            == |RightAt(overrides[..n], signal)| + if Predicted(overrides[n], signal) then 1 else 0
  {
    var n := |overrides| - 1;
    assert RightAt(overrides, signal)
        == RightAt(overrides[..n], signal) + if Predicted(overrides[n], signal) then {n} else {};
  }

  lemma {:induction false} StatsAddUp(overrides: seq<Override>, signal: string)
    ensures var s := StatsOf(overrides, signal);
            && s.total == |overrides| == |s.predictions| && SumOf(s.predictions) == s.correct <= s.total
            && s.correct == |RightAt(overrides, signal)|
  {
    if overrides != [] {
      StatsAddUp(overrides[..|overrides| - 1], signal);
      RightOneMore(overrides, signal);
      var s := StatsOf(overrides[..|overrides| - 1], signal);
      assert (s.predictions + [1])[..|s.predictions|] == s.predictions == (s.predictions + [0])[..|s.predictions|];
    }
  }

  /** The two rates that are kept always agree, and both count, over every override, those in which the signal was
      right: a high score on a server that came to be trusted, or a low one on a server that did not. */
  lemma RateIsConfidence(overrides: seq<Override>, signal: string)
    ensures var a := AccuracyOf(StatsOf(overrides, signal));
            && a.accuracyRate == a.avgConfidence
            && a.total == |overrides| && a.correct == |RightAt(overrides, signal)| <= a.total
            && a.accuracyRate == (if overrides == [] then 0.5 else a.correct as real / a.total as real)
            && 0.0 <= a.accuracyRate <= 1.0
  {
    StatsAddUp(overrides, signal);
    var s := StatsOf(overrides, signal);
    if s.total > 0 {
      RatioBounds(s.correct, s.total);
    }
  }

  lemma RatioBounds(c: nat, n: nat)
    requires n > 0 && c <= n
    ensures 0.0 <= c as real / n as real <= 1.0
  {
    var q := c as real / n as real;
    assert q * n as real == c as real;
  }

  /** The snapshots of the second list have the signal at least as high. */
  ghost predicate Raised(before: seq<Override>, after: seq<Override>, signal: string) {
    && |before| == |after|
    && forall i | 0 <= i < |before| ::
         && before[i].finalVerdict == after[i].finalVerdict
         && (signal in before[i].signals <==> signal in after[i].signals)
         && (signal in before[i].signals ==> before[i].signals[signal] <= after[i].signals[signal])
  }

  lemma NotBoth(verdict: string)
    ensures !(Approving(verdict) && Refusing(verdict))
  {
    assert |"TRUSTED"| == 7 && |"APPROVED"| == 8 && |"SAFE"| == 4 && |"UNTRUSTED"| == |"MALICIOUS"| == 9;
    assert "TRUSTED"[0] == 'T' && "BLOCKED"[0] == 'B' && |"BLOCKED"| == 7;
  }

  lemma SubsetIsSmaller(a: set<nat>, b: set<nat>)
    requires a <= b
    ensures |a| <= |b| && (|a| == |b| ==> a == b)
  {
    assert b == a + (b - a);
  }

  lemma RaisedOne(b: Override, a: Override, signal: string)
    requires Raised([b], [a], signal)
    ensures Approving(b.finalVerdict) && (Confirms(b, signal) || Warns(b, signal)) ==> Confirms(a, signal)
    ensures Refusing(b.finalVerdict) && (Confirms(a, signal) || Warns(a, signal)) ==> Warns(b, signal)
  {
    assert [b][0] == b && [a][0] == a;
    NotBoth(b.finalVerdict);
  }

  ghost predicate AllApproving(overrides: seq<Override>) {
    forall i | 0 <= i < |overrides| :: Approving(overrides[i].finalVerdict)
  }

  ghost predicate AllRefusing(overrides: seq<Override>) {
    forall i | 0 <= i < |overrides| :: Refusing(overrides[i].finalVerdict)
  }

  /** Higher scores of a signal never count against it where the analysts trusted, nor for it where they did not. */
  lemma RaisingScores(before: seq<Override>, after: seq<Override>, signal: string)
    requires Raised(before, after, signal)
    ensures AllApproving(before) ==> StatsOf(before, signal).correct <= StatsOf(after, signal).correct
    ensures AllRefusing(before) ==> StatsOf(before, signal).correct >= StatsOf(after, signal).correct
  {
    StatsAddUp(before, signal);
    StatsAddUp(after, signal);
    forall i | 0 <= i < |before|
      ensures AllApproving(before) && i in RightAt(before, signal) ==> i in RightAt(after, signal)
      ensures AllRefusing(before) && i in RightAt(after, signal) ==> i in RightAt(before, signal)
    {
      RaisedOne(before[i], after[i], signal);
    }
    if AllApproving(before) {
      SubsetIsSmaller(RightAt(before, signal), RightAt(after, signal));
    }
    if AllRefusing(before) {
      SubsetIsSmaller(RightAt(after, signal), RightAt(before, signal));
    }
  }

  lemma {:induction false} AllIndices(s: set<nat>, n: nat)
    requires forall i | i in s :: i < n
    ensures |s| == n <==> forall i: nat | i < n :: i in s
  {
    if n > 0 {
      AllIndices(s - {n - 1}, n - 1);
      if n - 1 in s {
        assert s == s - {n - 1} + {n - 1};
      } else {
        assert s == s - {n - 1};
        NoMoreIndices(s, n - 1);
      }
    }
  }

  lemma {:induction false} NoMoreIndices(s: set<nat>, n: nat)
    requires forall i | i in s :: i < n
    ensures |s| <= n
  {
    if n > 0 {
      NoMoreIndices(s - {n - 1}, n - 1);
      assert s - {n - 1} + {n - 1} >= s;
      SubsetIsSmaller(s, s - {n - 1} + {n - 1});
    }
  }

  lemma RateOfWhole(s: Stats)
    requires s.total > 0
    ensures AccuracyOf(s).accuracyRate == 1.0 <==> s.correct == s.total
  {
    var q := s.correct as real / s.total as real;
    assert q * s.total as real == s.correct as real;
  }

  lemma AllRight(overrides: seq<Override>, signal: string)
    ensures StatsOf(overrides, signal).correct == |overrides|
       <==> forall i | 0 <= i < |overrides| :: Confirms(overrides[i], signal) || Warns(overrides[i], signal)
  {
    StatsAddUp(overrides, signal);
    AllIndices(RightAt(overrides, signal), |overrides|);
    forall i: nat | i < |overrides|
      ensures i in RightAt(overrides, signal) <==> Confirms(overrides[i], signal) || Warns(overrides[i], signal)
    {
    }
  }

  lemma RateIsOneIff(overrides: seq<Override>, signal: string)
    requires overrides != []
    ensures AccuracyOf(StatsOf(overrides, signal)).accuracyRate == 1.0
       <==> forall i | 0 <= i < |overrides| :: Confirms(overrides[i], signal) || Warns(overrides[i], signal)
  {
    AllRight(overrides, signal);
    StatsAddUp(overrides, signal);
    RateOfWhole(StatsOf(overrides, signal));
  }

  /** Over approved servers alone a signal is always right exactly when every snapshot has it at 0.6 or more, over
      refused ones alone exactly when every snapshot has it below 0.4. */
  lemma AlwaysRightIff(overrides: seq<Override>, signal: string)
    requires overrides != []
    ensures AllApproving(overrides) ==>
              (AccuracyOf(StatsOf(overrides, signal)).accuracyRate == 1.0
               <==> forall o | o in overrides :: signal in o.signals && o.signals[signal] >= 0.6)
    ensures AllRefusing(overrides) ==>
              (AccuracyOf(StatsOf(overrides, signal)).accuracyRate == 1.0
               <==> forall o | o in overrides :: signal in o.signals && o.signals[signal] < 0.4)
  {
    RateIsOneIff(overrides, signal);
    forall i | 0 <= i < |overrides|
      ensures !(Approving(overrides[i].finalVerdict) && Refusing(overrides[i].finalVerdict))
    {
      NotBoth(overrides[i].finalVerdict);
    }
  }

  /** An override with any other verdict, or without the signal in its snapshot, adds to the total only. */
  lemma OthersOnlyAddToTheTotal(overrides: seq<Override>, o: Override, signal: string)
    requires signal in o.signals ==> !Approving(o.finalVerdict) && !Refusing(o.finalVerdict)
    ensures StatsOf(overrides + [o], signal).correct == StatsOf(overrides, signal).correct
    ensures StatsOf(overrides + [o], signal).total == StatsOf(overrides, signal).total + 1
  {
    assert (overrides + [o])[..|overrides|] == overrides;
  }

  ghost predicate SameButCase(c: char, upper: char) {
    c == upper || ('A' <= upper <= 'Z' && c as int == upper as int + 32)
  }

  /** A verdict is read as a capital word exactly when it is that word but for the case of its letters. */
  lemma CaseIsIrrelevant(verdict: string, word: string)
    requires forall c | c in word :: !('a' <= c <= 'z')
    ensures Upper(verdict) == word
       <==> |verdict| == |word| && forall i | 0 <= i < |word| :: SameButCase(verdict[i], word[i])
  {
    if Upper(verdict) == word {
      forall i | 0 <= i < |word| ensures SameButCase(verdict[i], word[i]) {
        assert word[i] == Upper(verdict)[i];
      }
    }
    if |verdict| == |word| && forall i | 0 <= i < |word| :: SameButCase(verdict[i], word[i]) {
      forall i | 0 <= i < |word| ensures Upper(verdict)[i] == word[i] {
        assert word[i] in word && SameButCase(verdict[i], word[i]);
      }
    }
  }

  // ----- rounding -----

  /** Python's round to an integer: to the nearest, ties to even. */
  function Nearest(x: real): int {
    var f := x.Floor;
    var d := x - f as real;
    if d < 0.5 || (d == 0.5 && f % 2 == 0) then f else f + 1
  }

  /** round(x, 3) */
  function Round3(x: real): real {
    Nearest(x * 1000.0) as real / 1000.0
  }

  /** round(x, 0) */
  function Round0(x: real): real {
    Nearest(x) as real
  }

  function Abs(x: real): real {
    if x < 0.0 then -x else x
  }

  lemma Round3IsClose(x: real)
    ensures Abs(Round3(x) - x) <= 0.0005
    ensures x > 0.001 ==> Round3(x) > 0.0
  {
  }

  // ----- suggestions -----

  function Min(a: real, b: real): real {
    if a <= b then a else b
  }

  function Max(a: real, b: real): real {
    if a >= b then a else b
  }

  /** The weight suggested for one signal; None when its accuracy is near one half. */
  function Suggest(rate: real, current: real): Option<real> {
    var diff := rate - 0.5;
    if diff > THRESHOLD then Some(Round3(Min(current + Min(diff * 0.1, STEP), MAX_WEIGHT)))
    else if diff < -THRESHOLD then Some(Round0(Max(current - Min(-diff * 0.1, STEP), MIN_WEIGHT)))
    else None
  }

  /** A signal's accuracy and its current weight. */
  datatype Rated = Rated(name: string, rate: real, current: real)

  datatype Weight = Weight(name: string, value: real)

  function Suggestions(rs: seq<Rated>): seq<Weight> {
    if rs == [] then [] else
      var before, r := Suggestions(rs[..|rs| - 1]), rs[|rs| - 1];
      if Suggest(r.rate, r.current).Some? then before + [Weight(r.name, Suggest(r.rate, r.current).value)] else before
  }

  function Total(ws: seq<Weight>): real {
    if ws == [] then 0.0 else Total(ws[..|ws| - 1]) + ws[|ws| - 1].value
  }

  function Times(x: real, y: real): real {
    x * y
  }

  function Scaled(w: Weight, factor: real): Weight {
    Weight(w.name, Round3(Times(w.value, factor)))
  }

  function Rescaled(ws: seq<Weight>, factor: real): seq<Weight> {
    if ws == [] then [] else Rescaled(ws[..|ws| - 1], factor) + [Scaled(ws[|ws| - 1], factor)]
  }

  function BestRate(rs: seq<Rated>): real
    requires rs != []
  {
    if |rs| == 1 then rs[0].rate else Max(BestRate(rs[..|rs| - 1]), rs[|rs| - 1].rate)
  }

  function WorstRate(rs: seq<Rated>): real
    requires rs != []
  {
    if |rs| == 1 then rs[0].rate else Min(WorstRate(rs[..|rs| - 1]), rs[|rs| - 1].rate)
  }

  datatype Outcome = Suggested(weights: seq<Weight>) | DivisionByZero

  /** The answer, with all suggestions first and the rescaling after; 1.0 / 0 raises. */
  function Adjusted(rs: seq<Rated>): Outcome
    requires rs != []
  {
    var ws := Suggestions(rs);
    if BestRate(rs) - WorstRate(rs) < THRESHOLD then Suggested([])
    else if ws == [] || Abs(Total(ws) - 1.0) <= 0.01 then Suggested(ws)
    else if Total(ws) == 0.0 then DivisionByZero
    else Suggested(Rescaled(ws, 1.0 / Total(ws)))
  }

  /** `calculate_weight_adjustments` */
  method CalculateWeightAdjustments(rs: seq<Rated>) returns (o: Outcome)
    requires rs != []
    ensures o == Adjusted(rs)
  {
    if BestRate(rs) - WorstRate(rs) < THRESHOLD {
      return Suggested([]);
    }
    var suggestions: seq<Weight> := [];
    for i := 0 to |rs|
      invariant suggestions == Suggestions(rs[..i])
    {
      assert rs[..i + 1][..i] == rs[..i];
      var s := Suggest(rs[i].rate, rs[i].current);
      if s.Some? {
        suggestions := suggestions + [Weight(rs[i].name, s.value)];
      }
    }
    assert rs[..|rs|] == rs;
    var total := Total(suggestions);
    if suggestions != [] && Abs(total - 1.0) > 0.01 {
      if total == 0.0 {
        return DivisionByZero;
      }
      var factor := 1.0 / total;
      var rescaled: seq<Weight> := [];
      for i := 0 to |suggestions|
        invariant rescaled == Rescaled(suggestions[..i], factor)
      {
        assert suggestions[..i + 1][..i] == suggestions[..i];
        rescaled := rescaled + [Scaled(suggestions[i], factor)];
      }
      assert suggestions[..|suggestions|] == suggestions;
      suggestions := rescaled;
    }
    o := Suggested(suggestions);
  }

  // ----- what comes out -----

  lemma TimesSum(x: real, y: real, f: real)
    ensures Times(x + y, f) == Times(x, f) + Times(y, f)
  {
  }

  lemma {:induction false} RescaledTotal(ws: seq<Weight>, f: real)
    ensures |Rescaled(ws, f)| == |ws|
    ensures Abs(Total(Rescaled(ws, f)) - Times(Total(ws), f)) <= 0.0005 * |ws| as real
  {
    if ws != [] {
      var before, last := ws[..|ws| - 1], ws[|ws| - 1];
      RescaledTotal(before, f);
      TimesSum(Total(before), last.value, f);
      Round3IsClose(Times(last.value, f));
      var out := Rescaled(ws, f);
      assert out[..|out| - 1] == Rescaled(before, f) && out[|out| - 1] == Scaled(last, f);
      ErrorsAdd(Total(Rescaled(before, f)) - Times(Total(before), f), Scaled(last, f).value - Times(last.value, f),
                |before| as real);
    }
  }

  lemma ErrorsAdd(e: real, d: real, n: real)
    requires Abs(e) <= 0.0005 * n && Abs(d) <= 0.0005
    ensures Abs(e + d) <= 0.0005 * (n + 1.0)
  {
  }

  lemma {:induction false} NoMoreThanRated(rs: seq<Rated>)
    ensures |Suggestions(rs)| <= |rs|
  {
    if rs != [] {
      NoMoreThanRated(rs[..|rs| - 1]);
    }
  }

  lemma TimesInverse(t: real)
    requires t != 0.0
    ensures Times(t, 1.0 / t) == 1.0
  {
  }

  /** Whenever rescaling happens, n returned weights add up to 1 within 0.0005 n: rounding cannot drift further. */
  lemma RescaledWeightsAddUpToOne(ws: seq<Weight>)
    requires Total(ws) != 0.0
    ensures Abs(Total(Rescaled(ws, 1.0 / Total(ws))) - 1.0) <= 0.0005 * |ws| as real
  {
    RescaledTotal(ws, 1.0 / Total(ws));
    TimesInverse(Total(ws));
  }

  /** So with the six signals every non-empty answer adds up to 1 within a hundredth, rescaled or not. */
  lemma AnswerIsNearlyNormal(rs: seq<Rated>)
    requires rs != [] && |rs| <= |SIGNAL_NAMES|
    ensures var o := Adjusted(rs); o.Suggested? && o.weights != [] ==> Abs(Total(o.weights) - 1.0) <= 0.01
  {
    var ws := Suggestions(rs);
    NoMoreThanRated(rs);
    if Total(ws) != 0.0 {
      RescaledWeightsAddUpToOne(ws);
    }
  }

  // ----- the failing case -----

  /** A weight one would start from; DEFAULT_WEIGHTS lie between 0.15 and 0.20. */
  ghost predicate Reasonable(r: Rated) {
    0.0 <= r.current <= 0.5
  }

  /** A decrease is rounded to 0 decimals, so it always suggests 0; an increase always suggests more than 0. */
  lemma SuggestedValue(r: Rated)
    requires Reasonable(r)
    ensures Suggest(r.rate, r.current).Some? <==> r.rate > 0.65 || r.rate < 0.35
    ensures r.rate < 0.35 ==> Suggest(r.rate, r.current) == Some(0.0)
    ensures r.rate > 0.65 ==> Suggest(r.rate, r.current).value > 0.0
  {
    var diff := r.rate - 0.5;
    if diff > THRESHOLD {
      Round3IsClose(Min(r.current + Min(diff * 0.1, STEP), MAX_WEIGHT));
    } else if diff < -THRESHOLD {
      var w := Max(r.current - Min(-diff * 0.1, STEP), MIN_WEIGHT);
      assert 0.0 < w <= 0.5;
      assert Nearest(w) == 0;
    }
  }

  /** Rounding does not leave the bounds, which are themselves multiples of a thousandth. */
  lemma RoundStaysBelow(x: real)
    requires x <= MAX_WEIGHT
    ensures Round3(x) <= MAX_WEIGHT
  {
    assert x * 1000.0 <= 350.0;
  }

  /** An increase adds between 0.015 and 0.02, within rounding, and never passes the maximum. */
  lemma IncreaseIsBounded(r: Rated)
    requires Reasonable(r) && r.rate > 0.65
    ensures Suggest(r.rate, r.current).Some? && Suggest(r.rate, r.current).value <= MAX_WEIGHT
    ensures r.current <= 0.33 ==>
              r.current + 0.0145 <= Suggest(r.rate, r.current).value <= r.current + 0.0205
  {
    var w := Min(r.current + Min((r.rate - 0.5) * 0.1, STEP), MAX_WEIGHT);
    Round3IsClose(w);
    RoundStaysBelow(w);
  }

  /** How far a weight is to move: a tenth of the distance from one half, up to 0.02 from a distance of 0.2 on. */
  ghost predicate MoveFor(distance: real, move: real) {
    if distance < 0.2 then 10.0 * move == distance else move == 0.02
  }

  /** From any weight: an increase is the moved weight, at most 0.35, to a thousandth; a decrease is the moved weight,
      at least 0.05, to a whole number. */
  lemma SuggestionIsNear(rate: real, current: real, move: real)
    requires rate > 0.65 || rate < 0.35
    requires MoveFor(if rate > 0.5 then rate - 0.5 else 0.5 - rate, move)
    ensures Suggest(rate, current).Some?
    ensures var v := Suggest(rate, current).value;
            if rate > 0.5 then
              var w := if current + move < 0.35 then current + move else 0.35;
              -0.0005 <= v - w <= 0.0005 && 1000.0 * v == (1000.0 * v).Floor as real
            else
              var w := if current - move > 0.05 then current - move else 0.05;
              -0.5 <= v - w <= 0.5 && v == v.Floor as real
  {
    if rate > 0.5 {
      var w := Min(current + Min((rate - 0.5) * 0.1, STEP), MAX_WEIGHT);
      Round3IsClose(w);
      assert Round3(w) == Nearest(w * 1000.0) as real / 1000.0;
    } else {
      var w := Max(current - Min(-(rate - 0.5) * 0.1, STEP), MIN_WEIGHT);
      assert Round0(w) == Nearest(w) as real;
    }
  }

  /** Some signal of the list is above 0.65; some is below 0.35. */
  ghost predicate SomeRise(rs: seq<Rated>) {
    exists r :: r in rs && r.rate > 0.65
  }

  ghost predicate SomeFall(rs: seq<Rated>) {
    exists r :: r in rs && r.rate < 0.35
  }

  lemma OneMoreRated(before: seq<Rated>, last: Rated)
    ensures SomeRise(before + [last]) <==> SomeRise(before) || last.rate > 0.65
    ensures SomeFall(before + [last]) <==> SomeFall(before) || last.rate < 0.35
  {
    assert forall r :: r in before + [last] <==> r in before || r == last;
  }

  lemma OneMoreSuggestion(before: seq<Rated>, last: Rated)
    requires Reasonable(last)
    ensures var old', new' := Suggestions(before), Suggestions(before + [last]);
            && (new' != [] <==> old' != [] || last.rate > 0.65 || last.rate < 0.35)
            && (last.rate > 0.65 ==> Total(new') > Total(old'))
            && (last.rate <= 0.65 ==> Total(new') == Total(old'))
  {
    assert (before + [last])[..|before|] == before;
    SuggestedValue(last);
    var s := Suggest(last.rate, last.current);
    if s.Some? {
      TotalAppend(Suggestions(before), Weight(last.name, s.value));
    }
  }

  lemma {:induction false} TotalIsZeroIff(rs: seq<Rated>)
    requires forall r | r in rs :: Reasonable(r)
    ensures Total(Suggestions(rs)) >= 0.0
    ensures Total(Suggestions(rs)) == 0.0 <==> !SomeRise(rs)
    ensures Suggestions(rs) != [] <==> SomeRise(rs) || SomeFall(rs)
  {
    if rs != [] {
      var before, last := rs[..|rs| - 1], rs[|rs| - 1];
      assert last in rs && forall r | r in before :: r in rs;
      assert rs == before + [last];
      TotalIsZeroIff(before);
      OneMoreRated(before, last);
      OneMoreSuggestion(before, last);
    }
  }

  lemma TotalAppend(ws: seq<Weight>, w: Weight)
    ensures Total(ws + [w]) == Total(ws) + w.value
  {
    assert (ws + [w])[..|ws|] == ws;
  }

  /** Two signals whose accuracies are at least 0.15 apart. */
  ghost predicate Spread(rs: seq<Rated>) {
    exists a, b :: a in rs && b in rs && a.rate - b.rate >= 0.15
  }

  lemma {:induction false} RatesBetween(rs: seq<Rated>)
    requires rs != []
    ensures forall r | r in rs :: WorstRate(rs) <= r.rate <= BestRate(rs)
    ensures exists a :: a in rs && a.rate == BestRate(rs)
    ensures exists b :: b in rs && b.rate == WorstRate(rs)
  {
    var before, last := rs[..|rs| - 1], rs[|rs| - 1];
    assert rs == before + [last];
    if before != [] {
      RatesBetween(before);
    }
  }

  /** Without a spread of 0.15 nothing is suggested. */
  lemma SpreadIff(rs: seq<Rated>)
    requires rs != []
    ensures BestRate(rs) - WorstRate(rs) >= THRESHOLD <==> Spread(rs)
    ensures !Spread(rs) ==> Adjusted(rs) == Suggested([])
  {
    RatesBetween(rs);
  }

  lemma TimesQuotient(v: real, t: real)
    requires t != 0.0
    ensures Times(v, 1.0 / t) == v / t
  {
  }

  lemma {:induction false} ShareAt(ws: seq<Weight>, t: real, i: nat)
    requires t != 0.0 && i < |ws|
    ensures |Rescaled(ws, 1.0 / t)| == |ws|
    ensures Rescaled(ws, 1.0 / t)[i].name == ws[i].name
    ensures -0.0005 <= Rescaled(ws, 1.0 / t)[i].value - ws[i].value / t <= 0.0005
  {
    var n := |ws| - 1;
    if i < n {
      ShareAt(ws[..n], t, i);
    } else {
      RescaledTotal(ws[..n], 1.0 / t);
      TimesQuotient(ws[n].value, t);
      Round3IsClose(Times(ws[n].value, 1.0 / t));
    }
  }

  /** With a spread: suggestions that add up to 1 within 0.01 are the answer as they are, others are divided by their
      sum, to within 0.0005 each, unless that is 0. */
  lemma AnswerIsRescaled(rs: seq<Rated>, i: nat)
    requires rs != [] && Spread(rs) && i < |Suggestions(rs)|
    ensures var ws := Suggestions(rs); var t := Total(ws);
            if 0.99 <= t <= 1.01 then Adjusted(rs) == Suggested(ws)
            else if t == 0.0 then Adjusted(rs) == DivisionByZero
            else
              && Adjusted(rs).Suggested? && |Adjusted(rs).weights| == |ws|
              && Adjusted(rs).weights[i].name == ws[i].name
              && -0.0005 <= Adjusted(rs).weights[i].value - ws[i].value / t <= 0.0005
  {
    SpreadIff(rs);
    var ws := Suggestions(rs);
    if Total(ws) != 0.0 {
      ShareAt(ws, Total(ws), i);
    }
  }

  /** From reasonable weights the function raises exactly when the accuracies spread by at least 0.15, some
      signal is below 0.35, and none is above 0.65. */
  lemma DivisionByZeroIff(rs: seq<Rated>)
    requires rs != [] && forall r | r in rs :: Reasonable(r)
    ensures Adjusted(rs) == DivisionByZero <==> Spread(rs) && SomeFall(rs) && !SomeRise(rs)
  {
    SpreadIff(rs);
    TotalIsZeroIff(rs);
  }

  /** One signal that is mostly wrong, another at one half: the function raises. */
  lemma OneFallingSignal(a: string, b: string)
    ensures Adjusted([Rated(a, 0.5, 0.2), Rated(b, 0.3, 0.15)]) == DivisionByZero
  {
    var rs := [Rated(a, 0.5, 0.2), Rated(b, 0.3, 0.15)];
    assert rs[..1] == [rs[0]] && BestRate(rs[..1]) == 0.5 == WorstRate(rs[..1]);
    assert BestRate(rs) == 0.5 && WorstRate(rs) == 0.3;
    assert forall r | r in rs :: r == rs[0] || r == rs[1];
    assert rs[0] in rs && rs[1] in rs && rs[1].rate < 0.35;
    assert Spread(rs) by {
      assert rs[0].rate - rs[1].rate >= 0.15;
    }
    DivisionByZeroIff(rs);
  }

  // ----- do the bounds survive rescaling? -----

  predicate InBounds(v: real) {
    MIN_WEIGHT <= v <= MAX_WEIGHT
  }

  lemma RoundedInBoundsIff(x: real)
    ensures InBounds(Round3(x)) <==> 0.0495 <= x <= 0.3505
  {
  }

  lemma QuotientBounds(q: real, v: real, t: real, c: real)
    requires t > 0.0 && Times(q, t) == v
    ensures q >= c <==> v >= Times(c, t)
    ensures q <= c <==> v <= Times(c, t)
  {
    assert (q - c) * t == v - Times(c, t);
    assert q > c ==> (q - c) * t > 0.0;
    assert q < c ==> (q - c) * t < 0.0;
  }

  lemma TimesBack(v: real, t: real)
    requires t > 0.0
    ensures Times(Times(v, 1.0 / t), t) == v
  {
  }

  /** The share of the total that a weight needs for its rescaled value to be within the bounds. */
  predicate Fits(v: real, total: real) {
    Times(0.0495, total) <= v <= Times(0.3505, total)
  }

  lemma {:induction false} RescaledLength(ws: seq<Weight>, f: real)
    ensures |Rescaled(ws, f)| == |ws|
  {
    if ws != [] {
      RescaledLength(ws[..|ws| - 1], f);
    }
  }

  lemma {:induction false} RescaledAt(ws: seq<Weight>, f: real, i: nat)
    requires i < |ws|
    ensures |Rescaled(ws, f)| == |ws| && Rescaled(ws, f)[i] == Scaled(ws[i], f)
  {
    RescaledLength(ws[..|ws| - 1], f);
    if i < |ws| - 1 {
      RescaledAt(ws[..|ws| - 1], f, i);
    }
  }

  /** All returned weights are within MIN_WEIGHT and MAX_WEIGHT if and only if every suggestion has a share between
      0.0495 and 0.3505 of the total. */
  lemma BoundsSurviveIff(ws: seq<Weight>)
    requires Total(ws) > 0.0
    ensures var out := Rescaled(ws, 1.0 / Total(ws));
            |out| == |ws|
            && ((forall i | 0 <= i < |out| :: InBounds(out[i].value))
                <==> forall i | 0 <= i < |ws| :: Fits(ws[i].value, Total(ws)))
  {
    var t, f := Total(ws), 1.0 / Total(ws);
    RescaledLength(ws, f);
    forall i | 0 <= i < |ws| ensures InBounds(Rescaled(ws, f)[i].value) <==> Fits(ws[i].value, t) {
      RescaledAt(ws, f, i);
      ScaledFits(ws[i], t);
    }
  }

  lemma RoundedFits(q: real, v: real, t: real)
    requires t > 0.0 && Times(q, t) == v
    ensures InBounds(Round3(q)) <==> Fits(v, t)
  {
    RoundedInBoundsIff(q);
    QuotientBounds(q, v, t, 0.0495);
    QuotientBounds(q, v, t, 0.3505);
  }

  lemma ScaledFits(w: Weight, t: real)
    requires t > 0.0
    ensures InBounds(Scaled(w, 1.0 / t).value) <==> Fits(w.value, t)
  {
    TimesBack(w.value, t);
    RoundedFits(Times(w.value, 1.0 / t), w.value, t);
  }

  lemma {:induction false} FittingTotal(ws: seq<Weight>, t: real)
    requires t > 0.0 && forall i | 0 <= i < |ws| :: Fits(ws[i].value, t)
    ensures Total(ws) <= Times(0.3505 * |ws| as real, t)
  {
    if ws != [] {
      var before, last := ws[..|ws| - 1], ws[|ws| - 1];
      assert forall i | 0 <= i < |before| :: before[i] == ws[i];
      FittingTotal(before, t);
      TimesSum(0.3505 * |before| as real, 0.3505, t);
      assert Fits(last.value, t);
    }
  }

  lemma TimesOneMonotone(x: real, t: real)
    requires t > 0.0 && x < 1.0
    ensures Times(x, t) < t
  {
    assert (1.0 - x) * t > 0.0;
  }

  /** So they are never all within the bounds when a decrease is among them, or with fewer than three. */
  lemma RescalingBreaksTheBounds(ws: seq<Weight>)
    requires Total(ws) > 0.0
    requires |ws| < 3 || exists i :: 0 <= i < |ws| && ws[i].value == 0.0
    ensures var out := Rescaled(ws, 1.0 / Total(ws)); exists i :: 0 <= i < |out| && !InBounds(out[i].value)
  {
    var t := Total(ws);
    BoundsSurviveIff(ws);
    if forall i | 0 <= i < |ws| :: Fits(ws[i].value, t) {
      FittingTotal(ws, t);
      if |ws| < 3 {
        TimesOneMonotone(0.3505 * |ws| as real, t);
      } else {
        ZeroDoesNotFit(t);
      }
    }
  }

  lemma ZeroDoesNotFit(t: real)
    requires t > 0.0
    ensures !Fits(0.0, t)
  {
    assert Times(0.0495, t) > 0.0;
  }

  // ----- the six default weights -----

  const DEFAULT_WEIGHTS: seq<real> := [0.20, 0.20, 0.15, 0.15, 0.15, 0.15]

  ghost predicate FromDefaults(rs: seq<Rated>) {
    |rs| == |DEFAULT_WEIGHTS| && forall i | 0 <= i < |rs| :: rs[i].current == DEFAULT_WEIGHTS[i]
  }

  /** How many signals rise from the given weight; how many fall. */
  function Rises(rs: seq<Rated>, from: real): nat {
    if rs == [] then 0 else
      var r := rs[|rs| - 1];
      Rises(rs[..|rs| - 1], from) + if r.rate > 0.65 && r.current == from then 1 else 0
  }

  function Falls(rs: seq<Rated>): nat {
    if rs == [] then 0 else Falls(rs[..|rs| - 1]) + if rs[|rs| - 1].rate < 0.35 then 1 else 0
  }

  predicate High(v: real) {
    0.215 <= v <= 0.22
  }

  predicate Low(v: real) {
    0.165 <= v <= 0.17
  }

  /** What is suggested for weights of 0.20 and 0.15: how many raised ones of each, and how many zeros. */
  ghost predicate Made(ws: seq<Weight>, highs: nat, lows: nat, zeros: nat) {
    if ws == [] then highs == lows == zeros == 0 else
      var v, rest := ws[|ws| - 1].value, ws[..|ws| - 1];
      || (High(v) && highs > 0 && Made(rest, highs - 1, lows, zeros))
      || (Low(v) && lows > 0 && Made(rest, highs, lows - 1, zeros))
      || (v == 0.0 && zeros > 0 && Made(rest, highs, lows, zeros - 1))
  }

  lemma RiseFrom(r: Rated)
    requires r.rate > 0.65
    ensures r.current == 0.20 ==> High(Suggest(r.rate, r.current).value)
    ensures r.current == 0.15 ==> Low(Suggest(r.rate, r.current).value)
    ensures Suggest(r.rate, r.current).Some?
  {
    var step := Min((r.rate - 0.5) * 0.1, STEP);
    assert 0.015 <= step <= 0.02;
    RoundBetween(Min(r.current + step, MAX_WEIGHT));
  }

  lemma RoundBetween(x: real)
    ensures 0.215 <= x <= 0.22 ==> High(Round3(x))
    ensures 0.165 <= x <= 0.17 ==> Low(Round3(x))
  {
  }

  lemma MadeOneMore(ws: seq<Weight>, w: Weight, highs: nat, lows: nat, zeros: nat)
    requires Made(ws, highs, lows, zeros)
    ensures High(w.value) ==> Made(ws + [w], highs + 1, lows, zeros)
    ensures Low(w.value) ==> Made(ws + [w], highs, lows + 1, zeros)
    ensures w.value == 0.0 ==> Made(ws + [w], highs, lows, zeros + 1)
  {
    assert (ws + [w])[..|ws|] == ws;
  }

  /** What the last signal adds. */
  lemma MadeOfOne(ws: seq<Weight>, r: Rated, highs: nat, lows: nat, zeros: nat)
    requires Made(ws, highs, lows, zeros) && r.current in {0.20, 0.15}
    ensures var s := Suggest(r.rate, r.current);
            var h, l := r.rate > 0.65 && r.current == 0.20, r.rate > 0.65 && r.current == 0.15;
            Made(if s.Some? then ws + [Weight(r.name, s.value)] else ws,
                 highs + if h then 1 else 0, lows + if l then 1 else 0, zeros + if r.rate < 0.35 then 1 else 0)
  {
    SuggestedValue(r);
    if r.rate > 0.65 {
      RiseFrom(r);
    }
    if Suggest(r.rate, r.current).Some? {
      MadeOneMore(ws, Weight(r.name, Suggest(r.rate, r.current).value), highs, lows, zeros);
    }
  }

  lemma LastSignal(rs: seq<Rated>)
    requires rs != []
    ensures var before, r := rs[..|rs| - 1], rs[|rs| - 1];
            var s := Suggest(r.rate, r.current);
            && Suggestions(rs) == (if s.Some? then Suggestions(before) + [Weight(r.name, s.value)]
                                   else Suggestions(before))
            && Rises(rs, 0.20) == Rises(before, 0.20) + (if r.rate > 0.65 && r.current == 0.20 then 1 else 0)
            && Rises(rs, 0.15) == Rises(before, 0.15) + (if r.rate > 0.65 && r.current == 0.15 then 1 else 0)
            && Falls(rs) == Falls(before) + (if r.rate < 0.35 then 1 else 0)
  {
  }

  lemma {:induction false} SuggestionsAreMade(rs: seq<Rated>)
    requires forall i | 0 <= i < |rs| :: rs[i].current in {0.20, 0.15}
    ensures Made(Suggestions(rs), Rises(rs, 0.20), Rises(rs, 0.15), Falls(rs))
  {
    if rs != [] {
      var before, r := rs[..|rs| - 1], rs[|rs| - 1];
      assert forall i | 0 <= i < |before| :: before[i] == rs[i];
      SuggestionsAreMade(before);
      LastSignal(rs);
      MadeOfOne(Suggestions(before), r, Rises(before, 0.20), Rises(before, 0.15), Falls(before));
    }
  }

  lemma {:induction false} MadeTotal(ws: seq<Weight>, highs: nat, lows: nat, zeros: nat)
    requires Made(ws, highs, lows, zeros)
    ensures |ws| == highs + lows + zeros
    ensures 0.215 * highs as real + 0.165 * lows as real <= Total(ws) <= 0.22 * highs as real + 0.17 * lows as real
  {
    if ws != [] {
      var v, rest := ws[|ws| - 1].value, ws[..|ws| - 1];
      if High(v) && highs > 0 && Made(rest, highs - 1, lows, zeros) {
        MadeTotal(rest, highs - 1, lows, zeros);
      } else if Low(v) && lows > 0 && Made(rest, highs, lows - 1, zeros) {
        MadeTotal(rest, highs, lows - 1, zeros);
      } else {
        MadeTotal(rest, highs, lows, zeros - 1);
      }
    }
  }

  lemma {:induction false} MadeAt(ws: seq<Weight>, highs: nat, lows: nat, zeros: nat, i: nat)
    requires Made(ws, highs, lows, zeros) && i < |ws|
    ensures High(ws[i].value) ==> highs > 0
    ensures ws[i].value == 0.0 ==> zeros > 0
    ensures High(ws[i].value) || Low(ws[i].value) || ws[i].value == 0.0
  {
    var v, rest := ws[|ws| - 1].value, ws[..|ws| - 1];
    if i < |rest| {
      if High(v) && highs > 0 && Made(rest, highs - 1, lows, zeros) {
        MadeAt(rest, highs - 1, lows, zeros, i);
      } else if Low(v) && lows > 0 && Made(rest, highs, lows - 1, zeros) {
        MadeAt(rest, highs, lows - 1, zeros, i);
      } else {
        MadeAt(rest, highs, lows, zeros - 1, i);
      }
    }
  }

  lemma {:induction false} SomeZero(ws: seq<Weight>, highs: nat, lows: nat, zeros: nat) returns (i: nat)
    requires Made(ws, highs, lows, zeros) && zeros > 0
    ensures i < |ws| && ws[i].value == 0.0
  {
    var v, rest := ws[|ws| - 1].value, ws[..|ws| - 1];
    if v == 0.0 {
      i := |ws| - 1;
    } else if High(v) && highs > 0 && Made(rest, highs - 1, lows, zeros) {
      i := SomeZero(rest, highs - 1, lows, zeros);
    } else {
      i := SomeZero(rest, highs, lows - 1, zeros);
    }
  }

  /** Enough suggestions of like size: each keeps its share. */
  lemma EnoughFit(v: real, total: real, highs: nat, lows: nat)
    requires highs <= 2 && lows <= 4 && (highs + lows >= 4 || (highs == 0 && lows == 3))
    requires 0.215 * highs as real + 0.165 * lows as real <= total <= 0.22 * highs as real + 0.17 * lows as real
    requires (High(v) && highs > 0) || Low(v)
    ensures Fits(v, total)
  {
    assert 0.495 <= total <= 1.12;
    assert High(v) ==> total >= 0.71;
  }

  /** Among three, one of them raised from 0.20 and one from 0.15, the largest has more than its share. */
  lemma LargestOfThree(a: real, b: real, c: real)
    requires High(a) && a >= b && Low(c)
    ensures !Fits(a, a + b + c)
  {
    assert a + b + c <= 2.0 * a + 0.17;
  }

  lemma ThreeDoNotFit(a: real, b: real, c: real)
    requires (High(a) || Low(a)) && (High(b) || Low(b)) && (High(c) || Low(c))
    requires High(a) || High(b) || High(c)
    requires Low(a) || Low(b) || Low(c)
    ensures !Fits(a, a + b + c) || !Fits(b, a + b + c) || !Fits(c, a + b + c)
  {
    var t := a + b + c;
    if Low(a) {
      if b >= c {
        LargestOfThree(b, c, a);
        assert b + c + a == t;
      } else {
        LargestOfThree(c, b, a);
        assert c + b + a == t;
      }
    } else if Low(b) {
      if a >= c {
        LargestOfThree(a, c, b);
        assert a + c + b == t;
      } else {
        LargestOfThree(c, a, b);
        assert c + a + b == t;
      }
    } else {
      if a >= b {
        LargestOfThree(a, b, c);
      } else {
        LargestOfThree(b, a, c);
        assert b + a + c == t;
      }
    }
  }

  lemma TotalOfThree(ws: seq<Weight>)
    requires |ws| == 3
    ensures Total(ws) == ws[0].value + ws[1].value + ws[2].value
  {
    TotalAppend([], ws[0]);
    TotalAppend([ws[0]], ws[1]);
    TotalAppend([ws[0], ws[1]], ws[2]);
    assert [] + [ws[0]] == [ws[0]] && [ws[0]] + [ws[1]] == [ws[0], ws[1]] && [ws[0], ws[1]] + [ws[2]] == ws;
  }

  lemma {:induction false} AllHigh(ws: seq<Weight>, highs: nat, lows: nat, zeros: nat)
    requires Made(ws, highs, lows, zeros) && forall i | 0 <= i < |ws| :: High(ws[i].value)
    ensures highs == |ws|
  {
    if ws != [] {
      var rest := ws[..|ws| - 1];
      assert High(ws[|ws| - 1].value) && forall i | 0 <= i < |rest| :: rest[i] == ws[i];
      AllHigh(rest, highs - 1, lows, zeros);
    }
  }

  lemma {:induction false} NoneHigh(ws: seq<Weight>, highs: nat, lows: nat, zeros: nat)
    requires Made(ws, highs, lows, zeros) && forall i | 0 <= i < |ws| :: !High(ws[i].value)
    ensures highs == 0
  {
    if ws != [] {
      var v, rest := ws[|ws| - 1].value, ws[..|ws| - 1];
      assert !High(v) && forall i | 0 <= i < |rest| :: rest[i] == ws[i];
      if Low(v) && lows > 0 && Made(rest, highs, lows - 1, zeros) {
        NoneHigh(rest, highs, lows - 1, zeros);
      } else {
        NoneHigh(rest, highs, lows, zeros - 1);
      }
    }
  }

  ghost predicate AllFit(ws: seq<Weight>) {
    forall i | 0 <= i < |ws| :: Fits(ws[i].value, Total(ws))
  }

  lemma ThreeMadeDoNotFit(ws: seq<Weight>, highs: nat, lows: nat)
    requires Made(ws, highs, lows, 0) && highs + lows == 3 && 0 < highs <= 2
    ensures !AllFit(ws)
  {
    MadeTotal(ws, highs, lows, 0);
    TotalOfThree(ws);
    forall i | 0 <= i < 3 ensures High(ws[i].value) || Low(ws[i].value) {
      MadeAt(ws, highs, lows, 0, i);
    }
    if forall i | 0 <= i < |ws| :: High(ws[i].value) {
      AllHigh(ws, highs, lows, 0);
    }
    if forall i | 0 <= i < |ws| :: !High(ws[i].value) {
      NoneHigh(ws, highs, lows, 0);
    }
    ThreeDoNotFit(ws[0].value, ws[1].value, ws[2].value);
  }

  lemma MadeFitIff(ws: seq<Weight>, highs: nat, lows: nat, zeros: nat)
    requires Made(ws, highs, lows, zeros) && highs <= 2 && lows <= 4 && Total(ws) > 0.0
    ensures AllFit(ws) <==> zeros == 0 && (highs + lows >= 4 || (highs == 0 && lows == 3))
  {
    MadeTotal(ws, highs, lows, zeros);
    if zeros > 0 {
      var i := SomeZero(ws, highs, lows, zeros);
      ZeroDoesNotFit(Total(ws));
    } else if highs + lows >= 4 || (highs == 0 && lows == 3) {
      forall i | 0 <= i < |ws| ensures Fits(ws[i].value, Total(ws)) {
        MadeAt(ws, highs, lows, zeros, i);
        EnoughFit(ws[i].value, Total(ws), highs, lows);
      }
    } else if highs + lows == 3 {
      ThreeMadeDoNotFit(ws, highs, lows);
    } else if AllFit(ws) {
      FittingTotal(ws, Total(ws));
      TimesOneMonotone(0.3505 * |ws| as real, Total(ws));
    }
  }

  lemma {:induction false} RisesConcat(a: seq<Rated>, b: seq<Rated>, from: real)
    ensures Rises(a + b, from) == Rises(a, from) + Rises(b, from)
  {
    if b == [] {
      assert a + b == a;
    } else {
      assert (a + b)[..|a + b| - 1] == a + b[..|b| - 1];
      RisesConcat(a, b[..|b| - 1], from);
    }
  }

  lemma {:induction false} RisesBounded(rs: seq<Rated>, from: real)
    ensures Rises(rs, from) <= |rs|
    ensures (forall i | 0 <= i < |rs| :: rs[i].current != from) ==> Rises(rs, from) == 0
  {
    if rs != [] {
      var before := rs[..|rs| - 1];
      assert forall i | 0 <= i < |before| :: before[i] == rs[i];
      RisesBounded(before, from);
    }
  }

  lemma DefaultRises(rs: seq<Rated>)
    requires FromDefaults(rs)
    ensures Rises(rs, 0.20) <= 2 && Rises(rs, 0.15) <= 4
    ensures forall i | 0 <= i < |rs| :: rs[i].current in {0.20, 0.15}
  {
    assert rs == rs[..2] + rs[2..];
    assert forall i | 0 <= i < 2 :: rs[..2][i].current == 0.20;
    assert forall i | 0 <= i < 4 :: rs[2..][i] == rs[i + 2] && rs[2..][i].current == 0.15;
    RisesConcat(rs[..2], rs[2..], 0.20);
    RisesConcat(rs[..2], rs[2..], 0.15);
    RisesBounded(rs[..2], 0.20);
    RisesBounded(rs[..2], 0.15);
    RisesBounded(rs[2..], 0.20);
    RisesBounded(rs[2..], 0.15);
  }

  lemma NeverNearOne(total: real, highs: nat, lows: nat)
    requires highs <= 2 && lows <= 4
    requires 0.215 * highs as real + 0.165 * lows as real <= total <= 0.22 * highs as real + 0.17 * lows as real
    ensures Abs(total - 1.0) > 0.01
  {
    if highs + lows <= 5 {
      assert total <= 0.95;
    }
  }

  /** For the weights the function is called with: the weights of a non-empty answer are all within MIN_WEIGHT and
      MAX_WEIGHT if and only if no signal falls and at least four rise, or exactly three do and all of them from
      0.15. */
  lemma DefaultsStayInBoundsIff(rs: seq<Rated>)
    requires FromDefaults(rs) && Adjusted(rs).Suggested? && Adjusted(rs).weights != []
    ensures var out, highs, lows := Adjusted(rs).weights, Rises(rs, 0.20), Rises(rs, 0.15);
            (forall i | 0 <= i < |out| :: InBounds(out[i].value))
            <==> Falls(rs) == 0 && (highs + lows >= 4 || (highs == 0 && lows == 3))
  {
    var ws, highs, lows, zeros := Suggestions(rs), Rises(rs, 0.20), Rises(rs, 0.15), Falls(rs);
    DefaultRises(rs);
    SuggestionsAreMade(rs);
    MadeTotal(ws, highs, lows, zeros);
    NeverNearOne(Total(ws), highs, lows);
    BoundsSurviveIff(ws);
    MadeFitIff(ws, highs, lows, zeros);
  }
}
