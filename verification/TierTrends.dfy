/** app_scoring_consumer_risk_tier_trend.py: per-server run-length encoding of risk tiers over time. */
module TierTrends {
  import opened Wrappers
  import opened Sequences

  datatype Tier = Critical | Danger | Low

  datatype Score = Score(serverId: string, pDanger: Option<real>, pCritical: Option<real>, scoredAt: int)

  datatype Transition = Transition(serverId: string, fromTier: Tier, toTier: Tier, changedAt: int)

  /** `_tier_from_score` */
  function TierOf(s: Score): Tier {
    if s.pCritical.Some? && s.pCritical.value >= 0.5 then Critical
    else if s.pDanger.Some? && s.pDanger.value >= 0.5 then Danger
    else Low
  }

  /** One server's scores, in the order the query returned them. */
  function OfServer(scores: seq<Score>, id: string): seq<Score> {
    if scores == [] then [] else
      var rest, s := OfServer(scores[..|scores| - 1], id), scores[|scores| - 1];
      if s.serverId == id then rest + [s] else rest
  }

  function TransitionsOf(id: string, own: seq<Score>): seq<Transition> {
    if |own| <= 1 then [] else
      var n := |own| - 1;
      var before, a, b := TransitionsOf(id, own[..n]), TierOf(own[n - 1]), TierOf(own[n]);
      if a != b then before + [Transition(id, a, b, own[n].scoredAt)] else before
  }

  function AllTransitions(ids: seq<string>, scores: seq<Score>): seq<Transition> {
    if ids == [] then [] else
      var id := ids[|ids| - 1];
      AllTransitions(ids[..|ids| - 1], scores) + TransitionsOf(id, OfServer(scores, id))
  }

  /** The keys of the grouping dictionary: server ids in order of first appearance. */
  function FirstSeen(scores: seq<Score>): seq<string> {
    if scores == [] then [] else
      var before, id := FirstSeen(scores[..|scores| - 1]), scores[|scores| - 1].serverId;
      if id in before then before else before + [id]
  }

  lemma {:induction false} FirstSeenIsDistinct(scores: seq<Score>)
    ensures Distinct(FirstSeen(scores))
    ensures forall id :: id in FirstSeen(scores) <==> OfServer(scores, id) != []
  {
    if scores != [] {
      FirstSeenIsDistinct(scores[..|scores| - 1]);
    }
  }

  method GroupByServer(scores: seq<Score>) returns (ids: seq<string>, grouped: map<string, seq<Score>>)
    ensures ids == FirstSeen(scores)
    ensures forall id | id in ids :: id in grouped && grouped[id] == OfServer(scores, id)
  {
    ids, grouped := [], map[];
    for i := 0 to |scores|
      invariant ids == FirstSeen(scores[..i])
      invariant forall id :: id in grouped <==> id in ids
      invariant forall id :: OfServer(scores[..i], id) == if id in grouped then grouped[id] else []
    {
      assert scores[..i + 1][..i] == scores[..i];
      var s := scores[i];
      if s.serverId !in grouped {
        ids, grouped := ids + [s.serverId], grouped[s.serverId := []];
      }
      grouped := grouped[s.serverId := grouped[s.serverId] + [s]];
    }
    assert scores[..|scores|] == scores;
  }

  lemma OneMoreServer(rows: seq<Transition>, ids: seq<string>, i: nat, scores: seq<Score>)
    requires i < |ids|
    ensures rows + AllTransitions(ids[..i + 1], scores)
         == rows + AllTransitions(ids[..i], scores) + TransitionsOf(ids[i], OfServer(scores, ids[i]))
  {
    assert ids[..i + 1][..i] == ids[..i];
  }

  /** The table risk_tier_trends; running the consumer only ever appends to it. */
  class TrendTable {
    var rows: seq<Transition>

    constructor ()
      ensures rows == []
    {
      rows := [];
    }

    method InsertServer(id: string, own: seq<Score>)
      modifies this
      ensures rows == old(rows) + TransitionsOf(id, own)
    {
      var previous: Option<Tier> := None;
      for i := 0 to |own|
        invariant previous == if i == 0 then None else Some(TierOf(own[i - 1]))
        invariant rows == old(rows) + TransitionsOf(id, own[..i])
      {
        assert own[..i + 1][..i] == own[..i];
        var current := TierOf(own[i]);
        if previous.Some? && current != previous.value {
          rows := rows + [Transition(id, previous.value, current, own[i].scoredAt)];
        }
        previous := Some(current);
      }
      assert own[..|own|] == own;
    }

    method ComputeRiskTierTrends(scores: seq<Score>)
      modifies this
      ensures rows == old(rows) + AllTransitions(FirstSeen(scores), scores)
    {
      var ids, grouped := GroupByServer(scores);
      for i := 0 to |ids|
        invariant rows == old(rows) + AllTransitions(ids[..i], scores)
      {
        assert ids[i] in ids;
        OneMoreServer(old(rows), ids, i, scores);
        InsertServer(ids[i], grouped[ids[i]]);
      }
      assert ids[..|ids|] == ids;
    }
  }

  // ----- the groups -----

  /** A server's scores come in the order of the rows, ... */
  lemma {:induction false} OfServerConcat(a: seq<Score>, b: seq<Score>, id: string)
    ensures OfServer(a + b, id) == OfServer(a, id) + OfServer(b, id)
  {
    if b == [] {
      assert a + b == a;
    } else {
      OfServerConcat(a, b[..|b| - 1], id);
      assert (a + b)[..|a + b| - 1] == a + b[..|b| - 1];
    }
  }

  /** ... and are exactly its own. */
  lemma {:induction false} OwnRows(a: seq<Score>, id: string)
    ensures forall s :: s in OfServer(a, id) <==> s in a && s.serverId == id
  {
    if a != [] {
      OwnRows(a[..|a| - 1], id);
      assert a == a[..|a| - 1] + [a[|a| - 1]];
    }
  }

  /** More scores add servers at the end. */
  lemma {:induction false} FirstSeenGrows(a: seq<Score>, b: seq<Score>)
    ensures FirstSeen(a) <= FirstSeen(a + b)
  {
    if b == [] {
      assert a + b == a;
    } else {
      FirstSeenGrows(a, b[..|b| - 1]);
      assert (a + b)[..|a + b| - 1] == a + b[..|b| - 1];
    }
  }

  // ----- one server's log -----

  /** The rows of one server. */
  function LogOf(rows: seq<Transition>, id: string): seq<Transition> {
    if rows == [] then [] else
      var rest, t := LogOf(rows[..|rows| - 1], id), rows[|rows| - 1];
      if t.serverId == id then rest + [t] else rest
  }

  lemma {:induction false} LogOfConcat(a: seq<Transition>, b: seq<Transition>, id: string)
    ensures LogOf(a + b, id) == LogOf(a, id) + LogOf(b, id)
  {
    if b == [] {
      assert a + b == a;
    } else {
      LogOfConcat(a, b[..|b| - 1], id);
      assert (a + b)[..|a + b| - 1] == a + b[..|b| - 1];
    }
  }

  lemma {:induction false} LogOfOne(owner: string, own: seq<Score>, id: string)
    ensures LogOf(TransitionsOf(owner, own), id) == if id == owner then TransitionsOf(owner, own) else []
  {
    if |own| > 1 {
      LogOfOne(owner, own[..|own| - 1], id);
      var ts := TransitionsOf(owner, own);
      assert ts == TransitionsOf(owner, own[..|own| - 1])
             || ts[..|ts| - 1] == TransitionsOf(owner, own[..|own| - 1]);
    }
  }

  lemma LastOfDistinct(ids: seq<string>, id: string)
    requires Distinct(ids) && ids != []
    ensures Distinct(ids[..|ids| - 1]) && ids[|ids| - 1] !in ids[..|ids| - 1]
    ensures id in ids <==> id in ids[..|ids| - 1] || id == ids[|ids| - 1]
  {
    assert ids == ids[..|ids| - 1] + [ids[|ids| - 1]];
  }

  lemma {:induction false} LogOfAll(ids: seq<string>, scores: seq<Score>, id: string)
    requires Distinct(ids)
    ensures LogOf(AllTransitions(ids, scores), id) == if id in ids then TransitionsOf(id, OfServer(scores, id)) else []
  {
    if ids != [] {
      var ids', last := ids[..|ids| - 1], ids[|ids| - 1];
      LogOfAll(ids', scores, id);
      LogOfConcat(AllTransitions(ids', scores), TransitionsOf(last, OfServer(scores, last)), id);
      LogOfOne(last, OfServer(scores, last), id);
      LastOfDistinct(ids, id);
    }
  }

  /** What one run inserts for a server is a function of that server's own scores: how the scores of other
      servers interleave with them does not matter. */
  lemma EachServerOnItsOwn(scores: seq<Score>, id: string)
    ensures LogOf(AllTransitions(FirstSeen(scores), scores), id) == TransitionsOf(id, OfServer(scores, id))
  {
    FirstSeenIsDistinct(scores);
    LogOfAll(FirstSeen(scores), scores, id);
  }

  // ----- the encoding -----

  /** No transition stands still, and each starts where the one before it ended. */
  ghost predicate IsChain(ts: seq<Transition>) {
    && (forall i | 0 <= i < |ts| :: ts[i].fromTier != ts[i].toTier)
    && (forall i | 0 < i < |ts| :: ts[i - 1].toTier == ts[i].fromTier)
  }

  lemma {:induction false} TransitionsChain(id: string, own: seq<Score>)
    ensures IsChain(TransitionsOf(id, own))
    ensures own != [] ==>
              var ts := TransitionsOf(id, own);
              if ts == [] then TierOf(own[0]) == TierOf(own[|own| - 1])
              else ts[0].fromTier == TierOf(own[0]) && ts[|ts| - 1].toTier == TierOf(own[|own| - 1])
  {
    if |own| > 1 {
      TransitionsChain(id, own[..|own| - 1]);
    }
  }

  ghost predicate InTimeOrder(own: seq<Score>) {
    forall i, j | 0 <= i < j < |own| :: own[i].scoredAt <= own[j].scoredAt
  }

  /** The tier at a time, read back from the first tier and the log. */
  function Replay(first: Tier, ts: seq<Transition>, time: int): Tier {
    if ts == [] then first
    else if ts[|ts| - 1].changedAt <= time then ts[|ts| - 1].toTier
    else Replay(first, ts[..|ts| - 1], time)
  }

  /** After the last score the log gives the last tier; before it, the last score might as well be absent. */
  lemma ReplayLast(id: string, own: seq<Score>, time: int)
    requires own != [] && InTimeOrder(own)
    ensures time >= own[|own| - 1].scoredAt ==>
              Replay(TierOf(own[0]), TransitionsOf(id, own), time) == TierOf(own[|own| - 1])
    ensures time < own[|own| - 1].scoredAt && |own| > 1 ==>
              var before := TransitionsOf(id, own[..|own| - 1]);
              Replay(TierOf(own[0]), TransitionsOf(id, own), time) == Replay(TierOf(own[0]), before, time)
  {
    var n, ts := |own| - 1, TransitionsOf(id, own);
    TransitionsChain(id, own);
    if |own| > 1 {
      var before := TransitionsOf(id, own[..n]);
      assert ts == before || (|ts| > 0 && ts[..|ts| - 1] == before && ts[|ts| - 1].changedAt == own[n].scoredAt);
    }
    TimesBounded(id, own);
  }

  lemma {:induction false} TimesBounded(id: string, own: seq<Score>)
    requires InTimeOrder(own)
    ensures forall t | t in TransitionsOf(id, own) :: own != [] && t.changedAt <= own[|own| - 1].scoredAt
  {
    if |own| > 1 {
      TimesBounded(id, own[..|own| - 1]);
    }
  }

  /** Scores taken at the same instant agree on the tier. */
  ghost predicate TiesAgree(own: seq<Score>) {
    forall i, j | 0 <= i < j < |own| :: own[i].scoredAt == own[j].scoredAt ==> TierOf(own[i]) == TierOf(own[j])
  }

  ghost predicate Rebuilt(id: string, own: seq<Score>, i: nat)
    requires i < |own|
  {
    Replay(TierOf(own[0]), TransitionsOf(id, own), own[i].scoredAt) == TierOf(own[i])
  }

  lemma {:induction false} RebuiltAt(id: string, own: seq<Score>, i: nat)
    requires InTimeOrder(own) && TiesAgree(own) && i < |own|
    ensures Rebuilt(id, own, i)
  {
    var n := |own| - 1;
    ReplayLast(id, own, own[i].scoredAt);
    if i < n && own[i].scoredAt < own[n].scoredAt {
      RebuiltAt(id, own[..n], i);
    }
  }

  /** The log rebuilds the tier of every score exactly when no two scores of the server carry the same
      timestamp and different tiers: the table records when, not which score. */
  lemma LogRebuildsTiersIff(id: string, own: seq<Score>)
    requires InTimeOrder(own)
    ensures (forall i | 0 <= i < |own| :: Rebuilt(id, own, i)) <==> TiesAgree(own)
  {
    if TiesAgree(own) {
      forall i | 0 <= i < |own| ensures Rebuilt(id, own, i) {
        RebuiltAt(id, own, i);
      }
    }
    if forall i | 0 <= i < |own| :: Rebuilt(id, own, i) {
      forall i, j | 0 <= i < j < |own| && own[i].scoredAt == own[j].scoredAt ensures TierOf(own[i]) == TierOf(own[j]) {
        assert Rebuilt(id, own, i) && Rebuilt(id, own, j);
      }
    }
  }

  /** Two scores of one instant with different tiers: the earlier one is not rebuilt. */
  lemma TieLosesATier(id: string, time: int)
    ensures var own := [Score(id, None, Some(1.0), time), Score(id, None, None, time)];
            InTimeOrder(own) && TransitionsOf(id, own) == [Transition(id, Critical, Low, time)] && !Rebuilt(id, own, 0)
  {
    var own := [Score(id, None, Some(1.0), time), Score(id, None, None, time)];
    assert TransitionsOf(id, own[..1]) == [];
  }

  // ----- what the log keeps in any case -----

  function TiersOf(own: seq<Score>): (ts: seq<Tier>)
    ensures |ts| == |own| && forall i | 0 <= i < |own| :: ts[i] == TierOf(own[i])
  {
    seq(|own|, i requires 0 <= i < |own| => TierOf(own[i]))
  }

  function ToTiers(ts: seq<Transition>): seq<Tier> {
    if ts == [] then [] else ToTiers(ts[..|ts| - 1]) + [ts[|ts| - 1].toTier]
  }

  /** Every run of equal tiers taken as one. */
  function Collapse(tiers: seq<Tier>): seq<Tier> {
    if |tiers| <= 1 then tiers else
      var n := |tiers| - 1;
      if tiers[n] == tiers[n - 1] then Collapse(tiers[..n]) else Collapse(tiers[..n]) + [tiers[n]]
  }

  lemma ToTiersOneMore(ts: seq<Transition>, t: Transition)
    ensures ToTiers(ts + [t]) == ToTiers(ts) + [t.toTier]
  {
    assert (ts + [t])[..|ts|] == ts;
  }

  /** Whatever the timestamps, the first tier followed by the logged ones is the collapsed tier sequence. */
  lemma {:induction false} LogIsTheCollapse(id: string, own: seq<Score>)
    requires own != []
    ensures [TierOf(own[0])] + ToTiers(TransitionsOf(id, own)) == Collapse(TiersOf(own))
  {
    if |own| > 1 {
      var n := |own| - 1;
      LogIsTheCollapse(id, own[..n]);
      assert TiersOf(own)[..n] == TiersOf(own[..n]);
      ToTiersOneMore(TransitionsOf(id, own[..n]), Transition(id, TierOf(own[n - 1]), TierOf(own[n]), own[n].scoredAt));
    }
  }

  lemma {:induction false} CollapseKeepsTiers(tiers: seq<Tier>, t: Tier)
    ensures t in Collapse(tiers) <==> t in tiers
  {
    if |tiers| > 1 {
      var n := |tiers| - 1;
      CollapseKeepsTiers(tiers[..n], t);
      assert tiers == tiers[..n] + [tiers[n]];
      assert tiers[n - 1] in tiers[..n];
    }
  }

  predicate AtLeastHalf(p: Option<real>) {
    p.Some? && p.value >= 0.5
  }

  /** The first tier and the logged ones show critical exactly when some score is critical with probability 0.5 or
      more, danger exactly when some other score is dangerous with that probability, and low for the rest. */
  lemma WhatIsLogged(id: string, own: seq<Score>)
    requires own != []
    ensures var tiers := [TierOf(own[0])] + ToTiers(TransitionsOf(id, own));
            && (Critical in tiers <==> exists s :: s in own && AtLeastHalf(s.pCritical))
            && (Danger in tiers <==> exists s :: s in own && !AtLeastHalf(s.pCritical) && AtLeastHalf(s.pDanger))
            && (Low in tiers <==> exists s :: s in own && !AtLeastHalf(s.pCritical) && !AtLeastHalf(s.pDanger))
  {
    LogIsTheCollapse(id, own);
    forall t: Tier ensures t in Collapse(TiersOf(own)) <==> exists s :: s in own && TierOf(s) == t {
      CollapseKeepsTiers(TiersOf(own), t);
      if t in TiersOf(own) {
        var i :| 0 <= i < |own| && TiersOf(own)[i] == t;
        assert own[i] in own;
      }
      if s :| s in own && TierOf(s) == t {
        var i :| 0 <= i < |own| && own[i] == s;
        assert TiersOf(own)[i] == t;
      }
    }
  }

  lemma {:induction false} CollapseEnds(tiers: seq<Tier>)
    requires tiers != []
    ensures Collapse(tiers) != [] && Collapse(tiers)[|Collapse(tiers)| - 1] == tiers[|tiers| - 1]
  {
    if |tiers| > 1 {
      CollapseEnds(tiers[..|tiers| - 1]);
    }
  }

  /** Neighbours differ in the collapsed sequence ... */
  lemma {:induction false} CollapseHasNoRuns(tiers: seq<Tier>, k: nat)
    requires 0 < k < |Collapse(tiers)|
    ensures Collapse(tiers)[k - 1] != Collapse(tiers)[k]
  {
    var n := |tiers| - 1;
    if n > 0 {
      CollapseEnds(tiers[..n]);
      if k < |Collapse(tiers[..n])| {
        CollapseHasNoRuns(tiers[..n], k);
      }
    }
  }

  lemma CollapseGrows(tiers: seq<Tier>)
    requires tiers != []
    ensures Collapse(tiers[..|tiers| - 1]) <= Collapse(tiers)
  {
  }

  /** ... and every tier is found in it again at the number of its run: nothing but repetition is lost. */
  lemma {:induction false} CollapseIsARunLengthCode(tiers: seq<Tier>, i: nat)
    requires i < |tiers|
    ensures var c, run := Collapse(tiers), |Collapse(tiers[..i + 1])|;
            0 < run <= |c| && c[run - 1] == tiers[i]
  {
    var n := |tiers| - 1;
    if i == n {
      CollapseEnds(tiers);
      assert tiers[..i + 1] == tiers;
    } else {
      CollapseIsARunLengthCode(tiers[..n], i);
      assert tiers[..n][..i + 1] == tiers[..i + 1];
      CollapseGrows(tiers);
    }
  }

  // ----- running again -----

  lemma ChainsJoinIff(a: seq<Transition>, b: seq<Transition>)
    requires IsChain(a) && IsChain(b)
    ensures IsChain(a + b) <==> a == [] || b == [] || a[|a| - 1].toTier == b[0].fromTier
  {
    var all := a + b;
    assert forall i | 0 <= i < |a| :: all[i] == a[i];
    assert forall i | 0 <= i < |b| :: all[|a| + i] == b[i];
    if a == [] {
      assert all == b;
    } else if b == [] {
      assert all == a;
    } else if a[|a| - 1].toTier == b[0].fromTier {
      forall i | 0 < i < |all| ensures all[i - 1].toTier == all[i].fromTier {
        if i > |a| {
          assert all[i - 1] == b[i - 1 - |a|] && all[i] == b[i - |a|];
        }
      }
      forall i | 0 <= i < |all| ensures all[i].fromTier != all[i].toTier {
        if i >= |a| {
          assert all[i] == b[i - |a|];
        }
      }
    } else {
      assert all[|a| - 1].toTier != all[|a|].fromTier;
    }
  }

  /** Running the consumer again logs a server from the beginning, over the scores it has by then. What the table then
      holds is still a chain exactly when one of the runs logged nothing or the second starts at the tier the first
      ended with. */
  lemma RerunIsAChainIff(id: string, own: seq<Score>, later: seq<Score>)
    requires own != [] && later != []
    ensures IsChain(TransitionsOf(id, own) + TransitionsOf(id, later))
       <==> TransitionsOf(id, own) == [] || TransitionsOf(id, later) == []
            || TierOf(own[|own| - 1]) == TierOf(later[0])
  {
    TransitionsChain(id, own);
    TransitionsChain(id, later);
    ChainsJoinIff(TransitionsOf(id, own), TransitionsOf(id, later));
  }
}
