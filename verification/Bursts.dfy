/** approval_anomaly_detector.py: more than five ALLOW decisions of one analyst within an hour. */
module Bursts {
  import opened Wrappers
  import opened Sorting

  const WINDOW := 3600
  const LIMIT := 5

  /** `time` is decision_time in seconds; an absent analyst_name is None. */
  datatype Decision = Decision(serverId: string, analyst: Option<string>, verdict: string, time: int)

  datatype Burst = Burst(analyst: string, count: nat, start: int)

  predicate Earlier(a: Decision, b: Decision) {
    a.time <= b.time
  }

  /** The ALLOW decisions whose analyst_name is exactly `name` (line 251). */
  function AllowsOf(decisions: seq<Decision>, name: string): seq<Decision> {
    if decisions == [] then [] else
      var rest, d := AllowsOf(decisions[..|decisions| - 1], name), decisions[|decisions| - 1];
      if d.verdict == "ALLOW" && d.analyst == Some(name) then rest + [d] else rest
  }

  /** The name an ALLOW decision is grouped under (line 249). */
  function GroupName(d: Decision): string {
    if d.analyst.None? || d.analyst.value == "" then UNNAMED else d.analyst.value
  }

  /** How many decisions fall into the closed window [lo, hi]; this knows nothing of order. */
  function InWindow(ds: seq<Decision>, lo: int, hi: int): nat {
    if ds == [] then 0 else (if lo <= ds[0].time <= hi then 1 else 0) + InWindow(ds[1..], lo, hi)
  }

  /** The load of the hour that starts at lo. */
  function HourFrom(ds: seq<Decision>, lo: int): nat {
    InWindow(ds, lo, lo + WINDOW)
  }

  /** The decisions from i on, up to the first one later than `end`. */
  function RunFrom(ds: seq<Decision>, i: nat, end: int): nat
    requires i <= |ds|
    decreases |ds| - i
  {
    if i == |ds| || ds[i].time > end then 0 else 1 + RunFrom(ds, i + 1, end)
  }

  function BurstCount(ds: seq<Decision>, i: nat): nat
    requires i < |ds|
  {
    RunFrom(ds, i, ds[i].time + WINDOW)
  }

  /** The reports made for one analyst's time-ordered decisions, from position i on. */
  function BurstsFrom(name: string, ds: seq<Decision>, i: nat): seq<Burst>
    requires i <= |ds|
    decreases |ds| - i
  {
    if i == |ds| then [] else
      (if BurstCount(ds, i) > LIMIT then [Burst(name, BurstCount(ds, i), ds[i].time)] else [])
      + BurstsFrom(name, ds, i + 1)
  }

  function ReportsFor(decisions: seq<Decision>, name: string): seq<Burst> {
    BurstsFrom(name, SortBy(AllowsOf(decisions, name), Earlier), 0)
  }

  /** The reports that name one analyst. */
  function Naming(anomalies: seq<Burst>, name: string): seq<Burst> {
    if anomalies == [] then [] else
      var rest, b := Naming(anomalies[..|anomalies| - 1], name), anomalies[|anomalies| - 1];
      if b.analyst == name then rest + [b] else rest
  }

  lemma {:induction false} NamingConcat(a: seq<Burst>, b: seq<Burst>, name: string)
    ensures Naming(a + b, name) == Naming(a, name) + Naming(b, name)
  {
    if b == [] {
      assert a + b == a;
    } else {
      NamingConcat(a, b[..|b| - 1], name);
      assert (a + b)[..|a + b| - 1] == a + b[..|b| - 1];
    }
  }

  lemma {:induction false} NamingOwn(bs: seq<Burst>, owner: string, name: string)
    requires forall b | b in bs :: b.analyst == owner
    ensures Naming(bs, name) == if name == owner then bs else []
  {
    if bs != [] {
      NamingOwn(bs[..|bs| - 1], owner, name);
      assert bs == bs[..|bs| - 1] + [bs[|bs| - 1]];
    }
  }

  lemma {:induction false} BurstsCarryTheName(name: string, ds: seq<Decision>, i: nat)
    requires i <= |ds|
    ensures forall b | b in BurstsFrom(name, ds, i) :: b.analyst == name
    decreases |ds| - i
  {
    if i < |ds| {
      BurstsCarryTheName(name, ds, i + 1);
    }
  }

  lemma {:induction false} NoAllowsOutsideTheGroups(decisions: seq<Decision>, groups: set<string>, name: string)
    requires forall d | d in decisions && d.verdict == "ALLOW" :: GroupName(d) in groups
    requires name != "" && name !in groups
    ensures AllowsOf(decisions, name) == []
  {
    if decisions != [] {
      NoAllowsOutsideTheGroups(decisions[..|decisions| - 1], groups, name);
      assert decisions[|decisions| - 1] in decisions;
    }
  }

  lemma ReportsAlone(decisions: seq<Decision>, analyst: string, name: string)
    ensures Naming(ReportsFor(decisions, analyst), name) == if name == analyst then ReportsFor(decisions, name) else []
  {
    BurstsCarryTheName(analyst, SortBy(AllowsOf(decisions, analyst), Earlier), 0);
    NamingOwn(ReportsFor(decisions, analyst), analyst, name);
  }

  /** The nested scan of lines 255-281 for one analyst, early break included. */
  method ScanAnalyst(name: string, ds: seq<Decision>) returns (found: seq<Burst>)
    ensures found == BurstsFrom(name, ds, 0)
  {
    found := [];
    var i := 0;
    while i < |ds|
      invariant i <= |ds|
      invariant found + BurstsFrom(name, ds, i) == BurstsFrom(name, ds, 0)
    {
      var windowEnd := ds[i].time + WINDOW;
      var burst := [ds[i]];
      var j := i + 1;
      while j < |ds|
        invariant i < j <= |ds|
        invariant |burst| + RunFrom(ds, j, windowEnd) == BurstCount(ds, i)
      {
        if ds[j].time <= windowEnd {
          burst := burst + [ds[j]];
        } else {
          break;
        }
        j := j + 1;
      }
      ghost var rest := BurstsFrom(name, ds, i + 1);
      if |burst| > LIMIT {
        assert BurstsFrom(name, ds, i) == [Burst(name, |burst|, ds[i].time)] + rest;
        assert found + BurstsFrom(name, ds, i) == (found + [Burst(name, |burst|, ds[i].time)]) + rest;
        found := found + [Burst(name, |burst|, ds[i].time)];
      } else {
        assert BurstsFrom(name, ds, i) == rest;
      }
      i := i + 1;
    }
  }

  method FilterAllows(decisions: seq<Decision>, analyst: string) returns (own: seq<Decision>)
    ensures own == AllowsOf(decisions, analyst)
  {
    own := [];
    for n := 0 to |decisions|
      invariant own == AllowsOf(decisions[..n], analyst)
    {
      assert decisions[..n + 1][..n] == decisions[..n];
      if decisions[n].verdict == "ALLOW" && decisions[n].analyst == Some(analyst) {
        own := own + [decisions[n]];
      }
    }
    assert decisions[..|decisions|] == decisions;
  }

  method ReportAnalyst(decisions: seq<Decision>, analyst: string) returns (found: seq<Burst>)
    ensures found == ReportsFor(decisions, analyst)
  {
    var own := FilterAllows(decisions, analyst);
    found := ScanAnalyst(analyst, SortBy(own, Earlier));
  }

  /** The reports are those of the named analysts, each with exactly their own. */
  ghost predicate ReportsOf(anomalies: seq<Burst>, decisions: seq<Decision>, names: set<string>) {
    forall name :: Naming(anomalies, name) == if name in names then ReportsFor(decisions, name) else []
  }

  /** Every name but the empty one gets its own reports, and nothing else is reported. */
  ghost predicate NamedReports(anomalies: seq<Burst>, decisions: seq<Decision>) {
    forall name :: Naming(anomalies, name) == if name == "" then [] else ReportsFor(decisions, name)
  }

  lemma OneFewer(groups: set<string>, todo: set<string>, analyst: string)
    requires analyst in todo && todo <= groups
    ensures groups - (todo - {analyst}) == groups - todo + {analyst}
  {
  }

  lemma NothingYet(decisions: seq<Decision>)
    ensures ReportsOf([], decisions, {})
  {
  }

  lemma OneMoreAnalyst(anomalies: seq<Burst>, decisions: seq<Decision>, names: set<string>, analyst: string)
    requires ReportsOf(anomalies, decisions, names) && analyst !in names
    ensures ReportsOf(anomalies + ReportsFor(decisions, analyst), decisions, names + {analyst})
  {
    forall name ensures Naming(anomalies + ReportsFor(decisions, analyst), name)
                     == if name in names + {analyst} then ReportsFor(decisions, name) else [] {
      NamingConcat(anomalies, ReportsFor(decisions, analyst), name);
      ReportsAlone(decisions, analyst, name);
    }
  }

  /** Whatever order the set of analysts is visited in, each named analyst gets exactly their own
      reports, and the empty name gets none. */
  method DetectBulkApprovalBursts(decisions: seq<Decision>) returns (anomalies: seq<Burst>)
    ensures NamedReports(anomalies, decisions)
  {
    var groups := Groups(decisions);
    var todo := groups;
    NothingYet(decisions);
    assert groups - groups == {};
    anomalies := [];
    while todo != {}
      invariant todo <= groups && ReportsOf(anomalies, decisions, groups - todo)
      decreases |todo|
    {
      var analyst :| analyst in todo;
      var found := ReportAnalyst(decisions, analyst);
      OneMoreAnalyst(anomalies, decisions, groups - todo, analyst);
      anomalies := anomalies + found;
      OneFewer(groups, todo, analyst);
      todo := todo - {analyst};
    }
    assert groups - {} == groups;
    OthersAreEmpty(anomalies, decisions);
  }

  function Groups(decisions: seq<Decision>): set<string> {
    set d | d in decisions && d.verdict == "ALLOW" :: GroupName(d)
  }

  lemma OthersAreEmpty(anomalies: seq<Burst>, decisions: seq<Decision>)
    requires ReportsOf(anomalies, decisions, Groups(decisions))
    ensures NamedReports(anomalies, decisions)
  {
    forall name | name != "" && name !in Groups(decisions) ensures ReportsFor(decisions, name) == [] {
      NoAllowsOutsideTheGroups(decisions, Groups(decisions), name);
    }
  }

  // ----- the reports measure every window -----

  lemma {:induction false} WindowOfInsert(x: Decision, ds: seq<Decision>, lo: int, hi: int)
    ensures InWindow(Insert(x, ds, Earlier), lo, hi) == InWindow([x] + ds, lo, hi)
  {
    if ds == [] || Earlier(x, ds[0]) {
    } else {
      WindowOfInsert(x, ds[1..], lo, hi);
      assert ([x] + ds)[1..] == ds && ([x] + ds[1..])[1..] == ds[1..];
    }
  }

  lemma {:induction false} WindowOfSort(ds: seq<Decision>, lo: int, hi: int)
    ensures InWindow(SortBy(ds, Earlier), lo, hi) == InWindow(ds, lo, hi)
  {
    if ds != [] {
      WindowOfSort(ds[1..], lo, hi);
      WindowOfInsert(ds[0], SortBy(ds[1..], Earlier), lo, hi);
      assert ([ds[0]] + SortBy(ds[1..], Earlier))[1..] == SortBy(ds[1..], Earlier);
    }
  }

  lemma {:induction false} NothingBefore(ds: seq<Decision>, i: nat, lo: int, hi: int)
    requires i <= |ds| && forall k | 0 <= k < i :: ds[k].time < lo
    ensures InWindow(ds, lo, hi) == InWindow(ds[i..], lo, hi)
  {
    if i > 0 {
      NothingBefore(ds[1..], i - 1, lo, hi);
      assert ds[1..][i - 1..] == ds[i..];
    }
  }

  lemma {:induction false} NothingLater(ds: seq<Decision>, lo: int, hi: int)
    requires forall k | 0 <= k < |ds| :: ds[k].time > hi
    ensures InWindow(ds, lo, hi) == 0
  {
    if ds != [] {
      NothingLater(ds[1..], lo, hi);
    }
  }

  /** Breaking at the first later decision loses nothing when the decisions are ordered. */
  lemma {:induction false} EarlyBreakLosesNothing(ds: seq<Decision>, i: nat, lo: int, hi: int)
    requires SortedBy(ds, Earlier) && i <= |ds|
    requires forall k | i <= k < |ds| :: lo <= ds[k].time
    ensures RunFrom(ds, i, hi) == InWindow(ds[i..], lo, hi)
    decreases |ds| - i
  {
    if i < |ds| {
      if ds[i].time > hi {
        forall k | i <= k < |ds| ensures ds[k].time > hi {
          assert k > i ==> Earlier(ds[i], ds[k]);
        }
        NothingLater(ds[i..], lo, hi);
      } else {
        EarlyBreakLosesNothing(ds, i + 1, lo, hi);
        assert ds[i..][1..] == ds[i + 1..];
      }
    }
  }

  lemma {:induction false} LaterEndCountsMore(ds: seq<Decision>, i: nat, end: int, end': int)
    requires i <= |ds| && end <= end'
    ensures RunFrom(ds, i, end) <= RunFrom(ds, i, end')
    decreases |ds| - i
  {
    if i < |ds| && ds[i].time <= end {
      LaterEndCountsMore(ds, i + 1, end, end');
    }
  }

  lemma {:induction false} DroppingCountsLess(ds: seq<Decision>, i: nat, lo: int, hi: int)
    requires i <= |ds|
    ensures InWindow(ds[i..], lo, hi) <= InWindow(ds, lo, hi)
  {
    if i > 0 {
      DroppingCountsLess(ds[1..], i - 1, lo, hi);
      assert ds[1..][i - 1..] == ds[i..];
    }
  }

  /** A burst count never exceeds what its own window holds. */
  lemma BurstFitsItsWindow(ds: seq<Decision>, i: nat)
    requires SortedBy(ds, Earlier) && i < |ds|
    ensures BurstCount(ds, i) <= HourFrom(ds, ds[i].time)
  {
    forall k | i <= k < |ds| ensures ds[i].time <= ds[k].time {
      assert k > i ==> Earlier(ds[i], ds[k]);
    }
    EarlyBreakLosesNothing(ds, i, ds[i].time, ds[i].time + WINDOW);
    DroppingCountsLess(ds, i, ds[i].time, ds[i].time + WINDOW);
  }

  /** Every non-empty window is matched or beaten by the burst that starts at its first decision. */
  lemma WindowFitsABurst(ds: seq<Decision>, lo: int) returns (i: nat)
    requires SortedBy(ds, Earlier) && HourFrom(ds, lo) > 0
    ensures i < |ds| && HourFrom(ds, lo) <= BurstCount(ds, i)
  {
    i := 0;
    while i < |ds| && ds[i].time < lo
      invariant i <= |ds| && forall k | 0 <= k < i :: ds[k].time < lo
    {
      i := i + 1;
    }
    NothingBefore(ds, i, lo, lo + WINDOW);
    if i < |ds| {
      forall k | i <= k < |ds| ensures lo <= ds[k].time {
        assert k > i ==> Earlier(ds[i], ds[k]);
      }
      EarlyBreakLosesNothing(ds, i, lo, lo + WINDOW);
      LaterEndCountsMore(ds, i, lo + WINDOW, ds[i].time + WINDOW);
    }
  }

  lemma {:induction false} LongRunsAreReported(name: string, ds: seq<Decision>, i: nat, at: nat)
    requires i <= at < |ds| && BurstCount(ds, at) > LIMIT
    ensures Burst(name, BurstCount(ds, at), ds[at].time) in BurstsFrom(name, ds, i)
    decreases |ds| - i
  {
    if i < at {
      LongRunsAreReported(name, ds, i + 1, at);
    }
  }

  lemma {:induction false} ReportsAreLongRuns(name: string, ds: seq<Decision>, i: nat, b: Burst) returns (at: nat)
    requires i <= |ds| && b in BurstsFrom(name, ds, i)
    ensures at < |ds| && b == Burst(name, BurstCount(ds, at), ds[at].time) && b.count > LIMIT
    decreases |ds| - i
  {
    if b in BurstsFrom(name, ds, i + 1) {
      at := ReportsAreLongRuns(name, ds, i + 1, b);
    } else {
      at := i;
    }
  }

  lemma OrderedAllows(decisions: seq<Decision>, name: string)
    ensures SortedBy(SortBy(AllowsOf(decisions, name), Earlier), Earlier)
  {
    SortByCorrect(AllowsOf(decisions, name), Earlier);
  }

  lemma {:induction false} WindowOneMore(ds: seq<Decision>, d: Decision, lo: int, hi: int)
    ensures InWindow(ds + [d], lo, hi) == InWindow(ds, lo, hi) + if lo <= d.time <= hi then 1 else 0
  {
    if ds == [] {
      assert ds + [d] == [d];
    } else {
      assert (ds + [d])[1..] == ds[1..] + [d];
      WindowOneMore(ds[1..], d, lo, hi);
    }
  }

  /** The ALLOW decisions of exactly that analyst in the closed hour from lo on, in seconds. */
  ghost function AllowedAt(decisions: seq<Decision>, name: string, lo: int): set<nat> {
    set i: nat | i < |decisions| && decisions[i].verdict == "ALLOW" && decisions[i].analyst == Some(name)
                 && lo <= decisions[i].time <= lo + 3600
  }

  lemma OneMoreAllowed(decisions: seq<Decision>, name: string, lo: int)
    requires decisions != []
    ensures var n := |decisions| - 1;
            |AllowedAt(decisions, name, lo)|
            == |AllowedAt(decisions[..n], name, lo)|
               + if decisions[n].verdict == "ALLOW" && decisions[n].analyst == Some(name)
                    && lo <= decisions[n].time <= lo + 3600 then 1 else 0
  {
    var n := |decisions| - 1;
    var d := decisions[n];
    assert AllowedAt(decisions, name, lo) == AllowedAt(decisions[..n], name, lo)
        + if d.verdict == "ALLOW" && d.analyst == Some(name) && lo <= d.time <= lo + 3600 then {n} else {};
  }

  lemma {:induction false} HourCounts(decisions: seq<Decision>, name: string, lo: int)
    ensures HourFrom(AllowsOf(decisions, name), lo) == |AllowedAt(decisions, name, lo)|
  {
    if decisions != [] {
      var n := |decisions| - 1;
      var d := decisions[n];
      HourCounts(decisions[..n], name, lo);
      WindowOneMore(AllowsOf(decisions[..n], name), d, lo, lo + WINDOW);
      OneMoreAllowed(decisions, name, lo);
    }
  }

  lemma {:induction false} AllowsAreDecisions(decisions: seq<Decision>, name: string)
    ensures forall d | d in AllowsOf(decisions, name) ::
              d in decisions && d.verdict == "ALLOW" && d.analyst == Some(name)
  {
    if decisions != [] {
      AllowsAreDecisions(decisions[..|decisions| - 1], name);
    }
  }

  ghost predicate AllowsAt(decisions: seq<Decision>, name: string, time: int) {
    exists d :: d in decisions && d.verdict == "ALLOW" && d.analyst == Some(name) && d.time == time
  }

  lemma SortedAllow(decisions: seq<Decision>, name: string, at: nat)
    requires at < |SortBy(AllowsOf(decisions, name), Earlier)|
    ensures AllowsAt(decisions, name, SortBy(AllowsOf(decisions, name), Earlier)[at].time)
  {
    var own := AllowsOf(decisions, name);
    var ds := SortBy(own, Earlier);
    SortByCorrect(own, Earlier);
    AllowsAreDecisions(decisions, name);
    assert ds[at] in multiset(ds) && ds[at] in multiset(own);
  }

  /** A reported count is really reached, in the hour from window_start on, which is the time of one of the analyst's
      ALLOW decisions. */
  lemma ReportedBurstsAreReal(decisions: seq<Decision>, name: string, b: Burst)
    requires b in ReportsFor(decisions, name)
    ensures b.analyst == name && 5 < b.count <= |AllowedAt(decisions, name, b.start)|
    ensures AllowsAt(decisions, name, b.start)
  {
    HourCounts(decisions, name, b.start);
    var own := AllowsOf(decisions, name);
    var ds := SortBy(own, Earlier);
    OrderedAllows(decisions, name);
    var at := ReportsAreLongRuns(name, ds, 0, b);
    BurstFitsItsWindow(ds, at);
    WindowOfSort(own, b.start, b.start + WINDOW);
    SortedAllow(decisions, name, at);
  }

  /** Every window of an hour, wherever it starts, is covered by a report at least as large. */
  lemma BusyWindowsAreReported(decisions: seq<Decision>, name: string, lo: int) returns (b: Burst)
    requires |AllowedAt(decisions, name, lo)| > 5
    ensures b in ReportsFor(decisions, name) && |AllowedAt(decisions, name, lo)| <= b.count
  {
    HourCounts(decisions, name, lo);
    var own := AllowsOf(decisions, name);
    var ds := SortBy(own, Earlier);
    OrderedAllows(decisions, name);
    WindowOfSort(own, lo, lo + WINDOW);
    var at := WindowFitsABurst(ds, lo);
    LongRunsAreReported(name, ds, 0, at);
    b := Burst(name, BurstCount(ds, at), ds[at].time);
  }

  ghost predicate HasBusyWindow(ds: seq<Decision>) {
    exists lo: int :: HourFrom(ds, lo) > LIMIT
  }

  /** Some closed hour holds more than 5 of the analyst's ALLOW decisions. */
  ghost predicate Busy(decisions: seq<Decision>, name: string) {
    exists lo: int :: |AllowedAt(decisions, name, lo)| > 5
  }

  ghost predicate IsLargestWindow(decisions: seq<Decision>, name: string, count: nat) {
    && (exists lo: int :: |AllowedAt(decisions, name, lo)| == count)
    && (forall lo: int :: |AllowedAt(decisions, name, lo)| <= count)
  }

  lemma BusyIff(decisions: seq<Decision>, name: string)
    ensures Busy(decisions, name) <==> HasBusyWindow(AllowsOf(decisions, name))
  {
    forall lo: int ensures HourFrom(AllowsOf(decisions, name), lo) == |AllowedAt(decisions, name, lo)| {
      HourCounts(decisions, name, lo);
    }
  }

  /** For a named analyst: a report exists exactly when some hour is busy. */
  lemma ReportedIffBusy(decisions: seq<Decision>, anomalies: seq<Burst>, name: string)
    requires NamedReports(anomalies, decisions)
    ensures Naming(anomalies, name) != [] <==> name != "" && Busy(decisions, name)
  {
    if name != "" && Busy(decisions, name) {
      var lo: int :| |AllowedAt(decisions, name, lo)| > 5;
      var b := BusyWindowsAreReported(decisions, name, lo);
    }
    if Naming(anomalies, name) != [] {
      ReportedBurstsAreReal(decisions, name, Naming(anomalies, name)[0]);
    }
  }

  lemma {:induction false} LargestOf(bs: seq<Burst>) returns (best: Burst)
    requires bs != []
    ensures best in bs && forall b | b in bs :: b.count <= best.count
  {
    if |bs| == 1 {
      best := bs[0];
    } else {
      best := LargestOf(bs[1..]);
      if bs[0].count > best.count {
        best := bs[0];
      }
      assert bs == [bs[0]] + bs[1..];
    }
  }

  /** The largest reported burst_count is the true maximum over all windows of an hour. */
  lemma LargestBurstIsTheMaximum(decisions: seq<Decision>, name: string) returns (best: Burst)
    requires ReportsFor(decisions, name) != []
    ensures best in ReportsFor(decisions, name)
    ensures forall b | b in ReportsFor(decisions, name) :: b.count <= best.count
    ensures IsLargestWindow(decisions, name, best.count)
  {
    best := LargestOf(ReportsFor(decisions, name));
    ReportedBurstsAreReal(decisions, name, best);
    forall lo: int ensures |AllowedAt(decisions, name, lo)| <= best.count {
      if |AllowedAt(decisions, name, lo)| > 5 {
        var b := BusyWindowsAreReported(decisions, name, lo);
      }
    }
    assert |AllowedAt(decisions, name, best.start)| == best.count;
  }

  // ----- the groups of line 249 -----

  const UNNAMED := "unknown"

  /** The ALLOW decisions that are grouped under a name. */
  function GroupOf(decisions: seq<Decision>, group: string): seq<Decision> {
    if decisions == [] then [] else
      var rest, d := GroupOf(decisions[..|decisions| - 1], group), decisions[|decisions| - 1];
      if d.verdict == "ALLOW" && GroupName(d) == group then rest + [d] else rest
  }

  lemma {:induction false} NamedGroup(decisions: seq<Decision>, group: string)
    requires group != UNNAMED
    ensures GroupOf(decisions, group) == if group == "" then [] else AllowsOf(decisions, group)
  {
    if decisions != [] {
      NamedGroup(decisions[..|decisions| - 1], group);
    }
  }

  lemma {:induction false} FilterFindsFewer(decisions: seq<Decision>, lo: int, hi: int)
    ensures InWindow(AllowsOf(decisions, UNNAMED), lo, hi) <= InWindow(GroupOf(decisions, UNNAMED), lo, hi)
  {
    if decisions != [] {
      var before, d := decisions[..|decisions| - 1], decisions[|decisions| - 1];
      FilterFindsFewer(before, lo, hi);
      WindowOneMore(AllowsOf(before, UNNAMED), d, lo, hi);
      WindowOneMore(GroupOf(before, UNNAMED), d, lo, hi);
    }
  }

  /** The ALLOW decisions of a group in the closed hour from lo on; those without a name form the group "unknown". */
  ghost function GroupedAt(decisions: seq<Decision>, group: string, lo: int): set<nat> {
    set i: nat | i < |decisions| && decisions[i].verdict == "ALLOW" && lo <= decisions[i].time <= lo + 3600
                 && ((decisions[i].analyst == Some(group) && group != "")
                     || (decisions[i].analyst in {None, Some("")} && group == "unknown"))
  }

  ghost predicate BusyGroup(decisions: seq<Decision>, group: string) {
    exists lo: int :: |GroupedAt(decisions, group, lo)| > 5
  }

  lemma OneMoreGrouped(decisions: seq<Decision>, group: string, lo: int)
    requires decisions != []
    ensures var n := |decisions| - 1;
            |GroupedAt(decisions, group, lo)|
            == |GroupedAt(decisions[..n], group, lo)|
               + if decisions[n].verdict == "ALLOW" && GroupName(decisions[n]) == group
                    && lo <= decisions[n].time <= lo + 3600 then 1 else 0
  {
    var n := |decisions| - 1;
    var d := decisions[n];
    assert GroupedAt(decisions, group, lo) == GroupedAt(decisions[..n], group, lo)
        + if d.verdict == "ALLOW" && GroupName(d) == group && lo <= d.time <= lo + 3600 then {n} else {};
  }

  lemma {:induction false} GroupCounts(decisions: seq<Decision>, group: string, lo: int)
    ensures HourFrom(GroupOf(decisions, group), lo) == |GroupedAt(decisions, group, lo)|
  {
    if decisions != [] {
      var n := |decisions| - 1;
      var d := decisions[n];
      GroupCounts(decisions[..n], group, lo);
      WindowOneMore(GroupOf(decisions[..n], group), d, lo, lo + WINDOW);
      OneMoreGrouped(decisions, group, lo);
    }
  }

  lemma BusyGroupIff(decisions: seq<Decision>, group: string)
    ensures BusyGroup(decisions, group) <==> HasBusyWindow(GroupOf(decisions, group))
  {
    forall lo: int ensures HourFrom(GroupOf(decisions, group), lo) == |GroupedAt(decisions, group, lo)| {
      GroupCounts(decisions, group, lo);
    }
  }

  /** A group is reported exactly when some hour of its own decisions is busy, for every group if and only if the
      unnamed decisions make no hour busy that those of an analyst called "unknown" do not. */
  lemma GroupReportedIff(decisions: seq<Decision>, anomalies: seq<Burst>, group: string)
    requires NamedReports(anomalies, decisions)
    ensures (Naming(anomalies, group) != [] <==> BusyGroup(decisions, group))
       <==> (group == "unknown" && BusyGroup(decisions, "unknown") ==> Busy(decisions, "unknown"))
  {
    BusyGroupIff(decisions, group);
    BusyIff(decisions, group);
    ReportedIffBusy(decisions, anomalies, group);
    if group != UNNAMED {
      NamedGroup(decisions, group);
      assert forall lo: int :: HourFrom([], lo) == 0;
    } else if HasBusyWindow(AllowsOf(decisions, UNNAMED)) {
      var lo: int :| HourFrom(AllowsOf(decisions, UNNAMED), lo) > LIMIT;
      FilterFindsFewer(decisions, lo, lo + WINDOW);
      assert HourFrom(GroupOf(decisions, UNNAMED), lo) > LIMIT;
    }
  }

  function Copies(d: Decision, n: nat): (ds: seq<Decision>)
    ensures |ds| == n && forall x | x in ds :: x == d
  {
    if n == 0 then [] else Copies(d, n - 1) + [d]
  }

  lemma {:induction false} GroupedCopies(d: Decision, n: nat)
    requires d.verdict == "ALLOW"
    ensures GroupOf(Copies(d, n), GroupName(d)) == Copies(d, n)
  {
    if n > 0 {
      GroupedCopies(d, n - 1);
      assert Copies(d, n)[..n - 1] == Copies(d, n - 1);
    }
  }

  lemma {:induction false} AllWithin(ds: seq<Decision>, lo: int, hi: int)
    requires forall d | d in ds :: lo <= d.time <= hi
    ensures InWindow(ds, lo, hi) == |ds|
  {
    if ds != [] {
      AllWithin(ds[1..], lo, hi);
    }
  }

  /** Six ALLOWs within an hour without a name, or under the empty one, go unreported: line 249 groups them as
      "unknown", line 251 then finds nobody of that name. */
  lemma UnnamedBurstIsMissed(analyst: Option<string>) returns (decisions: seq<Decision>)
    requires analyst == None || analyst == Some("")
    ensures BusyGroup(decisions, "unknown")
    ensures forall name | name != "" :: ReportsFor(decisions, name) == []
  {
    var d := Decision("s", analyst, "ALLOW", 0);
    decisions := Copies(d, 6);
    GroupedCopies(d, 6);
    AllWithin(decisions, 0, WINDOW);
    assert HourFrom(GroupOf(decisions, UNNAMED), 0) == 6;
    BusyGroupIff(decisions, UNNAMED);
    forall name | name != "" ensures ReportsFor(decisions, name) == [] {
      NobodyNamed(decisions, name);
    }
  }

  lemma {:induction false} NobodyNamed(decisions: seq<Decision>, name: string)
    requires forall d | d in decisions :: d.analyst != Some(name)
    ensures AllowsOf(decisions, name) == []
  {
    if decisions != [] {
      NobodyNamed(decisions[..|decisions| - 1], name);
      assert decisions[|decisions| - 1] in decisions;
    }
  }
}
