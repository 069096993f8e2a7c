/** The n largest members of a set, the shape the alert history keeps. */
module LargestKeys {
  import opened Sequences

  function Above(s: set<nat>, k: nat): set<nat> {
    set j | j in s && j > k
  }

  function Largest(n: nat, s: set<nat>): set<nat> {
    set k | k in s && |Above(s, k)| < n
  }

  lemma SubsetSize(a: set<nat>, b: set<nat>)
    requires a <= b
    ensures |a| <= |b|
  {
    assert b == a + (b - a);
  }

  lemma Upward(n: nat, s: set<nat>, k: nat, j: nat)
    requires k in Largest(n, s) && j in s && j > k
    ensures j in Largest(n, s)
  {
    SubsetSize(Above(s, j), Above(s, k));
  }

  predicate IsLeast(m: nat, s: set<nat>) {
    m in s && forall j | j in s :: m <= j
  }

  lemma {:induction false} HasLeast(s: set<nat>)
    requires s != {}
    ensures exists m :: IsLeast(m, s)
  {
    var m :| m in s;
    if s == {m} {
      assert IsLeast(m, s);
    } else {
      HasLeast(s - {m});
      var m' :| IsLeast(m', s - {m});
      forall j | j in s ensures j == m || m' <= j {
        assert j == m || j in s - {m};
      }
      assert IsLeast(if m' < m then m' else m, s);
    }
  }

  function Least(s: set<nat>): (m: nat)
    requires s != {}
    ensures IsLeast(m, s)
  {
    HasLeast(s);
    var m :| IsLeast(m, s); m
  }

  lemma SmallSetsAreKept(n: nat, s: set<nat>)
    requires |s| <= n
    ensures Largest(n, s) == s
  {
    forall k | k in s ensures |Above(s, k)| < n {
      SubsetSize(Above(s, k), s - {k});
    }
  }

  /** With more than n members the least one goes and the question is the same for the rest. */
  lemma DropMinimum(n: nat, s: set<nat>, m: nat)
    requires |s| > n && IsLeast(m, s)
    ensures Largest(n, s) == Largest(n, s - {m})
  {
    assert Above(s, m) == s - {m};
    forall k | k in s - {m} ensures Above(s, k) == Above(s - {m}, k) {
    }
  }

  lemma {:induction false} LargestSize(n: nat, s: set<nat>)
    ensures |Largest(n, s)| == if |s| <= n then |s| else n
    decreases |s|
  {
    if |s| <= n {
      SmallSetsAreKept(n, s);
    } else {
      DropMinimum(n, s, Least(s));
      LargestSize(n, s - {Least(s)});
    }
  }

  /** What was evicted can never belong to a later selection. */
  lemma LargestAbsorbs(n: nat, a: set<nat>, b: set<nat>)
    ensures Largest(n, Largest(n, a) + b) == Largest(n, a + b)
  {
    var u, v := a + b, Largest(n, a) + b;
    forall k | k in Largest(n, u) ensures k in Largest(n, v) {
      SubsetSize(Above(a, k), Above(u, k));
      SubsetSize(Above(v, k), Above(u, k));
    }
    forall k | k in Largest(n, v) ensures k in Largest(n, u) {
      if j :| j in Above(u, k) && j !in v {
        forall i | i in Largest(n, a) ensures i in Above(v, k) {
          if i <= j {
            assert i < j;
            Upward(n, a, i, j);
          }
        }
        SubsetSize(Largest(n, a), Above(v, k));
        SubsetSize(Above(a, j), a);
        LargestSize(n, a);
      } else {
        assert Above(u, k) == Above(v, k);
      }
    }
  }

  /** Python's sorted(keys). */
  function SortedKeys(s: set<nat>): (keys: seq<nat>)
    ensures |keys| == |s|
    decreases |s|
  {
    if s == {} then [] else [Least(s)] + SortedKeys(s - {Least(s)})
  }

  /** sorted(keys)[:max(0, len(keys) - n)], the ones that are deleted. */
  function OldestKeys(n: nat, s: set<nat>): seq<nat> {
    SortedKeys(s)[..if |s| <= n then 0 else |s| - n]
  }

  function Oldest(n: nat, s: set<nat>): set<nat> {
    Elems(OldestKeys(n, s))
  }

  lemma OldestStep(n: nat, s: set<nat>)
    requires |s| > n
    ensures Oldest(n, s) == {Least(s)} + Oldest(n, s - {Least(s)})
  {
    var rest := SortedKeys(s - {Least(s)});
    ElemsPrepend(Least(s), rest[..|s| - n - 1]);
    assert SortedKeys(s)[..|s| - n] == [Least(s)] + rest[..|s| - n - 1];
  }

  /** Deleting them leaves the n largest. */
  lemma {:induction false} TrimKeepsLargest(n: nat, s: set<nat>)
    ensures s - Oldest(n, s) == Largest(n, s)
    decreases |s|
  {
    if |s| <= n {
      SmallSetsAreKept(n, s);
    } else {
      OldestStep(n, s);
      TrimKeepsLargest(n, s - {Least(s)});
      DropMinimum(n, s, Least(s));
    }
  }
}

/** alert_manager.py: the deduplicating dispatchers and the bounded history they share. */
module AlertHistory {
  import opened Sequences
  import opened Wrappers
  import opened LargestKeys

  const CAP := 1000

  /** A row as one of the three queries returns it; only what enters the deduplication key. A column that may be NULL
      is an option, and a rank is its printed text. */
  datatype Alert =
    | Threat(serverId: string, severity: Option<string>, evidence: Option<string>)
    | AuditFailure(target: Option<string>, outcome: string, details: Option<string>)
    | HighRisk(serverId: string, tier: string, rank: string)

  const OUTCOMES := {"failure", "denied", "blocked", "rejected"}
  const TIERS := {"CRITICAL", "HIGH"}

  /** What the conditions of the queries leave: one of four outcomes, one of two tiers, and a number as rank. */
  predicate Possible(a: Alert) {
    match a
    case Threat(_, _, _) => true
    case AuditFailure(_, outcome, _) => outcome in OUTCOMES
    case HighRisk(_, tier, rank) => tier in TIERS && ':' !in rank
  }

  function Kind(a: Alert): string {
    match a
    case Threat(_, _, _) => "threat_association"
    case AuditFailure(_, _, _) => "audit_failure"
    case HighRisk(_, _, _) => "high_risk"
  }

  /** A value inside an f-string. */
  function Shown(x: Option<string>): string {
    if x.Some? then x.value else "None"
  }

  function Fields(a: Alert): (string, string, string) {
    match a
    case Threat(id, severity, evidence) => (id, Shown(severity), Shown(evidence))
    case AuditFailure(target, outcome, details) => (Shown(target), outcome, Shown(details))
    case HighRisk(id, tier, rank) => (id, tier, rank)
  }

  function Joined(f: (string, string, string)): string {
    f.0 + ":" + (f.1 + ":" + f.2)
  }

  /** What `_dedup_key` hashes. */
  function RawKey(a: Alert): string {
    Kind(a) + ":" + Joined(Fields(a))
  }

  /** `digest` is the first 16 hex digits of a SHA-256: a number, and sorting the digits sorts the numbers. */
  function Keys(alerts: seq<Alert>, digest: string -> nat): seq<nat> {
    if alerts == [] then [] else Keys(alerts[..|alerts| - 1], digest) + [digest(RawKey(alerts[|alerts| - 1]))]
  }

  // ----- which alerts share a key -----

  lemma CharAt(y: string, t: string, k: nat)
    requires k <= |y| + |t|
    ensures (y + ":" + t)[k] == if k < |y| then y[k] else if k == |y| then ':' else t[k - |y| - 1]
  {
  }

  lemma NotShorter(x: string, r: string, y: string, t: string)
    requires ':' !in y && x + ":" + r == y + ":" + t
    ensures |x| >= |y|
  {
    CharAt(x, r, |x|);
    assert |x + ":" + r| == |y + ":" + t|;
    CharAt(y, t, |x|);
  }

  /** Cutting at the first colon is unambiguous. */
  lemma FirstColon(x: string, r: string, y: string, t: string)
    requires ':' !in x && ':' !in y && x + ":" + r == y + ":" + t
    ensures x == y && r == t
  {
    NotShorter(x, r, y, t);
    NotShorter(y, t, x, r);
    assert (x + ":" + r)[..|x|] == x && (y + ":" + t)[..|y|] == y;
    assert (x + ":" + r)[|x| + 1..] == r && (y + ":" + t)[|y| + 1..] == t;
  }

  function Colons(s: string): nat {
    if s == "" then 0 else Colons(s[1..]) + if s[0] == ':' then 1 else 0
  }

  lemma {:induction false} ColonsConcat(a: string, b: string)
    ensures Colons(a + b) == Colons(a) + Colons(b)
  {
    if a == "" {
      assert a + b == b;
    } else {
      assert (a + b)[1..] == a[1..] + b && (a + b)[0] == a[0];
      ColonsConcat(a[1..], b);
    }
  }

  lemma {:induction false} NoColonsIff(s: string)
    ensures Colons(s) == 0 <==> ':' !in s
  {
    if s != "" {
      NoColonsIff(s[1..]);
      assert s == [s[0]] + s[1..];
    }
  }

  predicate Plain(f: (string, string, string)) {
    ':' !in f.0 && ':' !in f.1 && ':' !in f.2
  }

  lemma PlainIff(f: (string, string, string))
    ensures Colons(Joined(f)) == 2 <==> Plain(f)
  {
    ColonsConcat(f.0 + ":", f.1 + ":" + f.2);
    ColonsConcat(f.0, ":");
    ColonsConcat(f.1 + ":", f.2);
    ColonsConcat(f.1, ":");
    assert Colons(":") == 1;
    NoColonsIff(f.0);
    NoColonsIff(f.1);
    NoColonsIff(f.2);
  }

  lemma PlainIsUnambiguous(f: (string, string, string), g: (string, string, string))
    requires Plain(f) && Joined(f) == Joined(g)
    ensures f == g
  {
    PlainIff(f);
    PlainIff(g);
    FirstColon(f.0, f.1 + ":" + f.2, g.0, g.1 + ":" + g.2);
    FirstColon(f.1, f.2, g.1, g.2);
  }

  lemma {:induction false} AtFirstColon(s: string) returns (x: string, y: string)
    requires ':' in s
    ensures s == x + ":" + y
  {
    if s[0] == ':' {
      x, y := "", s[1..];
    } else {
      assert s == [s[0]] + s[1..];
      x, y := AtFirstColon(s[1..]);
      x := [s[0]] + x;
    }
  }

  lemma Regroup(a: string, b: string, c: string, d: string)
    ensures a + ":" + b + ":" + (c + ":" + d) == a + ":" + (b + ":" + (c + ":" + d))
    ensures a + ":" + (b + ":" + c + ":" + d) == a + ":" + (b + ":" + (c + ":" + d))
    ensures a + ":" + (b + ":" + (c + ":" + d)) == a + ":" + b + ":" + (c + ":" + d)
  {
  }

  /** A colon in any field can be taken for a separator. */
  lemma ColonIsAmbiguous(f: (string, string, string)) returns (g: (string, string, string))
    requires !Plain(f)
    ensures f != g && Joined(f) == Joined(g)
  {
    if ':' in f.0 {
      var x, y := AtFirstColon(f.0);
      g := (x, y, f.1 + ":" + f.2);
      Regroup(x, y, f.1, f.2);
      assert |f.0| > |x|;
    } else if ':' in f.1 {
      var x, y := AtFirstColon(f.1);
      g := (f.0, x, y + ":" + f.2);
      Regroup(f.0, x, y, f.2);
      assert |f.1| > |x|;
    } else {
      var x, y := AtFirstColon(f.2);
      g := (f.0 + ":" + f.1, x, y);
      Regroup(f.0, f.1, x, y);
      assert |f.0 + ":" + f.1| > |f.0|;
    }
  }

  lemma SameKindSameText(a: Alert, b: Alert)
    requires RawKey(a) == RawKey(b)
    ensures Kind(a) == Kind(b) && Joined(Fields(a)) == Joined(Fields(b))
  {
    assert "threat_association"[0] == 't' && "audit_failure"[0] == 'a' && "high_risk"[0] == 'h';
    assert RawKey(a)[0] == Kind(a)[0] && RawKey(b)[0] == Kind(b)[0];
    var n := |Kind(a)| + 1;
    assert RawKey(a)[n..] == Joined(Fields(a)) && RawKey(b)[n..] == Joined(Fields(b));
  }

  /** A NULL and the text "None" look the same; nothing else does. */
  lemma ShownIsInjective(x: Option<string>, y: Option<string>)
    requires Shown(x) == Shown(y) != "None"
    ensures x == y
  {
  }

  function Flipped(x: Option<string>): (y: Option<string>)
    requires Shown(x) == "None"
    ensures x != y && Shown(y) == "None"
  {
    if x.Some? then None else Some("None")
  }

  // ----- threats -----

  predicate Clear(x: Option<string>) {
    ':' !in Shown(x) && Shown(x) != "None"
  }

  lemma ThreatIsUnique(a: Alert, b: Alert)
    requires a.Threat? && ':' !in a.serverId && Clear(a.severity) && Clear(a.evidence) && RawKey(a) == RawKey(b)
    ensures a == b
  {
    SameKindSameText(a, b);
    KindsDiffer(a, b);
    PlainIsUnambiguous(Fields(a), Fields(b));
    ShownIsInjective(a.severity, b.severity);
    ShownIsInjective(a.evidence, b.evidence);
  }

  lemma KindsDiffer(a: Alert, b: Alert)
    requires Kind(a) == Kind(b)
    ensures (a.Threat? <==> b.Threat?) && (a.AuditFailure? <==> b.AuditFailure?) && (a.HighRisk? <==> b.HighRisk?)
  {
    assert |"threat_association"| == 18 && |"audit_failure"| == 13 && |"high_risk"| == 9;
  }

  lemma ThreatIsShared(a: Alert) returns (b: Alert)
    requires a.Threat? && !(':' !in a.serverId && Clear(a.severity) && Clear(a.evidence))
    ensures b != a && Possible(b) && RawKey(b) == RawKey(a)
  {
    if Shown(a.severity) == "None" {
      b := a.(severity := Flipped(a.severity));
    } else if Shown(a.evidence) == "None" {
      b := a.(evidence := Flipped(a.evidence));
    } else {
      var g := ColonIsAmbiguous(Fields(a));
      b := Threat(g.0, Some(g.1), Some(g.2));
      assert Fields(b) == g;
    }
  }

  // ----- high risks -----

  lemma NotLonger(x: string, r: string, y: string, t: string)
    requires ':' !in r && x + ":" + r == y + ":" + t
    ensures |r| <= |t|
  {
    CharAt(y, t, |y|);
    assert |x + ":" + r| == |y + ":" + t|;
    CharAt(x, r, |y|);
  }

  /** Cutting at the last colon is unambiguous. */
  lemma LastColon(x: string, r: string, y: string, t: string)
    requires ':' !in r && ':' !in t && x + ":" + r == y + ":" + t
    ensures x == y && r == t
  {
    NotLonger(x, r, y, t);
    NotLonger(y, t, x, r);
    assert |x + ":" + r| == |y + ":" + t|;
    assert (x + ":" + r)[..|x|] == x && (y + ":" + t)[..|y|] == y;
    assert (x + ":" + r)[|x| + 1..] == r && (y + ":" + t)[|y| + 1..] == t;
  }

  lemma TiersArePlain(tier: string)
    requires tier in TIERS
    ensures ':' !in tier
  {
  }

  lemma Associate(a: string, b: string, c: string)
    ensures a + ":" + (b + ":" + c) == a + ":" + b + ":" + c
  {
  }

  /** Whatever colons the server id contains, tier and rank are read back from the right. */
  lemma HighRiskIsUnique(a: Alert, b: Alert)
    requires a.HighRisk? && Possible(a) && Possible(b) && RawKey(a) == RawKey(b)
    ensures a == b
  {
    SameKindSameText(a, b);
    KindsDiffer(a, b);
    TiersArePlain(a.tier);
    TiersArePlain(b.tier);
    Associate(a.serverId, a.tier, a.rank);
    Associate(b.serverId, b.tier, b.rank);
    LastColon(a.serverId + ":" + a.tier, a.rank, b.serverId + ":" + b.tier, b.rank);
    LastColon(a.serverId, a.tier, b.serverId, b.tier);
  }

  // ----- audit failures -----

  lemma OutcomesArePlain(o: string)
    requires o in OUTCOMES
    ensures ':' !in o
  {
  }

  /** The word o stands between colons, the first of them at position i. */
  predicate WordAt(text: string, i: nat, o: string) {
    i + |o| + 2 <= |text| && text[i..i + |o| + 2] == ":" + o + ":"
  }

  /** One of the outcomes stands between colons, the first of them at position i. */
  ghost predicate OutcomeAt(text: string, i: nat) {
    exists o :: o in OUTCOMES && WordAt(text, i, o)
  }

  /** No outcome stands between colons anywhere but at position i. */
  ghost predicate OneOutcome(text: string, i: nat) {
    forall k: nat | OutcomeAt(text, k) :: k == i
  }

  lemma OwnOutcome(f: (string, string, string))
    requires f.1 in OUTCOMES
    ensures OutcomeAt(Joined(f), |f.0|)
  {
    var i := |f.0|;
    Associate(f.0, f.1, f.2);
    assert Joined(f)[i..i + |f.1| + 2] == ":" + f.1 + ":";
    assert WordAt(Joined(f), i, f.1);
  }

  lemma CutAround(text: string, i: nat, j: nat)
    requires i <= j <= |text|
    ensures text[..i] + (text[i..j] + text[j..]) == text
  {
  }

  lemma AssociateColons(b: string, c: string)
    ensures ":" + b + ":" + c == ":" + (b + ":" + c)
  {
  }

  lemma SplitAtWord(text: string, i: nat, o: string)
    requires WordAt(text, i, o)
    ensures Joined((text[..i], o, text[i + |o| + 2..])) == text
  {
    var rest := text[i + |o| + 2..];
    CutAround(text, i, i + |o| + 2);
    AssociateColons(o, rest);
    AssociateLeft(text[..i], ":", o + ":" + rest);
    AssociateLeft(o, ":", rest);
  }

  lemma AssociateLeft(a: string, b: string, c: string)
    ensures a + (b + c) == a + b + c
  {
  }

  lemma SplitAtOutcome(text: string, i: nat) returns (f: (string, string, string))
    requires OutcomeAt(text, i)
    ensures Joined(f) == text && |f.0| == i && f.1 in OUTCOMES
  {
    var o :| o in OUTCOMES && WordAt(text, i, o);
    f := (text[..i], o, text[i + |o| + 2..]);
    SplitAtWord(text, i, o);
  }

  lemma SameCut(f: (string, string, string), g: (string, string, string))
    requires Joined(f) == Joined(g) && |f.0| == |g.0| && f.1 in OUTCOMES && g.1 in OUTCOMES
    ensures f == g
  {
    OutcomesArePlain(f.1);
    OutcomesArePlain(g.1);
    var n := |f.0| + 1;
    assert Joined(f)[..n - 1] == f.0 && Joined(g)[..n - 1] == g.0;
    assert Joined(f)[n..] == f.1 + ":" + f.2 && Joined(g)[n..] == g.1 + ":" + g.2;
    FirstColon(f.1, f.2, g.1, g.2);
  }

  ghost predicate AuditIsClear(a: Alert)
    requires a.AuditFailure?
  {
    Shown(a.target) != "None" && Shown(a.details) != "None" && OneOutcome(Joined(Fields(a)), |Shown(a.target)|)
  }

  lemma AuditIsUnique(a: Alert, b: Alert)
    requires a.AuditFailure? && Possible(a) && Possible(b) && RawKey(a) == RawKey(b) && AuditIsClear(a)
    ensures a == b
  {
    SameKindSameText(a, b);
    KindsDiffer(a, b);
    OwnOutcome(Fields(b));
    SameCut(Fields(a), Fields(b));
    ShownIsInjective(a.target, b.target);
    ShownIsInjective(a.details, b.details);
  }

  lemma AuditIsShared(a: Alert) returns (b: Alert)
    requires a.AuditFailure? && Possible(a) && !AuditIsClear(a)
    ensures b != a && Possible(b) && RawKey(b) == RawKey(a)
  {
    if Shown(a.target) == "None" {
      b := a.(target := Flipped(a.target));
    } else if Shown(a.details) == "None" {
      b := a.(details := Flipped(a.details));
    } else {
      var k: nat :| OutcomeAt(Joined(Fields(a)), k) && k != |Shown(a.target)|;
      var f := SplitAtOutcome(Joined(Fields(a)), k);
      b := AuditFailure(Some(f.0), f.1, Some(f.2));
      assert Fields(b) == f;
    }
  }

  // ----- together -----

  /** A threat is unmistakable without colons and without a NULL or "None" in a nullable column; an audit failure
      without the latter, and with no outcome between colons besides its own; a high risk always. */
  ghost predicate Unmistakable(a: Alert) {
    match a
    case Threat(id, severity, evidence) => ':' !in id && Clear(severity) && Clear(evidence)
    case AuditFailure(_, _, _) => AuditIsClear(a)
    case HighRisk(_, _, _) => true
  }

  /** Among the rows the queries can return, an alert shares its key text with no other if and only if it is
      unmistakable. */
  lemma KeyIsUniqueIff(a: Alert)
    requires Possible(a)
    ensures (forall b: Alert | Possible(b) && RawKey(b) == RawKey(a) :: b == a) <==> Unmistakable(a)
  {
    if Unmistakable(a) {
      forall b: Alert | Possible(b) && RawKey(b) == RawKey(a) ensures b == a {
        match a
        case Threat(_, _, _) => ThreatIsUnique(a, b);
        case AuditFailure(_, _, _) => AuditIsUnique(a, b);
        case HighRisk(_, _, _) => HighRiskIsUnique(a, b);
      }
    } else if a.Threat? {
      var b := ThreatIsShared(a);
    } else {
      var b := AuditIsShared(a);
    }
  }

  /** Two audit rows the query can return: who was denied what is read in two ways. */
  lemma TwoDenials(s: string, x: string, y: string)
    ensures var a := AuditFailure(Some(s), "denied", Some(x + ":blocked:" + y));
            var b := AuditFailure(Some(s + ":denied:" + x), "blocked", Some(y));
            Possible(a) && Possible(b) && a != b && RawKey(a) == RawKey(b)
  {
    var left := s + ":" + ("denied" + ":" + (x + ":blocked:" + y));
    var right := s + ":denied:" + x + ":" + ("blocked" + ":" + y);
    assert ":denied:" == ":" + "denied" + ":" && ":blocked:" == ":" + "blocked" + ":";
    assert left == s + (":denied:" + (x + (":blocked:" + y))) == right;
    assert |"denied"| == 6 && |"blocked"| == 7;
  }

  /** A NULL severity and one that reads "None". */
  lemma NullReadsNone(s: string, evidence: Option<string>)
    ensures RawKey(Threat(s, None, evidence)) == RawKey(Threat(s, Some("None"), evidence))
    ensures Threat(s, None, evidence) != Threat(s, Some("None"), evidence)
  {
  }

  // ----- the history as a state machine over keys -----

  datatype Event = Seen(key: nat) | EndOfCycle

  datatype State = State(history: set<nat>, sent: seq<nat>)

  const EMPTY := State({}, [])

  function Step(st: State, e: Event): State {
    match e
    case Seen(k) => if k in st.history then st else State(st.history + {k}, st.sent + [k])
    case EndOfCycle => st.(history := Largest(CAP, st.history))
  }

  function Run(st: State, events: seq<Event>): State {
    if events == [] then st else Step(Run(st, events[..|events| - 1]), events[|events| - 1])
  }

  lemma {:induction false} RunConcat(st: State, a: seq<Event>, b: seq<Event>)
    ensures Run(st, a + b) == Run(Run(st, a), b)
  {
    if b == [] {
      assert a + b == a;
    } else {
      RunConcat(st, a, b[..|b| - 1]);
      assert (a + b)[..|a + b| - 1] == a + b[..|b| - 1];
    }
  }

  lemma RunOneMore(st: State, events: seq<Event>, e: Event)
    ensures Run(st, events + [e]) == Step(Run(st, events), e)
  {
    assert (events + [e])[..|events|] == events;
  }

  function SeenAll(keys: seq<nat>): (events: seq<Event>)
    ensures |events| == |keys| && forall i | 0 <= i < |keys| :: events[i] == Seen(keys[i])
  {
    seq(|keys|, i requires 0 <= i < |keys| => Seen(keys[i]))
  }

  lemma SeenOneMore(keys: seq<nat>, k: nat)
    ensures SeenAll(keys + [k]) == SeenAll(keys) + [Seen(k)]
  {
  }

  /** Every key that occurs. */
  function AllKeys(events: seq<Event>): set<nat> {
    if events == [] then {} else
      var rest, e := AllKeys(events[..|events| - 1]), events[|events| - 1];
      if e.Seen? then rest + {e.key} else rest
  }

  /** The keys that occurred before the last completed cycle ended. */
  function Settled(events: seq<Event>): set<nat> {
    if events == [] then {}
    else if events[|events| - 1].EndOfCycle? then AllKeys(events)
    else Settled(events[..|events| - 1])
  }

  /** The keys that occurred since then. */
  function Recent(events: seq<Event>): set<nat> {
    if events == [] || events[|events| - 1].EndOfCycle? then {}
    else Recent(events[..|events| - 1]) + {events[|events| - 1].key}
  }

  lemma {:induction false} SettledPlusRecent(events: seq<Event>)
    ensures AllKeys(events) == Settled(events) + Recent(events)
  {
    if events != [] && events[|events| - 1].Seen? {
      SettledPlusRecent(events[..|events| - 1]);
    }
  }

  /** Over every run, aborted cycles included, the history is the 1000 largest keys of all completed
      cycles together with everything seen since; the order of arrival and past evictions leave no trace. */
  lemma {:induction false} HistoryClosedForm(events: seq<Event>)
    ensures Run(EMPTY, events).history == Largest(1000, Settled(events)) + Recent(events)
  {
    if events != [] {
      var before := events[..|events| - 1];
      HistoryClosedForm(before);
      if events[|events| - 1].EndOfCycle? {
        SettledPlusRecent(before);
        LargestAbsorbs(CAP, Settled(before), Recent(before));
      }
    } else {
      SmallSetsAreKept(CAP, {});
    }
  }

  /** After a completed cycle the history holds at most 1000 keys: the largest ever seen. */
  lemma HistoryAfterCycle(events: seq<Event>)
    requires events != [] && events[|events| - 1] == EndOfCycle
    ensures Run(EMPTY, events).history == Largest(1000, AllKeys(events))
    ensures |Run(EMPTY, events).history| <= 1000
  {
    HistoryClosedForm(events);
    LargestSize(CAP, AllKeys(events));
  }

  /** An alert is dispatched exactly when its key is new in this cycle, and either new altogether or
      pushed out by at least 1000 larger keys. */
  lemma DispatchedIff(events: seq<Event>, k: nat)
    ensures Run(EMPTY, events + [Seen(k)]).sent
         == Run(EMPTY, events).sent
            + if k !in Recent(events) && (k !in Settled(events) || |Above(Settled(events), k)| >= 1000) then [k] else []
  {
    HistoryClosedForm(events);
    assert (events + [Seen(k)])[..|events|] == events;
  }

  /** Whatever occurred was dispatched, and nothing else. */
  lemma {:induction false} SentIsSeen(events: seq<Event>)
    ensures Elems(Run(EMPTY, events).sent) == AllKeys(events)
    ensures Run(EMPTY, events).history <= AllKeys(events)
  {
    if events != [] {
      var st := Run(EMPTY, events[..|events| - 1]);
      SentIsSeen(events[..|events| - 1]);
      if events[|events| - 1].Seen? {
        ElemsAppend(st.sent, events[|events| - 1].key);
      }
    }
  }

  /** The i-th event repeats a key that has been evicted. */
  predicate RepeatsEvicted(events: seq<Event>, i: nat)
    requires i < |events|
  {
    && events[i].Seen?
    && var past := events[..i];
       events[i].key in Settled(past) && events[i].key !in Recent(past) && |Above(Settled(past), events[i].key)| >= CAP
  }

  lemma DistinctAppend(xs: seq<nat>, x: nat)
    ensures Distinct(xs + [x]) <==> Distinct(xs) && x !in xs
  {
    if Distinct(xs + [x]) {
      forall i, j | 0 <= i < j < |xs| ensures xs[i] != xs[j] {
        assert (xs + [x])[i] == xs[i] && (xs + [x])[j] == xs[j];
      }
      forall i | 0 <= i < |xs| ensures xs[i] != x {
        assert (xs + [x])[i] == xs[i] && (xs + [x])[|xs|] == x;
      }
    }
  }

  lemma OnceStep(before: seq<Event>, e: Event)
    ensures Distinct(Run(EMPTY, before + [e]).sent)
       <==> Distinct(Run(EMPTY, before).sent) && !RepeatsEvicted(before + [e], |before|)
  {
    assert (before + [e])[..|before|] == before;
    if e.Seen? {
      DispatchedIff(before, e.key);
      DistinctAppend(Run(EMPTY, before).sent, e.key);
      SettledPlusRecent(before);
      SentIsSeen(before);
      assert e.key in Run(EMPTY, before).sent <==> e.key in AllKeys(before);
    }
  }

  /** Each occurring key is dispatched exactly once if and only if no evicted key comes back. */
  lemma {:induction false} OnceIffNothingEvictedReturns(events: seq<Event>)
    ensures Elems(Run(EMPTY, events).sent) == AllKeys(events)
    ensures Distinct(Run(EMPTY, events).sent) <==> forall i | 0 <= i < |events| :: !RepeatsEvicted(events, i)
  {
    SentIsSeen(events);
    if events != [] {
      var n := |events| - 1;
      var before, e := events[..n], events[n];
      OnceIffNothingEvictedReturns(before);
      forall i | 0 <= i < n ensures RepeatsEvicted(before, i) == RepeatsEvicted(events, i) {
        assert before[..i] == events[..i];
      }
      OnceStep(before, e);
      assert events == before + [e];
      assert (forall i | 0 <= i < |events| :: !RepeatsEvicted(events, i))
        <==> (forall i | 0 <= i < n :: !RepeatsEvicted(events, i)) && !RepeatsEvicted(events, n);
    }
  }

  lemma {:induction false} KeysOnlyGrow(events: seq<Event>, i: nat)
    requires i <= |events|
    ensures Settled(events[..i]) <= AllKeys(events)
  {
    if i == |events| {
      assert events[..i] == events;
      SettledPlusRecent(events);
    } else {
      KeysOnlyGrow(events[..|events| - 1], i);
      assert events[..|events| - 1][..i] == events[..i];
    }
  }

  /** In particular over every run in which at most 1000 distinct keys occur. */
  lemma FewKeysDispatchedOnce(events: seq<Event>)
    requires |AllKeys(events)| <= 1000
    ensures Distinct(Run(EMPTY, events).sent) && Elems(Run(EMPTY, events).sent) == AllKeys(events)
  {
    forall i | 0 <= i < |events| ensures !RepeatsEvicted(events, i) {
      var settled := Settled(events[..i]);
      KeysOnlyGrow(events, i);
      if RepeatsEvicted(events, i) {
        SubsetSize(Above(settled, events[i].key), settled - {events[i].key});
        SubsetSize(settled, AllKeys(events));
      }
    }
    OnceIffNothingEvictedReturns(events);
  }

  /** The keys below n. */
  function UpTo(n: nat): seq<nat> {
    if n == 0 then [] else
      var k: nat := n - 1;
      UpTo(k) + [k]
  }

  lemma {:induction false} UpToIs(n: nat)
    ensures |UpTo(n)| == n == |Elems(UpTo(n))|
    ensures forall k: nat :: k in Elems(UpTo(n)) <==> k < n
  {
    if n > 0 {
      var k: nat := n - 1;
      UpToIs(k);
      ElemsAppend(UpTo(k), k);
    }
  }

  lemma {:induction false} OnlySeen(keys: seq<nat>)
    ensures AllKeys(SeenAll(keys)) == Elems(keys)
  {
    if keys != [] {
      var before, k := keys[..|keys| - 1], keys[|keys| - 1];
      OnlySeen(before);
      assert keys == before + [k];
      SeenOneMore(before, k);
      ElemsAppend(before, k);
      assert SeenAll(keys)[..|before|] == SeenAll(before);
    }
  }

  lemma Returns(past: seq<Event>, k: nat)
    requires k in Settled(past) && Recent(past) == {} && |Above(Settled(past), k)| >= CAP
    ensures RepeatsEvicted(past + [Seen(k)], |past|) && !Distinct(Run(EMPTY, past + [Seen(k)]).sent)
  {
    assert (past + [Seen(k)])[..|past|] == past;
    OnceStep(past, Seen(k));
  }

  /** A thousand and one keys or more, the end of the cycle, and the smallest key again: it is dispatched twice. */
  lemma EvictedKeyReturns(n: nat)
    requires n > 1000
    ensures var past := SeenAll(UpTo(n)) + [EndOfCycle];
            RepeatsEvicted(past + [Seen(0)], |past|) && !Distinct(Run(EMPTY, past + [Seen(0)]).sent)
  {
    UpToIs(n);
    OnlySeen(UpTo(n));
    PastSettles(SeenAll(UpTo(n)));
    assert Above(Elems(UpTo(n)), 0) == Elems(UpTo(n)) - {0};
    Returns(SeenAll(UpTo(n)) + [EndOfCycle], 0);
  }

  lemma PastSettles(events: seq<Event>)
    ensures Settled(events + [EndOfCycle]) == AllKeys(events) && Recent(events + [EndOfCycle]) == {}
  {
    assert (events + [EndOfCycle])[..|events|] == events;
  }

  /** From st the keys were seen, which led to `after` and dispatched `added`: the new ones, once each. */
  ghost predicate Fed(st: State, keys: seq<nat>, after: State, added: seq<nat>) {
    && after == State(st.history + Elems(keys), st.sent + added)
    && Distinct(added) && Elems(added) == Elems(keys) - st.history
  }

  lemma FeedOne(st: State, keys: seq<nat>, after: State, added: seq<nat>, k: nat) returns (more: seq<nat>)
    requires Fed(st, keys, after, added)
    ensures Fed(st, keys + [k], Step(after, Seen(k)), more)
  {
    more := added;
    ElemsAppend(keys, k);
    if k !in after.history {
      ElemsAppend(added, k);
      more := added + [k];
      assert st.sent + added + [k] == st.sent + more;
    }
  }

  /** Within one cycle no key is dispatched twice, whatever the history held when it began. */
  lemma {:induction false} OncePerCycle(st: State, keys: seq<nat>) returns (added: seq<nat>)
    ensures Fed(st, keys, Run(st, SeenAll(keys)), added)
  {
    if keys == [] {
      added := [];
    } else {
      var keys', k := keys[..|keys| - 1], keys[|keys| - 1];
      assert keys == keys' + [k];
      SeenOneMore(keys', k);
      RunOneMore(st, SeenAll(keys'), Seen(k));
      added := OncePerCycle(st, keys');
      added := FeedOne(st, keys', Run(st, SeenAll(keys')), added, k);
    }
  }

  // ----- the module state and its cycle -----

  /** The events of one cycle; a query that raises ends it without the trim. */
  function CycleEvents(threats: Option<seq<Alert>>, audits: Option<seq<Alert>>, risks: Option<seq<Alert>>,
                       digest: string -> nat): seq<Event>
  {
    if threats.None? then [] else
      SeenAll(Keys(threats.value, digest)) +
      if audits.None? then [] else
        SeenAll(Keys(audits.value, digest)) +
        if risks.None? then [] else SeenAll(Keys(risks.value, digest)) + [EndOfCycle]
  }

  lemma SeenIff(keys: seq<nat>, k: nat)
    ensures Seen(k) in SeenAll(keys) <==> k in keys
    ensures EndOfCycle !in SeenAll(keys)
  {
    if k in keys {
      var i :| 0 <= i < |keys| && keys[i] == k;
      assert SeenAll(keys)[i] == Seen(k);
    }
  }

  lemma {:induction false} KeysIff(alerts: seq<Alert>, digest: string -> nat, k: nat)
    ensures k in Keys(alerts, digest) <==> exists a :: a in alerts && digest(RawKey(a)) == k
  {
    if alerts != [] {
      KeysIff(alerts[..|alerts| - 1], digest, k);
      assert alerts == alerts[..|alerts| - 1] + [alerts[|alerts| - 1]];
    }
  }

  lemma SeenFrom(rows: Option<seq<Alert>>, digest: string -> nat, k: nat)
    requires rows.Some?
    ensures Seen(k) in SeenAll(Keys(rows.value, digest)) <==> KeyFrom(rows, digest, k)
    ensures EndOfCycle !in SeenAll(Keys(rows.value, digest))
  {
    SeenIff(Keys(rows.value, digest), k);
    KeysIff(rows.value, digest, k);
  }

  /** A cycle sees the keys of each query that is reached and does not raise, and trims exactly if none raises. */
  lemma CycleSees(threats: Option<seq<Alert>>, audits: Option<seq<Alert>>, risks: Option<seq<Alert>>,
                  digest: string -> nat, k: nat)
    ensures var events := CycleEvents(threats, audits, risks, digest);
            && (EndOfCycle in events <==> threats.Some? && audits.Some? && risks.Some?)
            && (Seen(k) in events <==> || KeyFrom(threats, digest, k)
                                       || (threats.Some? && KeyFrom(audits, digest, k))
                                       || (threats.Some? && audits.Some? && KeyFrom(risks, digest, k)))
  {
    if threats.Some? {
      SeenFrom(threats, digest, k);
    }
    if audits.Some? {
      SeenFrom(audits, digest, k);
    }
    if risks.Some? {
      SeenFrom(risks, digest, k);
    }
  }

  /** One of the rows that the query returned has the key. */
  ghost predicate KeyFrom(rows: Option<seq<Alert>>, digest: string -> nat, k: nat) {
    rows.Some? && exists a :: a in rows.value && digest(RawKey(a)) == k
  }

  lemma FeedOneMore(st: State, alerts: seq<Alert>, i: nat, digest: string -> nat)
    requires i < |alerts|
    ensures Run(st, SeenAll(Keys(alerts[..i + 1], digest)))
         == Step(Run(st, SeenAll(Keys(alerts[..i], digest))), Seen(digest(RawKey(alerts[i]))))
  {
    assert alerts[..i + 1][..i] == alerts[..i];
    SeenOneMore(Keys(alerts[..i], digest), digest(RawKey(alerts[i])));
    RunOneMore(st, SeenAll(Keys(alerts[..i], digest)), Seen(digest(RawKey(alerts[i]))));
  }

  lemma PhasesAssociate(t: seq<Event>, a: seq<Event>, r: seq<Event>, e: Event)
    ensures t + [] == t && t + (a + []) == t + a
    ensures t + (a + (r + [e])) == t + a + r + [e]
  {
  }

  lemma CyclePhases(st: State, t: seq<Event>, a: seq<Event>, r: seq<Event>)
    ensures Run(st, t + a) == Run(Run(st, t), a)
    ensures Run(st, t + a + r + [EndOfCycle]) == Step(Run(Run(Run(st, t), a), r), EndOfCycle)
  {
    RunConcat(st, t, a);
    RunConcat(st, t + a, r);
    RunOneMore(st, t + a + r, EndOfCycle);
  }

  class AlertManager {
    var sentHistory: set<nat>
    var notified: seq<nat>

    ghost function Abstract(): State
      reads this
    {
      State(sentHistory, notified)
    }

    constructor ()
      ensures Abstract() == EMPTY
    {
      sentHistory, notified := {}, [];
    }

    method Dispatch(a: Alert, digest: string -> nat)
      modifies this
      ensures Abstract() == Step(old(Abstract()), Seen(digest(RawKey(a))))
    {
      var key := digest(RawKey(a));
      if key in sentHistory {
        return;
      }
      sentHistory := sentHistory + {key};
      notified := notified + [key];
    }

    method DispatchAll(alerts: seq<Alert>, digest: string -> nat)
      modifies this
      ensures Abstract() == Run(old(Abstract()), SeenAll(Keys(alerts, digest)))
    {
      for i := 0 to |alerts|
        invariant Abstract() == Run(old(Abstract()), SeenAll(Keys(alerts[..i], digest)))
      {
        FeedOneMore(old(Abstract()), alerts, i, digest);
        Dispatch(alerts[i], digest);
      }
      assert alerts[..|alerts|] == alerts;
    }

    method Trim()
      modifies this
      ensures Abstract() == Step(old(Abstract()), EndOfCycle)
    {
      var oldest := OldestKeys(CAP, sentHistory);
      TrimKeepsLargest(CAP, sentHistory);
      for i := 0 to |oldest|
        invariant sentHistory == old(sentHistory) - Elems(oldest[..i]) && notified == old(notified)
      {
        ElemsStep(oldest, i);
        sentHistory := sentHistory - {oldest[i]};
      }
      ElemsAll(oldest);
    }

    /** Lines 247-281; None stands for a query that raises. */
    method Cycle(threats: Option<seq<Alert>>, audits: Option<seq<Alert>>, risks: Option<seq<Alert>>,
                 digest: string -> nat) returns (completed: bool)
      modifies this
      ensures Abstract() == Run(old(Abstract()), CycleEvents(threats, audits, risks, digest))
      ensures completed <==> threats.Some? && audits.Some? && risks.Some?
      ensures completed ==> |sentHistory| <= 1000
    {
      completed := false;
      ghost var t := if threats.Some? then SeenAll(Keys(threats.value, digest)) else [];
      ghost var a := if audits.Some? then SeenAll(Keys(audits.value, digest)) else [];
      ghost var r := if risks.Some? then SeenAll(Keys(risks.value, digest)) else [];
      CyclePhases(Abstract(), t, a, r);
      PhasesAssociate(t, a, r, EndOfCycle);
      if threats.None? {
        return;
      }
      DispatchAll(threats.value, digest);
      if audits.None? {
        return;
      }
      DispatchAll(audits.value, digest);
      if risks.None? {
        return;
      }
      DispatchAll(risks.value, digest);
      LargestSize(CAP, sentHistory);
      Trim();
      completed := true;
    }
  }
}
