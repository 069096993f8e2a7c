/** Strings by code points, as Python and a binary collation compare them. */
module TextOrder {
  import opened Sorting

  predicate Less(a: string, b: string) {
    b != "" && (a == "" || a[0] < b[0] || (a[0] == b[0] && Less(a[1..], b[1..])))
  }

  predicate AtMost(a: string, b: string) {
    !Less(b, a)
  }

  lemma {:induction false} LessIsTotal(a: string, b: string)
    ensures (Less(a, b) || Less(b, a)) <==> a != b
    ensures !(Less(a, b) && Less(b, a))
  {
    if a != "" && b != "" && a[0] == b[0] {
      LessIsTotal(a[1..], b[1..]);
      assert a == [a[0]] + a[1..] && b == [b[0]] + b[1..];
    }
  }

  lemma {:induction false} LessIsTransitive(a: string, b: string, c: string)
    requires Less(a, b) && Less(b, c)
    ensures Less(a, c)
  {
    if a != "" && a[0] == b[0] == c[0] {
      LessIsTransitive(a[1..], b[1..], c[1..]);
    }
  }

  lemma AtMostOrders()
    ensures TotalPreorder(AtMost) && Antisymmetric(AtMost)
  {
    forall a, b ensures AtMost(a, b) || AtMost(b, a)
            ensures AtMost(a, b) && AtMost(b, a) ==> a == b {
      LessIsTotal(a, b);
    }
    forall a, b, c | AtMost(a, b) && AtMost(b, c) ensures AtMost(a, c) {
      AtMostIsTransitive(a, b, c);
    }
  }

  lemma AtMostIsTransitive(a: string, b: string, c: string)
    requires AtMost(a, b) && AtMost(b, c)
    ensures AtMost(a, c)
  {
    LessIsTotal(a, b);
    LessIsTotal(b, c);
    LessIsTotal(a, c);
    if a != b && b != c {
      LessIsTransitive(a, b, c);
    }
  }
}

/** ask_corpus_indexer.py, lines 42-46: the tokens of a text. */
module Tokens {

  const SHORTEST := 2
  const LONGEST := 40

  function Lower(c: char): char {
    if 'A' <= c <= 'Z' then c - 'A' + 'a' else c
  }

  predicate TokenChar(c: char) {
    'a' <= c <= 'z' || '0' <= c <= '9' || c == '_'
  }

  function Finish(run: string): set<string> {
    if |run| >= SHORTEST then {run} else {}
  }

  /** The matches of [a-z0-9_]{2,40} from left to right, `run` being the characters matched so far. */
  function Scan(text: string, run: string): set<string> {
    if text == "" then Finish(run) else
      var c := Lower(text[0]);
      if !TokenChar(c) then Finish(run) + Scan(text[1..], "")
      else if |run| == LONGEST then {run} + Scan(text[1..], [c])
      else Scan(text[1..], run + [c])
  }

  /** `tokenize`; its sorted list is the same thing as this set. */
  function Tokenize(text: string): set<string> {
    Scan(text, "")
  }

  /** " ".join */
  function Join(parts: seq<string>): string {
    if parts == [] then "" else if |parts| == 1 then parts[0] else parts[0] + " " + Join(parts[1..])
  }

  ghost function TokensOfAll(parts: seq<string>): set<string> {
    set p, t | p in parts && t in Tokenize(p) :: t
  }

  /** Text on both sides of a character that is not a word character is tokenized apart. */
  lemma {:induction false} ScanAround(a: string, c: char, b: string, run: string)
    requires !TokenChar(Lower(c))
    ensures Scan(a + [c] + b, run) == Scan(a, run) + Scan(b, "")
  {
    var text := a + [c] + b;
    if a == "" {
      assert text[0] == c && text[1..] == b;
    } else {
      var first := Lower(a[0]);
      assert text[0] == a[0] && text[1..] == a[1..] + [c] + b;
      ScanAround(a[1..], c, b, "");
      ScanAround(a[1..], c, b, [first]);
      ScanAround(a[1..], c, b, run + [first]);
    }
  }

  lemma TokensOfAllStep(parts: seq<string>)
    requires parts != []
    ensures TokensOfAll(parts) == Tokenize(parts[0]) + TokensOfAll(parts[1..])
  {
    assert forall p :: p in parts <==> p == parts[0] || p in parts[1..];
  }

  /** A space never joins two tokens: the tokens of a joined list are those of its parts. */
  lemma {:induction false} TokensOfJoin(parts: seq<string>)
    ensures Tokenize(Join(parts)) == TokensOfAll(parts)
  {
    if |parts| == 1 {
    } else if parts != [] {
      ScanAround(parts[0], ' ', Join(parts[1..]), "");
      TokensOfJoin(parts[1..]);
      TokensOfAllStep(parts);
    }
  }

  ghost predicate WellFormed(t: string) {
    SHORTEST <= |t| <= LONGEST && forall c | c in t :: TokenChar(c)
  }

  lemma {:induction false} ScanIsWellFormed(text: string, run: string)
    requires |run| <= LONGEST && forall c | c in run :: TokenChar(c)
    ensures forall t | t in Scan(text, run) :: WellFormed(t)
  {
    if text != "" {
      var c := Lower(text[0]);
      ScanIsWellFormed(text[1..], "");
      if TokenChar(c) {
        ScanIsWellFormed(text[1..], [c]);
        if |run| < LONGEST {
          ScanIsWellFormed(text[1..], run + [c]);
        }
      }
    }
  }

  lemma {:induction false} ScanSwallows(w: string, rest: string, run: string)
    requires |run| + |w| <= LONGEST && forall c | c in w :: TokenChar(c)
    ensures Scan(w + rest, run) == Scan(rest, run + w)
  {
    if w == "" {
      assert w + rest == rest && run + w == run;
    } else {
      assert (w + rest)[0] == w[0] && (w + rest)[1..] == w[1..] + rest && w[0] in w;
      ScanSwallows(w[1..], rest, run + [w[0]]);
      assert run + [w[0]] + w[1..] == run + w;
    }
  }

  /** Tokens are the well-formed words of a text and nothing else: re-tokenizing one gives it back. */
  lemma TokensAreFixed(text: string, t: string)
    requires t in Tokenize(text)
    ensures WellFormed(t) && Tokenize(t) == {t}
  {
    ScanIsWellFormed(text, "");
    ScanSwallows(t, "", "");
    assert t + "" == t && "" + t == t;
  }

  // ----- tokens by their places -----

  ghost predicate WordChar(c: char) {
    'a' <= c <= 'z' || 'A' <= c <= 'Z' || '0' <= c <= '9' || c == '_'
  }

  ghost predicate AllWord(text: string, i: nat, j: nat)
    requires i <= j <= |text|
  {
    forall k | i <= k < j :: WordChar(text[k])
  }

  /** How many word characters stand immediately before position i. */
  ghost function Before(text: string, i: nat): nat
    requires i <= |text|
  {
    if i > 0 && WordChar(text[i - 1]) then Before(text, i - 1) + 1 else 0
  }

  /** A stretch of 2 to 40 word characters, a multiple of 40 of them in front of it, that is 40 long or ends its run. */
  ghost predicate IsMatch(text: string, i: nat, j: nat) {
    && i + 2 <= j <= i + 40 && j <= |text| && AllWord(text, i, j)
    && Before(text, i) % 40 == 0
    && (j == i + 40 || j == |text| || !WordChar(text[j]))
  }

  ghost function Lowered(text: string): string {
    seq(|text|, i requires 0 <= i < |text| => if 'A' <= text[i] <= 'Z' then text[i] - 'A' + 'a' else text[i])
  }

  ghost predicate MatchAt(t: string, text: string, from: nat, i: nat, j: nat) {
    from <= i && IsMatch(text, i, j) && t == Lowered(text[i..j])
  }

  /** t is a match that starts at `from` or later, in lower case. */
  ghost predicate FoundFrom(t: string, text: string, from: nat) {
    exists i: nat, j: nat :: MatchAt(t, text, from, i, j)
  }

  ghost predicate Found(t: string, text: string) {
    FoundFrom(t, text, 0)
  }

  lemma {:induction false} BeforeGrows(text: string, i: nat, j: nat)
    requires i <= j <= |text| && AllWord(text, i, j)
    ensures Before(text, j) == Before(text, i) + (j - i)
  {
    if i < j {
      BeforeGrows(text, i, j - 1);
    }
  }

  lemma LowerOfWord(c: char)
    ensures TokenChar(Lower(c)) <==> WordChar(c)
  {
  }

  /** `Scan` has matched text[from..at], which is at most a whole match so far. */
  ghost predicate Matching(text: string, from: nat, at: nat) {
    from <= at <= |text| && at <= from + 40 && AllWord(text, from, at) && Before(text, from) % 40 == 0
  }

  /** Where the scan breaks off a match, the matches up to there are that one or, if it is too short, none. */
  lemma OnlyThisMatch(text: string, from: nat, at: nat, i: nat, j: nat)
    requires Matching(text, from, at) && from <= i < at
    requires at == |text| || !WordChar(text[at]) || at == from + 40
    ensures IsMatch(text, i, j) <==> i == from && j == at && at >= from + 2
  {
    BeforeGrows(text, from, i);
    if IsMatch(text, i, j) {
      assert i == from;
    }
  }

  lemma BreaksOff(t: string, text: string, from: nat, at: nat, next: nat)
    requires Matching(text, from, at) && at <= next <= |text|
    requires at == |text| || !WordChar(text[at]) || at == from + 40
    requires next == at || (next == at + 1 && !WordChar(text[at]))
    ensures FoundFrom(t, text, from)
       <==> (at >= from + 2 && t == Lowered(text[from..at])) || FoundFrom(t, text, next)
  {
    if FoundFrom(t, text, from) {
      var i: nat, j: nat :| MatchAt(t, text, from, i, j);
      if i < at {
        OnlyThisMatch(text, from, at, i, j);
      } else {
        assert next <= i;
        assert MatchAt(t, text, next, i, j);
      }
    }
    if at >= from + 2 && t == Lowered(text[from..at]) {
      OnlyThisMatch(text, from, at, from, at);
      assert MatchAt(t, text, from, from, at);
    }
    if FoundFrom(t, text, next) {
      var i: nat, j: nat :| MatchAt(t, text, next, i, j);
      assert MatchAt(t, text, from, i, j);
    }
  }

  lemma NoneAtTheEnd(t: string, text: string)
    ensures !FoundFrom(t, text, |text|)
  {
  }

  lemma LoweredOneMore(text: string, from: nat, at: nat)
    requires from <= at < |text|
    ensures Lowered(text[from..at + 1]) == Lowered(text[from..at]) + [Lower(text[at])]
  {
    assert text[from..at + 1] == text[from..at] + [text[at]];
  }

  lemma ScanAt(text: string, from: nat, at: nat)
    requires from <= at < |text|
    ensures var run := Lowered(text[from..at]);
            Scan(text[at..], run)
            == if !WordChar(text[at]) then Finish(run) + Scan(text[at + 1..], Lowered(text[at + 1..at + 1]))
               else if at == from + 40 then {run} + Scan(text[at + 1..], Lowered(text[at..at + 1]))
               else Scan(text[at + 1..], Lowered(text[from..at + 1]))
  {
    assert text[at..][1..] == text[at + 1..];
    LowerOfWord(text[at]);
    LoweredOneMore(text, from, at);
    LoweredOneMore(text, at, at);
    assert Lowered(text[at + 1..at + 1]) == "" && Lowered(text[at..at + 1]) == [Lower(text[at])];
  }

  lemma FreshMatch(text: string, from: nat, at: nat)
    requires Matching(text, from, at) && at < |text|
    ensures !WordChar(text[at]) ==> Matching(text, at + 1, at + 1)
    ensures WordChar(text[at]) && at == from + 40 ==> Matching(text, at, at + 1)
    ensures WordChar(text[at]) && at < from + 40 ==> Matching(text, from, at + 1)
  {
    BeforeGrows(text, from, at);
  }

  lemma {:induction false} ScanFinds(t: string, text: string, from: nat, at: nat)
    requires Matching(text, from, at)
    ensures t in Scan(text[at..], Lowered(text[from..at])) <==> FoundFrom(t, text, from)
    decreases |text| - at
  {
    if at == |text| {
      BreaksOff(t, text, from, at, at);
      NoneAtTheEnd(t, text);
    } else {
      ScanAt(text, from, at);
      FreshMatch(text, from, at);
      if !WordChar(text[at]) {
        BreaksOff(t, text, from, at, at + 1);
        ScanFinds(t, text, at + 1, at + 1);
      } else if at == from + 40 {
        BreaksOff(t, text, from, at, at);
        ScanFinds(t, text, at, at + 1);
      } else {
        ScanFinds(t, text, from, at + 1);
      }
    }
  }

  /** The tokens of a text are, in lower case, the stretches of 2 to 40 of its word characters into which its runs
      fall when they are cut at every fortieth. */
  lemma TokensAreTheMatches(text: string, t: string)
    ensures t in Tokenize(text) <==> Found(t, text)
  {
    assert text[0..] == text && Lowered(text[0..0]) == "";
    ScanFinds(t, text, 0, 0);
  }
}

/** The answer of a query without an order clause: the rows that qualify, in table order. */
module Queries {
  import opened Wrappers

  function Collect<T, U>(rows: seq<T>, select: T -> Option<U>): seq<U> {
    if rows == [] then [] else
      var before, row := Collect(rows[..|rows| - 1], select), select(rows[|rows| - 1]);
      if row.Some? then before + [row.value] else before
  }

  lemma {:induction false} CollectConcat<T, U>(a: seq<T>, b: seq<T>, select: T -> Option<U>)
    ensures Collect(a + b, select) == Collect(a, select) + Collect(b, select)
  {
    if b == [] {
      assert a + b == a;
    } else {
      assert (a + b)[..|a + b| - 1] == a + b[..|b| - 1];
      CollectConcat(a, b[..|b| - 1], select);
    }
  }

  function One<U>(u: Option<U>): seq<U> {
    if u.Some? then [u.value] else []
  }

  lemma CollectMoved<T, U>(a: seq<T>, x: T, b: seq<T>, select: T -> Option<U>)
    ensures multiset(Collect(a + [x] + b, select)) == multiset(Collect(a + b + [x], select))
  {
    CollectConcat(a + [x], b, select);
    CollectConcat(a, [x], select);
    CollectConcat(a + b, [x], select);
    CollectConcat(a, b, select);
  }

  lemma BagOfRest<T>(front: seq<T>, x: T, b: seq<T>, c: seq<T>)
    requires multiset(front + [x]) == multiset(b + [x] + c)
    ensures multiset(front) == multiset(b + c)
  {
    assert multiset(front) == multiset(front + [x]) - multiset{x};
    assert multiset(b + c) == multiset(b + [x] + c) - multiset{x};
  }

  /** Rows in another order give the same answers in another order. */
  lemma {:induction false} CollectSameBag<T, U>(a: seq<T>, b: seq<T>, select: T -> Option<U>)
    requires multiset(a) == multiset(b)
    ensures multiset(Collect(a, select)) == multiset(Collect(b, select))
  {
    if a == [] {
      assert |multiset(b)| == 0;
    } else {
      var front, x := a[..|a| - 1], a[|a| - 1];
      assert a == front + [x];
      assert x in multiset(b);
      var i :| 0 <= i < |b| && b[i] == x;
      assert b == b[..i] + [x] + b[i + 1..];
      BagOfRest(front, x, b[..i], b[i + 1..]);
      CollectSameBag(front, b[..i] + b[i + 1..], select);
      CollectMoved(b[..i], x, b[i + 1..], select);
      assert (b[..i] + b[i + 1..] + [x])[..|b| - 1] == b[..i] + b[i + 1..];
    }
  }
}

/** ask_corpus_indexer.py, lines 49-113: one corpus document, and the tables it is made from. */
module CorpusDocs {
  import opened Wrappers
  import opened Sequences
  import opened Sorting
  import opened TextOrder
  import opened Tokens
  import opened Queries

  const DESC_HEAD_CHARS := 400

  datatype Server = Server(id: string, name: Option<string>, verdict: Option<string>, riskTier: Option<string>,
                           source: Option<string>, description: Option<string>)

  /** One entry of a dictionary from axis to label, in insertion order. */
  datatype Label = Label(axis: string, value: string)

  datatype Terms = Terms(name: set<string>, verdict: set<string>, axes: set<string>, desc: set<string>,
                         cve: Option<set<string>>)

  datatype Doc = Doc(snippet: string, terms: Terms)

  datatype AxisRow = AxisRow(sid: string, axis: string, text: Option<string>, version: string)

  datatype Link = Link(aid: string, sid: string)

  /** What one run reads: `latest` is the latest model version, `advisories` the severity of each advisory. */
  datatype Tables = Tables(registry: seq<Server>, latest: Option<string>, axisRows: seq<AxisRow>, links: seq<Link>,
                           advisories: map<string, Option<string>>)

  // ----- the document -----

  function OrEmpty(s: Option<string>): string {
    if s.Some? then s.value else ""
  }

  /** A value inside an f-string. */
  function Shown(s: Option<string>): string {
    if s.Some? then s.value else "None"
  }

  predicate Truthy(s: Option<string>) {
    s.Some? && s.value != ""
  }

  predicate LabelAtMost(a: Label, b: Label) {
    Less(a.axis, b.axis) || (a.axis == b.axis && AtMost(a.value, b.value))
  }

  function Equations(labels: seq<Label>): seq<string> {
    if labels == [] then [] else [labels[0].axis + "=" + labels[0].value] + Equations(labels[1..])
  }

  function Axes(labels: seq<Label>): seq<string> {
    if labels == [] then [] else [labels[0].axis] + Axes(labels[1..])
  }

  function Values(labels: seq<Label>): seq<string> {
    if labels == [] then [] else [labels[0].value] + Values(labels[1..])
  }

  function Head(server: Server): string {
    var desc := OrEmpty(server.description);
    if |desc| <= DESC_HEAD_CHARS then desc else desc[..DESC_HEAD_CHARS]
  }

  function CveSegment(cves: seq<string>): string {
    if Join(cves) == "" then "" else "cve=" + Join(cves) + " | "
  }

  function Banner(server: Server): string {
    (if Truthy(server.name) then server.name.value else server.id) + " | verdict=" + Shown(server.verdict)
    + " tier=" + Shown(server.riskTier) + " source=" + Shown(server.source) + " | "
  }

  function BuildDoc(server: Server, labels: seq<Label>, cves: seq<string>): Doc {
    Doc(Banner(server) + Join(Equations(SortBy(labels, LabelAtMost))) + " | " + CveSegment(cves) + Head(server),
        Terms(Tokenize(OrEmpty(server.name)),
              Tokenize(Shown(server.verdict) + " " + Shown(server.riskTier) + " " + Shown(server.source)),
              Tokenize(Join(Axes(labels) + Values(labels))),
              Tokenize(Head(server)),
              if Join(cves) == "" then None else Some(Tokenize(Join(cves)))))
  }

  // ----- what the tables say of one server -----

  /** d[axis] = value */
  function Put(labels: seq<Label>, axis: string, value: string): seq<Label> {
    if labels == [] then [Label(axis, value)]
    else if labels[0].axis == axis then [Label(axis, value)] + labels[1..]
    else [labels[0]] + Put(labels[1..], axis, value)
  }

  predicate Wanted(row: AxisRow, latest: Option<string>) {
    Truthy(latest) && row.version == latest.value && Truthy(row.text)
  }

  function LabelsOf(rows: seq<AxisRow>, latest: Option<string>, sid: string): seq<Label> {
    if rows == [] then [] else
      var before, row := LabelsOf(rows[..|rows| - 1], latest, sid), rows[|rows| - 1];
      if row.sid == sid && Wanted(row, latest) then Put(before, row.axis, row.text.value) else before
  }

  function CveText(aid: string, severity: Option<string>): string {
    aid + ":" + if Truthy(severity) then severity.value else "UNKNOWN"
  }

  function LinkText(advisories: map<string, Option<string>>, sid: string): Link -> Option<string> {
    (link: Link) =>
      if link.sid == sid && link.aid in advisories then Some(CveText(link.aid, advisories[link.aid])) else None
  }

  function LinkedTo(links: seq<Link>, advisories: map<string, Option<string>>, sid: string): seq<string> {
    Collect(links, LinkText(advisories, sid))
  }

  function CvesOf(links: seq<Link>, advisories: map<string, Option<string>>, sid: string): seq<string> {
    SortBy(LinkedTo(links, advisories, sid), AtMost)
  }

  /** What the tables as a whole make of one server. */
  function DocOf(t: Tables, server: Server): Doc {
    BuildDoc(server, LabelsOf(t.axisRows, t.latest, server.id), CvesOf(t.links, t.advisories, server.id))
  }

  // ----- the chunk-restricted dictionaries -----

  function Entry<T>(m: map<string, seq<T>>, key: string): seq<T> {
    if key in m then m[key] else []
  }

  ghost predicate AxisMapOf(m: map<string, seq<Label>>, rows: seq<AxisRow>, sids: seq<string>, latest: Option<string>) {
    forall sid :: Entry(m, sid) == if sid in sids then LabelsOf(rows, latest, sid) else []
  }

  lemma AxisMapStep(m: map<string, seq<Label>>, rows: seq<AxisRow>, sids: seq<string>, latest: Option<string>, i: nat)
    requires i < |rows| && AxisMapOf(m, rows[..i], sids, latest)
    ensures var row := rows[i];
            AxisMapOf(if row.sid in sids && Wanted(row, latest)
                      then m[row.sid := Put(Entry(m, row.sid), row.axis, row.text.value)] else m,
                      rows[..i + 1], sids, latest)
  {
    assert rows[..i + 1][..i] == rows[..i];
  }

  lemma {:induction false} NoLabels(rows: seq<AxisRow>, latest: Option<string>, sid: string)
    requires !Truthy(latest)
    ensures LabelsOf(rows, latest, sid) == []
  {
    if rows != [] {
      NoLabels(rows[..|rows| - 1], latest, sid);
    }
  }

  /** `_axis_labels_for`: for every server of the chunk what the whole table says of it, for no other server
      anything. */
  method AxisLabelsFor(rows: seq<AxisRow>, sids: seq<string>, latest: Option<string>)
    returns (out: map<string, seq<Label>>)
    ensures forall sid :: Entry(out, sid) == if sid in sids then LabelsOf(rows, latest, sid) else []
  {
    out := map[];
    if Truthy(latest) && sids != [] {
      for i := 0 to |rows|
        invariant AxisMapOf(out, rows[..i], sids, latest)
      {
        AxisMapStep(out, rows, sids, latest, i);
        var row := rows[i];
        if row.version == latest.value && row.sid in sids {
          if Truthy(row.text) {
            out := out[row.sid := Put(Entry(out, row.sid), row.axis, row.text.value)];
          }
        }
      }
      assert rows[..|rows|] == rows;
    } else if !Truthy(latest) {
      forall sid ensures LabelsOf(rows, latest, sid) == [] {
        NoLabels(rows, latest, sid);
      }
    }
  }

  ghost predicate CveMapOf(m: map<string, seq<string>>, links: seq<Link>, advisories: map<string, Option<string>>,
                           sids: seq<string>)
  {
    forall sid :: Entry(m, sid) == if sid in sids then LinkedTo(links, advisories, sid) else []
  }

  lemma CveMapStep(m: map<string, seq<string>>, links: seq<Link>, advisories: map<string, Option<string>>,
                   sids: seq<string>, i: nat)
    requires i < |links| && CveMapOf(m, links[..i], advisories, sids)
    ensures var link := links[i];
            CveMapOf(if link.sid in sids && link.aid in advisories
                     then m[link.sid := Entry(m, link.sid) + [CveText(link.aid, advisories[link.aid])]] else m,
                     links[..i + 1], advisories, sids)
  {
    assert links[..i + 1][..i] == links[..i];
  }

  /** `_cve_ids_for`: likewise, sorted. */
  method CveIdsFor(links: seq<Link>, advisories: map<string, Option<string>>, sids: seq<string>)
    returns (out: map<string, seq<string>>)
    ensures forall sid :: Entry(out, sid) == if sid in sids then CvesOf(links, advisories, sid) else []
  {
    var found: map<string, seq<string>> := map[];
    if sids != [] {
      for i := 0 to |links|
        invariant CveMapOf(found, links[..i], advisories, sids)
      {
        CveMapStep(found, links, advisories, sids, i);
        var link := links[i];
        if link.sid in sids && link.aid in advisories {
          found := found[link.sid := Entry(found, link.sid) + [CveText(link.aid, advisories[link.aid])]];
        }
      }
      assert links[..|links|] == links;
    }
    out := map k | k in found :: SortBy(found[k], AtMost);
    forall sid ensures Entry(out, sid) == SortBy(Entry(found, sid), AtMost) {
    }
  }

  // ----- rows may come back in any order -----

  lemma LabelAtMostOrders()
    ensures TotalPreorder(LabelAtMost) && Antisymmetric(LabelAtMost)
  {
    forall a, b ensures LabelAtMost(a, b) || LabelAtMost(b, a)
            ensures LabelAtMost(a, b) && LabelAtMost(b, a) ==> a == b {
      LessIsTotal(a.axis, b.axis);
      LessIsTotal(a.value, b.value);
    }
    forall a, b, c | LabelAtMost(a, b) && LabelAtMost(b, c) ensures LabelAtMost(a, c) {
      if Less(a.axis, b.axis) && Less(b.axis, c.axis) {
        LessIsTransitive(a.axis, b.axis, c.axis);
      } else if a.axis == b.axis == c.axis {
        AtMostIsTransitive(a.value, b.value, c.value);
      }
    }
  }

  lemma {:induction false} AxesAndValues(labels: seq<Label>)
    ensures Elems(Axes(labels)) == (set l | l in labels :: l.axis)
    ensures Elems(Values(labels)) == (set l | l in labels :: l.value)
  {
    if labels != [] {
      AxesAndValues(labels[1..]);
      ElemsPrepend(labels[0].axis, Axes(labels[1..]));
      ElemsPrepend(labels[0].value, Values(labels[1..]));
      assert labels == [labels[0]] + labels[1..];
    }
  }

  lemma TokensOfSameParts(a: seq<string>, b: seq<string>)
    requires Elems(a) == Elems(b)
    ensures Tokenize(Join(a)) == Tokenize(Join(b))
  {
    TokensOfJoin(a);
    TokensOfJoin(b);
    assert forall p :: p in a <==> p in Elems(a);
    assert forall p :: p in b <==> p in Elems(b);
  }

  /** The order of the label dictionary does not show in the document. */
  lemma LabelOrderIsIrrelevant(server: Server, a: seq<Label>, b: seq<Label>, cves: seq<string>)
    requires multiset(a) == multiset(b)
    ensures BuildDoc(server, a, cves) == BuildDoc(server, b, cves)
  {
    LabelAtMostOrders();
    SortOfSameBag(a, b, LabelAtMost);
    AxesAndValues(a);
    AxesAndValues(b);
    assert forall l :: l in a <==> l in multiset(a);
    assert forall l :: l in b <==> l in multiset(b);
    assert Elems(Axes(a) + Values(a)) == Elems(Axes(a)) + Elems(Values(a));
    assert Elems(Axes(b) + Values(b)) == Elems(Axes(b)) + Elems(Values(b));
    TokensOfSameParts(Axes(a) + Values(a), Axes(b) + Values(b));
  }

  /** The natural key of an axis score: server, axis, model version. */
  function NaturalKey(row: AxisRow): (string, string, string) {
    (row.sid, row.axis, row.version)
  }

  ghost predicate UniqueKeys(rows: seq<AxisRow>) {
    forall i, j | 0 <= i < j < |rows| :: NaturalKey(rows[i]) != NaturalKey(rows[j])
  }

  function RowLabel(latest: Option<string>, sid: string): AxisRow -> Option<Label> {
    (row: AxisRow) => if row.sid == sid && Wanted(row, latest) then Some(Label(row.axis, row.text.value)) else None
  }

  lemma {:induction false} PutNew(labels: seq<Label>, axis: string, value: string)
    requires forall l | l in labels :: l.axis != axis
    ensures Put(labels, axis, value) == labels + [Label(axis, value)]
  {
    if labels != [] {
      assert labels[0] in labels && forall l | l in labels[1..] :: l in labels;
      PutNew(labels[1..], axis, value);
      assert labels == [labels[0]] + labels[1..];
    }
  }

  /** With unique keys the dictionary holds each wanted label once. */
  lemma {:induction false} LabelsAreCollected(rows: seq<AxisRow>, latest: Option<string>, sid: string)
    requires UniqueKeys(rows)
    ensures LabelsOf(rows, latest, sid) == Collect(rows, RowLabel(latest, sid))
  {
    if rows != [] {
      var before, row := rows[..|rows| - 1], rows[|rows| - 1];
      LabelsAreCollected(before, latest, sid);
      if row.sid == sid && Wanted(row, latest) {
        assert rows == before + [row];
        AxisIsNew(before, row, latest);
        PutNew(LabelsOf(before, latest, sid), row.axis, row.text.value);
      }
    }
  }

  lemma {:induction false} LabelHasARow(rows: seq<AxisRow>, latest: Option<string>, sid: string, l: Label)
    requires l in Collect(rows, RowLabel(latest, sid))
    ensures exists i :: 0 <= i < |rows| && rows[i].sid == sid && Wanted(rows[i], latest) && rows[i].axis == l.axis
  {
    var last := rows[|rows| - 1];
    if !(last.sid == sid && Wanted(last, latest) && last.axis == l.axis) {
      LabelHasARow(rows[..|rows| - 1], latest, sid, l);
    }
  }

  lemma AxisIsNew(before: seq<AxisRow>, row: AxisRow, latest: Option<string>)
    requires UniqueKeys(before + [row]) && Wanted(row, latest)
    requires LabelsOf(before, latest, row.sid) == Collect(before, RowLabel(latest, row.sid))
    ensures forall l | l in LabelsOf(before, latest, row.sid) :: l.axis != row.axis
  {
    forall l | l in LabelsOf(before, latest, row.sid) ensures l.axis != row.axis {
      LabelHasARow(before, latest, row.sid, l);
      var i :| 0 <= i < |before| && before[i].sid == row.sid && Wanted(before[i], latest) && before[i].axis == l.axis;
      assert NaturalKey((before + [row])[i]) != NaturalKey((before + [row])[|before|]);
    }
  }

  /** Neither query orders its rows: any order of the axis scores and of the links gives the same document. */
  lemma RowOrderIsIrrelevant(server: Server, t: Tables, u: Tables)
    requires t.latest == u.latest && t.advisories == u.advisories
    requires multiset(t.axisRows) == multiset(u.axisRows) && multiset(t.links) == multiset(u.links)
    requires UniqueKeys(t.axisRows) && UniqueKeys(u.axisRows)
    ensures DocOf(t, server) == DocOf(u, server)
  {
    LabelsAreCollected(t.axisRows, t.latest, server.id);
    LabelsAreCollected(u.axisRows, u.latest, server.id);
    CollectSameBag(t.axisRows, u.axisRows, RowLabel(t.latest, server.id));
    CollectSameBag(t.links, u.links, LinkText(t.advisories, server.id));
    AtMostOrders();
    SortOfSameBag(LinkedTo(t.links, t.advisories, server.id), LinkedTo(u.links, u.advisories, server.id), AtMost);
    LabelOrderIsIrrelevant(server, LabelsOf(t.axisRows, t.latest, server.id), LabelsOf(u.axisRows, u.latest, server.id),
                           CvesOf(t.links, t.advisories, server.id));
  }

  // ----- linked advisories -----

  ghost predicate OccursAt(part: string, text: string, i: int) {
    0 <= i <= |text| - |part| && text[i..i + |part|] == part
  }

  ghost predicate Occurs(part: string, text: string) {
    exists i :: OccursAt(part, text, i)
  }

  lemma OccursInside(part: string, before: string, text: string, after: string)
    requires Occurs(part, text)
    ensures Occurs(part, before + text + after)
  {
    var i :| OccursAt(part, text, i);
    assert (before + text + after)[|before| + i..|before| + i + |part|] == text[i..i + |part|];
    assert OccursAt(part, before + text + after, |before| + i);
  }

  lemma OccursAlone(part: string)
    ensures Occurs(part, part)
  {
    assert OccursAt(part, part, 0);
  }

  lemma {:induction false} PartOccursInJoin(parts: seq<string>, part: string)
    requires part in parts
    ensures Occurs(part, Join(parts))
  {
    OccursAlone(part);
    if |parts| > 1 {
      if part == parts[0] {
        OccursInside(part, "", part, " " + Join(parts[1..]));
        assert "" + part + (" " + Join(parts[1..])) == Join(parts);
      } else {
        PartOccursInJoin(parts[1..], part);
        OccursInside(part, parts[0] + " ", Join(parts[1..]), "");
        assert parts[0] + " " + Join(parts[1..]) + "" == Join(parts);
      }
    }
  }

  lemma {:induction false} LinkIsCollected(links: seq<Link>, advisories: map<string, Option<string>>, link: Link)
    requires link in links && link.aid in advisories
    ensures CveText(link.aid, advisories[link.aid]) in LinkedTo(links, advisories, link.sid)
  {
    if links[|links| - 1] != link {
      LinkIsCollected(links[..|links| - 1], advisories, link);
    }
  }

  lemma SortedHasTheSame(xs: seq<string>, x: string)
    ensures x in SortBy(xs, AtMost) <==> x in xs
  {
    AtMostOrders();
    SortByCorrect(xs, AtMost);
    assert x in SortBy(xs, AtMost) <==> x in multiset(SortBy(xs, AtMost));
  }

  /** Every linked advisory id stands in the snippet as an exact substring, and the document has a cve field. */
  lemma LinkedIdIsInTheSnippet(t: Tables, server: Server, link: Link)
    requires link in t.links && link.sid == server.id && link.aid in t.advisories
    ensures Occurs(link.aid, DocOf(t, server).snippet) && DocOf(t, server).terms.cve.Some?
  {
    var text := CveText(link.aid, t.advisories[link.aid]);
    var cves := CvesOf(t.links, t.advisories, server.id);
    LinkIsCollected(t.links, t.advisories, link);
    SortedHasTheSame(LinkedTo(t.links, t.advisories, server.id), text);
    IdOccursInText(link.aid, t.advisories[link.aid]);
    PartOccursInJoin(cves, text);
    OccursWithin(link.aid, text, Join(cves));
    JoinOccursInSnippet(server, LabelsOf(t.axisRows, t.latest, server.id), cves, text);
    OccursWithin(link.aid, Join(cves), DocOf(t, server).snippet);
  }

  lemma IdOccursInText(aid: string, severity: Option<string>)
    ensures Occurs(aid, CveText(aid, severity))
  {
    var text := CveText(aid, severity);
    OccursAlone(aid);
    OccursInside(aid, "", aid, text[|aid|..]);
    assert "" + aid + text[|aid|..] == text;
  }

  lemma JoinOccursInSnippet(server: Server, labels: seq<Label>, cves: seq<string>, part: string)
    requires part != "" && Occurs(part, Join(cves))
    ensures var doc := BuildDoc(server, labels, cves); Occurs(Join(cves), doc.snippet) && doc.terms.cve.Some?
  {
    SegmentOccurs(Banner(server) + Join(Equations(SortBy(labels, LabelAtMost))) + " | ", Join(cves), Head(server));
  }

  /** Linked advisories insert one segment in front of the description head; without them there is none. */
  lemma SegmentIsInserted(server: Server, labels: seq<Label>, cves: seq<string>) returns (front: string)
    requires Join(cves) != ""
    ensures BuildDoc(server, labels, []).snippet == front + Head(server)
    ensures BuildDoc(server, labels, cves).snippet == front + ("cve=" + Join(cves) + " | ") + Head(server)
  {
    front := Banner(server) + Join(Equations(SortBy(labels, LabelAtMost))) + " | ";
    assert front + "" == front;
  }

  lemma SegmentOccurs(front: string, all: string, head: string)
    ensures Occurs(all, front + ("cve=" + all + " | ") + head)
  {
    OccursAlone(all);
    OccursInside(all, "cve=", all, " | ");
    OccursInside(all, front, "cve=" + all + " | ", head);
  }

  lemma {:induction false} SomeLinkIff(links: seq<Link>, advisories: map<string, Option<string>>, sid: string)
    ensures LinkedTo(links, advisories, sid) != []
       <==> exists l :: l in links && l.sid == sid && l.aid in advisories
  {
    if links != [] {
      var before, last := links[..|links| - 1], links[|links| - 1];
      SomeLinkIff(before, advisories, sid);
      assert forall l :: l in links <==> l in before || l == last;
    }
  }

  lemma {:induction false} JoinIsEmptyIff(parts: seq<string>)
    requires "" !in parts
    ensures Join(parts) == "" <==> parts == []
  {
    if |parts| == 1 {
      assert parts[0] in parts;
    }
  }

  lemma {:induction false} LinkTextsAreNotEmpty(links: seq<Link>, advisories: map<string, Option<string>>, sid: string)
    ensures "" !in LinkedTo(links, advisories, sid)
  {
    if links != [] {
      LinkTextsAreNotEmpty(links[..|links| - 1], advisories, sid);
    }
  }

  /** A document has a cve field exactly when some known advisory is linked to its server. */
  lemma CveFieldIff(t: Tables, server: Server)
    ensures DocOf(t, server).terms.cve.Some?
       <==> exists l :: l in t.links && l.sid == server.id && l.aid in t.advisories
  {
    var linked := LinkedTo(t.links, t.advisories, server.id);
    SomeLinkIff(t.links, t.advisories, server.id);
    LinkTextsAreNotEmpty(t.links, t.advisories, server.id);
    AtMostOrders();
    SortByCorrect(linked, AtMost);
    SortedHasTheSame(linked, "");
    JoinIsEmptyIff(CvesOf(t.links, t.advisories, server.id));
  }

  // ----- what the terms are -----

  /** The last row of the newest model version that gives the server a non-empty label on the axis has this label. */
  ghost predicate HasLabel(rows: seq<AxisRow>, latest: Option<string>, sid: string, axis: string, value: string) {
    && latest.Some? && latest.value != ""
    && exists i: nat :: IsLastLabel(rows, latest.value, sid, axis, i) && rows[i].text == Some(value)
  }

  ghost predicate IsLastLabel(rows: seq<AxisRow>, version: string, sid: string, axis: string, i: nat) {
    && i < |rows| && Labels(rows[i], version, sid, axis)
    && forall k | i < k < |rows| :: !Labels(rows[k], version, sid, axis)
  }

  ghost predicate Labels(row: AxisRow, version: string, sid: string, axis: string) {
    row.sid == sid && row.axis == axis && row.version == version && row.text.Some? && row.text.value != ""
  }

  ghost predicate OneLabelAnAxis(labels: seq<Label>) {
    forall i, j | 0 <= i < j < |labels| :: labels[i].axis != labels[j].axis
  }

  lemma {:induction false} PutIff(labels: seq<Label>, axis: string, value: string, l: Label)
    requires OneLabelAnAxis(labels)
    ensures l in Put(labels, axis, value) <==> l == Label(axis, value) || (l in labels && l.axis != axis)
  {
    if labels != [] {
      var rest := labels[1..];
      assert labels == [labels[0]] + rest && forall i | 0 <= i < |rest| :: rest[i] == labels[i + 1];
      if labels[0].axis == axis {
        assert forall m | m in rest :: m.axis != axis;
      } else {
        PutIff(rest, axis, value, l);
      }
    }
  }

  lemma {:induction false} PutAxes(labels: seq<Label>, axis: string, value: string)
    ensures forall m | m in Put(labels, axis, value) :: m.axis == axis || m in labels
  {
    if labels != [] && labels[0].axis != axis {
      PutAxes(labels[1..], axis, value);
    }
  }

  lemma OneMoreAxis(first: Label, rest: seq<Label>)
    requires OneLabelAnAxis(rest) && forall m | m in rest :: m.axis != first.axis
    ensures OneLabelAnAxis([first] + rest)
  {
    var all := [first] + rest;
    forall i, j | 0 <= i < j < |all| ensures all[i].axis != all[j].axis {
      assert all[j] == rest[j - 1] && rest[j - 1] in rest;
    }
  }

  lemma {:induction false} PutKeepsOneLabel(labels: seq<Label>, axis: string, value: string)
    requires OneLabelAnAxis(labels)
    ensures OneLabelAnAxis(Put(labels, axis, value))
  {
    if labels != [] {
      var first, rest := labels[0], labels[1..];
      assert forall i | 0 <= i < |rest| :: rest[i] == labels[i + 1];
      assert forall m | m in rest :: m.axis != first.axis;
      if first.axis == axis {
        OneMoreAxis(Label(axis, value), rest);
      } else {
        PutKeepsOneLabel(rest, axis, value);
        PutAxes(rest, axis, value);
        OneMoreAxis(first, Put(rest, axis, value));
      }
    }
  }

  lemma LastLabelStep(rows: seq<AxisRow>, version: string, sid: string, axis: string, i: nat)
    requires rows != []
    ensures var n := |rows| - 1;
            IsLastLabel(rows, version, sid, axis, i)
            <==> if Labels(rows[n], version, sid, axis) then i == n
                 else i < n && IsLastLabel(rows[..n], version, sid, axis, i)
  {
    var n := |rows| - 1;
    assert forall k | 0 <= k < n :: rows[..n][k] == rows[k];
  }

  lemma HasLabelStep(rows: seq<AxisRow>, latest: Option<string>, sid: string, axis: string, value: string)
    requires rows != [] && latest.Some? && latest.value != ""
    ensures var before, last := rows[..|rows| - 1], rows[|rows| - 1];
            HasLabel(rows, latest, sid, axis, value)
            <==> if Labels(last, latest.value, sid, axis) then last.text == Some(value)
                 else HasLabel(before, latest, sid, axis, value)
  {
    forall i: nat {
      LastLabelStep(rows, latest.value, sid, axis, i);
    }
    var n := |rows| - 1;
    assert IsLastLabel(rows, latest.value, sid, axis, n) <==> Labels(rows[n], latest.value, sid, axis);
  }

  /** The dictionary of a server holds, for each axis, the last label that the query returns. */
  lemma {:induction false} LabelsOfIff(rows: seq<AxisRow>, latest: Option<string>, sid: string, l: Label)
    ensures OneLabelAnAxis(LabelsOf(rows, latest, sid))
    ensures l in LabelsOf(rows, latest, sid) <==> HasLabel(rows, latest, sid, l.axis, l.value)
  {
    if !Truthy(latest) {
      NoLabels(rows, latest, sid);
    } else if rows != [] {
      var before, row := rows[..|rows| - 1], rows[|rows| - 1];
      LabelsOfIff(before, latest, sid, l);
      HasLabelStep(rows, latest, sid, l.axis, l.value);
      if row.sid == sid && Wanted(row, latest) {
        PutIff(LabelsOf(before, latest, sid), row.axis, row.text.value, l);
        PutKeepsOneLabel(LabelsOf(before, latest, sid), row.axis, row.text.value);
      }
    }
  }

  lemma {:induction false} LinkedToIff(links: seq<Link>, advisories: map<string, Option<string>>, sid: string,
                                       x: string)
    ensures x in LinkedTo(links, advisories, sid)
       <==> exists l :: l in links && l.sid == sid && l.aid in advisories && x == CveText(l.aid, advisories[l.aid])
  {
    if links != [] {
      var before, last := links[..|links| - 1], links[|links| - 1];
      LinkedToIff(before, advisories, sid, x);
      assert forall l :: l in links <==> l in before || l == last;
    }
  }

  lemma FoundAround(t: string, a: string, c: char, b: string)
    requires !TokenChar(Lower(c))
    ensures t in Tokenize(a + [c] + b) <==> Found(t, a) || Found(t, b)
  {
    ScanAround(a, c, b, "");
    TokensAreTheMatches(a, t);
    TokensAreTheMatches(b, t);
  }

  lemma FoundInJoin(t: string, parts: seq<string>)
    ensures t in Tokenize(Join(parts)) <==> exists p :: p in parts && Found(t, p)
  {
    TokensOfJoin(parts);
    forall p ensures t in Tokenize(p) <==> Found(t, p) {
      TokensAreTheMatches(p, t);
    }
  }

  /** A token of one of the server's axis names or of their labels. */
  ghost predicate InLabels(t: Tables, sid: string, w: string) {
    exists axis, value :: HasLabel(t.axisRows, t.latest, sid, axis, value) && (Found(w, axis) || Found(w, value))
  }

  /** A token of the id or of the severity of an advisory linked to the server. */
  ghost predicate InLinks(t: Tables, sid: string, w: string) {
    exists l :: l in t.links && l.sid == sid && l.aid in t.advisories
                && (Found(w, l.aid) || Found(w, SeverityText(t.advisories[l.aid])))
  }

  ghost function SeverityText(severity: Option<string>): string {
    if severity.None? || severity.value == "" then "UNKNOWN" else severity.value
  }

  ghost function TextOr(s: Option<string>, fallback: string): string {
    if s.Some? then s.value else fallback
  }

  /** The terms of a document, field by field: name from the name; verdict from verdict, tier and source, a NULL
      reading "None"; desc from the first 400 characters of the description. */
  lemma TermsOfTheServer(t: Tables, server: Server, w: string)
    ensures var terms := DocOf(t, server).terms;
            && (w in terms.name <==> Found(w, TextOr(server.name, "")))
            && (w in terms.verdict <==> Found(w, TextOr(server.verdict, "None"))
                                        || Found(w, TextOr(server.riskTier, "None"))
                                        || Found(w, TextOr(server.source, "None")))
            && (w in terms.desc <==> var desc := TextOr(server.description, "");
                                     Found(w, if |desc| > 400 then desc[..400] else desc))
  {
    var verdict, tier, source := Shown(server.verdict), Shown(server.riskTier), Shown(server.source);
    TokensAreTheMatches(OrEmpty(server.name), w);
    TokensAreTheMatches(Head(server), w);
    FoundAround(w, verdict + " " + tier, ' ', source);
    FoundAround(w, verdict, ' ', tier);
    TokensAreTheMatches(verdict + " " + tier, w);
    assert [' '] == " ";
  }

  /** ... axes from the names and labels of its axes, cve from the ids and severities of its advisories. */
  lemma TermsOfTheTables(t: Tables, server: Server, w: string)
    ensures var terms := DocOf(t, server).terms;
            && (w in terms.axes <==> InLabels(t, server.id, w))
            && (terms.cve.Some? ==> (w in terms.cve.value <==> InLinks(t, server.id, w)))
  {
    AxisTerms(t, server.id, w);
    if DocOf(t, server).terms.cve.Some? {
      CveTerms(t, server.id, w);
    }
  }

  lemma AxisTerms(t: Tables, sid: string, w: string)
    ensures var labels := LabelsOf(t.axisRows, t.latest, sid);
            w in Tokenize(Join(Axes(labels) + Values(labels))) <==> InLabels(t, sid, w)
  {
    var labels := LabelsOf(t.axisRows, t.latest, sid);
    FoundInJoin(w, Axes(labels) + Values(labels));
    AxesAndValues(labels);
    forall l ensures l in labels <==> HasLabel(t.axisRows, t.latest, sid, l.axis, l.value) {
      LabelsOfIff(t.axisRows, t.latest, sid, l);
    }
    if p :| p in Axes(labels) + Values(labels) && Found(w, p) {
      assert p in Elems(Axes(labels)) || p in Elems(Values(labels));
      var l :| l in labels && (l.axis == p || l.value == p);
    }
    if axis, value :| HasLabel(t.axisRows, t.latest, sid, axis, value) && (Found(w, axis) || Found(w, value)) {
      var l := Label(axis, value);
      assert l in labels;
      assert l.axis in Elems(Axes(labels)) && l.value in Elems(Values(labels));
      assert axis in Axes(labels) + Values(labels) && value in Axes(labels) + Values(labels);
    }
  }

  lemma CveTerms(t: Tables, sid: string, w: string)
    ensures w in Tokenize(Join(CvesOf(t.links, t.advisories, sid))) <==> InLinks(t, sid, w)
  {
    var cves := CvesOf(t.links, t.advisories, sid);
    FoundInJoin(w, cves);
    forall x ensures x in cves <==> exists l :: l in t.links && l.sid == sid && l.aid in t.advisories
                                               && x == CveText(l.aid, t.advisories[l.aid]) {
      SortedHasTheSame(LinkedTo(t.links, t.advisories, sid), x);
      LinkedToIff(t.links, t.advisories, sid, x);
    }
    forall l | l in t.links && l.aid in t.advisories
      ensures Found(w, CveText(l.aid, t.advisories[l.aid]))
         <==> Found(w, l.aid) || Found(w, SeverityText(t.advisories[l.aid]))
    {
      FoundInCveText(w, l.aid, t.advisories[l.aid]);
    }
  }

  lemma FoundInCveText(w: string, aid: string, severity: Option<string>)
    ensures Found(w, CveText(aid, severity)) <==> Found(w, aid) || Found(w, SeverityText(severity))
  {
    FoundAround(w, aid, ':', SeverityText(severity));
    assert aid + [':'] + SeverityText(severity) == CveText(aid, severity);
    TokensAreTheMatches(CveText(aid, severity), w);
  }

  /** Another description leaves all other terms alone, another name leaves all but the name terms. */
  lemma FieldsAreKeptApart(t: Tables, server: Server, description: Option<string>, name: Option<string>)
    ensures var terms := DocOf(t, server).terms;
            && DocOf(t, server.(description := description)).terms.(desc := terms.desc) == terms
            && DocOf(t, server.(name := name)).terms.(name := terms.name) == terms
  {
  }

  lemma PrefixOf(a: string, b: string, c: string)
    requires a <= b
    ensures a <= b + c
  {
    assert (b + c)[..|a|] == b[..|a|];
  }

  lemma NameComesFirst(server: Server, labels: seq<Label>, cves: seq<string>)
    ensures (if server.name.None? || server.name.value == "" then server.id else server.name.value) + " | verdict="
         <= BuildDoc(server, labels, cves).snippet
  {
    var name := if Truthy(server.name) then server.name.value else server.id;
    var axes := Join(Equations(SortBy(labels, LabelAtMost)));
    BannerBegins(name, Shown(server.verdict), Shown(server.riskTier), Shown(server.source));
    PrefixOf(name + " | verdict=", Banner(server), axes);
    PrefixOf(name + " | verdict=", Banner(server) + axes, " | ");
    PrefixOf(name + " | verdict=", Banner(server) + axes + " | ", CveSegment(cves));
    PrefixOf(name + " | verdict=", Banner(server) + axes + " | " + CveSegment(cves), Head(server));
  }

  lemma BannerBegins(name: string, verdict: string, tier: string, source: string)
    ensures name + " | verdict=" <= name + " | verdict=" + verdict + " tier=" + tier + " source=" + source + " | "
  {
    var front := name + " | verdict=";
    PrefixOf(front, front + verdict, " tier=");
    PrefixOf(front, front + verdict + " tier=", tier);
    PrefixOf(front, front + verdict + " tier=" + tier, " source=");
    PrefixOf(front, front + verdict + " tier=" + tier + " source=", source);
    PrefixOf(front, front + verdict + " tier=" + tier + " source=" + source, " | ");
  }

  /** The snippet begins with the name, or the id where there is none, and shows verdict, tier and source, one equation
      per label, and the head of the description. */
  lemma SnippetShowsTheServer(server: Server, labels: seq<Label>, cves: seq<string>)
    ensures var text := BuildDoc(server, labels, cves).snippet;
            && Occurs("verdict=" + Shown(server.verdict) + " tier=" + Shown(server.riskTier)
                      + " source=" + Shown(server.source), text)
            && Occurs(Head(server), text)
            && (if server.name.None? || server.name.value == "" then server.id else server.name.value) + " | verdict="
               <= text
            && forall l | l in labels :: Occurs(l.axis + "=" + l.value, text)
  {
    var sorted := SortBy(labels, LabelAtMost);
    var text := BuildDoc(server, labels, cves).snippet;
    VerdictOccurs(server);
    NameComesFirst(server, labels, cves);
    PiecesOccur(Banner(server), Join(Equations(sorted)), CveSegment(cves), Head(server));
    OccursWithin("verdict=" + Shown(server.verdict) + " tier=" + Shown(server.riskTier) + " source="
                 + Shown(server.source), Banner(server), text);
    LabelAtMostOrders();
    SortByCorrect(labels, LabelAtMost);
    forall l | l in labels ensures Occurs(l.axis + "=" + l.value, text) {
      assert l in multiset(sorted);
      EquationOf(sorted, l);
      PartOccursInJoin(Equations(sorted), l.axis + "=" + l.value);
      OccursWithin(l.axis + "=" + l.value, Join(Equations(sorted)), text);
    }
  }

  lemma {:induction false} EquationAt(labels: seq<Label>, i: nat)
    requires i < |labels|
    ensures |Equations(labels)| == |labels| && Equations(labels)[i] == labels[i].axis + "=" + labels[i].value
  {
    if i > 0 {
      EquationAt(labels[1..], i - 1);
    } else if |labels| > 1 {
      EquationAt(labels[1..], 0);
    }
  }

  /** The equations stand in the snippet in the order of their axes. */
  lemma AxesAreInOrder(server: Server, labels: seq<Label>, cves: seq<string>)
    returns (sorted: seq<Label>, parts: seq<string>)
    ensures multiset(sorted) == multiset(labels)
    ensures forall i, j | 0 <= i < j < |sorted| :: !Less(sorted[j].axis, sorted[i].axis)
    ensures |parts| == |sorted| && forall i | 0 <= i < |parts| :: parts[i] == sorted[i].axis + "=" + sorted[i].value
    ensures Occurs(Join(parts), BuildDoc(server, labels, cves).snippet)
  {
    sorted := SortBy(labels, LabelAtMost);
    parts := Equations(sorted);
    LabelAtMostOrders();
    SortByCorrect(labels, LabelAtMost);
    PiecesOccur(Banner(server), Join(parts), CveSegment(cves), Head(server));
    forall i, j | 0 <= i < j < |sorted| ensures !Less(sorted[j].axis, sorted[i].axis) {
      assert LabelAtMost(sorted[i], sorted[j]);
      LessIsTotal(sorted[i].axis, sorted[j].axis);
    }
    forall i | 0 <= i < |sorted| ensures |parts| == |sorted| && parts[i] == sorted[i].axis + "=" + sorted[i].value {
      EquationAt(sorted, i);
    }
    assert sorted == [] ==> parts == [];
  }

  lemma {:induction false} EquationOf(labels: seq<Label>, l: Label)
    requires l in labels
    ensures l.axis + "=" + l.value in Equations(labels)
  {
    if labels[0] != l {
      EquationOf(labels[1..], l);
    }
  }

  lemma VerdictOccurs(server: Server)
    ensures Occurs("verdict=" + Shown(server.verdict) + " tier=" + Shown(server.riskTier) + " source="
                   + Shown(server.source), Banner(server))
  {
    VerdictOccursIn(if Truthy(server.name) then server.name.value else server.id, Shown(server.verdict),
                    Shown(server.riskTier), Shown(server.source));
  }

  lemma VerdictOccursIn(name: string, verdict: string, tier: string, source: string)
    ensures Occurs("verdict=" + verdict + " tier=" + tier + " source=" + source,
                   name + " | verdict=" + verdict + " tier=" + tier + " source=" + source + " | ")
  {
    var part := "verdict=" + verdict + " tier=" + tier + " source=" + source;
    OccursAlone(part);
    OccursInside(part, name + " | ", part, " | ");
    assert " | verdict=" == " | " + "verdict=";
    assert name + " | " + part + " | "
        == name + " | verdict=" + verdict + " tier=" + tier + " source=" + source + " | ";
  }

  /** Pieces of a snippet. */
  lemma PiecesOccur(banner: string, axes: string, segment: string, head: string)
    ensures var text := banner + axes + " | " + segment + head;
            Occurs(banner, text) && Occurs(axes, text) && Occurs(head, text)
  {
    var text := banner + axes + " | " + segment + head;
    OccursAlone(banner);
    OccursInside(banner, "", banner, axes + " | " + segment + head);
    assert "" + banner + (axes + " | " + segment + head) == text;
    OccursAlone(axes);
    OccursInside(axes, banner, axes, " | " + segment + head);
    assert banner + axes + (" | " + segment + head) == text;
    OccursAlone(head);
    OccursInside(head, banner + axes + " | " + segment, head, "");
    assert banner + axes + " | " + segment + head + "" == text;
  }

  lemma OccursWithin(a: string, b: string, c: string)
    requires Occurs(a, b) && Occurs(b, c)
    ensures Occurs(a, c)
  {
    var i :| OccursAt(b, c, i);
    OccursInside(a, c[..i], b, c[i + |b|..]);
    assert c[..i] + b + c[i + |b|..] == c;
  }

  lemma {:induction false} OtherLinksDoNotShow(more: seq<Link>, advisories: map<string, Option<string>>, sid: string)
    requires forall l | l in more :: l.sid != sid
    ensures LinkedTo(more, advisories, sid) == []
  {
    if more != [] {
      OtherLinksDoNotShow(more[..|more| - 1], advisories, sid);
    }
  }

  function WithLinks(t: Tables, more: seq<Link>): Tables {
    Tables(t.registry, t.latest, t.axisRows, t.links + more, t.advisories)
  }

  /** New links change only the documents of the servers they link. */
  lemma NewLinksTouchOnlyLinked(t: Tables, more: seq<Link>, server: Server)
    requires forall l | l in more :: l.sid != server.id
    ensures DocOf(WithLinks(t, more), server) == DocOf(t, server)
  {
    CollectConcat(t.links, more, LinkText(t.advisories, server.id));
    OtherLinksDoNotShow(more, t.advisories, server.id);
    assert LinkedTo(t.links + more, t.advisories, server.id) == LinkedTo(t.links, t.advisories, server.id);
  }
}
