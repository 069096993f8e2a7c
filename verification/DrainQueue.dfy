/** aidr_commit_gateway_wiring_v2.py: the in-memory commit queue, drained by value. */
module DrainQueue {
  import opened Wrappers

  const VERDICTS_BLOCKED := {"CAUTION_LIMITED", "HIGH_RISK_ISOLATED", "MALICIOUS", "SUSPICIOUS"}
  const VERDICT_ALLOWED_OVERRIDE := {"CAUTION_LIMITED", "HIGH_RISK_ISOLATED"}

  datatype Commit = Commit(serverId: string, hash: string, force: bool, overrideReason: Option<string>, queuedAt: int)

  datatype VerdictRow = VerdictRow(verdict: string, trustScore: Option<real>)

  /** The rows the two queries return for a commit; a NULL score is None inside Some. */
  datatype Facts = Facts(verdict: Option<VerdictRow>, injection: Option<Option<real>>)

  datatype Decision = Decision(commit: Commit, verdict: string, blocked: bool)

  /** `should_block_commit` */
  predicate ShouldBlock(verdict: string, force: bool, reason: Option<string>) {
    if verdict in VERDICTS_BLOCKED then
      if force && reason.Some? && reason.value != "" then
        if verdict in VERDICT_ALLOWED_OVERRIDE then false else true
      else true
    else false
  }

  /** `process_commit`; converting a NULL score to float raises, which is None here. */
  function ProcessCommit(c: Commit, f: Facts): Option<Decision> {
    if f.verdict.Some? && f.verdict.value.trustScore.None? then None
    else if f.injection == Some(None) then None
    else
      var verdict := if f.verdict.Some? then f.verdict.value.verdict else "UNKNOWN";
      Some(Decision(c, verdict, ShouldBlock(verdict, c.force, c.overrideReason)))
  }

  /** list.remove: drops the first equal entry; the source relies on there being one. */
  function RemoveFirst(s: seq<Commit>, c: Commit): seq<Commit>
    requires c in s
  {
    if s[0] == c then s[1..] else [s[0]] + RemoveFirst(s[1..], c)
  }

  function CommitsOf(ds: seq<Decision>): (cs: seq<Commit>)
    ensures |cs| == |ds| && forall i | 0 <= i < |ds| :: cs[i] == ds[i].commit
  {
    seq(|ds|, i requires 0 <= i < |ds| => ds[i].commit)
  }

  /** The decisions on the commits from position i of a snapshot, up to the first that raises. */
  function Decisions(snapshot: seq<Commit>, facts: nat -> Facts, i: nat): seq<Decision>
    requires i <= |snapshot|
    decreases |snapshot| - i
  {
    if i == |snapshot| || ProcessCommit(snapshot[i], facts(i)).None? then []
    else [ProcessCommit(snapshot[i], facts(i)).value] + Decisions(snapshot, facts, i + 1)
  }

  /** What other threads add while the first n commits of a snapshot are processed. */
  function Arrivals(arrive: nat -> seq<Commit>, n: nat): seq<Commit> {
    if n == 0 then [] else Arrivals(arrive, n - 1) + arrive(n - 1)
  }

  /** A NULL trust score in the verdict row found, or a NULL injection score: float(None) raises. */
  predicate Raises(f: Facts) {
    (f.verdict.Some? && f.verdict.value.trustScore.None?) || f.injection == Some(None)
  }

  lemma DecidesItsCommit(c: Commit, f: Facts)
    requires ProcessCommit(c, f).Some?
    ensures ProcessCommit(c, f).value.commit == c
  {
  }

  lemma CommitsPrepend(d: Decision, ds: seq<Decision>, snapshot: seq<Commit>, i: nat)
    requires i + 1 + |ds| <= |snapshot| && CommitsOf(ds) == snapshot[i + 1..i + 1 + |ds|]
    requires d.commit == snapshot[i]
    ensures CommitsOf([d] + ds) == snapshot[i..i + |[d] + ds|]
  {
    assert CommitsOf([d] + ds) == [snapshot[i]] + CommitsOf(ds);
  }

  lemma {:induction false} DecisionsAreAPrefix(snapshot: seq<Commit>, facts: nat -> Facts, i: nat)
    requires i <= |snapshot|
    ensures var ds := Decisions(snapshot, facts, i);
            && i + |ds| <= |snapshot| && CommitsOf(ds) == snapshot[i..i + |ds|]
            && (i + |ds| < |snapshot| ==> Raises(facts(i + |ds|)))
    decreases |snapshot| - i
  {
    if i < |snapshot| && ProcessCommit(snapshot[i], facts(i)).Some? {
      DecisionsAreAPrefix(snapshot, facts, i + 1);
      var ds := Decisions(snapshot, facts, i + 1);
      DecidesItsCommit(snapshot[i], facts(i));
      CommitsPrepend(ProcessCommit(snapshot[i], facts(i)).value, ds, snapshot, i);
    }
  }

  lemma {:induction false} DecidedDoNotRaise(snapshot: seq<Commit>, facts: nat -> Facts, i: nat)
    requires i <= |snapshot|
    ensures forall k | i <= k < i + |Decisions(snapshot, facts, i)| :: !Raises(facts(k))
    decreases |snapshot| - i
  {
    if i < |snapshot| && ProcessCommit(snapshot[i], facts(i)).Some? {
      DecidedDoNotRaise(snapshot, facts, i + 1);
    }
  }

  /** A drain decides the whole queue if and only if the processing of no commit in it raises. */
  lemma AllDecidedIff(snapshot: seq<Commit>, facts: nat -> Facts)
    ensures |Decisions(snapshot, facts, 0)| == |snapshot| <==> forall k | 0 <= k < |snapshot| :: !Raises(facts(k))
  {
    DecisionsAreAPrefix(snapshot, facts, 0);
    DecidedDoNotRaise(snapshot, facts, 0);
  }

  /** The decisions of a drain whose audit row gets written; a failed write is ignored. */
  function Recorded(ds: seq<Decision>, logOk: nat -> bool): seq<Decision> {
    if ds == [] then [] else
      var n := |ds| - 1;
      Recorded(ds[..n], logOk) + RecordOf(ds[n], logOk(n))
  }

  class Gateway {
    var pending: seq<Commit>
    /** The decisions made. */
    var decided: seq<Decision>
    /** The audit log. */
    var log: seq<Decision>

    constructor ()
      ensures pending == [] && decided == [] && log == []
    {
      pending, decided, log := [], [], [];
    }

    method AddCommitToQueue(c: Commit)
      modifies this
      ensures pending == old(pending) + [c] && decided == old(decided) && log == old(log)
    {
      pending := pending + [c];
    }

    /** `log_commit_decision`: a write that fails is ignored. */
    method LogDecision(d: Decision, ok: bool)
      modifies this`decided, this`log
      ensures decided == old(decided) + [d] && log == old(log) + RecordOf(d, ok)
    {
      decided := decided + [d];
      log := log + if ok then [d] else [];
    }

    /** `evaluate_pending_commits`: the drain by value takes exactly the decided commits off the front, even
        among equal entries and while other threads append; an exception leaves the rest in place. */
    method EvaluatePendingCommits(facts: nat -> Facts, arrive: nat -> seq<Commit>, logOk: nat -> bool)
      returns (results: Option<seq<Decision>>)
      modifies this
      ensures var ds := Decisions(old(pending), facts, 0); var n := |ds|;
              && n <= |old(pending)|
              && decided == old(decided) + ds && log == old(log) + Recorded(ds, logOk)
              && pending == old(pending)[n..] + Arrivals(arrive, n)
              && results == if n == |old(pending)| then Some(ds) else None
    {
      var snapshot := pending;
      var out: seq<Decision> := [];
      for i := 0 to |snapshot|
        invariant out + Decisions(snapshot, facts, i) == Decisions(snapshot, facts, 0) && |out| == i
        invariant decided == old(decided) + out && log == old(log) + Recorded(out, logOk)
        invariant pending == snapshot[i..] + Arrivals(arrive, i)
      {
        var r := ProcessCommit(snapshot[i], facts(i));
        DecisionStep(out, snapshot, facts, i, r);
        if r.None? {
          return None;
        }
        RecordedOneMore(out, r.value, logOk);
        AppendTwice(old(log), Recorded(out, logOk), RecordOf(r.value, logOk(i)));
        LogDecision(r.value, logOk(i));
        out := out + [r.value];
        QueueStep(snapshot, i, arrive, pending);
        pending := pending + arrive(i);
        pending := RemoveFirst(pending, snapshot[i]);
      }
      assert out + [] == out;
      results := Some(out);
    }
  }

  lemma DecisionStep(out: seq<Decision>, snapshot: seq<Commit>, facts: nat -> Facts, i: nat, r: Option<Decision>)
    requires i < |snapshot| && r == ProcessCommit(snapshot[i], facts(i))
    ensures r.None? ==> out + Decisions(snapshot, facts, i) == out
    ensures r.Some? ==> out + Decisions(snapshot, facts, i) == (out + [r.value]) + Decisions(snapshot, facts, i + 1)
  {
  }

  function RecordOf(d: Decision, ok: bool): seq<Decision> {
    if ok then [d] else []
  }

  lemma RecordedOneMore(ds: seq<Decision>, d: Decision, logOk: nat -> bool)
    ensures Recorded(ds + [d], logOk) == Recorded(ds, logOk) + RecordOf(d, logOk(|ds|))
  {
    assert (ds + [d])[..|ds|] == ds;
  }

  lemma AppendTwice(a: seq<Decision>, b: seq<Decision>, c: seq<Decision>)
    ensures a + (b + c) == a + b + c
  {
  }

  /** The first n writes all worked. */
  predicate AllWritten(n: nat, logOk: nat -> bool) {
    n > 0 ==> AllWritten(n - 1, logOk) && logOk(n - 1)
  }

  lemma {:induction false} RecordedLength(ds: seq<Decision>, logOk: nat -> bool)
    ensures |Recorded(ds, logOk)| <= |ds|
    ensures |Recorded(ds, logOk)| == |ds| <==> AllWritten(|ds|, logOk)
  {
    if ds != [] {
      RecordedLength(ds[..|ds| - 1], logOk);
    }
  }

  lemma {:induction false} RecordedAll(ds: seq<Decision>, logOk: nat -> bool)
    requires AllWritten(|ds|, logOk)
    ensures Recorded(ds, logOk) == ds
  {
    if ds != [] {
      var n := |ds| - 1;
      RecordedAll(ds[..n], logOk);
      assert ds == ds[..n] + [ds[n]];
    }
  }

  /** The commit being processed is at the head, so removing it by value removes the head. */
  lemma QueueStep(snapshot: seq<Commit>, i: nat, arrive: nat -> seq<Commit>, pending: seq<Commit>)
    requires i < |snapshot| && pending == snapshot[i..] + Arrivals(arrive, i)
    ensures snapshot[i] in pending + arrive(i)
    ensures RemoveFirst(pending + arrive(i), snapshot[i]) == snapshot[i + 1..] + Arrivals(arrive, i + 1)
  {
    var rest := snapshot[i + 1..] + Arrivals(arrive, i + 1);
    HeadAndRest(snapshot[i], snapshot[i + 1..], Arrivals(arrive, i), arrive(i));
    assert snapshot[i..] == [snapshot[i]] + snapshot[i + 1..];
    RemovesHead(snapshot[i], rest);
  }

  lemma HeadAndRest(c: Commit, behind: seq<Commit>, arrived: seq<Commit>, arriving: seq<Commit>)
    ensures [c] + behind + arrived + arriving == [c] + (behind + (arrived + arriving))
  {
  }

  lemma RemovesHead(c: Commit, rest: seq<Commit>)
    ensures c in [c] + rest && RemoveFirst([c] + rest, c) == rest
  {
    assert ([c] + rest)[0] == c;
  }

  // ----- over runs -----

  datatype Op =
    | Add(commit: Commit)
    | Evaluate(facts: nat -> Facts, arrive: nat -> seq<Commit>, logOk: nat -> bool)

  datatype State = State(pending: seq<Commit>, decided: seq<Decision>, enqueued: seq<Commit>, log: seq<Decision>)

  function Step(s: State, op: Op): State {
    match op
    case Add(c) => s.(pending := s.pending + [c], enqueued := s.enqueued + [c])
    case Evaluate(facts, arrive, logOk) =>
      DecisionsAreAPrefix(s.pending, facts, 0);
      var ds := Decisions(s.pending, facts, 0);
      State(s.pending[|ds|..] + Arrivals(arrive, |ds|), s.decided + ds, s.enqueued + Arrivals(arrive, |ds|),
            s.log + Recorded(ds, logOk))
  }

  function Run(s: State, ops: seq<Op>): State {
    if ops == [] then s else Step(Run(s, ops[..|ops| - 1]), ops[|ops| - 1])
  }

  const EMPTY := State([], [], [], [])

  /** Decided and pending commits together are the enqueued ones, in order. */
  ghost predicate InOrder(s: State) {
    CommitsOf(s.decided) + s.pending == s.enqueued
  }

  lemma StepInOrder(s: State, op: Op)
    requires InOrder(s)
    ensures InOrder(Step(s, op))
  {
    match op
    case Add(c) =>
    case Evaluate(facts, arrive, logOk) =>
      DecisionsAreAPrefix(s.pending, facts, 0);
      var ds := Decisions(s.pending, facts, 0);
      EvaluatedInOrder(s, ds, Arrivals(arrive, |ds|));
  }

  lemma EvaluatedInOrder(s: State, ds: seq<Decision>, arrived: seq<Commit>)
    requires InOrder(s) && |ds| <= |s.pending| && CommitsOf(ds) == s.pending[..|ds|]
    ensures CommitsOf(s.decided + ds) + (s.pending[|ds|..] + arrived) == s.enqueued + arrived
  {
    assert CommitsOf(s.decided + ds) == CommitsOf(s.decided) + CommitsOf(ds);
    assert s.pending == s.pending[..|ds|] + s.pending[|ds|..];
  }

  /** First in, first decided, nothing lost, nothing decided twice: over every run, exceptions included. */
  lemma {:induction false} DecidedThenPending(ops: seq<Op>)
    ensures InOrder(Run(EMPTY, ops))
  {
    if ops != [] {
      DecidedThenPending(ops[..|ops| - 1]);
      StepInOrder(Run(EMPTY, ops[..|ops| - 1]), ops[|ops| - 1]);
    }
  }

  /** What was enqueued before an evaluation is all decided after it if and only if nothing pending raised. */
  lemma CaughtUpIff(ops: seq<Op>, facts: nat -> Facts, arrive: nat -> seq<Commit>, logOk: nat -> bool)
    ensures var s := Run(EMPTY, ops);
            CommitsOf(Step(s, Evaluate(facts, arrive, logOk)).decided) == s.enqueued
            <==> forall k | 0 <= k < |s.pending| :: !Raises(facts(k))
  {
    DecidedThenPending(ops);
    var s := Run(EMPTY, ops);
    DecisionsAreAPrefix(s.pending, facts, 0);
    AllDecidedIff(s.pending, facts);
    CaughtUp(s, Decisions(s.pending, facts, 0));
  }

  lemma CaughtUp(s: State, ds: seq<Decision>)
    requires InOrder(s) && |ds| <= |s.pending| && CommitsOf(ds) == s.pending[..|ds|]
    ensures CommitsOf(s.decided + ds) == s.enqueued <==> |ds| == |s.pending|
  {
    assert CommitsOf(s.decided + ds) == CommitsOf(s.decided) + CommitsOf(ds);
    assert |ds| == |s.pending| ==> s.pending[..|ds|] == s.pending;
  }

  /** An evaluation of a non-empty queue decides nothing exactly when it raises on the head. */
  lemma EvaluationStep(t: State, facts: nat -> Facts, arrive: nat -> seq<Commit>, logOk: nat -> bool)
    ensures var u := Step(t, Evaluate(facts, arrive, logOk));
            && t.decided <= u.decided
            && (t.pending != [] ==> (u.decided == t.decided <==> Raises(facts(0))))
            && (u.decided == t.decided ==> t.pending <= u.pending)
  {
    var ds := Decisions(t.pending, facts, 0);
    DecisionsAreAPrefix(t.pending, facts, 0);
    assert |t.decided + ds| == |t.decided| + |ds|;
    if ds == [] {
      assert t.decided + ds == t.decided && t.pending[0..] == t.pending;
    }
  }

  /** From a non-empty queue nothing at all is decided, and nothing leaves the queue, if and only if every evaluation
      raises on the commit at its head. */
  lemma {:induction false} PoisonedHeadBlocks(s: State, ops: seq<Op>)
    requires s.pending != []
    ensures Run(s, ops).decided == s.decided <==> forall op | op in ops && op.Evaluate? :: Raises(op.facts(0))
    ensures Run(s, ops).decided == s.decided ==> s.pending <= Run(s, ops).pending
    ensures s.decided <= Run(s, ops).decided
  {
    if ops != [] {
      var ops', op := ops[..|ops| - 1], ops[|ops| - 1];
      assert ops == ops' + [op];
      PoisonedHeadBlocks(s, ops');
      var t := Run(s, ops');
      if op.Evaluate? {
        EvaluationStep(t, op.facts, op.arrive, op.logOk);
      }
    }
  }

  lemma RunOneMore(s: State, ops: seq<Op>, op: Op)
    ensures Run(s, ops + [op]) == Step(Run(s, ops), op)
  {
    assert (ops + [op])[..|ops|] == ops;
  }

  /** A commit whose verdict row has no trust score, and a good one behind it: neither is ever decided. */
  lemma PoisonedCommit(c: Commit, good: Commit, n: nat)
    ensures var bad := Facts(Some(VerdictRow("TRUSTED", None)), None);
            var fine := Facts(Some(VerdictRow("TRUSTED", Some(80.0))), None);
            var s := State([c, good], [], [c, good], []);
            var drain := Evaluate(k => if k == 0 then bad else fine, k => [], k => true);
            && s == Run(EMPTY, [Add(c), Add(good)])
            && ProcessCommit(good, fine).Some?
            && Run(s, seq(n, i => drain)).decided == [] && [c, good] <= Run(s, seq(n, i => drain)).pending
  {
    var bad := Facts(Some(VerdictRow("TRUSTED", None)), None);
    var fine := Facts(Some(VerdictRow("TRUSTED", Some(80.0))), None);
    var drain := Evaluate(k => if k == 0 then bad else fine, k => [], k => true);
    RunOneMore(EMPTY, [], Add(c));
    RunOneMore(EMPTY, [Add(c)], Add(good));
    assert [] + [Add(c)] == [Add(c)] && [Add(c)] + [Add(good)] == [Add(c), Add(good)];
    PoisonedHeadBlocks(State([c, good], [], [c, good], []), seq(n, i => drain));
  }

  /** Every audit write of the run worked. */
  predicate WritesHeld(ops: seq<Op>) {
    ops != [] ==>
      var before, op := ops[..|ops| - 1], ops[|ops| - 1];
      WritesHeld(before)
      && (op.Evaluate? ==> AllWritten(|Decisions(Run(EMPTY, before).pending, op.facts, 0)|, op.logOk))
  }

  /** Over every run the audit log holds exactly the decisions made, in order, if and only if every write worked. */
  lemma {:induction false} LogIsCompleteIff(ops: seq<Op>)
    ensures |Run(EMPTY, ops).log| <= |Run(EMPTY, ops).decided|
    ensures |Run(EMPTY, ops).log| == |Run(EMPTY, ops).decided| <==> WritesHeld(ops)
    ensures Run(EMPTY, ops).log == Run(EMPTY, ops).decided <==> WritesHeld(ops)
  {
    if ops != [] {
      var before, op := ops[..|ops| - 1], ops[|ops| - 1];
      LogIsCompleteIff(before);
      if op.Evaluate? {
        var ds := Decisions(Run(EMPTY, before).pending, op.facts, 0);
        RecordedLength(ds, op.logOk);
        if AllWritten(|ds|, op.logOk) {
          RecordedAll(ds, op.logOk);
        }
      }
    }
  }

  /** A decision is a block exactly for a blocked verdict without an accepted override; without a row the verdict is
      UNKNOWN, which is not one. */
  lemma BlockedIff(c: Commit, f: Facts)
    requires ProcessCommit(c, f).Some?
    ensures var d := ProcessCommit(c, f).value;
            && d.commit == c && d.verdict == (if f.verdict.Some? then f.verdict.value.verdict else "UNKNOWN")
            && (d.blocked <==> f.verdict.Some?
                               && f.verdict.value.verdict in {"CAUTION_LIMITED", "HIGH_RISK_ISOLATED", "MALICIOUS",
                                                              "SUSPICIOUS"}
                               && !(c.force && c.overrideReason.Some? && c.overrideReason.value != ""
                                    && f.verdict.value.verdict in {"CAUTION_LIMITED", "HIGH_RISK_ISOLATED"}))
  {
    assert |"UNKNOWN"| == 7 && |"CAUTION_LIMITED"| == 15 && |"HIGH_RISK_ISOLATED"| == 18;
    assert |"MALICIOUS"| == 9 && |"SUSPICIOUS"| == 10;
  }
}
