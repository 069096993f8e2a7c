/** Subsequences: what a queue keeps when some of its entries leave. */
module Subsequences {

  predicate Subsequence<T(==)>(a: seq<T>, b: seq<T>) {
    if a == [] then true
    else if b == [] then false
    else (a[|a| - 1] == b[|b| - 1] && Subsequence(a[..|a| - 1], b[..|b| - 1])) || Subsequence(a, b[..|b| - 1])
  }

  lemma {:induction false} Append<T>(a: seq<T>, b: seq<T>, x: T)
    requires Subsequence(a, b)
    ensures Subsequence(a, b + [x]) && Subsequence(a + [x], b + [x])
  {
    assert (b + [x])[..|b|] == b && (a + [x])[..|a|] == a;
  }

  lemma {:induction false} DropLast<T>(a: seq<T>, b: seq<T>)
    requires Subsequence(a, b) && a != []
    ensures Subsequence(a[..|a| - 1], b)
    decreases |b|
  {
    if a[|a| - 1] == b[|b| - 1] && Subsequence(a[..|a| - 1], b[..|b| - 1]) {
      Append(a[..|a| - 1], b[..|b| - 1], b[|b| - 1]);
      assert b == b[..|b| - 1] + [b[|b| - 1]];
    } else {
      DropLast(a, b[..|b| - 1]);
    }
  }

  lemma {:induction false} Transitive<T>(a: seq<T>, b: seq<T>, c: seq<T>)
    requires Subsequence(a, b) && Subsequence(b, c)
    ensures Subsequence(a, c)
    decreases |c|
  {
    if a != [] {
      var b', c' := b[..|b| - 1], c[..|c| - 1];
      if b[|b| - 1] == c[|c| - 1] && Subsequence(b', c') {
        if a[|a| - 1] == b[|b| - 1] && Subsequence(a[..|a| - 1], b') {
          Transitive(a[..|a| - 1], b', c');
        } else {
          Transitive(a, b', c');
        }
      } else {
        Transitive(a, b, c');
      }
    }
  }

  lemma {:induction false} Reflexive<T>(a: seq<T>)
    ensures Subsequence(a, a)
  {
    if a != [] {
      Reflexive(a[..|a| - 1]);
    }
  }
}

/** aidr_verdict_enforcer.py: the commit payload queue and the gate in front of the forwarder. */
module VerdictQueue {
  import opened Wrappers
  import opened Subsequences

  const KNOWN_THREAT := "KNOWN_THREAT"
  const BLOCKED_VERDICTS := ["CAUTION_LIMITED", "HIGH_RISK_ISOLATED", "KNOWN_THREAT"]

  datatype Payload = Payload(serverId: string, mcpServerId: string, body: string, forwardError: Option<string>)

  /** What the queries say about a server at the moment it is checked. */
  datatype Facts = Facts(verdict: Option<string>, exempt: bool, injection: Option<real>)

  datatype Reason = NotFound | Threat | Blocked | Exempted | Approved

  datatype Check = Check(allowed: bool, reason: Reason, verdict: Option<string>)

  /** The first non-empty id field; "" when there is none. */
  function ServerOf(p: Payload): string {
    if p.serverId != "" then p.serverId else p.mcpServerId
  }

  /** `check_commit_allowed` */
  function CheckCommitAllowed(f: Facts): Check {
    if f.verdict.None? then Check(false, NotFound, None)
    else if f.verdict.value == KNOWN_THREAT then Check(false, Threat, f.verdict)
    else if f.verdict.value in BLOCKED_VERDICTS then
      if !f.exempt then Check(false, Blocked, f.verdict) else Check(true, Exempted, f.verdict)
    else Check(true, Approved, f.verdict)
  }

  /** The policy the check implements: registered, no known threat, and exempt where the verdict is restricted. */
  ghost predicate MayForward(f: Facts) {
    && f.verdict.Some?
    && f.verdict != Some("KNOWN_THREAT")
    && (f.verdict.value in {"CAUTION_LIMITED", "HIGH_RISK_ISOLATED"} ==> f.exempt)
  }

  ghost predicate Restricted(f: Facts) {
    f.verdict.Some? && f.verdict.value in {"CAUTION_LIMITED", "HIGH_RISK_ISOLATED"}
  }

  /** The check allows what the policy allows, and its reason tells the cases apart. */
  lemma CheckMeetsPolicy(f: Facts)
    ensures CheckCommitAllowed(f).allowed <==> MayForward(f)
    ensures var reason := CheckCommitAllowed(f).reason;
            && (reason == NotFound <==> f.verdict.None?)
            && (reason == Threat <==> f.verdict == Some("KNOWN_THREAT"))
            && (reason == Blocked <==> Restricted(f) && !f.exempt)
            && (reason == Exempted <==> Restricted(f) && f.exempt)
    ensures CheckCommitAllowed(f).verdict == f.verdict
  {
    assert |"KNOWN_THREAT"| == 12 && |"CAUTION_LIMITED"| == 15 && |"HIGH_RISK_ISOLATED"| == 18;
  }

  /** What happens outside: a decision is recorded, or a payload is posted and accepted or not. */
  datatype Event =
    | Logged(server: string, approved: bool, facts: Facts)
    | Posted(server: string, payload: Payload, ok: bool, facts: Facts, taken: bool)

  /** The world during one cycle, by position in the queue: the facts found, the gateway's error if any, whether the
      decision gets recorded, and whether the gateway takes a request although it counts as failed, as after a timeout
      or an answer that does not parse. There are two records, the log file and the audit table; each can fail, both
      failures are swallowed, and everything here holds of either. */
  datatype World = World(facts: nat -> Facts, error: nat -> Option<string>, logOk: nat -> bool, taken: nat -> bool)

  /** How saving the queue file ends: opening it for writing truncates it, so a failure can leave it unreadable. */
  datatype Save = Saved | Untouched | Torn

  predicate Allowed(p: Payload, w: World, i: nat) {
    ServerOf(p) != "" && CheckCommitAllowed(w.facts(i)).allowed
  }

  predicate Delivered(p: Payload, w: World, i: nat) {
    Allowed(p, w, i) && w.error(i).None?
  }

  /** What stays of the payload at position i: skipped, blocked and failed ones, the failed ones tagged. */
  function Stays(p: Payload, w: World, i: nat): seq<Payload> {
    if Delivered(p, w, i) then []
    else if Allowed(p, w, i) then [p.(forwardError := w.error(i))]
    else [p]
  }

  function Leaves(p: Payload, w: World, i: nat): seq<Payload> {
    if Delivered(p, w, i) then [p] else []
  }

  function PostAt(p: Payload, w: World, i: nat): Event {
    Posted(ServerOf(p), p, w.error(i).None?, w.facts(i), w.error(i).None? || w.taken(i))
  }

  function EventsAt(p: Payload, w: World, i: nat): seq<Event> {
    if ServerOf(p) == "" then []
    else
      (if w.logOk(i) then [Logged(ServerOf(p), Allowed(p, w, i), w.facts(i))] else [])
      + (if Allowed(p, w, i) then [PostAt(p, w, i)] else [])
  }

  /** The queue that is saved. */
  function Kept(ps: seq<Payload>, w: World): seq<Payload> {
    if ps == [] then [] else Kept(ps[..|ps| - 1], w) + Stays(ps[|ps| - 1], w, |ps| - 1)
  }

  function Sent(ps: seq<Payload>, w: World): seq<Payload> {
    if ps == [] then [] else Sent(ps[..|ps| - 1], w) + Leaves(ps[|ps| - 1], w, |ps| - 1)
  }

  function Events(ps: seq<Payload>, w: World): seq<Event> {
    if ps == [] then [] else Events(ps[..|ps| - 1], w) + EventsAt(ps[|ps| - 1], w, |ps| - 1)
  }

  lemma OneMorePayload(ps: seq<Payload>, w: World, i: nat)
    requires i < |ps|
    ensures Kept(ps[..i + 1], w) == Kept(ps[..i], w) + Stays(ps[i], w, i)
    ensures Events(ps[..i + 1], w) == Events(ps[..i], w) + EventsAt(ps[i], w, i)
  {
    assert ps[..i + 1][..i] == ps[..i];
  }

  /** What a file holds for its readers; None is a file that does not parse. */
  function Contents(file: Option<seq<Payload>>): seq<Payload> {
    if file.Some? then file.value else []
  }

  /** `fetch_pending_commit_payloads`; any failure reads as an empty queue. */
  function Fetched(file: Option<seq<Payload>>, readOk: bool): seq<Payload> {
    if readOk then Contents(file) else []
  }

  /** The file after the cycle; with nothing to do it is not written. */
  function FileAfter(file: Option<seq<Payload>>, ps: seq<Payload>, w: World, save: Save): Option<seq<Payload>> {
    if ps == [] || save.Untouched? then file else if save.Saved? then Some(Kept(ps, w)) else None
  }

  class Enforcer {
    /** The queue file. */
    var file: Option<seq<Payload>>
    /** Decision records and requests sent, in order. */
    var trace: seq<Event>

    constructor ()
      ensures file == Some([]) && trace == []
    {
      file, trace := Some([]), [];
    }

    /** The submitter, outside this source, rewrites the file; it starts over from one that does not parse. */
    method Enqueue(p: Payload)
      modifies this
      ensures file == Some(Contents(old(file)) + [p]) && trace == old(trace)
    {
      file := Some(Contents(file) + [p]);
    }

    /** `process_commit_queue`; reading, recording and saving may fail, and all failures are swallowed. */
    method ProcessCommitQueue(w: World, readOk: bool, save: Save)
      modifies this
      ensures file == FileAfter(old(file), Fetched(old(file), readOk), w, save)
      ensures trace == old(trace) + Events(Fetched(old(file), readOk), w)
    {
      var payloads := if readOk && file.Some? then file.value else [];
      if payloads == [] {
        assert trace + [] == trace;
        return;
      }
      var processed := ProcessAll(payloads, w);
      if save.Saved? {
        file := Some(processed);
      } else if save.Torn? {
        file := None;
      }
    }

    method ProcessAll(payloads: seq<Payload>, w: World) returns (processed: seq<Payload>)
      modifies this`trace
      ensures processed == Kept(payloads, w) && trace == old(trace) + Events(payloads, w)
    {
      processed := [];
      for i := 0 to |payloads|
        invariant processed == Kept(payloads[..i], w)
        invariant trace == old(trace) + Events(payloads[..i], w)
      {
        OneMorePayload(payloads, w, i);
        AppendTwice(old(trace), Events(payloads[..i], w), EventsAt(payloads[i], w, i));
        var stays := Process(payloads[i], w, i);
        processed := processed + stays;
      }
      assert payloads[..|payloads|] == payloads;
    }

    /** `log_commit_decision` */
    method LogDecision(server: string, approved: bool, facts: Facts, logOk: bool)
      modifies this`trace
      ensures trace == old(trace) + if logOk then [Logged(server, approved, facts)] else []
    {
      if logOk {
        trace := trace + [Logged(server, approved, facts)];
      }
    }

    /** One turn of the loop, lines 253-293: what the payload adds to the saved list. */
    method Process(p: Payload, w: World, i: nat) returns (stays: seq<Payload>)
      modifies this`trace
      ensures stays == Stays(p, w, i)
      ensures trace == old(trace) + EventsAt(p, w, i)
    {
      var server := ServerOf(p);
      if server == "" {
        return [p];
      }
      var check := CheckCommitAllowed(w.facts(i));
      LogDecision(server, check.allowed, w.facts(i), w.logOk(i));
      if check.allowed {
        trace := trace + [Posted(server, p, w.error(i).None?, w.facts(i), w.error(i).None? || w.taken(i))];
        stays := if w.error(i).Some? then [p.(forwardError := w.error(i))] else [];
      } else {
        stays := [p];
      }
    }
  }

  // ----- conservation over runs -----

  /** A payload without the error tag the queue may attach to it. */
  function Core(p: Payload): Payload {
    p.(forwardError := None)
  }

  function Cores(ps: seq<Payload>): (cs: seq<Payload>)
    ensures |cs| == |ps| && forall i | 0 <= i < |ps| :: cs[i] == Core(ps[i])
  {
    seq(|ps|, i requires 0 <= i < |ps| => Core(ps[i]))
  }

  lemma CoresConcat(a: seq<Payload>, b: seq<Payload>)
    ensures Cores(a + b) == Cores(a) + Cores(b)
  {
  }

  lemma StaysOrLeaves(p: Payload, w: World, i: nat)
    ensures (Cores(Stays(p, w, i)) == [Core(p)] && Leaves(p, w, i) == [])
         || (Stays(p, w, i) == [] && Cores(Leaves(p, w, i)) == [Core(p)])
  {
  }

  /** `kept` and `sent` share out `all`, and `kept` is in the order of `all`. */
  ghost predicate SharedOut(kept: seq<Payload>, sent: seq<Payload>, all: seq<Payload>) {
    && multiset(Cores(kept)) + multiset(Cores(sent)) == multiset(Cores(all))
    && Subsequence(Cores(kept), Cores(all))
  }

  lemma OneMoreShared(kept: seq<Payload>, sent: seq<Payload>, all: seq<Payload>, p: Payload)
    requires multiset(kept) + multiset(sent) == multiset(all) && Subsequence(kept, all)
    ensures multiset(kept + [p]) + multiset(sent) == multiset(all + [p]) && Subsequence(kept + [p], all + [p])
    ensures multiset(kept) + multiset(sent + [p]) == multiset(all + [p]) && Subsequence(kept, all + [p])
  {
    Append(kept, all, p);
  }

  lemma ShareKept(kept: seq<Payload>, sent: seq<Payload>, all: seq<Payload>, p: Payload, stays: seq<Payload>)
    requires SharedOut(kept, sent, all) && Cores(stays) == [Core(p)]
    ensures SharedOut(kept + stays, sent, all + [p])
  {
    CoresConcat(all, [p]);
    CoresConcat(kept, stays);
    OneMoreShared(Cores(kept), Cores(sent), Cores(all), Core(p));
  }

  lemma ShareSent(kept: seq<Payload>, sent: seq<Payload>, all: seq<Payload>, p: Payload, leaves: seq<Payload>)
    requires SharedOut(kept, sent, all) && Cores(leaves) == [Core(p)]
    ensures SharedOut(kept, sent + leaves, all + [p])
  {
    CoresConcat(all, [p]);
    CoresConcat(sent, leaves);
    OneMoreShared(Cores(kept), Cores(sent), Cores(all), Core(p));
  }

  lemma ShareOne(kept: seq<Payload>, sent: seq<Payload>, all: seq<Payload>, p: Payload,
                 stays: seq<Payload>, leaves: seq<Payload>)
    requires SharedOut(kept, sent, all)
    requires (Cores(stays) == [Core(p)] && leaves == []) || (stays == [] && Cores(leaves) == [Core(p)])
    ensures SharedOut(kept + stays, sent + leaves, all + [p])
  {
    if leaves == [] {
      assert sent + leaves == sent;
      ShareKept(kept, sent, all, p, stays);
    } else {
      assert kept + stays == kept;
      ShareSent(kept, sent, all, p, leaves);
    }
  }

  lemma {:induction false} CycleConserves(ps: seq<Payload>, w: World)
    ensures SharedOut(Kept(ps, w), Sent(ps, w), ps)
  {
    if ps != [] {
      var n := |ps| - 1;
      CycleConserves(ps[..n], w);
      StaysOrLeaves(ps[n], w, n);
      ShareOne(Kept(ps[..n], w), Sent(ps[..n], w), ps[..n], ps[n], Stays(ps[n], w, n), Leaves(ps[n], w, n));
      assert ps == ps[..n] + [ps[n]];
    }
  }

  datatype Op = Enqueue(payload: Payload) | Cycle(world: World, readOk: bool, save: Save)

  /** The queue file, everything ever enqueued, and everything successfully forwarded. */
  datatype Ledger = Ledger(file: Option<seq<Payload>>, enqueued: seq<Payload>, sent: seq<Payload>, trace: seq<Event>)

  const EMPTY := Ledger(Some([]), [], [], [])

  function Step(l: Ledger, op: Op): Ledger {
    match op
    case Enqueue(p) => l.(file := Some(Contents(l.file) + [p]), enqueued := l.enqueued + [p])
    case Cycle(w, readOk, save) =>
      var ps := Fetched(l.file, readOk);
      l.(file := FileAfter(l.file, ps, w, save), sent := l.sent + Sent(ps, w), trace := l.trace + Events(ps, w))
  }

  function Run(ops: seq<Op>): Ledger {
    if ops == [] then EMPTY else Step(Run(ops[..|ops| - 1]), ops[|ops| - 1])
  }

  ghost predicate Conserved(l: Ledger) {
    SharedOut(Contents(l.file), l.sent, l.enqueued)
  }

  /** A save that left the old file came after no delivery, one that tore it had nothing to keep. */
  predicate SaveHeld(l: Ledger, op: Op) {
    op.Cycle? ==>
      var ps := Fetched(l.file, op.readOk);
      && (op.save.Untouched? ==> Sent(ps, op.world) == [])
      && (op.save.Torn? ==> Kept(ps, op.world) == [])
  }

  lemma SavedCycle(queue: seq<Payload>, sent: seq<Payload>, all: seq<Payload>,
                   kept: seq<Payload>, leaving: seq<Payload>)
    requires SharedOut(queue, sent, all) && SharedOut(kept, leaving, queue)
    ensures SharedOut(kept, sent + leaving, all)
  {
    CoresConcat(sent, leaving);
    Transitive(Cores(kept), Cores(queue), Cores(all));
  }

  lemma UnsavedCycle(queue: seq<Payload>, sent: seq<Payload>, all: seq<Payload>, leaving: seq<Payload>)
    requires SharedOut(queue, sent, all)
    ensures SharedOut(queue, sent + leaving, all) <==> leaving == []
  {
    SizesAddUp(queue, sent, all);
    if leaving == [] {
      assert sent + leaving == sent;
    } else if SharedOut(queue, sent + leaving, all) {
      SizesAddUp(queue, sent + leaving, all);
    }
  }

  lemma SizesAddUp(kept: seq<Payload>, sent: seq<Payload>, all: seq<Payload>)
    requires SharedOut(kept, sent, all)
    ensures |kept| + |sent| == |all|
  {
    assert |multiset(Cores(kept)) + multiset(Cores(sent))| == |Cores(kept)| + |Cores(sent)|;
    assert |multiset(Cores(all))| == |Cores(all)|;
  }

  lemma TornCycle(queue: seq<Payload>, sent: seq<Payload>, all: seq<Payload>,
                  kept: seq<Payload>, leaving: seq<Payload>)
    requires SharedOut(queue, sent, all) && SharedOut(kept, leaving, queue)
    ensures SharedOut([], sent + leaving, all) <==> kept == []
  {
    SavedCycle(queue, sent, all, kept, leaving);
    SizesAddUp(kept, sent + leaving, all);
    if SharedOut([], sent + leaving, all) {
      SizesAddUp([], sent + leaving, all);
    }
  }

  lemma EnqueueConserves(queue: seq<Payload>, sent: seq<Payload>, all: seq<Payload>, p: Payload)
    requires SharedOut(queue, sent, all)
    ensures SharedOut(queue + [p], sent, all + [p])
  {
    CoresConcat(queue, [p]);
    CoresConcat(all, [p]);
    Append(Cores(queue), Cores(all), Core(p));
  }

  lemma CycleConservesIff(ps: seq<Payload>, sent: seq<Payload>, all: seq<Payload>, w: World, save: Save)
    requires SharedOut(ps, sent, all) && ps != []
    ensures SharedOut(Contents(FileAfter(Some(ps), ps, w, save)), sent + Sent(ps, w), all)
       <==> (save.Untouched? ==> Sent(ps, w) == []) && (save.Torn? ==> Kept(ps, w) == [])
  {
    CycleConserves(ps, w);
    match save
    case Saved => SavedCycle(ps, sent, all, Kept(ps, w), Sent(ps, w));
    case Untouched => UnsavedCycle(ps, sent, all, Sent(ps, w));
    case Torn => TornCycle(ps, sent, all, Kept(ps, w), Sent(ps, w));
  }

  lemma IdleCycle(l: Ledger, op: Op)
    requires op.Cycle? && Fetched(l.file, op.readOk) == []
    ensures Step(l, op) == l
  {
    assert l.sent + [] == l.sent && l.trace + [] == l.trace;
  }

  /** A step keeps the books exactly when its save held. */
  lemma StepConservesIff(l: Ledger, op: Op)
    requires Conserved(l)
    ensures Conserved(Step(l, op)) <==> SaveHeld(l, op)
  {
    if op.Enqueue? {
      EnqueueConserves(Contents(l.file), l.sent, l.enqueued, op.payload);
    } else if Fetched(l.file, op.readOk) == [] {
      IdleCycle(l, op);
    } else {
      CycleConservesIff(Fetched(l.file, op.readOk), l.sent, l.enqueued, op.world, op.save);
    }
  }

  lemma NothingEnqueued()
    ensures Conserved(EMPTY)
  {
    Reflexive(Cores([]));
    assert Cores([]) == [];
  }

  /** Every save of the run held. */
  predicate SavesHeld(ops: seq<Op>) {
    ops != [] ==> SavesHeld(ops[..|ops| - 1]) && SaveHeld(Run(ops[..|ops| - 1]), ops[|ops| - 1])
  }

  /** The books were right after every step of the run. */
  ghost predicate ConservedThroughout(ops: seq<Op>) {
    Conserved(Run(ops)) && (ops != [] ==> ConservedThroughout(ops[..|ops| - 1]))
  }

  /** Over every run of enqueues and cycles: throughout it each payload is either still queued, in the original
      relative order, or was successfully forwarded, never both, if and only if every save held. */
  lemma {:induction false} QueueConserves(ops: seq<Op>)
    ensures ConservedThroughout(ops) <==> SavesHeld(ops)
  {
    NothingEnqueued();
    if ops != [] {
      var before, op := ops[..|ops| - 1], ops[|ops| - 1];
      QueueConserves(before);
      if Conserved(Run(before)) {
        StepConservesIff(Run(before), op);
      }
    }
  }

  /** How many payloads too many are on the books. */
  function Excess(l: Ledger): int {
    |Contents(l.file)| + |l.sent| - |l.enqueued|
  }

  ghost predicate NeverTorn(ops: seq<Op>) {
    forall op | op in ops && op.Cycle? :: !op.save.Torn?
  }

  lemma ExcessStep(l: Ledger, op: Op)
    requires op.Cycle? ==> !op.save.Torn?
    ensures Excess(Step(l, op)) >= Excess(l)
    ensures Excess(Step(l, op)) == Excess(l) <==> SaveHeld(l, op)
  {
    if op.Cycle? {
      var ps := Fetched(l.file, op.readOk);
      CycleConserves(ps, op.world);
      SizesAddUp(Kept(ps, op.world), Sent(ps, op.world), ps);
    }
  }

  lemma {:induction false} ExcessIff(ops: seq<Op>)
    requires NeverTorn(ops)
    ensures Excess(Run(ops)) >= 0
    ensures Excess(Run(ops)) == 0 <==> SavesHeld(ops)
  {
    if ops != [] {
      var before, op := ops[..|ops| - 1], ops[|ops| - 1];
      ExcessIff(before);
      ExcessStep(Run(before), op);
    }
  }

  /** While no save tears the file a mistake is never made good: the books are right in the end if and only if every
      save held. */
  lemma BooksAreRightIff(ops: seq<Op>)
    requires NeverTorn(ops)
    ensures Conserved(Run(ops)) <==> SavesHeld(ops)
  {
    ExcessIff(ops);
    QueueConserves(ops);
    if Conserved(Run(ops)) {
      SizesAddUp(Contents(Run(ops).file), Run(ops).sent, Run(ops).enqueued);
    }
  }

  lemma RunOneMore(ops: seq<Op>, op: Op)
    ensures Run(ops + [op]) == Step(Run(ops), op)
  {
    assert (ops + [op])[..|ops|] == ops;
  }

  lemma RunEnqueue(p: Payload)
    ensures Run([Enqueue(p)]) == Ledger(Some([p]), [p], [], [])
  {
    RunOneMore([], Enqueue(p));
    assert [] + [Enqueue(p)] == [Enqueue(p)] && [] + [p] == [p];
  }

  /** A cycle over a queue of one payload. */
  lemma CycleOne(ops: seq<Op>, p: Payload, w: World, save: Save)
    requires Run(ops).file == Some([p])
    ensures var l := Run(ops);
            Run(ops + [Cycle(w, true, save)])
            == Ledger(FileAfter(l.file, [p], w, save), l.enqueued, l.sent + Leaves(p, w, 0),
                      l.trace + EventsAt(p, w, 0))
    ensures Kept([p], w) == Stays(p, w, 0)
  {
    RunOneMore(ops, Cycle(w, true, save));
    OnePayload(p, w);
  }

  lemma OnePayload(p: Payload, w: World)
    ensures Kept([p], w) == Stays(p, w, 0) && Sent([p], w) == Leaves(p, w, 0) && Events([p], w) == EventsAt(p, w, 0)
  {
    assert [p][..0] == [];
    assert Kept([p], w) == [] + Stays(p, w, 0) == Stays(p, w, 0);
    assert Sent([p], w) == [] + Leaves(p, w, 0) == Leaves(p, w, 0);
    assert Events([p], w) == [] + EventsAt(p, w, 0) == EventsAt(p, w, 0);
  }

  /** A failed save after a delivery makes the next cycle deliver the same payload again. */
  lemma FailedSaveDeliversTwice(p: Payload, w: World)
    requires Delivered(p, w, 0)
    ensures Run([Enqueue(p)] + [Cycle(w, true, Untouched)] + [Cycle(w, true, Saved)]).sent == [p, p]
  {
    RunEnqueue(p);
    CycleOne([Enqueue(p)], p, w, Untouched);
    CycleOne([Enqueue(p)] + [Cycle(w, true, Untouched)], p, w, Saved);
  }

  /** Nothing is read from a torn file again: further cycles change nothing. */
  lemma {:induction false} TornStaysTorn(ops: seq<Op>, more: seq<Op>)
    requires Run(ops).file.None? && forall op | op in more :: op.Cycle?
    ensures Run(ops + more) == Run(ops)
  {
    if more == [] {
      assert ops + more == ops;
    } else {
      var m := |more| - 1;
      assert more[m] in more && forall op | op in more[..m] :: op in more;
      assert (ops + more)[..|ops + more| - 1] == ops + more[..m];
      TornStaysTorn(ops, more[..m]);
      IdleCycle(Run(ops), more[m]);
    }
  }

  lemma TornCycleOf(ops: seq<Op>, p: Payload, w: World)
    requires !Delivered(p, w, 0) && Run(ops).file == Some([p])
    ensures var l := Run(ops + [Cycle(w, true, Torn)]);
            l.file == None && l.sent == Run(ops).sent && l.enqueued == Run(ops).enqueued
  {
    CycleOne(ops, p, w, Torn);
  }

  /** A torn save loses a payload that was never delivered, for good. */
  lemma TornSaveLosesThePayload(p: Payload, w: World, more: seq<Op>)
    requires !Delivered(p, w, 0) && forall op | op in more :: op.Cycle?
    ensures var l := Run([Enqueue(p)] + [Cycle(w, true, Torn)] + more);
            Contents(l.file) == [] && l.sent == [] && l.enqueued == [p]
  {
    RunEnqueue(p);
    TornCycleOf([Enqueue(p)], p, w);
    TornStaysTorn([Enqueue(p)] + [Cycle(w, true, Torn)], more);
  }

  lemma OneOnTheBooks(l: Ledger, p: Payload)
    requires l.file == None && l.sent == [p] && l.enqueued == [p]
    ensures Conserved(l)
  {
    assert Cores([]) == [];
  }

  lemma TwoOnTheBooks(l: Ledger, p: Payload)
    requires l.file == Some([p]) && l.sent == [p] && l.enqueued == [p]
    ensures !Conserved(l)
  {
    if Conserved(l) {
      SizesAddUp([p], [p], [p]);
    }
  }

  lemma DeliveredButKept(ops: seq<Op>, p: Payload, w: World)
    requires Delivered(p, w, 0)
    requires Run(ops).file == Some([p]) && Run(ops).sent == [] && Run(ops).enqueued == [p]
    ensures var l := Run(ops + [Cycle(w, true, Untouched)]); l.file == Some([p]) && l.sent == [p] && l.enqueued == [p]
  {
    CycleOne(ops, p, w, Untouched);
  }

  /** Two failures can cancel: a payload delivered but kept, and then lost, is on the books once. */
  lemma FailuresMayCancel(p: Payload, w: World, w': World)
    requires Delivered(p, w, 0) && !Delivered(p, w', 0)
    ensures !Conserved(Run([Enqueue(p)] + [Cycle(w, true, Untouched)]))
    ensures Conserved(Run([Enqueue(p)] + [Cycle(w, true, Untouched)] + [Cycle(w', true, Torn)]))
  {
    var first := [Enqueue(p)] + [Cycle(w, true, Untouched)];
    RunEnqueue(p);
    DeliveredButKept([Enqueue(p)], p, w);
    TornCycleOf(first, p, w');
    TwoOnTheBooks(Run(first), p);
    OneOnTheBooks(Run(first + [Cycle(w', true, Torn)]), p);
  }

  /** What stays of a payload that is not delivered: tagged with the error if it was posted, else as it was. */
  lemma {:induction false} WhatStays(ps: seq<Payload>, w: World, i: nat)
    requires i < |ps| && !(!Nameless(ps[i]) && MayForward(w.facts(i)) && w.error(i).None?)
    ensures (if !Nameless(ps[i]) && MayForward(w.facts(i)) then ps[i].(forwardError := w.error(i)) else ps[i])
            in Kept(ps, w)
  {
    var n := |ps| - 1;
    if i < n {
      WhatStays(ps[..n], w, i);
    } else {
      CheckMeetsPolicy(w.facts(i));
    }
  }

  /** Nobody stands in the way during the cycle. */
  ghost predicate AllClear(w: World) {
    forall i: nat :: MayForward(w.facts(i)) && w.error(i).None?
  }

  ghost predicate Nameless(p: Payload) {
    p.serverId == "" && p.mcpServerId == ""
  }

  /** When nobody stands in the way, a cycle sends exactly the payloads that name a server in one of the two id fields,
      and keeps the others. */
  lemma {:induction false} ClearCycle(ps: seq<Payload>, w: World, p: Payload)
    requires AllClear(w)
    ensures p in Sent(ps, w) <==> p in ps && !Nameless(p)
    ensures p in Kept(ps, w) <==> p in ps && Nameless(p)
  {
    if ps != [] {
      var n := |ps| - 1;
      ClearCycle(ps[..n], w, p);
      CheckMeetsPolicy(w.facts(n));
      assert MayForward(w.facts(n)) && w.error(n).None?;
      assert ps == ps[..n] + [ps[n]];
    }
  }

  // ----- safety over runs -----

  /** The server is the one that the payload names, by the second id field only where the first is empty. */
  ghost predicate IsServerOf(server: string, p: Payload) {
    server != "" && (server == p.serverId || (p.serverId == "" && server == p.mcpServerId))
  }

  /** Every request is for the server its payload names, and every request and recorded approval for facts the policy
      allows. */
  ghost predicate MeetsPolicy(trace: seq<Event>) {
    forall e | e in trace ::
      && (e.Posted? ==> MayForward(e.facts) && IsServerOf(e.server, e.payload))
      && (e.Logged? ==> (e.approved <==> MayForward(e.facts)))
  }

  lemma {:induction false} CycleMeetsPolicy(ps: seq<Payload>, w: World)
    ensures MeetsPolicy(Events(ps, w))
  {
    if ps != [] {
      var n := |ps| - 1;
      CycleMeetsPolicy(ps[..n], w);
      CheckMeetsPolicy(w.facts(n));
      assert MeetsPolicy(EventsAt(ps[n], w, n));
    }
  }

  /** Over every run, whatever fails: each forward is for a registered server whose verdict allows it, and no
      KNOWN_THREAT server is forwarded or approved, exemption or not. */
  lemma {:induction false} ForwardsMeetPolicy(ops: seq<Op>)
    ensures MeetsPolicy(Run(ops).trace)
    ensures forall e | e in Run(ops).trace && e.Posted? ::
              e.facts.verdict.Some? && e.facts.verdict.value != KNOWN_THREAT
  {
    if ops != [] {
      var l, op := Run(ops[..|ops| - 1]), ops[|ops| - 1];
      ForwardsMeetPolicy(ops[..|ops| - 1]);
      if op.Cycle? {
        CycleMeetsPolicy(Fetched(l.file, op.readOk), op.world);
      }
    }
  }

  /** The request at position i directly follows the record that approves it. */
  predicate FollowsApproval(trace: seq<Event>, i: nat)
    requires i < |trace| && trace[i].Posted?
  {
    i > 0 && trace[i - 1] == Logged(trace[i].server, true, trace[i].facts)
  }

  ghost predicate AllLogged(trace: seq<Event>) {
    forall i | 0 <= i < |trace| && trace[i].Posted? :: FollowsApproval(trace, i)
  }

  /** No approval is left waiting for its request. */
  predicate Closed(trace: seq<Event>) {
    trace != [] ==> !(trace[|trace| - 1].Logged? && trace[|trace| - 1].approved)
  }

  lemma LoggedOneMore(t: seq<Event>, e: Event)
    ensures AllLogged(t + [e]) <==> AllLogged(t) && (e.Posted? ==> FollowsApproval(t + [e], |t|))
  {
    var u := t + [e];
    assert forall i | 0 <= i < |t| :: u[i] == t[i];
    assert forall i | 0 <= i < |t| && t[i].Posted? :: FollowsApproval(t, i) == FollowsApproval(u, i);
    assert u[|t|] == e;
  }

  /** Whether the record of the decision on the payload is there when the payload is sent. */
  predicate RecordHeld(p: Payload, w: World, i: nat) {
    Allowed(p, w, i) ==> w.logOk(i)
  }

  lemma UnloggedPost(t: seq<Event>, post: Event)
    requires Closed(t) && post.Posted?
    ensures Closed(t + [post]) && !AllLogged(t + [post])
  {
    LoggedOneMore(t, post);
    assert |t| > 0 ==> (t + [post])[|t| - 1] == t[|t| - 1];
  }

  lemma LoggedPost(t: seq<Event>, server: string, f: Facts, post: Event)
    requires post.Posted? && post.server == server && post.facts == f
    ensures Closed(t + [Logged(server, true, f)] + [post])
    ensures AllLogged(t + [Logged(server, true, f)] + [post]) <==> AllLogged(t)
  {
    LoggedOneMore(t, Logged(server, true, f));
    LoggedOneMore(t + [Logged(server, true, f)], post);
  }

  lemma PayloadLogged(t: seq<Event>, p: Payload, w: World, i: nat)
    requires Closed(t)
    ensures Closed(t + EventsAt(p, w, i))
    ensures AllLogged(t + EventsAt(p, w, i)) <==> AllLogged(t) && RecordHeld(p, w, i)
  {
    var f, post := w.facts(i), PostAt(p, w, i);
    if ServerOf(p) == "" || (!w.logOk(i) && !Allowed(p, w, i)) {
      assert t + [] == t;
    } else if !Allowed(p, w, i) {
      LoggedOneMore(t, Logged(ServerOf(p), false, f));
      assert EventsAt(p, w, i) == [Logged(ServerOf(p), false, f)];
    } else if !w.logOk(i) {
      UnloggedPost(t, post);
    } else {
      LoggedPost(t, ServerOf(p), f, post);
      AppendTwice(t, [Logged(ServerOf(p), true, f)], [post]);
    }
  }

  /** Recording worked at every forward the cycle attempted. */
  predicate RecordsHeld(ps: seq<Payload>, w: World) {
    ps != [] ==> RecordsHeld(ps[..|ps| - 1], w) && RecordHeld(ps[|ps| - 1], w, |ps| - 1)
  }

  lemma AppendTwice(t: seq<Event>, a: seq<Event>, b: seq<Event>)
    ensures t + (a + b) == t + a + b
  {
  }

  lemma {:induction false} CycleLogged(t: seq<Event>, ps: seq<Payload>, w: World)
    requires Closed(t)
    ensures Closed(t + Events(ps, w))
    ensures AllLogged(t + Events(ps, w)) <==> AllLogged(t) && RecordsHeld(ps, w)
  {
    if ps == [] {
      assert t + [] == t;
    } else {
      var n := |ps| - 1;
      CycleLogged(t, ps[..n], w);
      PayloadLogged(t + Events(ps[..n], w), ps[n], w, n);
      AppendTwice(t, Events(ps[..n], w), EventsAt(ps[n], w, n));
    }
  }

  predicate LogHeld(l: Ledger, op: Op) {
    op.Cycle? ==> RecordsHeld(Fetched(l.file, op.readOk), op.world)
  }

  predicate LogsHeld(ops: seq<Op>) {
    ops != [] ==> LogsHeld(ops[..|ops| - 1]) && LogHeld(Run(ops[..|ops| - 1]), ops[|ops| - 1])
  }

  /** Over every run: each forward directly follows a recorded approval if and only if recording worked at every
      attempted forward. */
  lemma {:induction false} ForwardsAreLoggedIff(ops: seq<Op>)
    ensures Closed(Run(ops).trace)
    ensures AllLogged(Run(ops).trace) <==> LogsHeld(ops)
  {
    if ops != [] {
      var before, op := ops[..|ops| - 1], ops[|ops| - 1];
      ForwardsAreLoggedIff(before);
      if op.Cycle? {
        CycleLogged(Run(before).trace, Fetched(Run(before).file, op.readOk), op.world);
      }
    }
  }

  /** A forward without any record of its approval. */
  lemma UnloggedForward(p: Payload, w: World)
    requires Delivered(p, w, 0) && !w.logOk(0)
    ensures var l := Run([Enqueue(p)] + [Cycle(w, true, Saved)]);
            l.sent == [p] && l.trace == [PostAt(p, w, 0)] && !AllLogged(l.trace)
  {
    RunEnqueue(p);
    CycleOne([Enqueue(p)], p, w, Saved);
    UnloggedPost([], PostAt(p, w, 0));
  }

  // ----- what was sent -----

  /** The payloads of the successful requests, in order. */
  function Accepted(trace: seq<Event>): seq<Payload> {
    if trace == [] then [] else
      var before, e := Accepted(trace[..|trace| - 1]), trace[|trace| - 1];
      if e.Posted? && e.ok then before + [e.payload] else before
  }

  lemma {:induction false} AcceptedConcat(a: seq<Event>, b: seq<Event>)
    ensures Accepted(a + b) == Accepted(a) + Accepted(b)
  {
    if b == [] {
      assert a + b == a;
    } else {
      assert (a + b)[..|a + b| - 1] == a + b[..|b| - 1];
      AcceptedConcat(a, b[..|b| - 1]);
    }
  }

  lemma AcceptedOne(e: Event)
    ensures Accepted([e]) == if e.Posted? && e.ok then [e.payload] else []
  {
    assert [e][..0] == [];
  }

  lemma AcceptedAt(p: Payload, w: World, i: nat)
    ensures Accepted(EventsAt(p, w, i)) == Leaves(p, w, i)
  {
    var log, post := Logged(ServerOf(p), Allowed(p, w, i), w.facts(i)), PostAt(p, w, i);
    AcceptedOne(log);
    AcceptedOne(post);
    AcceptedConcat(if w.logOk(i) then [log] else [], if Allowed(p, w, i) then [post] else []);
  }

  lemma {:induction false} CycleSends(ps: seq<Payload>, w: World)
    ensures Accepted(Events(ps, w)) == Sent(ps, w)
  {
    if ps != [] {
      var n := |ps| - 1;
      CycleSends(ps[..n], w);
      AcceptedAt(ps[n], w, n);
      AcceptedConcat(Events(ps[..n], w), EventsAt(ps[n], w, n));
    }
  }

  /** Over every run the payloads on the books as sent are exactly those of the successful requests, in order. */
  lemma {:induction false} SentIsAccepted(ops: seq<Op>)
    ensures Accepted(Run(ops).trace) == Run(ops).sent
  {
    if ops != [] {
      var l, op := Run(ops[..|ops| - 1]), ops[|ops| - 1];
      SentIsAccepted(ops[..|ops| - 1]);
      if op.Cycle? {
        CycleSends(Fetched(l.file, op.readOk), op.world);
        AcceptedConcat(l.trace, Events(Fetched(l.file, op.readOk), op.world));
      }
    }
  }

  // ----- what the gateway has taken -----

  /** The payloads that reached the gateway, in order. */
  function Reached(trace: seq<Event>): seq<Payload> {
    if trace == [] then [] else
      var before, e := Reached(trace[..|trace| - 1]), trace[|trace| - 1];
      if e.Posted? && e.taken then before + [e.payload] else before
  }

  lemma {:induction false} ReachedConcat(a: seq<Event>, b: seq<Event>)
    ensures Reached(a + b) == Reached(a) + Reached(b)
  {
    if b == [] {
      assert a + b == a;
    } else {
      assert (a + b)[..|a + b| - 1] == a + b[..|b| - 1];
      ReachedConcat(a, b[..|b| - 1]);
    }
  }

  predicate TakenAt(p: Payload, w: World, i: nat) {
    Allowed(p, w, i) && (w.error(i).None? || w.taken(i))
  }

  /** The payloads of a cycle that the gateway takes, and the others. */
  function Taken(ps: seq<Payload>, w: World): seq<Payload> {
    if ps == [] then [] else
      var n := |ps| - 1;
      Taken(ps[..n], w) + if TakenAt(ps[n], w, n) then [ps[n]] else []
  }

  function Untaken(ps: seq<Payload>, w: World): seq<Payload> {
    if ps == [] then [] else
      var n := |ps| - 1;
      Untaken(ps[..n], w) + if TakenAt(ps[n], w, n) then [] else [ps[n]]
  }

  /** No request of the cycle was taken and counts as failed. */
  predicate NoneTakenAsFailed(ps: seq<Payload>, w: World) {
    ps != [] ==>
      var n := |ps| - 1;
      NoneTakenAsFailed(ps[..n], w) && !(TakenAt(ps[n], w, n) && w.error(n).Some?)
  }

  lemma ReachedOne(e: Event)
    ensures Reached([e]) == if e.Posted? && e.taken then [e.payload] else []
  {
    assert [e][..0] == [];
  }

  lemma ReachedAt(p: Payload, w: World, i: nat)
    ensures Reached(EventsAt(p, w, i)) == if TakenAt(p, w, i) then [p] else []
  {
    var log, post := Logged(ServerOf(p), Allowed(p, w, i), w.facts(i)), PostAt(p, w, i);
    ReachedOne(log);
    ReachedOne(post);
    ReachedConcat(if w.logOk(i) then [log] else [], if Allowed(p, w, i) then [post] else []);
  }

  lemma {:induction false} CycleReaches(ps: seq<Payload>, w: World)
    ensures Reached(Events(ps, w)) == Taken(ps, w)
  {
    if ps != [] {
      var n := |ps| - 1;
      CycleReaches(ps[..n], w);
      ReachedAt(ps[n], w, n);
      ReachedConcat(Events(ps[..n], w), EventsAt(ps[n], w, n));
    }
  }

  lemma {:induction false} TakenIsShared(ps: seq<Payload>, w: World)
    ensures SharedOut(Untaken(ps, w), Taken(ps, w), ps)
  {
    if ps != [] {
      var n := |ps| - 1;
      TakenIsShared(ps[..n], w);
      assert ps == ps[..n] + [ps[n]];
      ShareOne(Untaken(ps[..n], w), Taken(ps[..n], w), ps[..n], ps[n],
               if TakenAt(ps[n], w, n) then [] else [ps[n]], if TakenAt(ps[n], w, n) then [ps[n]] else []);
    }
  }

  /** What is kept is what was not taken, exactly when nothing was taken as failed. */
  lemma {:induction false} KeptIsUntaken(ps: seq<Payload>, w: World)
    ensures |Kept(ps, w)| >= |Untaken(ps, w)|
    ensures |Kept(ps, w)| == |Untaken(ps, w)| <==> NoneTakenAsFailed(ps, w)
    ensures NoneTakenAsFailed(ps, w) ==> Cores(Kept(ps, w)) == Cores(Untaken(ps, w))
  {
    if ps != [] {
      var n := |ps| - 1;
      KeptIsUntaken(ps[..n], w);
      if !TakenAt(ps[n], w, n) {
        CoresConcat(Kept(ps[..n], w), Stays(ps[n], w, n));
        CoresConcat(Untaken(ps[..n], w), [ps[n]]);
        assert Cores(Stays(ps[n], w, n)) == Cores([ps[n]]);
      }
    }
  }

  /** Each payload is either queued or with the gateway, never both. */
  ghost predicate ReachedOnce(l: Ledger) {
    SharedOut(Contents(l.file), Reached(l.trace), l.enqueued)
  }

  /** A saved file must not keep what was taken, an untouched one follows nothing taken, a torn one loses nothing that
      was not. */
  predicate GatewayHeld(l: Ledger, op: Op) {
    op.Cycle? ==>
      var ps := Fetched(l.file, op.readOk);
      && (op.save.Saved? ==> NoneTakenAsFailed(ps, op.world))
      && (op.save.Untouched? ==> Taken(ps, op.world) == [])
      && (op.save.Torn? ==> Untaken(ps, op.world) == [])
  }

  lemma SameCores(kept: seq<Payload>, untaken: seq<Payload>, sent: seq<Payload>, all: seq<Payload>)
    requires Cores(kept) == Cores(untaken) && SharedOut(untaken, sent, all)
    ensures SharedOut(kept, sent, all)
  {
  }

  lemma SavedReachesOnceIff(ps: seq<Payload>, reached: seq<Payload>, all: seq<Payload>, w: World)
    requires SharedOut(ps, reached, all)
    ensures SharedOut(Kept(ps, w), reached + Taken(ps, w), all) <==> NoneTakenAsFailed(ps, w)
  {
    TakenIsShared(ps, w);
    KeptIsUntaken(ps, w);
    SavedCycle(ps, reached, all, Untaken(ps, w), Taken(ps, w));
    SizesAddUp(Untaken(ps, w), reached + Taken(ps, w), all);
    if NoneTakenAsFailed(ps, w) {
      SameCores(Kept(ps, w), Untaken(ps, w), reached + Taken(ps, w), all);
    } else if SharedOut(Kept(ps, w), reached + Taken(ps, w), all) {
      SizesAddUp(Kept(ps, w), reached + Taken(ps, w), all);
    }
  }

  lemma CycleReachesOnceIff(ps: seq<Payload>, reached: seq<Payload>, all: seq<Payload>, w: World, save: Save)
    requires SharedOut(ps, reached, all) && ps != []
    ensures SharedOut(Contents(FileAfter(Some(ps), ps, w, save)), reached + Taken(ps, w), all)
       <==> && (save.Saved? ==> NoneTakenAsFailed(ps, w))
            && (save.Untouched? ==> Taken(ps, w) == [])
            && (save.Torn? ==> Untaken(ps, w) == [])
  {
    match save
    case Saved => SavedReachesOnceIff(ps, reached, all, w);
    case Untouched => UnsavedCycle(ps, reached, all, Taken(ps, w));
    case Torn =>
      TakenIsShared(ps, w);
      TornCycle(ps, reached, all, Untaken(ps, w), Taken(ps, w));
  }

  lemma StepReachesOnceIff(l: Ledger, op: Op)
    requires ReachedOnce(l)
    ensures ReachedOnce(Step(l, op)) <==> GatewayHeld(l, op)
  {
    if op.Enqueue? {
      EnqueueConserves(Contents(l.file), Reached(l.trace), l.enqueued, op.payload);
    } else if Fetched(l.file, op.readOk) == [] {
      IdleCycle(l, op);
    } else {
      var ps := Fetched(l.file, op.readOk);
      CycleReaches(ps, op.world);
      ReachedConcat(l.trace, Events(ps, op.world));
      CycleReachesOnceIff(ps, Reached(l.trace), l.enqueued, op.world, op.save);
    }
  }

  predicate GatewaysHeld(ops: seq<Op>) {
    ops != [] ==> GatewaysHeld(ops[..|ops| - 1]) && GatewayHeld(Run(ops[..|ops| - 1]), ops[|ops| - 1])
  }

  ghost predicate ReachedOnceThroughout(ops: seq<Op>) {
    ReachedOnce(Run(ops)) && (ops != [] ==> ReachedOnceThroughout(ops[..|ops| - 1]))
  }

  /** Over every run: throughout it each payload is either queued or has reached the gateway once, if and only if no
      saved file keeps what was taken, no untouched one does, and no torn one loses anything else. */
  lemma {:induction false} PayloadsReachOnceIff(ops: seq<Op>)
    ensures ReachedOnceThroughout(ops) <==> GatewaysHeld(ops)
  {
    NothingEnqueued();
    if ops != [] {
      PayloadsReachOnceIff(ops[..|ops| - 1]);
      if ReachedOnce(Run(ops[..|ops| - 1])) {
        StepReachesOnceIff(Run(ops[..|ops| - 1]), ops[|ops| - 1]);
      }
    }
  }

  lemma ReachedByCycle(ops: seq<Op>, p: Payload, w: World)
    requires Run(ops).file == Some([p])
    ensures var l := Run(ops + [Cycle(w, true, Saved)]);
            && l.file == Some(Stays(p, w, 0)) && l.enqueued == Run(ops).enqueued
            && l.sent == Run(ops).sent + Leaves(p, w, 0)
            && Reached(l.trace) == Reached(Run(ops).trace) + if TakenAt(p, w, 0) then [p] else []
  {
    CycleOne(ops, p, w, Saved);
    ReachedAt(p, w, 0);
    ReachedConcat(Run(ops).trace, EventsAt(p, w, 0));
  }

  lemma TimedOut(ops: seq<Op>, p: Payload, w: World)
    requires Allowed(p, w, 0) && w.error(0).Some? && w.taken(0)
    requires Run(ops).file == Some([p])
    ensures var l := Run(ops + [Cycle(w, true, Saved)]);
            && l.file == Some([p.(forwardError := w.error(0))])
            && l.enqueued == Run(ops).enqueued && l.sent == Run(ops).sent
            && Reached(l.trace) == Reached(Run(ops).trace) + [p]
  {
    ReachedByCycle(ops, p, w);
  }

  lemma SentAgain(ops: seq<Op>, p: Payload, w: World)
    requires Run(ops).file == Some([p]) && Delivered(p, w, 0)
    ensures var l := Run(ops + [Cycle(w, true, Saved)]);
            && l.enqueued == Run(ops).enqueued && l.sent == Run(ops).sent + [p]
            && Reached(l.trace) == Reached(Run(ops).trace) + [p]
  {
    ReachedByCycle(ops, p, w);
  }

  lemma TimedOutThenSent(ops: seq<Op>, p: Payload, w: World, again: Payload, w': World)
    requires Allowed(p, w, 0) && w.error(0).Some? && w.taken(0) && again == p.(forwardError := w.error(0))
    requires Run(ops).file == Some([p]) && Delivered(again, w', 0)
    ensures var l := Run(ops + [Cycle(w, true, Saved)] + [Cycle(w', true, Saved)]);
            && l.enqueued == Run(ops).enqueued && l.sent == Run(ops).sent + [again]
            && Reached(l.trace) == Reached(Run(ops).trace) + [p] + [again]
  {
    TimedOut(ops, p, w);
    SentAgain(ops + [Cycle(w, true, Saved)], again, w');
  }

  /** A request times out after the gateway has taken it, and every save works: the next cycle sends it again. */
  lemma TimedOutIsSentAgain(p: Payload, w: World, w': World)
    requires Allowed(p, w, 0) && w.error(0).Some? && w.taken(0) && Delivered(p.(forwardError := w.error(0)), w', 0)
    ensures var again := p.(forwardError := w.error(0));
            var l := Run([Enqueue(p)] + [Cycle(w, true, Saved)] + [Cycle(w', true, Saved)]);
            Reached(l.trace) == [p, again] && l.sent == [again] && l.enqueued == [p]
  {
    RunEnqueue(p);
    TimedOutThenSent([Enqueue(p)], p, w, p.(forwardError := w.error(0)), w');
  }
}
