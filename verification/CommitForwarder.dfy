/** aidr_commit_gateway_connector.py: commit_forward as concurrent handlers that interleave at their awaits.
    Between two awaits a handler runs alone; every such stretch is one action here. */
module CommitForwarder {
  import opened Wrappers
  import opened Sequences

  const VERDICTS_REQUIRING_OVERRIDE := {"CAUTION_LIMITED", "HIGH_RISK_ISOLATED"}

  datatype Request = Request(sha: string, override: bool)

  datatype Status = AlreadyProcessed | Denied | BadRequest | GatewayFailed | Forwarded

  /** Where a handler waits, or how it ended. `Accepted` means AiDr has taken the commit and the handler does
      not know it yet. */
  datatype Phase = AwaitVerdict | AwaitDenialLog | AwaitReply | Accepted | AwaitForwardLog | Done(status: Status)

  /** A request being served; `checkedAt` and `confirmedAt` record when it looked its sha up and when it added it. */
  datatype Handler = Handler(request: Request, phase: Phase, verdict: string, checkedAt: nat, confirmedAt: nat)

  datatype State = State(processed: set<string>, handlers: map<nat, Handler>, posted: set<nat>, accepted: seq<nat>,
                         confirmed: set<nat>, clock: nat)

  const INIT := State({}, map[], {}, [], {}, 0)

  datatype Action =
    | Arrive(h: nat, request: Request)
    | VerdictReply(h: nat, verdict: string)
    | DenialLogged(h: nat)
    | AidrAccepts(h: nat)
    | ForwardReply(h: nat, ok: bool)
    | ForwardLogged(h: nat)

  predicate In(s: State, h: nat, p: Phase) {
    h in s.handlers && s.handlers[h].phase == p
  }

  /** The handler has given up, on a timeout or an error, on a request that AiDr has not taken so far and may yet. */
  predicate InFlight(s: State, h: nat) {
    In(s, h, Done(GatewayFailed)) && h !in s.accepted
  }

  predicate Enabled(s: State, a: Action) {
    match a
    case Arrive(h, _) => h !in s.handlers
    case VerdictReply(h, _) => In(s, h, AwaitVerdict)
    case DenialLogged(h) => In(s, h, AwaitDenialLog)
    case AidrAccepts(h) => In(s, h, AwaitReply) || InFlight(s, h)
    case ForwardReply(h, ok) => In(s, h, Accepted) || (!ok && In(s, h, AwaitReply))
    case ForwardLogged(h) => In(s, h, AwaitForwardLog)
  }

  function Update(s: State, h: nat, to: Handler): State {
    s.(handlers := s.handlers[h := to], clock := s.clock + 1)
  }

  function Goto(s: State, h: nat, p: Phase): State
    requires h in s.handlers
  {
    Update(s, h, s.handlers[h].(phase := p))
  }

  function Apply(s: State, a: Action): State
    requires Enabled(s, a)
  {
    match a
    case Arrive(h, r) =>
      var first := if r.sha in s.processed then Done(AlreadyProcessed) else AwaitVerdict;
      Update(s, h, Handler(r, first, "", s.clock, 0))
    case VerdictReply(h, v) =>
      var c := s.handlers[h];
      if v in VERDICTS_REQUIRING_OVERRIDE && !c.request.override then Goto(s, h, AwaitDenialLog)
      else if v == "UNKNOWN" then Goto(s, h, Done(BadRequest))
      else Update(s, h, c.(phase := AwaitReply, verdict := v)).(posted := s.posted + {h})
    case DenialLogged(h) => Goto(s, h, Done(Denied))
    case AidrAccepts(h) =>
      Goto(s, h, if InFlight(s, h) then Done(GatewayFailed) else Accepted).(accepted := s.accepted + [h])
    case ForwardReply(h, ok) =>
      if !ok then Goto(s, h, Done(GatewayFailed))
      else
        var c := s.handlers[h];
        Update(s, h, c.(phase := AwaitForwardLog, confirmedAt := s.clock))
          .(processed := s.processed + {c.request.sha}, confirmed := s.confirmed + {h})
    case ForwardLogged(h) => Goto(s, h, Done(Forwarded))
  }

  /** The state after a schedule; None when some action of it was not enabled. */
  function After(acts: seq<Action>): Option<State> {
    if acts == [] then Some(INIT) else
      var before, a := After(acts[..|acts| - 1]), acts[|acts| - 1];
      if before.Some? && Enabled(before.value, a) then Some(Apply(before.value, a)) else None
  }

  // ----- what every interleaving keeps -----

  /** The two bars a verdict has to clear before the request goes out. */
  ghost predicate Clears(c: Handler) {
    c.verdict != "UNKNOWN" && (c.verdict in VERDICTS_REQUIRING_OVERRIDE ==> c.request.override)
  }

  ghost predicate HasPosted(p: Phase) {
    p in {AwaitReply, Accepted, AwaitForwardLog, Done(GatewayFailed), Done(Forwarded)}
  }

  /** One handler against the shared state. */
  ghost predicate HandlerOk(s: State, h: nat)
    requires h in s.handlers
  {
    var c := s.handlers[h];
    && c.checkedAt < s.clock
    && (h in s.posted <==> HasPosted(c.phase))
    && (h in s.posted ==> Clears(c))
    && (h in s.confirmed <==> c.phase in {AwaitForwardLog, Done(Forwarded)})
    && (h in s.confirmed ==> h in s.accepted && c.checkedAt < c.confirmedAt < s.clock && c.request.sha in s.processed)
    && (c.phase == Accepted ==> h in s.accepted)
  }

  /** A handler that went past the duplicate check did so before any handler confirmed the same sha. */
  ghost predicate CheckedBefore(s: State, h: nat, k: nat)
    requires h in s.handlers && k in s.handlers
  {
    k in s.confirmed && s.handlers[h].request.sha == s.handlers[k].request.sha
      && s.handlers[h].phase != Done(AlreadyProcessed)
    ==> s.handlers[h].checkedAt < s.handlers[k].confirmedAt
  }

  ghost predicate Inv(s: State) {
    && s.posted <= s.handlers.Keys && s.confirmed <= s.handlers.Keys
    && (forall h | h in s.handlers :: HandlerOk(s, h))
    && (forall sha | sha in s.processed :: exists k :: k in s.confirmed && s.handlers[k].request.sha == sha)
    && (forall h, k | h in s.handlers && k in s.handlers :: CheckedBefore(s, h, k))
  }

  /** Which handler an action belongs to. */
  function Actor(a: Action): nat {
    a.h
  }

  lemma OthersUntouched(s: State, a: Action, k: nat)
    requires Enabled(s, a) && k != Actor(a)
    ensures k in Apply(s, a).handlers <==> k in s.handlers
    ensures k in s.handlers ==> Apply(s, a).handlers[k] == s.handlers[k]
    ensures k in Apply(s, a).posted <==> k in s.posted
    ensures k in Apply(s, a).confirmed <==> k in s.confirmed
    ensures k in s.accepted ==> k in Apply(s, a).accepted
  {
  }

  lemma Grows(s: State, a: Action)
    requires Enabled(s, a)
    ensures s.processed <= Apply(s, a).processed && s.confirmed <= Apply(s, a).confirmed
    ensures Apply(s, a).clock == s.clock + 1
    ensures Apply(s, a).handlers.Keys == s.handlers.Keys + {Actor(a)}
  {
  }

  lemma ActorStaysOk(s: State, a: Action)
    requires Inv(s) && Enabled(s, a)
    ensures HandlerOk(Apply(s, a), Actor(a))
  {
    if a.Arrive? {
      assert a.h !in s.posted && a.h !in s.confirmed;
    } else {
      assert HandlerOk(s, a.h);
    }
  }

  lemma ProcessedIsBacked(s: State, a: Action, sha: string)
    requires Inv(s) && Enabled(s, a) && sha in Apply(s, a).processed
    ensures exists k :: k in Apply(s, a).confirmed && Apply(s, a).handlers[k].request.sha == sha
  {
    var t := Apply(s, a);
    if sha in s.processed {
      var k :| k in s.confirmed && s.handlers[k].request.sha == sha;
      assert k in t.confirmed && t.handlers[k].request.sha == sha;
    } else {
      assert a.h in t.confirmed && t.handlers[a.h].request.sha == sha;
    }
  }

  lemma CheckedBeforeKept(s: State, a: Action, h: nat, k: nat)
    requires Inv(s) && Enabled(s, a) && h in Apply(s, a).handlers && k in Apply(s, a).handlers
    ensures CheckedBefore(Apply(s, a), h, k)
  {
    var t := Apply(s, a);
    if h in s.handlers && k in s.handlers {
      assert CheckedBefore(s, h, k) && HandlerOk(s, h) && HandlerOk(s, k);
    } else if h in s.handlers {
      assert k == a.h && k !in t.confirmed;
    } else {
      assert h == a.h;
      if k in s.handlers {
        assert HandlerOk(s, k);
      }
    }
  }

  lemma InvKept(s: State, a: Action)
    requires Inv(s) && Enabled(s, a)
    ensures Inv(Apply(s, a))
  {
    var t := Apply(s, a);
    Grows(s, a);
    forall h | h in t.handlers ensures HandlerOk(t, h) {
      if h == a.h {
        ActorStaysOk(s, a);
      } else {
        OthersUntouched(s, a, h);
        assert HandlerOk(s, h);
      }
    }
    forall sha | sha in t.processed ensures exists k :: k in t.confirmed && t.handlers[k].request.sha == sha {
      ProcessedIsBacked(s, a, sha);
    }
    forall h, k | h in t.handlers && k in t.handlers ensures CheckedBefore(t, h, k) {
      CheckedBeforeKept(s, a, h, k);
    }
  }

  lemma {:induction false} InvAlways(acts: seq<Action>)
    requires After(acts).Some?
    ensures Inv(After(acts).value)
  {
    if acts != [] {
      InvAlways(acts[..|acts| - 1]);
      InvKept(After(acts[..|acts| - 1]).value, acts[|acts| - 1]);
    }
  }

  /** processed_commits only grows, along every schedule. */
  lemma {:induction false} ProcessedOnlyGrows(acts: seq<Action>, i: nat)
    requires After(acts).Some? && i <= |acts|
    ensures After(acts[..i]).Some? && After(acts[..i]).value.processed <= After(acts).value.processed
  {
    if i == |acts| {
      assert acts[..i] == acts;
    } else {
      ProcessedOnlyGrows(acts[..|acts| - 1], i);
      assert acts[..|acts| - 1][..i] == acts[..i];
      Grows(After(acts[..|acts| - 1]).value, acts[|acts| - 1]);
    }
  }

  /** Every sha in it was taken by AiDr for a handler that learned of it. */
  lemma ProcessedWasForwarded(acts: seq<Action>, sha: string)
    requires After(acts).Some? && sha in After(acts).value.processed
    ensures var s := After(acts).value;
            exists h :: h in s.confirmed && h in s.handlers && h in s.accepted && s.handlers[h].request.sha == sha
  {
    InvAlways(acts);
    var s := After(acts).value;
    var k :| k in s.confirmed && s.handlers[k].request.sha == sha;
    assert HandlerOk(s, k);
  }

  // ----- what a verdict leads to -----

  /** The verdict lets a request go out: it is known, and not a restricted one unless the request overrides it. */
  predicate LetsPass(v: string, override: bool) {
    v != "UNKNOWN" && (v in {"CAUTION_LIMITED", "HIGH_RISK_ISOLATED"} ==> override)
  }

  /** How a handler stands that was given the verdict v. */
  ghost predicate Decided(s: State, h: nat, v: string) {
    && h in s.handlers
    && var c := s.handlers[h];
       && c.phase !in {AwaitVerdict, Done(AlreadyProcessed)}
       && (h in s.posted <==> LetsPass(v, c.request.override))
       && (c.phase in {AwaitDenialLog, Done(Denied)}
           <==> v in {"CAUTION_LIMITED", "HIGH_RISK_ISOLATED"} && !c.request.override)
       && (c.phase == Done(BadRequest) <==> v == "UNKNOWN")
  }

  lemma RestrictedAreKnown(v: string)
    requires v in VERDICTS_REQUIRING_OVERRIDE
    ensures v in {"CAUTION_LIMITED", "HIGH_RISK_ISOLATED"} && v != "UNKNOWN"
  {
    assert |"UNKNOWN"| == 7 && |"CAUTION_LIMITED"| == 15 && |"HIGH_RISK_ISOLATED"| == 18;
  }

  lemma ReplyDecides(s: State, h: nat, v: string)
    requires Inv(s) && Enabled(s, VerdictReply(h, v))
    ensures Decided(Apply(s, VerdictReply(h, v)), h, v)
  {
    assert HandlerOk(s, h);
    if v in VERDICTS_REQUIRING_OVERRIDE {
      RestrictedAreKnown(v);
    }
  }

  lemma DecidedStays(s: State, a: Action, h: nat, v: string)
    requires Inv(s) && Enabled(s, a) && Decided(s, h, v)
    ensures Decided(Apply(s, a), h, v)
  {
    if h == a.h {
      assert HandlerOk(s, h);
    } else {
      OthersUntouched(s, a, h);
    }
  }

  /** Over every schedule, the verdict that a handler was given decides whether its request goes out, and whether it
      ends as denied or as a bad request. */
  lemma {:induction false} VerdictDecides(acts: seq<Action>, h: nat, v: string)
    requires After(acts).Some? && VerdictReply(h, v) in acts
    ensures Decided(After(acts).value, h, v)
  {
    var n := |acts| - 1;
    InvAlways(acts[..n]);
    if acts[n] == VerdictReply(h, v) {
      ReplyDecides(After(acts[..n]).value, h, v);
    } else {
      VerdictDecides(acts[..n], h, v);
      DecidedStays(After(acts[..n]).value, acts[n], h, v);
    }
  }

  /** Each handler serves the request that arrived for it. */
  lemma {:induction false} RequestsArrived(acts: seq<Action>, h: nat)
    requires After(acts).Some? && h in After(acts).value.handlers
    ensures Arrive(h, After(acts).value.handlers[h].request) in acts
  {
    var n := |acts| - 1;
    var s := After(acts[..n]).value;
    if h in s.handlers {
      RequestsArrived(acts[..n], h);
      if h != acts[n].h {
        OthersUntouched(s, acts[n], h);
      }
    }
  }

  /** A handler that neither waits for its verdict nor was answered as a duplicate was given one. */
  lemma {:induction false} VerdictWasGiven(acts: seq<Action>, h: nat) returns (v: string)
    requires After(acts).Some? && h in After(acts).value.handlers
    requires After(acts).value.handlers[h].phase !in {AwaitVerdict, Done(AlreadyProcessed)}
    ensures VerdictReply(h, v) in acts
  {
    var n := |acts| - 1;
    var s := After(acts[..n]).value;
    if acts[n].VerdictReply? && acts[n].h == h {
      v := acts[n].verdict;
    } else {
      if h != acts[n].h {
        OthersUntouched(s, acts[n], h);
      }
      v := VerdictWasGiven(acts[..n], h);
    }
  }

  /** A request is posted exactly when its handler was given a verdict that lets it pass. */
  lemma PostsAreCleared(acts: seq<Action>, h: nat)
    requires After(acts).Some?
    ensures var s := After(acts).value;
            h in s.posted <==> h in s.handlers && exists v :: VerdictReply(h, v) in acts
                                                             && LetsPass(v, s.handlers[h].request.override)
  {
    if h in After(acts).value.posted {
      InvAlways(acts);
      assert HandlerOk(After(acts).value, h);
      var v := VerdictWasGiven(acts, h);
      VerdictDecides(acts, h, v);
    }
    if h in After(acts).value.handlers {
      forall v | VerdictReply(h, v) in acts && LetsPass(v, After(acts).value.handlers[h].request.override)
        ensures h in After(acts).value.posted
      {
        VerdictDecides(acts, h, v);
      }
    }
  }

  /** A request whose duplicate check comes after its sha was added is never posted. */
  lemma LateChecksNeverPost(acts: seq<Action>, h: nat, k: nat)
    requires After(acts).Some?
    requires var s := After(acts).value;
             h in s.handlers && k in s.handlers && k in s.confirmed
             && s.handlers[h].request.sha == s.handlers[k].request.sha
             && s.handlers[h].checkedAt >= s.handlers[k].confirmedAt
    ensures h !in After(acts).value.posted
  {
    InvAlways(acts);
    assert CheckedBefore(After(acts).value, h, k) && HandlerOk(After(acts).value, h);
  }

  /** Two handlers can confirm the same sha only by overlapping: each made its check before the other added. */
  lemma DoubleForwardsOverlap(acts: seq<Action>, h: nat, k: nat)
    requires After(acts).Some?
    requires var s := After(acts).value;
             h in s.confirmed && k in s.confirmed && h in s.handlers && k in s.handlers
             && s.handlers[h].request.sha == s.handlers[k].request.sha
    ensures var s := After(acts).value;
            && s.handlers[h].checkedAt < s.handlers[k].confirmedAt
            && s.handlers[k].checkedAt < s.handlers[h].confirmedAt
  {
    InvAlways(acts);
    var s := After(acts).value;
    assert CheckedBefore(s, h, k) && CheckedBefore(s, k, h) && HandlerOk(s, h) && HandlerOk(s, k);
  }

  // ----- one handler of a sha at a time -----

  /** Every request for the sha so far has been answered. */
  ghost predicate Answered(s: State, sha: string) {
    forall h | h in s.handlers && s.handlers[h].request.sha == sha :: s.handlers[h].phase.Done?
  }

  ghost predicate InTurn(s: State, a: Action) {
    a.Arrive? ==> Answered(s, a.request.sha)
  }

  /** A request arrives only when every earlier one for the same sha has been answered. */
  ghost predicate Serial(acts: seq<Action>) {
    forall i | 0 <= i < |acts| :: After(acts[..i]).Some? && InTurn(After(acts[..i]).value, acts[i])
  }

  /** A handler still running is the only one of its sha and checked last. */
  ghost predicate RunsAlone(s: State, h: nat, k: nat)
    requires h in s.handlers && k in s.handlers
  {
    h != k && !s.handlers[h].phase.Done? ==>
      s.handlers[k].phase.Done? && s.handlers[k].checkedAt < s.handlers[h].checkedAt
  }

  /** Whoever confirmed did so before every later check. */
  ghost predicate ConfirmedInTurn(s: State, h: nat, k: nat)
    requires h in s.handlers && k in s.handlers
  {
    h in s.confirmed && h != k ==>
      s.handlers[k].checkedAt < s.handlers[h].checkedAt || s.handlers[h].confirmedAt < s.handlers[k].checkedAt
  }

  ghost predicate SameSha(s: State, h: nat, k: nat) {
    h in s.handlers && k in s.handlers && s.handlers[h].request.sha == s.handlers[k].request.sha
  }

  ghost predicate Ordered(s: State) {
    forall h, k | SameSha(s, h, k) :: RunsAlone(s, h, k) && ConfirmedInTurn(s, h, k)
  }

  lemma PairKept(s: State, a: Action, h: nat, k: nat)
    requires Inv(s) && Ordered(s) && Enabled(s, a) && InTurn(s, a)
    requires SameSha(Apply(s, a), h, k) && h != k
    ensures RunsAlone(Apply(s, a), h, k) && ConfirmedInTurn(Apply(s, a), h, k)
  {
    if h != a.h {
      OthersUntouched(s, a, h);
      assert HandlerOk(s, h);
    }
    if k != a.h {
      OthersUntouched(s, a, k);
      assert HandlerOk(s, k);
    }
    if h in s.handlers && k in s.handlers {
      assert SameSha(s, h, k) && SameSha(s, k, h);
      assert RunsAlone(s, h, k) && RunsAlone(s, k, h) && ConfirmedInTurn(s, h, k);
    }
  }

  lemma OrderedKept(s: State, a: Action)
    requires Inv(s) && Ordered(s) && Enabled(s, a) && InTurn(s, a)
    ensures Ordered(Apply(s, a))
  {
    forall h, k | SameSha(Apply(s, a), h, k) && h != k
      ensures RunsAlone(Apply(s, a), h, k) && ConfirmedInTurn(Apply(s, a), h, k)
    {
      PairKept(s, a, h, k);
    }
  }

  lemma {:induction false} SerialIsOrdered(acts: seq<Action>)
    requires After(acts).Some? && Serial(acts)
    ensures Ordered(After(acts).value)
  {
    if acts != [] {
      var n := |acts| - 1;
      assert forall i | 0 <= i < n :: acts[..n][..i] == acts[..i];
      SerialIsOrdered(acts[..n]);
      InvAlways(acts[..n]);
      OrderedKept(After(acts[..n]).value, acts[n]);
    }
  }

  /** When the handlers of each sha run one at a time, each sha is successfully forwarded at most once. */
  lemma SerialForwardsOnce(acts: seq<Action>, h: nat, k: nat)
    requires After(acts).Some? && Serial(acts)
    requires var s := After(acts).value;
             h in s.confirmed && k in s.confirmed && h in s.handlers && k in s.handlers
             && s.handlers[h].request.sha == s.handlers[k].request.sha
    ensures h == k
  {
    InvAlways(acts);
    SerialIsOrdered(acts);
    var s := After(acts).value;
    assert CheckedBefore(s, h, k) && CheckedBefore(s, k, h) && HandlerOk(s, h) && HandlerOk(s, k);
    assert SameSha(s, h, k) && SameSha(s, k, h);
    assert ConfirmedInTurn(s, h, k) && ConfirmedInTurn(s, k, h);
  }

  lemma AfterOneMore(acts: seq<Action>, a: Action)
    requires After(acts).Some? && Enabled(After(acts).value, a)
    ensures After(acts + [a]) == Some(Apply(After(acts).value, a))
  {
    assert (acts + [a])[..|acts|] == acts;
  }

  lemma Extend(acts: seq<Action>, a: Action) returns (longer: seq<Action>)
    requires After(acts).Some? && Enabled(After(acts).value, a)
    ensures longer == acts + [a] && After(longer) == Some(Apply(After(acts).value, a))
  {
    longer := acts + [a];
    AfterOneMore(acts, a);
  }

  lemma ExtendSerially(acts: seq<Action>, a: Action) returns (longer: seq<Action>)
    requires After(acts).Some? && Enabled(After(acts).value, a)
    requires Serial(acts) && InTurn(After(acts).value, a)
    ensures acts <= longer && Serial(longer) && After(longer) == Some(Apply(After(acts).value, a))
  {
    longer := Extend(acts, a);
    forall i | 0 <= i < |longer| ensures After(longer[..i]).Some? && InTurn(After(longer[..i]).value, longer[i])
    {
      assert longer[..i] == acts[..i];
      if i == |acts| {
        assert acts[..i] == acts;
      }
    }
  }

  /** s' is s with one more request, in phase p; nothing else was confirmed. */
  ghost predicate Serving(s: State, s': State, h: nat, r: Request, p: Phase) {
    && In(s', h, p) && s'.handlers[h].request == r && s'.handlers == s.handlers[h := s'.handlers[h]]
    && s'.confirmed == s.confirmed && s'.processed == s.processed
  }

  /** AiDr takes the commit of a request that arrives when all others for its sha are answered. */
  lemma TakenUpstream(acts: seq<Action>, h: nat, r: Request, v: string) returns (longer: seq<Action>)
    requires v != "UNKNOWN" && v !in VERDICTS_REQUIRING_OVERRIDE
    requires Serial(acts) && After(acts).Some?
    requires var s := After(acts).value; Answered(s, r.sha) && h !in s.handlers && r.sha !in s.processed
    ensures acts <= longer && Serial(longer) && After(longer).Some?
    ensures Serving(After(acts).value, After(longer).value, h, r, Accepted)
    ensures After(longer).value.accepted == After(acts).value.accepted + [h]
  {
    ghost var s := After(acts).value;
    longer := ExtendSerially(acts, Arrive(h, r));
    assert Serving(s, After(longer).value, h, r, AwaitVerdict);
    longer := ExtendSerially(longer, VerdictReply(h, v));
    assert Serving(s, After(longer).value, h, r, AwaitReply);
    longer := ExtendSerially(longer, AidrAccepts(h));
  }

  /** Even one at a time AiDr may take a commit twice: a reply that is lost leaves the sha unmarked. */
  lemma LostReplyIsRepeated(sha: string, v: string) returns (acts: seq<Action>)
    requires v != "UNKNOWN" && v !in VERDICTS_REQUIRING_OVERRIDE
    ensures Serial(acts) && After(acts).Some?
    ensures After(acts).value.accepted == [0, 1] && After(acts).value.confirmed == {1}
    ensures forall h | h in After(acts).value.handlers :: After(acts).value.handlers[h].request.sha == sha
  {
    var r := Request(sha, false);
    acts := TakenUpstream([], 0, r, v);
    ghost var s := After(acts).value;
    acts := ExtendSerially(acts, ForwardReply(0, false));
    assert After(acts).value.handlers == map[0 := s.handlers[0].(phase := Done(GatewayFailed))];
    acts := TakenUpstream(acts, 1, r, v);
    acts := ExtendSerially(acts, ForwardReply(1, true));
  }

  // ----- how often AiDr takes a sha -----

  /** What AiDr took it took once for each handler, which knows of it, waits to be told, or has given up. */
  ghost predicate TakenOk(s: State) {
    && Distinct(s.accepted)
    && forall h | h in s.accepted ::
         h in s.handlers && (h in s.confirmed || s.handlers[h].phase in {Accepted, Done(GatewayFailed)})
  }

  lemma TakenKept(s: State, a: Action)
    requires Inv(s) && TakenOk(s) && Enabled(s, a)
    ensures TakenOk(Apply(s, a))
  {
    var t := Apply(s, a);
    if a.h in s.handlers {
      assert HandlerOk(s, a.h);
    }
    if a.AidrAccepts? {
      assert a.h !in s.accepted;
      ElemsAppend(s.accepted, a.h);
    }
    forall h | h in t.accepted
      ensures h in t.handlers && (h in t.confirmed || t.handlers[h].phase in {Accepted, Done(GatewayFailed)})
    {
      if h != a.h {
        OthersUntouched(s, a, h);
      }
    }
  }

  lemma {:induction false} TakenAlways(acts: seq<Action>)
    requires After(acts).Some?
    ensures TakenOk(After(acts).value)
  {
    if acts != [] {
      var n := |acts| - 1;
      TakenAlways(acts[..n]);
      InvAlways(acts[..n]);
      TakenKept(After(acts[..n]).value, acts[n]);
    }
  }

  /** No handler has given up on a request that AiDr took, be it before or after. */
  ghost predicate NoTakenOneFailed(s: State) {
    forall h | h in s.accepted && h in s.handlers :: s.handlers[h].phase != Done(GatewayFailed)
  }

  /** When the handlers of each sha run one at a time and none gives up on a request that AiDr takes, AiDr takes each
      sha at most once. */
  lemma SerialTakesOnce(acts: seq<Action>, i: nat, j: nat)
    requires After(acts).Some? && Serial(acts) && NoTakenOneFailed(After(acts).value)
    requires i < j < |After(acts).value.accepted|
    ensures var s := After(acts).value;
            !SameSha(s, s.accepted[i], s.accepted[j])
  {
    InvAlways(acts);
    SerialIsOrdered(acts);
    TakenAlways(acts);
    var s := After(acts).value;
    if SameSha(s, s.accepted[i], s.accepted[j]) {
      TakenPair(s, s.accepted[i], s.accepted[j]);
    }
  }

  lemma TakenPair(s: State, h: nat, k: nat)
    requires Inv(s) && Ordered(s) && TakenOk(s) && NoTakenOneFailed(s)
    requires h in s.accepted && k in s.accepted && SameSha(s, h, k)
    ensures h == k
  {
    assert CheckedBefore(s, h, k) && CheckedBefore(s, k, h) && HandlerOk(s, h) && HandlerOk(s, k);
    assert SameSha(s, k, h);
    assert ConfirmedInTurn(s, h, k) && ConfirmedInTurn(s, k, h) && RunsAlone(s, h, k) && RunsAlone(s, k, h);
  }

  // ----- after an answer: will AiDr take the sha again? -----

  /** A request for the sha was given up and is still on its way. */
  ghost predicate SomeInFlight(s: State, sha: string) {
    exists h :: InFlight(s, h) && s.handlers[h].request.sha == sha
  }

  /** The sha is settled: it is marked, nobody is at work on it, and nothing is on its way. */
  ghost predicate Settled(s: State, sha: string) {
    sha in s.processed && Answered(s, sha) && !SomeInFlight(s, sha)
  }

  /** Of the commits taken from the n-th on, none has the sha. */
  ghost predicate NoneTaken(s: State, n: nat, sha: string) {
    && n <= |s.accepted|
    && forall i | n <= i < |s.accepted| :: s.accepted[i] in s.handlers && s.handlers[s.accepted[i]].request.sha != sha
  }

  lemma SettledStep(s: State, a: Action, n: nat, sha: string)
    requires Enabled(s, a) && Settled(s, sha) && NoneTaken(s, n, sha)
    ensures Settled(Apply(s, a), sha) && NoneTaken(Apply(s, a), n, sha)
  {
    var t := Apply(s, a);
    forall h | h in t.handlers && t.handlers[h].request.sha == sha
      ensures t.handlers[h].phase.Done? && !InFlight(t, h)
    {
      assert h in s.handlers && s.handlers[h].request.sha == sha ==> !InFlight(s, h);
      if h != a.h {
        OthersUntouched(s, a, h);
      }
    }
    forall i | n <= i < |t.accepted|
      ensures t.accepted[i] in t.handlers && t.handlers[t.accepted[i]].request.sha != sha
    {
      if i < |s.accepted| {
        assert t.accepted[i] == s.accepted[i];
      } else {
        assert InFlight(s, a.h) ==> s.handlers[a.h].request.sha != sha;
      }
    }
  }

  lemma {:induction false} SettledStays(acts: seq<Action>, more: seq<Action>, sha: string)
    requires After(acts).Some? && After(acts + more).Some? && Settled(After(acts).value, sha)
    ensures Settled(After(acts + more).value, sha)
    ensures NoneTaken(After(acts + more).value, |After(acts).value.accepted|, sha)
  {
    if more == [] {
      assert acts + more == acts;
    } else {
      var m := |more| - 1;
      assert (acts + more)[..|acts + more| - 1] == acts + more[..m];
      SettledStays(acts, more[..m], sha);
      SettledStep(After(acts + more[..m]).value, more[m], |After(acts).value.accepted|, sha);
    }
  }

  /** A continuation, serial if the run was, in which AiDr takes the sha once more. */
  ghost predicate TakesMore(acts: seq<Action>, more: seq<Action>, sha: string)
    requires After(acts).Some?
  {
    && After(acts + more).Some? && Serial(acts + more)
    && !NoneTaken(After(acts + more).value, |After(acts).value.accepted|, sha)
  }

  lemma {:induction false} SomeFreshHandler(used: set<nat>) returns (h: nat)
    ensures forall k | k in used :: k < h
  {
    h := 0;
    if used != {} {
      var k :| k in used;
      var rest := SomeFreshHandler(used - {k});
      h := if rest > k then rest else k + 1;
      assert forall x | x in used :: x == k || x in used - {k};
    }
  }

  lemma SomeVerdict() returns (v: string)
    ensures v != "UNKNOWN" && v !in VERDICTS_REQUIRING_OVERRIDE
  {
    v := "SAFE";
    assert |v| == 4 && |"UNKNOWN"| == 7 && |"CAUTION_LIMITED"| == 15 && |"HIGH_RISK_ISOLATED"| == 18;
  }

  lemma NeverAgain(acts: seq<Action>, more: seq<Action>, sha: string)
    requires After(acts).Some? && Settled(After(acts).value, sha)
    ensures !TakesMore(acts, more, sha)
  {
    if After(acts + more).Some? {
      SettledStays(acts, more, sha);
    }
  }

  lemma OnceMore(acts: seq<Action>, sha: string) returns (more: seq<Action>)
    requires After(acts).Some? && Serial(acts) && Answered(After(acts).value, sha)
    requires sha !in After(acts).value.processed
    ensures TakesMore(acts, more, sha)
  {
    var s := After(acts).value;
    var h := SomeFreshHandler(s.handlers.Keys);
    var v := SomeVerdict();
    var longer := TakenUpstream(acts, h, Request(sha, false), v);
    assert After(longer).value.accepted[|s.accepted|] == h;
    more := longer[|acts|..];
    assert longer == acts + more;
  }

  lemma LateInState(s: State, h: nat)
    requires InFlight(s, h)
    ensures !NoneTaken(Apply(s, AidrAccepts(h)), |s.accepted|, s.handlers[h].request.sha)
  {
    assert Apply(s, AidrAccepts(h)).accepted[|s.accepted|] == h;
  }

  lemma LateArrival(acts: seq<Action>, h: nat) returns (more: seq<Action>)
    requires After(acts).Some? && Serial(acts) && InFlight(After(acts).value, h)
    ensures TakesMore(acts, more, After(acts).value.handlers[h].request.sha)
  {
    var s := After(acts).value;
    var longer := ExtendSerially(acts, AidrAccepts(h));
    LateInState(s, h);
    more := longer[|acts|..];
    assert longer == acts + more;
  }

  /** Once all requests for a sha are answered, AiDr can be made to take it again, by handlers that run one at a time,
      if and only if it is not marked as processed or a request for it that was given up is still on its way. */
  lemma TakenAgainIff(acts: seq<Action>, sha: string)
    requires After(acts).Some? && Serial(acts) && Answered(After(acts).value, sha)
    ensures (exists more :: TakesMore(acts, more, sha))
       <==> sha !in After(acts).value.processed || SomeInFlight(After(acts).value, sha)
  {
    if sha !in After(acts).value.processed {
      var more := OnceMore(acts, sha);
    } else if SomeInFlight(After(acts).value, sha) {
      var h :| InFlight(After(acts).value, h) && After(acts).value.handlers[h].request.sha == sha;
      var more := LateArrival(acts, h);
    } else {
      forall more ensures !TakesMore(acts, more, sha) {
        NeverAgain(acts, more, sha);
      }
    }
  }

  /** It is marked exactly when some request for it was answered with success. */
  lemma MarkedIffSomeReplyArrived(acts: seq<Action>, sha: string)
    requires After(acts).Some? && Answered(After(acts).value, sha)
    ensures var s := After(acts).value;
            sha in s.processed
            <==> exists h :: h in s.handlers && s.handlers[h].request.sha == sha
                             && s.handlers[h].phase == Done(Forwarded)
  {
    InvAlways(acts);
    var s := After(acts).value;
    if sha in s.processed {
      var k :| k in s.confirmed && s.handlers[k].request.sha == sha;
      assert HandlerOk(s, k);
    }
    if h :| h in s.handlers && s.handlers[h].request.sha == sha && s.handlers[h].phase == Done(Forwarded) {
      assert HandlerOk(s, h);
    }
  }

  // ----- overlapping handlers, exactly -----

  /** The handler can still be answered with success, or has been. */
  ghost predicate Alive(s: State, h: nat) {
    h in s.handlers && s.handlers[h].phase in {AwaitVerdict, AwaitReply, Accepted, AwaitForwardLog, Done(Forwarded)}
  }

  /** A continuation without new requests after which both handlers have forwarded. */
  ghost predicate BothForward(acts: seq<Action>, more: seq<Action>, h: nat, k: nat) {
    && (forall a | a in more :: !a.Arrive?)
    && After(acts + more).Some? && h in After(acts + more).value.confirmed && k in After(acts + more).value.confirmed
  }

  lemma {:induction false} DeadStaysDead(acts: seq<Action>, more: seq<Action>, h: nat)
    requires After(acts).Some? && After(acts + more).Some? && (forall a | a in more :: !a.Arrive?)
    requires !Alive(After(acts).value, h)
    ensures !Alive(After(acts + more).value, h)
  {
    if more == [] {
      assert acts + more == acts;
    } else {
      var m := |more| - 1;
      assert (acts + more)[..|acts + more| - 1] == acts + more[..m];
      assert more[m] in more && forall a | a in more[..m] :: a in more;
      DeadStaysDead(acts, more[..m], h);
      if h != more[m].h {
        OthersUntouched(After(acts + more[..m]).value, more[m], h);
      }
    }
  }

  /** t is s with handler h in phase p; nobody else's situation has changed. */
  ghost predicate Moved(s: State, t: State, h: nat) {
    && h in s.handlers && t.handlers.Keys == s.handlers.Keys && s.confirmed <= t.confirmed
    && t.handlers[h].request == s.handlers[h].request
    && forall k | k in s.handlers && k != h :: t.handlers[k] == s.handlers[k]
  }

  lemma Advance(acts: seq<Action>, more: seq<Action>, a: Action) returns (further: seq<Action>)
    requires After(acts).Some? && After(acts + more).Some? && Enabled(After(acts + more).value, a) && !a.Arrive?
    requires (forall b | b in more :: !b.Arrive?) && Moved(After(acts).value, After(acts + more).value, a.h)
    ensures forall b | b in further :: !b.Arrive?
    ensures After(acts + further) == Some(Apply(After(acts + more).value, a))
    ensures Moved(After(acts).value, After(acts + further).value, a.h)
  {
    further := more + [a];
    assert acts + further == acts + more + [a];
    AfterOneMore(acts + more, a);
    var s := After(acts + more).value;
    Grows(s, a);
    forall k | k in s.handlers && k != a.h ensures Apply(s, a).handlers[k] == s.handlers[k] {
      OthersUntouched(s, a, k);
    }
  }

  /** A live handler can be carried to its forward without touching anybody else. */
  lemma Drive(acts: seq<Action>, h: nat) returns (more: seq<Action>)
    requires After(acts).Some? && Alive(After(acts).value, h)
    ensures (forall a | a in more :: !a.Arrive?) && After(acts + more).Some?
    ensures Moved(After(acts).value, After(acts + more).value, h) && h in After(acts + more).value.confirmed
  {
    InvAlways(acts);
    var s := After(acts).value;
    assert HandlerOk(s, h);
    more := [];
    assert acts + more == acts;
    if s.handlers[h].phase == AwaitVerdict {
      var v := SomeVerdict();
      more := Advance(acts, more, VerdictReply(h, v));
    }
    if In(After(acts + more).value, h, AwaitReply) {
      more := Advance(acts, more, AidrAccepts(h));
    }
    if In(After(acts + more).value, h, Accepted) {
      more := Advance(acts, more, ForwardReply(h, true));
    }
  }

  /** A continuation after which the handler has forwarded. */
  ghost predicate Forwards(acts: seq<Action>, more: seq<Action>, h: nat) {
    After(acts + more).Some? && h in After(acts + more).value.confirmed
  }

  /** From any state in which a handler waits for its verdict: with the verdict v it can still forward if and only if v
      lets its request pass, so an override opens the way for each restricted verdict. */
  lemma ConfirmableIff(acts: seq<Action>, h: nat, v: string)
    requires After(acts).Some? && In(After(acts).value, h, AwaitVerdict)
    ensures (exists more :: Forwards(acts + [VerdictReply(h, v)], more, h))
       <==> LetsPass(v, After(acts).value.handlers[h].request.override)
  {
    var s := After(acts).value;
    var longer := Extend(acts, VerdictReply(h, v));
    InvAlways(longer);
    VerdictDecides(longer, h, v);
    if LetsPass(v, s.handlers[h].request.override) {
      assert HandlerOk(After(longer).value, h);
      var more := Drive(longer, h);
      assert Forwards(longer, more, h);
    }
    forall more | Forwards(longer, more, h) ensures LetsPass(v, s.handlers[h].request.override) {
      ForwardedWasCleared(longer, more, h, v);
    }
  }

  /** ... and it can still end as denied if and only if v is restricted and not overridden. */
  lemma DeniableIff(acts: seq<Action>, h: nat, v: string)
    requires After(acts).Some? && In(After(acts).value, h, AwaitVerdict)
    ensures (exists more :: EndsDenied(acts + [VerdictReply(h, v)], more, h))
       <==> v in {"CAUTION_LIMITED", "HIGH_RISK_ISOLATED"} && !After(acts).value.handlers[h].request.override
  {
    var s := After(acts).value;
    var longer := Extend(acts, VerdictReply(h, v));
    InvAlways(longer);
    VerdictDecides(longer, h, v);
    if v in {"CAUTION_LIMITED", "HIGH_RISK_ISOLATED"} && !s.handlers[h].request.override {
      AfterOneMore(longer, DenialLogged(h));
      assert EndsDenied(longer, [DenialLogged(h)], h);
    }
    forall more | EndsDenied(longer, more, h)
      ensures v in {"CAUTION_LIMITED", "HIGH_RISK_ISOLATED"} && !s.handlers[h].request.override
    {
      VerdictDecides(longer + more, h, v);
      RequestStays(longer, more, h);
    }
  }

  /** A continuation after which the handler has ended as denied. */
  ghost predicate EndsDenied(acts: seq<Action>, more: seq<Action>, h: nat) {
    After(acts + more).Some? && In(After(acts + more).value, h, Done(Denied))
  }

  lemma ForwardedWasCleared(acts: seq<Action>, more: seq<Action>, h: nat, v: string)
    requires After(acts).Some? && h in After(acts).value.handlers
    requires VerdictReply(h, v) in acts && Forwards(acts, more, h)
    ensures LetsPass(v, After(acts).value.handlers[h].request.override)
  {
    VerdictDecides(acts, h, v);
    VerdictDecides(acts + more, h, v);
    InvAlways(acts + more);
    assert HandlerOk(After(acts + more).value, h);
    RequestStays(acts, more, h);
  }

  lemma {:induction false} RequestStays(acts: seq<Action>, more: seq<Action>, h: nat)
    requires After(acts).Some? && After(acts + more).Some? && h in After(acts).value.handlers
    ensures h in After(acts + more).value.handlers
    ensures After(acts + more).value.handlers[h].request == After(acts).value.handlers[h].request
  {
    if more == [] {
      assert acts + more == acts;
    } else {
      var m := |more| - 1;
      assert (acts + more)[..|acts + more| - 1] == acts + more[..m];
      RequestStays(acts, more[..m], h);
      if h != more[m].h {
        OthersUntouched(After(acts + more[..m]).value, more[m], h);
      }
    }
  }

  lemma BothWereAlive(acts: seq<Action>, more: seq<Action>, h: nat, k: nat)
    requires After(acts).Some? && BothForward(acts, more, h, k)
    ensures Alive(After(acts).value, h) && Alive(After(acts).value, k)
  {
    InvAlways(acts + more);
    var t := After(acts + more).value;
    assert HandlerOk(t, h) && HandlerOk(t, k);
    if !Alive(After(acts).value, h) {
      DeadStaysDead(acts, more, h);
    }
    if !Alive(After(acts).value, k) {
      DeadStaysDead(acts, more, k);
    }
  }

  lemma AliveBeside(s: State, t: State, h: nat, k: nat)
    requires Moved(s, t, h) && h != k && Alive(s, k)
    ensures Alive(t, k)
  {
    assert t.handlers[k] == s.handlers[k];
  }

  lemma DriveBoth(acts: seq<Action>, h: nat, k: nat) returns (more: seq<Action>)
    requires After(acts).Some? && h != k && Alive(After(acts).value, h) && Alive(After(acts).value, k)
    ensures BothForward(acts, more, h, k)
    ensures forall i | i in {h, k} :: i in After(acts + more).value.handlers
              && After(acts + more).value.handlers[i].request == After(acts).value.handlers[i].request
  {
    var first := Drive(acts, h);
    AliveBeside(After(acts).value, After(acts + first).value, h, k);
    var second := Drive(acts + first, k);
    more := first + second;
    assert acts + first + second == acts + more;
  }

  /** Without any further request two handlers of one sha can both forward it if and only if both are past the
      duplicate check and neither was refused or has failed. */
  lemma BothCanForwardIff(acts: seq<Action>, h: nat, k: nat)
    requires After(acts).Some? && SameSha(After(acts).value, h, k) && h != k
    ensures (exists more :: BothForward(acts, more, h, k))
       <==> Alive(After(acts).value, h) && Alive(After(acts).value, k)
  {
    if Alive(After(acts).value, h) && Alive(After(acts).value, k) {
      var more := DriveBoth(acts, h, k);
    }
    forall more | BothForward(acts, more, h, k) ensures Alive(After(acts).value, h) && Alive(After(acts).value, k) {
      BothWereAlive(acts, more, h, k);
    }
  }

  /** Two overlapping requests for one sha, and both are forwarded. */
  lemma OverlapForwardsTwice(sha: string) returns (acts: seq<Action>)
    ensures After(acts).Some? && SameSha(After(acts).value, 0, 1) && {0, 1} <= After(acts).value.confirmed
    ensures After(acts).value.handlers[0].request.sha == sha
  {
    acts := Extend([], Arrive(0, Request(sha, false)));
    acts := Extend(acts, Arrive(1, Request(sha, false)));
    var more := DriveBoth(acts, 0, 1);
    acts := acts + more;
  }

  /** s' is s with one more request that its handler has given up and AiDr has not taken. */
  lemma TimedOut(acts: seq<Action>, h: nat, r: Request, v: string) returns (longer: seq<Action>)
    requires v != "UNKNOWN" && v !in VERDICTS_REQUIRING_OVERRIDE
    requires Serial(acts) && After(acts).Some?
    requires var s := After(acts).value;
             Answered(s, r.sha) && h !in s.handlers && h !in s.accepted && r.sha !in s.processed
    ensures acts <= longer && Serial(longer) && After(longer).Some?
    ensures Serving(After(acts).value, After(longer).value, h, r, Done(GatewayFailed))
    ensures After(longer).value.accepted == After(acts).value.accepted && InFlight(After(longer).value, h)
  {
    ghost var s := After(acts).value;
    longer := ExtendSerially(acts, Arrive(h, r));
    assert Serving(s, After(longer).value, h, r, AwaitVerdict);
    longer := ExtendSerially(longer, VerdictReply(h, v));
    assert Serving(s, After(longer).value, h, r, AwaitReply);
    longer := ExtendSerially(longer, ForwardReply(h, false));
  }

  /** A handler times out before AiDr takes its request; the next one forwards the sha, is answered and marks it; then
      AiDr takes the first request as well. No reply was lost on the way. */
  lemma TimedOutRequestArrivesLate(sha: string) returns (acts: seq<Action>)
    ensures Serial(acts) && After(acts).Some?
    ensures var s := After(acts).value;
            && s.accepted == [1, 0] && SameSha(s, 0, 1) && s.handlers[0].request.sha == sha
            && sha in s.processed && s.confirmed == {1}
  {
    var r := Request(sha, false);
    var v := SomeVerdict();
    acts := TimedOut([], 0, r, v);
    acts := TakenUpstream(acts, 1, r, v);
    acts := ExtendSerially(acts, ForwardReply(1, true));
    ghost var s := After(acts).value;
    assert InFlight(s, 0) && s.accepted == [1];
    acts := ExtendSerially(acts, AidrAccepts(0));
  }
}
