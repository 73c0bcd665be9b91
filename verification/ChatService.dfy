/** One metered chat call of the gateway, and any number of them sharing the leased registry. A call is a generator:
    nothing happens before its consumer's first pull, and its clean-up runs however it ends. The time to the first
    token and the log lines are not part of the model. */
module ChatService {
  import opened Prelude
  import opened StreamTypes
  import opened AnthropicCodec
  import MR = ModelRegistry

  datatype UsageRecord = UsageRecord(usage: Usage, status: string, error: string)

  /** What a call does to the services around it, in order. */
  datatype Effect = Acquire(registry: MR.Registry) | Record(record: UsageRecord) | Commit(total: int)
                  | Trace(record: UsageRecord) | Release(registry: MR.Registry)

  /** How the environment answers. `registry` is `None` when acquiring raises; `upstream` are the events of the
      resilient stream, which raises afterwards when `breaks` holds; the consumer goes away after `pulls` pulls. A
      failing ledger is logged and otherwise changes nothing, so it is not among the answers. */
  datatype Call = Call(registry: Option<MR.Registry>, resolves: bool, upstream: seq<StreamEvent>, breaks: bool,
                       pulls: nat, metered: bool, commitRaises: bool, traced: bool)
  {
    predicate Streams() {
      pulls > 0 && registry.Some? && resolves
    }

    function Delivered(): seq<StreamEvent> {
      if Streams() then upstream[..if pulls < |upstream| then pulls else |upstream|] else []
    }
  }

  /** The text of the last error event. */
  function LastError(events: seq<StreamEvent>): Option<string> {
    if events == [] then None
    else
      var n := |events| - 1;
      if events[n].StreamError? then Some(events[n].error) else LastError(events[..n])
  }

  /** The call's `status` and `error` variables. */
  datatype Noted = Noted(status: string, error: string)

  function NotedOf(events: seq<StreamEvent>): Noted {
    if LastError(events).Some? then Noted("error", LastError(events).value) else Noted("ok", "")
  }

  lemma OneMoreEvent(c: seq<StreamEvent>, ev: StreamEvent)
    ensures LastError(c + [ev]) == if ev.StreamError? then Some(ev.error) else LastError(c)
    ensures Metered(c + [ev]) == match Reported(ev)
                                 case None => Metered(c)
                                 case Some(u) => Usage(Max(Metered(c).prompt, u.prompt),
                                                       Metered(c).completion + u.completion)
  {
    SnocIs(c, ev);
  }

  function Truncated(s: string, limit: nat): string {
    if |s| <= limit then s else s[..limit]
  }

  /** The one record a call writes. */
  function RecordOf(delivered: seq<StreamEvent>): UsageRecord {
    match LastError(delivered)
    case None => UsageRecord(Metered(delivered), "ok", "")
    case Some(e) => UsageRecord(Metered(delivered), "error", Truncated(e, 500))
  }

  function Effects(call: Call): seq<Effect> {
    if call.pulls == 0 || call.registry.None? then []
    else if !call.resolves then [Acquire(call.registry.value), Release(call.registry.value)]
    else
      var record := RecordOf(call.Delivered());
      [Acquire(call.registry.value), Record(record)]
      + (if call.metered then [Commit(record.usage.prompt + record.usage.completion)] else [])
      + (if call.traced && !(call.metered && call.commitRaises) then [Trace(record)] else [])
      + [Release(call.registry.value)]
  }

  class GatewayService {
    var log: seq<Effect>

    /** Record, commit and trace, then release whatever happened before. */
    method Conclude(call: Call, usage: UsageMeter, status: string, error: string) returns (raised: bool)
      requires call.registry.Some?
      modifies `log
      ensures raised == (call.metered && call.commitRaises)
      ensures var record := UsageRecord(usage.Value(), status, Truncated(error, 500));
              log == old(log) + [Record(record)]
                     + (if call.metered then [Commit(record.usage.prompt + record.usage.completion)] else [])
                     + (if call.traced && !raised then [Trace(record)] else []) + [Release(call.registry.value)]
    {
      var record := UsageRecord(usage.Value(), status, Truncated(error, 500));
      log := log + [Record(record)];
      if call.metered {
        log := log + [Commit(usage.TotalTokens())];
      }
      raised := call.metered && call.commitRaises;
      if call.traced && !raised {
        log := log + [Trace(record)];
      }
      log := log + [Release(call.registry.value)];
    }

    /** Take note of one event: its usage, or that it is an error. */
    method Note(usage: UsageMeter, was: Noted, ev: StreamEvent, ghost delivered: seq<StreamEvent>) returns (now: Noted)
      requires usage.Value() == Metered(delivered) && was == NotedOf(delivered)
      modifies usage
      ensures usage.Value() == Metered(delivered + [ev]) && now == NotedOf(delivered + [ev])
    {
      OneMoreEvent(delivered, ev);
      hide Metered, LastError;
      now := was;
      if Reported(ev).Some? {
        usage.Merge(Reported(ev).value);
      } else if ev.StreamError? {
        now := Noted("error", ev.error);
      }
    }

    /** The delivery loop: take note of each event, then hand it over. */
    method Deliver(upstream: seq<StreamEvent>, pulls: nat)
      returns (delivered: seq<StreamEvent>, usage: UsageMeter, noted: Noted)
      ensures delivered == upstream[..if pulls < |upstream| then pulls else |upstream|]
      ensures fresh(usage)
              && UsageRecord(usage.Value(), noted.status, Truncated(noted.error, 500)) == RecordOf(delivered)
    {
      usage := new UsageMeter();
      delivered, noted := [], Noted("ok", "");
      var n := 0;
      while n < |upstream| && n < pulls
        invariant n <= |upstream| && n <= pulls && delivered == upstream[..n]
        invariant fresh(usage) && usage.Value() == Metered(delivered) && noted == NotedOf(delivered)
      {
        hide *;
        noted := Note(usage, noted, upstream[n], delivered);
        delivered := delivered + [upstream[n]];
        n := n + 1;
      }
    }

    method ChatStream(call: Call) returns (delivered: seq<StreamEvent>, raised: bool)
      modifies `log
      ensures delivered == call.Delivered()
      ensures delivered == if call.pulls > 0 && call.registry.Some? && call.resolves
                           then call.upstream[..if call.pulls < |call.upstream| then call.pulls else |call.upstream|]
                           else []
      ensures log == old(log) + Effects(call)
      ensures raised <==> call.pulls > 0
                          && (call.registry.None? || !call.resolves || (call.metered && call.commitRaises)
                              || (call.breaks && call.pulls > |call.upstream|))
    {
      hide RecordOf;
      delivered, raised := [], false;
      if call.pulls == 0 {
        return;
      }
      if call.registry.None? {
        raised := true;
        return;
      }
      log := log + [Acquire(call.registry.value)];
      if !call.resolves {
        log := log + [Release(call.registry.value)];
        raised := true;
        return;
      }
      var usage, noted;
      delivered, usage, noted := Deliver(call.upstream, call.pulls);
      var failed := Conclude(call, usage, noted.status, noted.error);
      raised := failed || (call.breaks && call.pulls > |call.upstream|);
    }
  }

  // ---------------------------------------------------------------------------------------------
  // What one call leaves behind

  datatype Phase = Waiting | Holding(registry: MR.Registry) | Done

  /** One effect of a call in phase `phase`; `None` when it is out of order: work before the lease or after its
      return, a second lease, the wrong registry returned, or a second return. */
  function Next(phase: Phase, e: Effect): Option<Phase> {
    match e
    case Acquire(r) => if phase.Waiting? then Some(Holding(r)) else None
    case Release(r) => if phase == Holding(r) then Some(Done) else None
    case _ => if phase.Holding? then Some(phase) else None
  }

  function Lifecycle(effects: seq<Effect>): Option<Phase> {
    if effects == [] then Some(Waiting)
    else
      var n := |effects| - 1;
      match Lifecycle(effects[..n])
      case None => None
      case Some(phase) => Next(phase, effects[n])
  }

  function Records(effects: seq<Effect>): seq<UsageRecord> {
    if effects == [] then []
    else
      var n := |effects| - 1;
      var before := Records(effects[..n]);
      if effects[n].Record? then before + [effects[n].record] else before
  }

  lemma OneMore(before: seq<Effect>, e: Effect, phase: Phase)
    requires Lifecycle(before) == Some(phase)
    ensures Lifecycle(before + [e]) == Next(phase, e)
    ensures Records(before + [e]) == if e.Record? then Records(before) + [e.record] else Records(before)
  {
    assert (before + [e])[..|before|] == before;
  }

  lemma FirstEffect(r: MR.Registry)
    ensures Lifecycle([Acquire(r)]) == Some(Holding(r)) && Records([Acquire(r)]) == []
  {
    assert [Acquire(r)][..0] == [];
  }

  lemma StreamEffects(r: MR.Registry, record: UsageRecord, commits: bool, traces: bool)
    ensures var commit := Commit(record.usage.prompt + record.usage.completion);
            var effects := [Acquire(r), Record(record)] + (if commits then [commit] else [])
                           + (if traces then [Trace(record)] else []) + [Release(r)];
            Lifecycle(effects) == Some(Done) && Records(effects) == [record]
  {
    hide Lifecycle, Records;
    var commit := Commit(record.usage.prompt + record.usage.completion);
    var e0 := [Acquire(r)];
    var e1 := e0 + [Record(record)];
    var e2 := if commits then e1 + [commit] else e1;
    var e3 := if traces then e2 + [Trace(record)] else e2;
    FirstEffect(r);
    OneMore(e0, Record(record), Holding(r));
    OneMore(e1, commit, Holding(r));
    OneMore(e2, Trace(record), Holding(r));
    OneMore(e3, Release(r), Holding(r));
    var effects := [Acquire(r), Record(record)] + (if commits then [commit] else [])
                   + (if traces then [Trace(record)] else []) + [Release(r)];
    assert effects == e3 + [Release(r)];
  }

  /** Success, upstream error, failed resolve, failed commit or an early consumer: a lease taken is returned exactly
      once and last, and past resolve there is exactly one record, whatever was delivered. */
  lemma LeaseReturnedOnce(call: Call)
    ensures Lifecycle(Effects(call)) == Some(if call.pulls == 0 || call.registry.None? then Waiting else Done)
    ensures Records(Effects(call)) == if call.Streams() then [RecordOf(call.Delivered())] else []
  {
    hide RecordOf;
    if call.pulls > 0 && call.registry.Some? {
      var r := call.registry.value;
      FirstEffect(r);
      if !call.resolves {
        OneMore([Acquire(r)], Release(r), Holding(r));
        assert Effects(call) == [Acquire(r)] + [Release(r)];
      } else {
        StreamEffects(r, RecordOf(call.Delivered()), call.metered, call.traced && !(call.metered && call.commitRaises));
      }
    }
  }

  /** The record of what was delivered: its metered tokens, and the text of the last error event, up to 500
      characters. */
  lemma {:induction false} RecordIs(delivered: seq<StreamEvent>, i: nat)
    ensures RecordOf(delivered).usage == Usage(MaxPrompt(delivered), SumCompletion(delivered))
    ensures (forall k | 0 <= k < |delivered| :: !delivered[k].StreamError?) ==>
              RecordOf(delivered).status == "ok" && RecordOf(delivered).error == ""
    ensures i < |delivered| && delivered[i].StreamError?
            && (forall k | i < k < |delivered| :: !delivered[k].StreamError?) ==>
              var text := delivered[i].error;
              && RecordOf(delivered).status == "error"
              && RecordOf(delivered).error == if |text| <= 500 then text else text[..500]
  {
    LastErrorIs(delivered, i);
    hide LastError;
  }

  lemma {:induction false} LastErrorIs(c: seq<StreamEvent>, i: nat)
    ensures (forall k | 0 <= k < |c| :: !c[k].StreamError?) ==> LastError(c) == None
    ensures i < |c| && c[i].StreamError? && (forall k | i < k < |c| :: !c[k].StreamError?) ==>
              LastError(c) == Some(c[i].error)
  {
    if c != [] {
      var n := |c| - 1;
      LastErrorIs(c[..n], i);
      assert forall k | 0 <= k < n :: c[..n][k] == c[k];
    }
  }

  /** What a call does to the services, in order: the record, the quota commit of prompt and completion tokens together,
      and the trace, which a failed commit prevents, between lease and return. */
  lemma EffectsAre(call: Call)
    requires call.pulls > 0 && call.registry.Some?
    ensures var r, record := call.registry.value, RecordOf(call.Delivered());
            var commit := Commit(record.usage.prompt + record.usage.completion);
            && (!call.resolves ==> Effects(call) == [Acquire(r), Release(r)])
            && (call.resolves ==>
                  Effects(call)
                  == if call.metered then
                       if call.traced && !call.commitRaises
                       then [Acquire(r), Record(record), commit, Trace(record), Release(r)]
                       else [Acquire(r), Record(record), commit, Release(r)]
                     else if call.traced then [Acquire(r), Record(record), Trace(record), Release(r)]
                     else [Acquire(r), Record(record), Release(r)])
  {
    hide RecordOf;
  }

  lemma {:induction false} NoErrorYet(c: seq<StreamEvent>)
    requires forall i | 0 <= i < |c| :: !Terminal(c[i])
    ensures LastError(c).None?
  {
    if c != [] {
      NoErrorYet(c[..|c| - 1]);
    }
  }

  /** What pulling up to the first stop or error delivers. */
  lemma PulledToTheEnd(call: Call)
    requires call.Streams() && call.pulls == |Consumed(call.upstream)| + 1
    ensures var c := Consumed(call.upstream);
            && c <= call.upstream
            && call.Delivered() == (if |c| < |call.upstream| then c + [call.upstream[|c|]] else c)
  {
    hide Consumed;
  }

  /** A stop or an error ends the stream, and neither is metered. */
  lemma EndingIsRecorded(c: seq<StreamEvent>, ending: StreamEvent)
    requires (forall i | 0 <= i < |c| :: !Terminal(c[i])) && Terminal(ending)
    ensures RecordOf(c + [ending]).usage == Metered(c)
    ensures RecordOf(c + [ending]).status == "ok" <==> !ending.StreamError?
  {
    NoErrorYet(c);
    OneMoreEvent(c, ending);
    hide Metered, LastError;
  }

  /** Billing and response agree: with the collector as consumer, which pulls up to the first stop or error, the
      record carries the tokens the collected response reports, and is an error record exactly when collecting
      raises. */
  lemma BilledIsReported(call: Call, id: string, fallback: string, parse: string -> Json)
    requires call.Streams() && call.pulls == |Consumed(call.upstream)| + 1
    ensures var record, response := RecordOf(call.Delivered()), Collected(call.upstream, id, fallback, parse);
            && (record.status == "ok" <==> response.Ok?)
            && (response.Ok? ==> record.usage == response.value.usage)
  {
    var c := Consumed(call.upstream);
    PulledToTheEnd(call);
    hide Consumed, Metered, LastError, CollectedContent, LastModel, LastReason;
    if |c| < |call.upstream| {
      EndingIsRecorded(c, call.upstream[|c|]);
    } else {
      NoErrorYet(c);
    }
  }

  // ---------------------------------------------------------------------------------------------
  // Many calls over one registry source

  datatype System = System(source: MR.State, calls: seq<Phase>)

  /** A call takes its lease, a call returns it, or a registry handed out for closing is closed. */
  datatype Action = Begin(call: nat, force: bool, now: int, load: MR.Snapshot) | Finish(call: nat)
                  | CloseOne(registry: MR.Registry)

  predicate CanAct(s: System, a: Action) {
    match a
    case Begin(i, force, now, load) =>
      i < |s.calls| && s.calls[i].Waiting? && MR.Enabled(s.source, MR.Acquire(force, now, load))
    case Finish(i) => i < |s.calls| && s.calls[i].Holding?
    case CloseOne(r) => MR.Enabled(s.source, MR.Close(r))
  }

  function Act(s: System, a: Action): System
    requires CanAct(s, a)
  {
    match a
    case Begin(i, force, now, load) =>
      var source := MR.Acquired(s.source, force, now, load);
      System(source, s.calls[i := Holding(MR.Cached(source))])
    case Finish(i) => System(MR.Released(s.source, s.calls[i].registry), s.calls[i := Done])
    case CloseOne(r) => System(MR.Closed(s.source, r), s.calls)
  }

  ghost predicate CanRun(s: System, actions: seq<Action>)
    decreases |actions|
  {
    actions != [] ==> CanAct(s, actions[0]) && CanRun(Act(s, actions[0]), actions[1..])
  }

  function RunAll(s: System, actions: seq<Action>): System
    requires CanRun(s, actions)
    decreases |actions|
  {
    if actions == [] then s else RunAll(Act(s, actions[0]), actions[1..])
  }

  /** The leases the calls hold between them. */
  function Held(calls: seq<Phase>): multiset<MR.Registry> {
    if calls == [] then multiset{} else Held(calls[1..]) + Share(calls[0])
  }

  function Share(p: Phase): multiset<MR.Registry> {
    if p.Holding? then multiset{p.registry} else multiset{}
  }

  lemma {:induction false} HeldUpdates(calls: seq<Phase>, i: nat, p: Phase, r: MR.Registry)
    requires i < |calls|
    ensures Held(calls[i := p])[r] + Share(calls[i])[r] == Held(calls)[r] + Share(p)[r]
  {
    var updated := calls[i := p];
    if i == 0 {
      assert updated[1..] == calls[1..];
    } else {
      HeldUpdates(calls[1..], i - 1, p, r);
      assert updated[1..] == calls[1..][i - 1 := p];
    }
  }

  lemma {:induction false} HeldIs(calls: seq<Phase>, r: MR.Registry)
    ensures r in Held(calls) <==> Holding(r) in calls
  {
    if calls != [] {
      HeldIs(calls[1..], r);
      assert calls == [calls[0]] + calls[1..];
    }
  }

  /** The source's leases are exactly the calls' holdings. */
  ghost predicate Accounted(s: System) {
    MR.Inv(s.source) && s.source.leases == Held(s.calls)
  }

  lemma OneLeaseMore(s: MR.State, force: bool, now: int, load: MR.Snapshot)
    ensures var t := MR.Acquired(s, force, now, load);
            t.leases == s.leases + multiset{MR.Cached(t)}
  {
  }

  lemma ActKeepsLeases(s: System, a: Action, r: MR.Registry)
    requires s.source.leases == Held(s.calls) && CanAct(s, a)
    ensures Act(s, a).source.leases[r] == Held(Act(s, a).calls)[r]
    ensures a.Finish? ==> s.calls[a.call].registry in s.source.leases
  {
    hide MR.Refreshed, MR.Leased, MR.Acquired, Held;
    match a
    case Begin(i, force, now, load) =>
      OneLeaseMore(s.source, force, now, load);
      HeldUpdates(s.calls, i, Holding(MR.Cached(MR.Acquired(s.source, force, now, load))), r);
    case Finish(i) =>
      HeldUpdates(s.calls, i, Done, r);
      HeldIs(s.calls, s.calls[i].registry);
      assert s.calls[i] in s.calls;
    case CloseOne(_) =>
  }

  lemma ActKeepsAccount(s: System, a: Action)
    requires Accounted(s) && CanAct(s, a)
    ensures Accounted(Act(s, a))
  {
    hide MR.Inv, MR.Acquired, MR.Released, MR.Closed, Held;
    ActKeepsLeases(s, a, 0);
    forall r: MR.Registry
      ensures Act(s, a).source.leases[r] == Held(Act(s, a).calls)[r]
    {
      ActKeepsLeases(s, a, r);
    }
    match a
    case Begin(i, force, now, load) =>
      MR.StepKeepsInv(s.source, MR.Acquire(force, now, load));
    case Finish(i) =>
      MR.StepKeepsInv(s.source, MR.Release(s.calls[i].registry));
    case CloseOne(r) =>
      MR.StepKeepsInv(s.source, MR.Close(r));
  }

  lemma {:induction false} RunsKeepAccount(s: System, actions: seq<Action>)
    requires Accounted(s) && CanRun(s, actions)
    ensures Accounted(RunAll(s, actions))
    decreases |actions|
  {
    if actions != [] {
      ActKeepsAccount(s, actions[0]);
      RunsKeepAccount(Act(s, actions[0]), actions[1..]);
    }
  }

  /** Any number of calls, interleaved in any way with each other, with refreshes and with closing: the registry a
      call works with is never closed under it, and once no call holds a lease and all hand-outs are closed, every
      registry ever built is closed exactly once, except the cached one. */
  lemma CallsAreSafe(fallback: MR.Registry, ttl: int, n: nat, actions: seq<Action>)
    requires CanRun(System(MR.Initial(fallback, ttl), seq(n, _ => Waiting)), actions)
    ensures var s := RunAll(System(MR.Initial(fallback, ttl), seq(n, _ => Waiting)), actions);
            && (forall i | 0 <= i < |s.calls| && s.calls[i].Holding? ::
                  s.calls[i].registry !in s.source.closed && s.calls[i].registry !in s.source.pending)
            && ((forall i | 0 <= i < |s.calls| :: !s.calls[i].Holding?) && s.source.pending == multiset{} ==>
                  forall r | r in s.source.built && r != MR.Cached(s.source) :: s.source.closed[r] == 1)
  {
    var start := System(MR.Initial(fallback, ttl), seq(n, _ => Waiting));
    NoneHeld(start.calls);
    RunsKeepAccount(start, actions);
    var s := RunAll(start, actions);
    MR.InvIsSafe(s.source);
    forall i | 0 <= i < |s.calls| && s.calls[i].Holding?
      ensures s.calls[i].registry !in s.source.closed && s.calls[i].registry !in s.source.pending
    {
      HeldIs(s.calls, s.calls[i].registry);
      assert MR.SafeAt(s.source, s.calls[i].registry);
    }
    if forall i | 0 <= i < |s.calls| :: !s.calls[i].Holding? {
      NoneHeld(s.calls);
      forall r | r in s.source.built && r != MR.Cached(s.source) && s.source.pending == multiset{}
        ensures s.source.closed[r] == 1
      {
        assert MR.SafeAt(s.source, r);
      }
    }
  }

  lemma {:induction false} NoneHeld(calls: seq<Phase>)
    requires forall i | 0 <= i < |calls| :: !calls[i].Holding?
    ensures Held(calls) == multiset{}
  {
    if calls != [] {
      NoneHeld(calls[1..]);
    }
  }
}
