/** The shim provider's methods: the loop over one exec's chunks, and a whole turn with its one retry. */
module ShimProvider {
  import opened Prelude
  import opened SessionMap
  import opened ShimStream
  import Text
  import opened ShimTurn

  /** `_AttemptState`, with the events already yielded for the attempt. */
  class AttemptState {
    var relayed: seq<Event>
    var sawContent: bool
    var sawError: bool
    var errorCodes: set<string>
    var lastSessionId: string
    var persistedSessionId: string
    var errors: seq<Event>

    constructor ()
      ensures relayed == [] && !sawContent && !sawError && errorCodes == {} && lastSessionId == ""
              && persistedSessionId == "" && errors == []
    {
      relayed, sawContent, sawError, errorCodes := [], false, false, {};
      lastSessionId, persistedSessionId, errors := "", "", [];
    }
  }

  class InSandboxShimProvider {
    const env: Env
    var index: map<string, Binding>
    var puts: nat

    constructor (env: Env, index: map<string, Binding>)
      ensures this.env == env && this.index == index && puts == 0
    {
      this.env, this.index, puts := env, index, 0;
    }

    ghost function View(state: AttemptState): Attempt
      reads this, state
    {
      Attempt(state.relayed, state.sawContent, state.sawError, state.errorCodes, state.lastSessionId,
              state.persistedSessionId, state.errors, index, puts)
    }

    method RecordError(state: AttemptState, e: Event)
      requires e.Error?
      modifies state
      ensures View(state) == Recorded(env, old(View(state)), e)
    {
      state.sawError := true;
      state.errors := state.errors + [e];
      var code := env.strip(e.code);
      if code != "" {
        state.errorCodes := state.errorCodes + {code};
      }
    }

    method Emit(state: AttemptState, events: seq<Event>)
      modifies state
      ensures View(state) == EmittedAll(env, old(View(state)), events)
    {
      var n := 0;
      while n < |events|
        invariant n <= |events| && View(state) == EmittedAll(env, old(View(state)), events[..n])
      {
        assert events[..n + 1][..n] == events[..n];
        if events[n].Error? {
          RecordError(state, events[n]);
        } else {
          if !IsQuiet(events[n]) {
            state.sawContent := true;
          }
          state.relayed := state.relayed + [events[n]];
        }
        n := n + 1;
      }
      assert events[..n] == events;
    }

    /** `_persist_session_id`: an index write, which the storage or the ownership check may refuse. */
    method PersistSessionId(state: AttemptState, id: string) returns (raised: bool)
      modifies this`index, this`puts
      ensures (index, raised) == PutOutcome(env, old(View(state)), id) && puts == old(puts) + 1
    {
      var (after, outcome) := MemoryStep(index, Op.Put(env.sessionId, BindingOf(env, id)));
      raised := env.putFails(puts) || outcome.Denied?;
      if !raised {
        index := after;
      }
      puts := puts + 1;
    }

    method HandleLine(state: AttemptState, line: string)
      modifies this, state
      ensures View(state) == LineStep(env, old(View(state)), line)
    {
      hide EmittedAll, MemoryStep;
      var parsed := env.parse(line);
      if parsed.None? {
        return;
      }
      var ev := parsed.value;
      if ev.StartLine? && ev.sessionId != "" {
        state.lastSessionId := ev.sessionId;
        var raised := PersistSessionId(state, ev.sessionId);
        if !raised {
          state.persistedSessionId := ev.sessionId;
        }
        return;
      }
      if ev.DoneLine? {
        if ev.sessionId != "" {
          state.lastSessionId := ev.sessionId;
        }
        return;
      }
      if ev.ResultLine? && ev.sessionId != "" {
        state.lastSessionId := ev.sessionId;
      }
      Emit(state, AgentEvents(env, ev));
    }

    method HandleTail(state: AttemptState, tail: string)
      modifies this, state
      ensures View(state) == TailStep(env, old(View(state)), tail)
    {
      hide EmittedAll;
      var parsed := env.parse(tail);
      if parsed.Some? {
        var ev := parsed.value;
        if (ev.StartLine? || ev.DoneLine?) && ev.sessionId != "" {
          state.lastSessionId := ev.sessionId;
        } else if !ev.DoneLine? {
          Emit(state, AgentEvents(env, ev));
        }
      }
    }

    /** Append a piece of output and handle the lines it completes. */
    method HandleOutput(state: AttemptState, buffered: string) returns (buf: string)
      modifies this, state
      ensures (View(state), buf) == Lines(env, old(View(state)), buffered)
    {
      hide LineStep;
      buf := buffered;
      while LineEnd(buf) < |buf|
        invariant Lines(env, View(state), buf) == Lines(env, old(View(state)), buffered)
        decreases |buf|
      {
        var n := LineEnd(buf);
        HandleLine(state, buf[..n]);
        buf := buf[n + 1..];
      }
    }

    method StreamAttempt(script: Script, state: AttemptState)
      modifies this, state
      ensures View(state) == AttemptOutcome(env, old(View(state)), script)
    {
      hide Lines, TailStep;
      var buf, stderrTail := "", "";
      var n := 0;
      while n < |script.chunks|
        invariant n <= |script.chunks|
        invariant Stream(View(state), buf, stderrTail)
                  == Chunks(env, Stream(old(View(state)), "", ""), script.chunks[..n])
      {
        assert script.chunks[..n + 1][..n] == script.chunks[..n];
        match script.chunks[n] {
          case Stderr(data) =>
            stderrTail := Text.Last(stderrTail + data, STDERR_LIMIT);
          case ExecError(error) =>
            RecordError(state, Error("", env.userFacing(error), "", ""));
          case Exit(code) =>
            if code != 0 && !state.sawError {
              RecordError(state, Error("", env.exitText(code), "", stderrTail));
            }
          case Stdout(data) =>
            buf := HandleOutput(state, buf + data);
        }
        n := n + 1;
      }
      assert script.chunks[..n] == script.chunks;
      if script.raises.Some? {
        RecordError(state, Error("", env.transportText(script.raises.value), "", ""));
      } else {
        HandleTail(state, buf);
      }
    }

    /** The deferred errors, the last index write if one is needed, and `done`. */
    method Conclude(requireResume: bool, state: AttemptState) returns (ending: seq<Event>)
      modifies this, state
      ensures var answer := Concluded(env, requireResume, [], old(View(state)), 0);
              ending == answer.out && index == answer.index
    {
      hide MemoryStep, Rewritten;
      if requireResume && NOT_FOUND in state.errorCodes {
        state.errors := RewrittenAll(state.errors);
      }
      ending := state.errors;
      if state.lastSessionId != "" && state.persistedSessionId != state.lastSessionId {
        var raised := PersistSessionId(state, state.lastSessionId);
        if raised {
          state.sawError := true;
          ending := ending + [NOT_SAVED];
        } else {
          state.persistedSessionId := state.lastSessionId;
        }
      }
      ending := ending + [Done(state.lastSessionId)];
    }

    /** A whole turn. */
    method Query(turn: Turn) returns (out: seq<Event>, raised: bool)
      modifies this
      ensures var answer := Answered(env, old(index), old(puts), turn);
              out == answer.out && raised == answer.raised && index == answer.index
    {
      hide AttemptOutcome, MemoryStep, PutOutcome, Rewritten, Concluded, MemoryFind;
      out, raised := [], false;
      if env.sandboxId == "" {
        return [NEEDS_SANDBOX, Done("")], false;
      }
      if turn.lookupFails {
        return [], true;
      }
      var resumes := MemoryFind(index, env.sessionId, env.userId, env.runtimeId).Found?;
      if turn.requireResume && !resumes {
        return [NEEDS_RESUME, Done("")], false;
      }
      var state := new AttemptState();
      StreamAttempt(turn.first, state);
      out := state.relayed;
      if resumes && !turn.requireResume && state.sawError && !state.sawContent && NOT_FOUND in state.errorCodes {
        if !turn.deleteFails {
          index := MemoryStep(index, Op.Delete(env.sessionId, env.userId, env.runtimeId)).0;
        }
        state := new AttemptState();
        StreamAttempt(turn.second, state);
        out := out + state.relayed + [Trace(state.sawError)];
      }
      ghost var attempt := View(state);
      ConcludedAfter(env, turn.requireResume, out, attempt, 1);
      ConcludedAfter(env, turn.requireResume, out, attempt, 2);
      var ending := Conclude(turn.requireResume, state);
      out := out + ending;
    }
  }
}
