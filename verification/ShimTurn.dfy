/** What a whole shim turn answers, and what holds of every answer. */
module ShimTurn {
  import opened Prelude
  import opened SessionMap
  import opened ShimStream
  import Text

  const NOT_FOUND := "SESSION_NOT_FOUND"
  const RESUME_REQUIRED := "SESSION_RESUME_REQUIRED"
  const INDEX_WRITE_FAILED := "SESSION_INDEX_WRITE_FAILED"
  const RESUME_TEXT := "Claude's previous session is no longer available. Start a new conversation."

  const NEEDS_SANDBOX := Error("", "InSandboxShimProvider requires a bound sandbox_id", "", "")
  const NEEDS_RESUME := Error("", RESUME_TEXT, RESUME_REQUIRED, "")
  const NOT_SAVED := Error("", "Session continuity could not be saved", INDEX_WRITE_FAILED, "")

  /** A turn's circumstances: what each exec would produce, and which index accesses the storage refuses. */
  datatype Turn = Turn(requireResume: bool, first: Script, second: Script, lookupFails: bool, deleteFails: bool)

  datatype Answer = Answer(out: seq<Event>, raised: bool, attempts: nat, index: map<string, Binding>)

  predicate Resumes(env: Env, index: map<string, Binding>) {
    MemoryFind(index, env.sessionId, env.userId, env.runtimeId).Found?
  }

  /** The retry rule. */
  predicate Dangling(resumed: bool, requireResume: bool, a: Attempt) {
    resumed && !requireResume && a.sawError && !a.sawContent && NOT_FOUND in a.codes
  }

  function Forgotten(env: Env, index: map<string, Binding>, deleteFails: bool): map<string, Binding> {
    if deleteFails then index else MemoryStep(index, Op.Delete(env.sessionId, env.userId, env.runtimeId)).0
  }

  function Rewritten(e: Event): Event {
    if e.Error? && e.code == NOT_FOUND then e.(code := RESUME_REQUIRED, text := RESUME_TEXT) else e
  }

  function RewrittenAll(events: seq<Event>): seq<Event> {
    seq(|events|, i requires 0 <= i < |events| => Rewritten(events[i]))
  }

  function FinalErrors(requireResume: bool, a: Attempt): seq<Event> {
    if requireResume && NOT_FOUND in a.codes then RewrittenAll(a.errors) else a.errors
  }

  /** The last write of the index, if it is still needed. */
  function LastPut(env: Env, a: Attempt): (map<string, Binding>, bool) {
    if a.lastId != "" && a.persistedId != a.lastId then PutOutcome(env, a, a.lastId) else (a.index, false)
  }

  function Concluded(env: Env, requireResume: bool, relayed: seq<Event>, a: Attempt, attempts: nat): Answer {
    var (index, raised) := LastPut(env, a);
    Answer(relayed + (FinalErrors(requireResume, a) + (if raised then [NOT_SAVED] else []) + [Done(a.lastId)]),
           false, attempts, index)
  }

  lemma ConcludedAfter(env: Env, requireResume: bool, relayed: seq<Event>, a: Attempt, attempts: nat)
    ensures var whole, ending :=
              Concluded(env, requireResume, relayed, a, attempts), Concluded(env, requireResume, [], a, 0);
            whole.out == relayed + ending.out && whole.index == ending.index && !whole.raised
  {
    hide FinalErrors, LastPut;
  }

  function FirstAttempt(env: Env, index: map<string, Binding>, puts: nat, turn: Turn): Attempt {
    AttemptOutcome(env, Fresh(index, puts), turn.first)
  }

  function SecondAttempt(env: Env, index: map<string, Binding>, puts: nat, turn: Turn): Attempt {
    var a := FirstAttempt(env, index, puts, turn);
    AttemptOutcome(env, Fresh(Forgotten(env, a.index, turn.deleteFails), a.puts), turn.second)
  }

  function Answered(env: Env, index: map<string, Binding>, puts: nat, turn: Turn): Answer {
    if env.sandboxId == "" then Answer([NEEDS_SANDBOX, Done("")], false, 0, index)
    else if turn.lookupFails then Answer([], true, 0, index)
    else if turn.requireResume && !Resumes(env, index) then Answer([NEEDS_RESUME, Done("")], false, 0, index)
    else
      var a := FirstAttempt(env, index, puts, turn);
      if Dangling(Resumes(env, index), turn.requireResume, a) then
        var b := SecondAttempt(env, index, puts, turn);
        Concluded(env, turn.requireResume, a.relayed + b.relayed + [Trace(b.sawError)], b, 2)
      else Concluded(env, turn.requireResume, a.relayed, a, 1)
  }

  // ---------------------------------------------------------------------------------------------
  // What every attempt keeps

  predicate IsRelayed(e: Event) {
    IsQuiet(e) || e.Content?
  }

  /** Other conversations, and a binding of another owner or runtime, stay as they were. */
  predicate Untouched(env: Env, before: map<string, Binding>, after: map<string, Binding>) {
    && before - {env.sessionId} == after - {env.sessionId}
    && (env.sessionId in before && Named(before[env.sessionId])
        && (before[env.sessionId].userId != env.userId
            || (env.runtimeId != "" && before[env.sessionId].runtimeId != env.runtimeId))
        ==> env.sessionId in after && after[env.sessionId] == before[env.sessionId])
  }

  ghost predicate Sound(env: Env, base: map<string, Binding>, a: Attempt) {
    && (forall i | 0 <= i < |a.relayed| :: IsRelayed(a.relayed[i]))
    && (forall i | 0 <= i < |a.errors| :: a.errors[i].Error?)
    && (!a.sawContent <==> forall i | 0 <= i < |a.relayed| :: IsQuiet(a.relayed[i]))
    && (a.sawError <==> a.errors != [])
    && (forall i | 0 <= i < |a.errors| :: env.strip(a.errors[i].code) in a.codes + {""})
    && (forall code | code in a.codes ::
          exists i | 0 <= i < |a.errors| :: a.errors[i].Error? && env.strip(a.errors[i].code) == code)
    && (a.persistedId != "" ==> env.sessionId in a.index && a.index[env.sessionId] == BindingOf(env, a.persistedId))
    && Untouched(env, base, a.index)
  }

  lemma EmittedKeeps(env: Env, base: map<string, Binding>, a: Attempt, e: Event)
    requires Sound(env, base, a) && (IsRelayed(e) || e.Error?)
    ensures Sound(env, base, Emitted(env, a, e))
  {
    hide Untouched;
    var b := Emitted(env, a, e);
    assert forall i | 0 <= i < |a.relayed| :: b.relayed[i] == a.relayed[i];
    assert !e.Error? ==> b.relayed[|a.relayed|] == e;
    forall code | code in b.codes
      ensures exists i | 0 <= i < |b.errors| :: b.errors[i].Error? && env.strip(b.errors[i].code) == code
    {
      if code in a.codes {
        var i :| 0 <= i < |a.errors| && a.errors[i].Error? && env.strip(a.errors[i].code) == code;
        assert b.errors[i] == a.errors[i];
      } else {
        assert b.errors[|a.errors|] == e;
      }
    }
  }

  lemma {:induction false} EmittedAllKeeps(env: Env, base: map<string, Binding>, a: Attempt, events: seq<Event>)
    requires Sound(env, base, a) && forall i | 0 <= i < |events| :: IsRelayed(events[i]) || events[i].Error?
    ensures Sound(env, base, EmittedAll(env, a, events))
  {
    hide Sound;
    if events != [] {
      EmittedAllKeeps(env, base, a, events[..|events| - 1]);
      EmittedKeeps(env, base, EmittedAll(env, a, events[..|events| - 1]), events[|events| - 1]);
    }
  }

  lemma PutKeepsUntouched(env: Env, base: map<string, Binding>, a: Attempt, id: string)
    requires Untouched(env, base, a.index) && id != ""
    ensures Untouched(env, base, PutOutcome(env, a, id).0)
    ensures var (index, raised) := PutOutcome(env, a, id);
            if raised then index == a.index else env.sessionId in index && index[env.sessionId] == BindingOf(env, id)
  {
    var (index, raised) := PutOutcome(env, a, id);
    if !raised {
      assert index - {env.sessionId} == a.index - {env.sessionId};
    }
  }

  lemma PersistedKeeps(env: Env, base: map<string, Binding>, a: Attempt, id: string)
    requires Sound(env, base, a) && id != ""
    ensures Sound(env, base, Persisted(env, a, id))
  {
    hide PutOutcome, Untouched;
    PutKeepsUntouched(env, base, a, id);
  }

  lemma LineKeeps(env: Env, base: map<string, Binding>, a: Attempt, line: string)
    requires Sound(env, base, a)
    ensures Sound(env, base, LineStep(env, a, line)) && Sound(env, base, TailStep(env, a, line))
  {
    hide EmittedAll, Persisted, Untouched;
    match env.parse(line)
    case None =>
    case Some(ev) =>
      if ev.StartLine? && ev.sessionId != "" {
        PersistedKeeps(env, base, a.(lastId := ev.sessionId), ev.sessionId);
      } else if !ev.DoneLine? {
        EmittedAllKeeps(env, base, a, AgentEvents(env, ev));
        if ev.ResultLine? {
          EmittedAllKeeps(env, base, a.(lastId := ev.sessionId), AgentEvents(env, ev));
        }
      }
  }

  lemma {:induction false} LinesKeep(env: Env, base: map<string, Binding>, a: Attempt, buf: string)
    requires Sound(env, base, a)
    ensures Sound(env, base, Lines(env, a, buf).0)
    decreases |buf|
  {
    hide Sound, LineStep, Text.IndexOf;
    var n := LineEnd(buf);
    if n < |buf| {
      LineKeeps(env, base, a, buf[..n]);
      LinesKeep(env, base, LineStep(env, a, buf[..n]), buf[n + 1..]);
    }
  }

  lemma {:induction false} ChunksKeep(env: Env, base: map<string, Binding>, s: Stream, chunks: seq<Chunk>)
    requires Sound(env, base, s.attempt)
    ensures Sound(env, base, Chunks(env, s, chunks).attempt)
  {
    hide Sound, Lines, Recorded;
    if chunks != [] {
      var n := |chunks| - 1;
      ChunksKeep(env, base, s, chunks[..n]);
      var t := Chunks(env, s, chunks[..n]);
      match chunks[n]
      case Stdout(data) => LinesKeep(env, base, t.attempt, t.buf + data);
      case Stderr(_) =>
      case ExecError(error) => EmittedKeeps(env, base, t.attempt, Error("", env.userFacing(error), "", ""));
      case Exit(code) => EmittedKeeps(env, base, t.attempt, Error("", env.exitText(code), "", t.stderrTail));
    }
  }

  lemma AttemptIsSound(env: Env, index: map<string, Binding>, puts: nat, script: Script)
    ensures Sound(env, index, AttemptOutcome(env, Fresh(index, puts), script))
  {
    var s := Stream(Fresh(index, puts), "", "");
    assert Sound(env, index, s.attempt);
    hide Sound, TailStep, Recorded;
    ChunksKeep(env, index, s, script.chunks);
    var t := Chunks(env, s, script.chunks);
    match script.raises
    case Some(text) => EmittedKeeps(env, index, t.attempt, Error("", env.transportText(text), "", ""));
    case None => LineKeeps(env, index, t.attempt, t.buf);
  }

  // ---------------------------------------------------------------------------------------------
  // What every answer satisfies

  predicate OrderedAt(out: seq<Event>, k: nat)
    requires k < |out|
  {
    && (forall i | 0 <= i < k :: !out[i].Error? && !out[i].Done?)
    && (forall i | k <= i < |out| - 1 :: out[i].Error?)
    && out[|out| - 1].Done?
  }

  /** Relayed events first, then errors, then exactly one `done`. */
  predicate WellOrdered(out: seq<Event>) {
    exists k | 0 <= k < |out| :: OrderedAt(out, k)
  }

  lemma ConcludedIsOrdered(env: Env, requireResume: bool, relayed: seq<Event>, a: Attempt, attempts: nat)
    requires forall i | 0 <= i < |a.errors| :: a.errors[i].Error?
    requires forall i | 0 <= i < |relayed| :: !relayed[i].Error? && !relayed[i].Done?
    ensures WellOrdered(Concluded(env, requireResume, relayed, a, attempts).out)
  {
    hide PutOutcome;
    var out := Concluded(env, requireResume, relayed, a, attempts).out;
    var k := |relayed|;
    assert out[|out| - 1] == Done(a.lastId);
    assert OrderedAt(out, k);
  }

  /** Every turn ends in exactly one `done`, which is last, and all errors come after all relayed events; unless the
      index cannot even be read, when it raises with nothing emitted. */
  lemma EveryTurnEndsInOneDone(env: Env, index: map<string, Binding>, puts: nat, turn: Turn)
    ensures var answer := Answered(env, index, puts, turn);
            && (answer.raised <==> env.sandboxId != "" && turn.lookupFails)
            && (if answer.raised then answer.out == [] else WellOrdered(answer.out))
            && answer.attempts <= 2
  {
    hide AttemptOutcome, PutOutcome, MemoryStep, MemoryFind;
    if env.sandboxId == "" {
      assert OrderedAt([NEEDS_SANDBOX, Done("")], 0);
    } else if !turn.lookupFails {
      if turn.requireResume && !Resumes(env, index) {
        assert OrderedAt([NEEDS_RESUME, Done("")], 0);
      } else {
        var a := FirstAttempt(env, index, puts, turn);
        AttemptIsSound(env, index, puts, turn.first);
        if Dangling(Resumes(env, index), turn.requireResume, a) {
          var b := SecondAttempt(env, index, puts, turn);
          AttemptIsSound(env, Forgotten(env, a.index, turn.deleteFails), a.puts, turn.second);
          ConcludedIsOrdered(env, turn.requireResume, a.relayed + b.relayed + [Trace(b.sawError)], b, 2);
        } else {
          ConcludedIsOrdered(env, turn.requireResume, a.relayed, a, 1);
        }
      }
    }
  }

  predicate Lost(env: Env, a: Attempt) {
    exists i | 0 <= i < |a.errors| :: a.errors[i].Error? && env.strip(a.errors[i].code) == NOT_FOUND
  }

  /** A second exec happens exactly for a stored session the shim could not find, when resuming is not required and
      nothing but start-up status has been relayed; the first exec's errors are then never shown. */
  lemma RetryOnlyBeforeContent(env: Env, index: map<string, Binding>, puts: nat, turn: Turn)
    ensures var answer := Answered(env, index, puts, turn);
            var a, b := FirstAttempt(env, index, puts, turn), SecondAttempt(env, index, puts, turn);
            && (answer.attempts == 2 <==>
                  && env.sandboxId != "" && !turn.lookupFails && Resumes(env, index) && !turn.requireResume
                  && (forall i | 0 <= i < |a.relayed| :: IsQuiet(a.relayed[i])) && Lost(env, a))
            && (answer.attempts == 2 ==>
                  answer.out == a.relayed + b.relayed + [Trace(b.sawError)]
                                + (b.errors + (if LastPut(env, b).1 then [NOT_SAVED] else []) + [Done(b.lastId)]))
  {
    hide AttemptOutcome, PutOutcome, MemoryStep, MemoryFind;
    AttemptIsSound(env, index, puts, turn.first);
    assert NOT_FOUND != "" && NOT_FOUND !in {""};
  }

  predicate Reports(out: seq<Event>, code: string) {
    exists i | 0 <= i < |out| :: out[i].Error? && out[i].code == code
  }

  lemma ConcludedSaves(env: Env, base: map<string, Binding>, requireResume: bool, relayed: seq<Event>, a: Attempt,
                       attempts: nat)
    requires Sound(env, base, a)
    ensures var answer := Concluded(env, requireResume, relayed, a, attempts);
            && Untouched(env, base, answer.index)
            && answer.out != [] && answer.out[|answer.out| - 1] == Done(a.lastId)
            && (a.lastId != "" && !Reports(answer.out, INDEX_WRITE_FAILED) ==>
                  env.sessionId in answer.index && answer.index[env.sessionId] == BindingOf(env, a.lastId))
  {
    hide PutOutcome, Untouched;
    var out := Concluded(env, requireResume, relayed, a, attempts).out;
    if a.lastId != "" && a.persistedId != a.lastId {
      PutKeepsUntouched(env, base, a, a.lastId);
      if PutOutcome(env, a, a.lastId).1 {
        assert out[|out| - 2] == NOT_SAVED;
      }
    }
  }

  lemma ForgottenIsUntouched(env: Env, base: map<string, Binding>, index: map<string, Binding>, deleteFails: bool)
    requires Untouched(env, base, index)
    ensures Untouched(env, base, Forgotten(env, index, deleteFails))
  {
    assert Forgotten(env, index, deleteFails) - {env.sessionId} == index - {env.sessionId};
  }

  lemma UntouchedChains(env: Env, a: map<string, Binding>, b: map<string, Binding>, c: map<string, Binding>)
    requires Untouched(env, a, b) && Untouched(env, b, c)
    ensures Untouched(env, a, c)
  {
  }

  lemma UntouchedBySelf(env: Env, index: map<string, Binding>)
    ensures Untouched(env, index, index)
  {
  }

  lemma SoundIsUntouched(env: Env, base: map<string, Binding>, a: Attempt)
    requires Sound(env, base, a)
    ensures Untouched(env, base, a.index)
  {
  }

  /** Continuity: when `done` carries a session id and no failed write was reported, the index maps this conversation
      to that id with the current user, runtime and sandbox. No turn touches another conversation's binding, or this
      one's while it belongs to another user or runtime. */
  lemma DoneMeansSaved(env: Env, index: map<string, Binding>, puts: nat, turn: Turn)
    ensures var answer := Answered(env, index, puts, turn);
            && Untouched(env, index, answer.index)
            && (!answer.raised ==> answer.out != [] && answer.out[|answer.out| - 1].Done?)
            && (!answer.raised && answer.out[|answer.out| - 1].sessionId != ""
                && !Reports(answer.out, INDEX_WRITE_FAILED)
                ==> env.sessionId in answer.index
                    && answer.index[env.sessionId] == BindingOf(env, answer.out[|answer.out| - 1].sessionId))
  {
    hide AttemptOutcome, PutOutcome, MemoryStep, MemoryFind, Forgotten, Concluded, Untouched, Sound, Dangling, Reports;
    UntouchedBySelf(env, index);
    var a := FirstAttempt(env, index, puts, turn);
    AttemptIsSound(env, index, puts, turn.first);
    SoundIsUntouched(env, index, a);
    ConcludedSaves(env, index, turn.requireResume, a.relayed, a, 1);
    ForgottenIsUntouched(env, index, a.index, turn.deleteFails);
    var kept := Forgotten(env, a.index, turn.deleteFails);
    AttemptIsSound(env, kept, a.puts, turn.second);
    var b := SecondAttempt(env, index, puts, turn);
    ConcludedSaves(env, kept, turn.requireResume, a.relayed + b.relayed + [Trace(b.sawError)], b, 2);
    UntouchedChains(env, index, kept,
                    Concluded(env, turn.requireResume, a.relayed + b.relayed + [Trace(b.sawError)], b, 2).index);
  }
}
