/** What the output of an exec comes to: which events are relayed, which errors are recorded, which session id is
    noted, stated line by line of the joined output and independently of how the lines are handled. */
module ShimContent {
  import opened Prelude
  import opened SessionMap
  import opened ShimStream
  import opened ShimTurn
  import opened Text

  /** The shim events among the lines; blank lines and lines that do not parse are dropped. */
  function Parsed(env: Env, lines: seq<string>): seq<ShimEvent> {
    if lines == [] then []
    else (if env.parse(lines[0]).Some? then [env.parse(lines[0]).value] else []) + Parsed(env, lines[1..])
  }

  /** Content, results, environment status and acceptance are shown. */
  predicate IsShown(ev: ShimEvent) {
    ev.ContentLine? || ev.ResultLine? || ev.EnvironmentLine? || ev.AcceptedLine?
  }

  /** Error lines and failed results are errors. */
  predicate IsFailure(ev: ShimEvent) {
    ev.ErrorLine? || (ev.ResultLine? && ev.isError)
  }

  function Shown(evs: seq<ShimEvent>): seq<ShimEvent> {
    if evs == [] then [] else (if IsShown(evs[0]) then [evs[0]] else []) + Shown(evs[1..])
  }

  function Failures(evs: seq<ShimEvent>): seq<ShimEvent> {
    if evs == [] then [] else (if IsFailure(evs[0]) then [evs[0]] else []) + Failures(evs[1..])
  }

  predicate ShownAs(env: Env, ev: ShimEvent, e: Event) {
    match ev
    case ContentLine(kind, payload) => e == Content(kind, payload)
    case ResultLine(_, _, _, payload) => e == Content("result", payload)
    case EnvironmentLine(payload) => e == EnvironmentStatus(env.withSkills(payload))
    case AcceptedLine => e == RunAccepted
    case _ => false
  }

  predicate ReportedAs(ev: ShimEvent, e: Event) {
    match ev
    case ErrorLine(stage, text, code) => e == Error(stage, text, code, "")
    case ResultLine(_, isError, message, _) =>
      isError && e == Error("", if message != "" then message else "Agent execution failed", "", "")
    case _ => false
  }

  /** One event for each, in order. */
  predicate Shows(env: Env, evs: seq<ShimEvent>, events: seq<Event>) {
    |events| == |Shown(evs)| && forall i | 0 <= i < |events| :: ShownAs(env, Shown(evs)[i], events[i])
  }

  predicate Reporting(evs: seq<ShimEvent>, events: seq<Event>) {
    |events| == |Failures(evs)| && forall i | 0 <= i < |events| :: ReportedAs(Failures(evs)[i], events[i])
  }

  /** `b` is `a` after these shim events. */
  predicate Goes(env: Env, a: Attempt, evs: seq<ShimEvent>, b: Attempt) {
    && a.relayed <= b.relayed && Shows(env, evs, b.relayed[|a.relayed|..])
    && a.errors <= b.errors && Reporting(evs, b.errors[|a.errors|..])
  }

  lemma Emits(env: Env, a: Attempt, events: seq<Event>)
    requires |events| <= 2
    ensures events == [] ==> EmittedAll(env, a, events) == a
    ensures |events| == 1 ==> EmittedAll(env, a, events) == Emitted(env, a, events[0])
    ensures |events| == 2 ==> EmittedAll(env, a, events) == Emitted(env, Emitted(env, a, events[0]), events[1])
  {
    if |events| == 1 {
      assert events[..0] == [];
    } else if |events| == 2 {
      assert events[..1] == [events[0]] && events[..1][..0] == [];
    }
  }

  lemma FiltersOfOne(ev: ShimEvent)
    ensures Shown([ev]) == (if IsShown(ev) then [ev] else []) && Failures([ev]) == (if IsFailure(ev) then [ev] else [])
  {
    assert [ev][1..] == [];
  }

  /** The events of one shim event: at most one shown and one reported. */
  lemma OneEventGoes(env: Env, a: Attempt, ev: ShimEvent)
    ensures var b := EmittedAll(env, a, AgentEvents(env, ev));
            && (if IsShown(ev) then |b.relayed| == |a.relayed| + 1 && b.relayed[..|a.relayed|] == a.relayed
                                    && ShownAs(env, ev, b.relayed[|a.relayed|])
                else b.relayed == a.relayed)
            && (if IsFailure(ev) then |b.errors| == |a.errors| + 1 && b.errors[..|a.errors|] == a.errors
                                      && ReportedAs(ev, b.errors[|a.errors|])
                else b.errors == a.errors)
  {
    hide EmittedAll;
    Emits(env, a, AgentEvents(env, ev));
  }

  lemma GrownGoes(env: Env, a: Attempt, ev: ShimEvent, b: Attempt)
    requires if IsShown(ev) then |b.relayed| == |a.relayed| + 1 && b.relayed[..|a.relayed|] == a.relayed
                                 && ShownAs(env, ev, b.relayed[|a.relayed|])
             else b.relayed == a.relayed
    requires if IsFailure(ev) then |b.errors| == |a.errors| + 1 && b.errors[..|a.errors|] == a.errors
                                   && ReportedAs(ev, b.errors[|a.errors|])
             else b.errors == a.errors
    ensures Goes(env, a, [ev], b)
  {
    hide ShownAs, ReportedAs, IsShown, IsFailure, Shown, Failures;
    FiltersOfOne(ev);
  }

  lemma OneLineGoes(env: Env, a: Attempt, line: string)
    ensures var evs := Parsed(env, [line]);
            Goes(env, a, evs, LineStep(env, a, line)) && Goes(env, a, evs, TailStep(env, a, line))
  {
    hide Goes, Parsed, LineStep, TailStep;
    ParsedOfOne(env, line);
    if env.parse(line).Some? {
      WholeLineGoes(env, a, line, env.parse(line).value);
      TailGoes(env, a, line, env.parse(line).value);
    } else {
      NothingGoes(env, a);
      NoEvent(env, a, line);
    }
  }

  lemma NoEvent(env: Env, a: Attempt, line: string)
    requires env.parse(line).None?
    ensures LineStep(env, a, line) == a && TailStep(env, a, line) == a
  {
  }

  lemma WholeLineGoes(env: Env, a: Attempt, line: string, ev: ShimEvent)
    requires env.parse(line) == Some(ev)
    ensures Goes(env, a, [ev], LineStep(env, a, line))
  {
    hide EmittedAll, MemoryStep, Goes, AgentEvents, ShownAs, ReportedAs;
    OneEventGoes(env, a, ev);
    if ev.ResultLine? {
      OneEventGoes(env, a.(lastId := ev.sessionId), ev);
    }
    GrownGoes(env, a, ev, LineStep(env, a, line));
  }

  lemma TailGoes(env: Env, a: Attempt, line: string, ev: ShimEvent)
    requires env.parse(line) == Some(ev)
    ensures Goes(env, a, [ev], TailStep(env, a, line))
  {
    hide EmittedAll, MemoryStep, Goes, AgentEvents, ShownAs, ReportedAs;
    OneEventGoes(env, a, ev);
    GrownGoes(env, a, ev, TailStep(env, a, line));
  }

  lemma ParsedOfOne(env: Env, line: string)
    ensures Parsed(env, [line]) == if env.parse(line).Some? then [env.parse(line).value] else []
  {
    assert [line][1..] == [];
  }

  lemma {:induction false} FiltersAppend(a: seq<ShimEvent>, b: seq<ShimEvent>)
    ensures Shown(a + b) == Shown(a) + Shown(b) && Failures(a + b) == Failures(a) + Failures(b)
  {
    hide IsShown, IsFailure;
    if a == [] {
      assert a + b == b;
    } else {
      assert (a + b)[1..] == a[1..] + b && (a + b)[0] == a[0];
      FiltersAppend(a[1..], b);
    }
  }

  lemma GoesOn(env: Env, a: Attempt, x: seq<ShimEvent>, b: Attempt, y: seq<ShimEvent>, c: Attempt)
    requires Goes(env, a, x, b) && Goes(env, b, y, c)
    ensures Goes(env, a, x + y, c)
  {
    hide ShownAs, ReportedAs, Shown, Failures;
    FiltersAppend(x, y);
    assert c.relayed[|a.relayed|..] == b.relayed[|a.relayed|..] + c.relayed[|b.relayed|..];
    assert c.errors[|a.errors|..] == b.errors[|a.errors|..] + c.errors[|b.errors|..];
  }

  /** Lines handled one after the other relay and report what they hold. */
  lemma {:induction false} LinesGo(env: Env, a: Attempt, lines: seq<string>)
    ensures Goes(env, a, Parsed(env, lines), EachLine(env, a, lines))
    decreases |lines|
  {
    hide Goes, LineStep;
    if lines == [] {
      NothingGoes(env, a);
    } else {
      var b := LineStep(env, a, lines[0]);
      OneLineGoes(env, a, lines[0]);
      LinesGo(env, b, lines[1..]);
      ParsedOfOne(env, lines[0]);
      GoesOn(env, a, Parsed(env, [lines[0]]), b, Parsed(env, lines[1..]), EachLine(env, b, lines[1..]));
      assert Parsed(env, [lines[0]]) + Parsed(env, lines[1..]) == Parsed(env, lines);
    }
  }

  lemma NothingGoes(env: Env, a: Attempt)
    ensures Goes(env, a, [], a)
  {
  }

  /** The lines of an output: its newline-separated fields, and the rest after the last newline. */
  function WholeLines(out: string): seq<string> {
    var fields := Split(out, '\n'); fields[..|fields| - 1]
  }

  function RestOf(out: string): string {
    var fields := Split(out, '\n'); fields[|fields| - 1]
  }

  /** The lines that count: an exception cuts off the unterminated rest. */
  function LinesOf(script: Script): seq<string> {
    if script.raises.Some? then WholeLines(Out(script.chunks)) else Split(Out(script.chunks), '\n')
  }

  /** Conservation: over any script the events relayed are, in order, one for each content, result, environment and
      accepted line of the joined output, the unterminated rest included unless an exception cuts the exec off. */
  lemma ScriptIsShown(env: Env, index: map<string, Binding>, puts: nat, script: Script)
    ensures Shows(env, Parsed(env, LinesOf(script)), AttemptOutcome(env, Fresh(index, puts), script).relayed)
  {
    hide Lines, EachLine, TailStep, Recorded, Split, Shows, LineStep;
    var a := Fresh(index, puts);
    var out := Out(script.chunks);
    var s := Chunks(env, Stream(a, "", ""), script.chunks);
    ChunksCore(env, a, script.chunks);
    LinesAreSplit(env, a, out);
    LinesGo(env, a, WholeLines(out));
    var b := EachLine(env, a, WholeLines(out));
    assert Core(s.attempt) == Core(b) && s.attempt.relayed == b.relayed;
    assert b.relayed[0..] == b.relayed;
    if script.raises.Some? {
      RecordedCore(env, s.attempt, Error("", env.transportText(script.raises.value), "", ""));
    } else {
      var rest := RestOf(out);
      StepCore(env, s.attempt, rest);
      StepCore(env, b, rest);
      OneLineGoes(env, b, rest);
      GoesOn(env, a, Parsed(env, WholeLines(out)), b, Parsed(env, [rest]), TailStep(env, b, rest));
      ParsedAppend(env, WholeLines(out), [rest]);
      assert WholeLines(out) + [rest] == Split(out, '\n');
      var c := TailStep(env, b, rest);
      assert c.relayed[0..] == c.relayed;
    }
  }

  lemma {:induction false} ParsedAppend(env: Env, x: seq<string>, y: seq<string>)
    ensures Parsed(env, x + y) == Parsed(env, x) + Parsed(env, y)
  {
    if x == [] {
      assert x + y == y;
    } else {
      assert (x + y)[1..] == x[1..] + y && (x + y)[0] == x[0];
      ParsedAppend(env, x[1..], y);
    }
  }

  // ---------------------------------------------------------------------------------------------
  // Errors

  /** After any chunks, the buffer holds what follows the last newline, and the tail kept of the diagnostics is their
      last 2000 characters. */
  lemma {:induction false} BuffersAre(env: Env, a: Attempt, chunks: seq<Chunk>)
    ensures var s := Chunks(env, Stream(a, "", ""), chunks);
            s.buf == RestOf(Out(chunks)) && s.stderrTail == Last(Diagnostics(chunks), 2000)
  {
    hide Lines, Recorded, Split;
    ChunksCore(env, a, chunks);
    LinesAreSplit(env, a, Out(chunks));
    TailsAre(env, a, chunks);
  }

  lemma {:induction false} TailsAre(env: Env, a: Attempt, chunks: seq<Chunk>)
    ensures Chunks(env, Stream(a, "", ""), chunks).stderrTail == Last(Diagnostics(chunks), 2000)
  {
    hide Lines, Recorded, Last;
    if chunks != [] {
      var n := |chunks| - 1;
      TailsAre(env, a, chunks[..n]);
      if chunks[n].Stderr? {
        LastAppend(Diagnostics(chunks[..n]), chunks[n].data, 2000);
      }
    } else {
      LastOfNothing();
    }
  }

  lemma LastOfNothing()
    ensures Last("", 2000) == ""
  {
  }

  /** What one more chunk reports: output, the errors of the lines it completes; an exec error, itself; a failing exit,
      its code and the end of the diagnostics, unless something has been reported before. */
  lemma ChunkReports(env: Env, index: map<string, Binding>, puts: nat, chunks: seq<Chunk>, c: Chunk)
    ensures var before := Chunks(env, Stream(Fresh(index, puts), "", ""), chunks).attempt.errors;
            var after := Chunks(env, Stream(Fresh(index, puts), "", ""), chunks + [c]).attempt.errors;
            && before <= after
            && match c
               case Stdout(data) =>
                 Reporting(Parsed(env, WholeLines(RestOf(Out(chunks)) + data)), after[|before|..])
               case Stderr(_) => after == before
               case ExecError(error) => after == before + [Error("", env.userFacing(error), "", "")]
               case Exit(code) =>
                 after == before + if code != 0 && before == []
                                   then [Error("", env.exitText(code), "", Last(Diagnostics(chunks), 2000))] else []
  {
    hide Lines, Recorded, Split, LineStep, EachLine, Reporting, Last;
    var s := Chunks(env, Stream(Fresh(index, puts), "", ""), chunks);
    BuffersAre(env, Fresh(index, puts), chunks);
    assert (chunks + [c])[..|chunks|] == chunks && (chunks + [c])[|chunks|] == c;
    match c {
      case Stdout(data) =>
        LinesAreSplit(env, s.attempt, s.buf + data);
        LinesGo(env, s.attempt, WholeLines(s.buf + data));
      case Stderr(_) =>
      case ExecError(error) => RecordedIs(env, s.attempt, Error("", env.userFacing(error), "", ""));
      case Exit(code) =>
        SawErrorIff(env, index, puts, chunks);
        RecordedIs(env, s.attempt, Error("", env.exitText(code), "", s.stderrTail));
    }
  }

  lemma RecordedIs(env: Env, a: Attempt, e: Event)
    requires e.Error?
    ensures Recorded(env, a, e).errors == a.errors + [e]
  {
  }

  lemma SawErrorIff(env: Env, index: map<string, Binding>, puts: nat, chunks: seq<Chunk>)
    ensures var a := Chunks(env, Stream(Fresh(index, puts), "", ""), chunks).attempt; a.sawError <==> a.errors != []
  {
    FreshIsSound(env, index, puts);
    hide Chunks, Untouched;
    ChunksKeep(env, index, Stream(Fresh(index, puts), "", ""), chunks);
  }

  lemma FreshIsSound(env: Env, index: map<string, Binding>, puts: nat)
    ensures Sound(env, index, Fresh(index, puts))
  {
  }

  /** How an exec ends: an exception is reported last and skips the unterminated rest, whose errors count otherwise. */
  lemma EndReports(env: Env, index: map<string, Binding>, puts: nat, script: Script)
    ensures var before := Chunks(env, Stream(Fresh(index, puts), "", ""), script.chunks).attempt.errors;
            var after := AttemptOutcome(env, Fresh(index, puts), script).errors;
            && before <= after
            && match script.raises
               case Some(text) => after == before + [Error("", env.transportText(text), "", "")]
               case None => Reporting(Parsed(env, [RestOf(Out(script.chunks))]), after[|before|..])
  {
    hide Chunks, Recorded, Split, TailStep, Reporting, Last;
    var s := Chunks(env, Stream(Fresh(index, puts), "", ""), script.chunks);
    BuffersAre(env, Fresh(index, puts), script.chunks);
    match script.raises
    case Some(text) => RecordedIs(env, s.attempt, Error("", env.transportText(text), "", ""));
    case None => OneLineGoes(env, s.attempt, s.buf);
  }

  // ---------------------------------------------------------------------------------------------
  // Session ids

  /** The session id a whole line carries, if it is of a kind that may. */
  function IdIn(ev: ShimEvent): string {
    match ev
    case StartLine(id) => id
    case DoneLine(id) => id
    case ResultLine(id, _, _, _) => id
    case _ => ""
  }

  /** The last session id of some lines, or what it was before. */
  function LastId(evs: seq<ShimEvent>, was: string): string {
    if evs == [] then was else LastId(evs[1..], if IdIn(evs[0]) != "" then IdIn(evs[0]) else was)
  }

  lemma EmittedAllKeepsIds(env: Env, a: Attempt, events: seq<Event>)
    ensures var b := EmittedAll(env, a, events);
            b.lastId == a.lastId && b.persistedId == a.persistedId && b.index == a.index && b.puts == a.puts
  {
  }

  lemma OneLineNotes(env: Env, a: Attempt, line: string)
    ensures LineStep(env, a, line).lastId == LastId(Parsed(env, [line]), a.lastId)
    ensures TailStep(env, a, line).lastId
            == match env.parse(line)
               case Some(StartLine(id)) => if id != "" then id else a.lastId
               case Some(DoneLine(id)) => if id != "" then id else a.lastId
               case _ => a.lastId
  {
    ParsedOfOne(env, line);
    if env.parse(line).Some? {
      hide EmittedAll, MemoryStep, AgentEvents;
      var ev := env.parse(line).value;
      assert [ev][1..] == [];
      EmittedAllKeepsIds(env, a, AgentEvents(env, ev));
      if ev.ResultLine? {
        EmittedAllKeepsIds(env, a.(lastId := ev.sessionId), AgentEvents(env, ev));
      }
    }
  }

  lemma {:induction false} LastIdAppend(x: seq<ShimEvent>, y: seq<ShimEvent>, was: string)
    ensures LastId(x + y, was) == LastId(y, LastId(x, was))
    decreases |x|
  {
    hide IdIn;
    if x == [] {
      assert x + y == y;
    } else {
      assert (x + y)[1..] == x[1..] + y && (x + y)[0] == x[0];
      LastIdAppend(x[1..], y, if IdIn(x[0]) != "" then IdIn(x[0]) else was);
    }
  }

  lemma {:induction false} LinesNote(env: Env, a: Attempt, lines: seq<string>)
    ensures EachLine(env, a, lines).lastId == LastId(Parsed(env, lines), a.lastId)
    decreases |lines|
  {
    if lines != [] {
      hide LineStep, LastId;
      OneLineNotes(env, a, lines[0]);
      ParsedOfOne(env, lines[0]);
      LinesNote(env, LineStep(env, a, lines[0]), lines[1..]);
      assert Parsed(env, lines) == Parsed(env, [lines[0]]) + Parsed(env, lines[1..]);
      LastIdAppend(Parsed(env, [lines[0]]), Parsed(env, lines[1..]), a.lastId);
    } else {
      NoId(a.lastId);
    }
  }

  lemma NoId(was: string)
    ensures LastId([], was) == was
  {
  }

  /** The session id an exec ends with is the last one its lines carry; of the unterminated rest only a start or done
      line's counts. */
  lemma SessionIdIs(env: Env, index: map<string, Binding>, puts: nat, script: Script)
    ensures var out := Out(script.chunks);
            var last := LastId(Parsed(env, WholeLines(out)), "");
            AttemptOutcome(env, Fresh(index, puts), script).lastId
            == if script.raises.Some? then last
               else match env.parse(RestOf(out))
                    case Some(StartLine(id)) => if id != "" then id else last
                    case Some(DoneLine(id)) => if id != "" then id else last
                    case _ => last
  {
    hide Lines, EachLine, TailStep, Recorded, Split, LineStep;
    var a, out := Fresh(index, puts), Out(script.chunks);
    var s := Chunks(env, Stream(a, "", ""), script.chunks);
    ChunksCore(env, a, script.chunks);
    LinesAreSplit(env, a, out);
    LinesNote(env, a, WholeLines(out));
    assert Core(s.attempt) == Core(EachLine(env, a, WholeLines(out)));
    if script.raises.Some? {
      RecordedCore(env, s.attempt, Error("", env.transportText(script.raises.value), "", ""));
    } else {
      OneLineNotes(env, s.attempt, s.buf);
    }
  }

  /** A start line with an id is written to the index at once: unless the storage refuses, or the conversation is bound
      to another owner or runtime, it is bound to that id from then on. */
  lemma StartIsSavedAtOnce(env: Env, a: Attempt, line: string, id: string)
    requires env.parse(line) == Some(StartLine(id)) && id != ""
    ensures var b := LineStep(env, a, line);
            var refused := env.putFails(a.puts) || env.userId == "" || env.runtimeId == ""
                           || (env.sessionId in a.index && a.index[env.sessionId].userId != ""
                               && a.index[env.sessionId].userId != env.userId)
                           || (env.sessionId in a.index && a.index[env.sessionId].runtimeId != ""
                               && a.index[env.sessionId].runtimeId != env.runtimeId);
            && b.lastId == id && b.puts == a.puts + 1
            && b.index == (if refused then a.index
                           else a.index[env.sessionId := Binding(id, env.runtimeId, env.userId, env.sandboxId)])
            && b.persistedId == (if refused then a.persistedId else id)
  {
  }

  // ---------------------------------------------------------------------------------------------
  // A whole turn

  /** With resuming required, the errors of a lost session ask for a new conversation; all others are shown as they
      are. */
  lemma ErrorsShown(env: Env, base: map<string, Binding>, requireResume: bool, a: Attempt)
    requires Sound(env, base, a)
    ensures |FinalErrors(requireResume, a)| == |a.errors|
    ensures forall i | 0 <= i < |a.errors| ::
              var e := a.errors[i];
              && e.Error?
              && FinalErrors(requireResume, a)[i]
                 == if requireResume && Lost(env, a) && e.code == "SESSION_NOT_FOUND"
                    then Error(e.stage, "Claude's previous session is no longer available. Start a new conversation.",
                               "SESSION_RESUME_REQUIRED", e.stderr)
                    else e
  {
    CodesAreLost(env, base, a);
    hide Lost, Untouched;
  }

  /** The index is written at the end if an id is known that was not written before; a write that fails is reported. */
  lemma LastWrite(env: Env, a: Attempt)
    ensures var pending := a.lastId != "" && a.persistedId != a.lastId;
            var (index, outcome) := MemoryStep(a.index, Op.Put(env.sessionId, BindingOf(env, a.lastId)));
            && (LastPut(env, a).1 <==> pending && (env.putFails(a.puts) || outcome.Denied?))
            && LastPut(env, a).0 == if pending && !LastPut(env, a).1 then index else a.index
  {
    hide MemoryStep;
  }

  /** A turn without a retry: what the exec relayed, then its errors, a failed write of the index, and `done` with the
      session id. */
  lemma OneExecAnswers(env: Env, index: map<string, Binding>, puts: nat, turn: Turn)
    requires Answered(env, index, puts, turn).attempts == 1
    ensures var answer, a := Answered(env, index, puts, turn), FirstAttempt(env, index, puts, turn);
            && answer.out
               == a.relayed + (FinalErrors(turn.requireResume, a)
                               + (if LastPut(env, a).1
                                  then [Error("", "Session continuity could not be saved",
                                              "SESSION_INDEX_WRITE_FAILED", "")]
                                  else [])
                               + [Done(a.lastId)])
            && answer.index == LastPut(env, a).0
            && Sound(env, index, a)
  {
    AttemptIsSound(env, index, puts, turn.first);
    hide AttemptOutcome, MemoryStep, MemoryFind, FinalErrors, LastPut, Sound;
  }

  lemma CodesAreLost(env: Env, base: map<string, Binding>, a: Attempt)
    requires Sound(env, base, a)
    ensures NOT_FOUND in a.codes <==> Lost(env, a)
  {
    assert NOT_FOUND != "" && NOT_FOUND !in {""};
  }

  /** A turn without an exec: no sandbox, or nothing to resume where resuming is required. */
  lemma NoExecAnswers(env: Env, index: map<string, Binding>, puts: nat, turn: Turn)
    ensures var answer := Answered(env, index, puts, turn);
            && (answer.attempts == 0 <==> env.sandboxId == "" || turn.lookupFails
                                          || (turn.requireResume && !Resumes(env, index)))
            && (answer.attempts == 0 ==> answer.index == index)
            && (env.sandboxId == "" ==>
                  answer.out == [Error("", "InSandboxShimProvider requires a bound sandbox_id", "", ""), Done("")])
            && (env.sandboxId != "" && !turn.lookupFails && turn.requireResume && !Resumes(env, index) ==>
                  answer.out
                  == [Error("", "Claude's previous session is no longer available. Start a new conversation.",
                            "SESSION_RESUME_REQUIRED", ""), Done("")])
  {
    hide AttemptOutcome, MemoryStep, MemoryFind;
  }

  /** Resuming takes a binding of this conversation with an id, by its owner and for its runtime. */
  lemma ResumesIff(env: Env, index: map<string, Binding>)
    ensures Resumes(env, index) <==>
              && env.userId != "" && env.sessionId in index && index[env.sessionId].runtimeSessionId != ""
              && index[env.sessionId].userId == env.userId
              && (env.runtimeId == "" || index[env.sessionId].runtimeId == env.runtimeId)
  {
  }

  /** A retry forgets the lost session first: unless the deletion fails, the second exec starts without the owner's
      binding. */
  lemma RetryForgets(env: Env, index: map<string, Binding>, deleteFails: bool)
    ensures var after := Forgotten(env, index, deleteFails);
            && (deleteFails ==> after == index)
            && (!deleteFails && env.userId != "" && env.sessionId in index && index[env.sessionId].userId == env.userId
                && (env.runtimeId == "" || index[env.sessionId].runtimeId == env.runtimeId)
                ==> after == index - {env.sessionId})
  {
  }

  /** The answer shows what the last exec put out, after what a lost first one did; every event of every exec is in
      it. */
  lemma TurnIsShown(env: Env, index: map<string, Binding>, puts: nat, turn: Turn)
    ensures var answer := Answered(env, index, puts, turn);
            var first, second := Parsed(env, LinesOf(turn.first)), Parsed(env, LinesOf(turn.second));
            var n, m := |Shown(first)|, |Shown(second)|;
            && (answer.attempts == 1 ==> |answer.out| > n && Shows(env, first, answer.out[..n]))
            && (answer.attempts == 2 ==> |answer.out| > n + m && Shows(env, first, answer.out[..n])
                                         && Shows(env, second, answer.out[n..n + m]))
  {
    hide Shows, LinesOf, AttemptOutcome, PutOutcome, MemoryStep, MemoryFind;
    var a, b := FirstAttempt(env, index, puts, turn), SecondAttempt(env, index, puts, turn);
    ScriptIsShown(env, index, puts, turn.first);
    ScriptIsShown(env, Forgotten(env, a.index, turn.deleteFails), a.puts, turn.second);
    ShownCounts(env, Parsed(env, LinesOf(turn.first)), a.relayed);
    ShownCounts(env, Parsed(env, LinesOf(turn.second)), b.relayed);
    var out := Answered(env, index, puts, turn).out;
    if Answered(env, index, puts, turn).attempts == 1 {
      ConcludedAfter(env, turn.requireResume, a.relayed, a, 1);
      assert out[..|a.relayed|] == a.relayed;
    } else if Answered(env, index, puts, turn).attempts == 2 {
      RetryOnlyBeforeContent(env, index, puts, turn);
      assert out[..|a.relayed|] == a.relayed && out[|a.relayed|..|a.relayed| + |b.relayed|] == b.relayed;
    }
  }

  lemma ShownCounts(env: Env, evs: seq<ShimEvent>, events: seq<Event>)
    requires Shows(env, evs, events)
    ensures |events| == |Shown(evs)|
  {
  }
}
