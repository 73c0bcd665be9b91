/** One exec of the in-sandbox shim: output chunks are reassembled into lines, content is relayed as it arrives, and
    errors are kept back. Text is decoded characters. Stripping and parsing a line, and the wording of messages, are
    functions of the environment the model never looks into. */
module ShimStream {
  import opened Prelude
  import opened SessionMap
  import opened Text

  datatype Event = RunAccepted | EnvironmentStatus(payload: string) | Content(kind: string, payload: string)
                 | Error(stage: string, text: string, code: string, stderr: string)
                 | Trace(failed: bool) | Done(sessionId: string)

  /** A parsed shim line; an absent session id is empty. */
  datatype ShimEvent = StartLine(sessionId: string) | DoneLine(sessionId: string)
                     | ResultLine(sessionId: string, isError: bool, message: string, payload: string)
                     | ErrorLine(stage: string, text: string, code: string)
                     | EnvironmentLine(payload: string) | AcceptedLine
                     | ContentLine(kind: string, payload: string) | UnknownLine

  datatype Chunk = Stdout(data: string) | Stderr(data: string) | ExecError(error: string) | Exit(code: int)

  /** What one exec produces, and the exception that cuts it off, if one does. */
  datatype Script = Script(chunks: seq<Chunk>, raises: Option<string>)

  /** `parse` is `None` for blank lines, lines that are not JSON and JSON that is not an object. `putFails` says which
      index writes the storage refuses, counted over the turn. */
  datatype Env = Env(parse: string -> Option<ShimEvent>, withSkills: string -> string, strip: string -> string,
                     userFacing: string -> string, exitText: int -> string, transportText: string -> string,
                     putFails: nat -> bool,
                     sessionId: string, userId: string, runtimeId: string, sandboxId: string)

  const STDERR_LIMIT := 2000

  /** The bookkeeping of one attempt, with what it has relayed and the index as its early writes leave it. */
  datatype Attempt = Attempt(relayed: seq<Event>, sawContent: bool, sawError: bool, codes: set<string>,
                             lastId: string, persistedId: string, errors: seq<Event>,
                             index: map<string, Binding>, puts: nat)

  function Fresh(index: map<string, Binding>, puts: nat): Attempt {
    Attempt([], false, false, {}, "", "", [], index, puts)
  }

  // ---------------------------------------------------------------------------------------------
  // One line

  /** The agent events of a shim event; a failed result is relayed and also reported. */
  function AgentEvents(env: Env, ev: ShimEvent): seq<Event> {
    match ev
    case AcceptedLine => [RunAccepted]
    case EnvironmentLine(payload) => [EnvironmentStatus(env.withSkills(payload))]
    case ContentLine(kind, payload) => [Content(kind, payload)]
    case ResultLine(_, isError, message, payload) =>
      if isError
      then [Content("result", payload), Error("", if message != "" then message else "Agent execution failed", "", "")]
      else [Content("result", payload)]
    case ErrorLine(stage, text, code) => [Error(stage, text, code, "")]
    case _ => []
  }

  predicate IsQuiet(e: Event) {
    e.EnvironmentStatus? || e.RunAccepted?
  }

  function Recorded(env: Env, a: Attempt, e: Event): Attempt
    requires e.Error?
  {
    var code := env.strip(e.code);
    a.(sawError := true, errors := a.errors + [e], codes := if code != "" then a.codes + {code} else a.codes)
  }

  function Emitted(env: Env, a: Attempt, e: Event): Attempt {
    if e.Error? then Recorded(env, a, e)
    else a.(relayed := a.relayed + [e], sawContent := a.sawContent || !IsQuiet(e))
  }

  function EmittedAll(env: Env, a: Attempt, events: seq<Event>): Attempt {
    if events == [] then a
    else Emitted(env, EmittedAll(env, a, events[..|events| - 1]), events[|events| - 1])
  }

  function BindingOf(env: Env, id: string): Binding {
    Binding(id, env.runtimeId, env.userId, env.sandboxId)
  }

  /** One index write: the index after it, and whether it raised. */
  function PutOutcome(env: Env, a: Attempt, id: string): (map<string, Binding>, bool) {
    var (index, outcome) := MemoryStep(a.index, Op.Put(env.sessionId, BindingOf(env, id)));
    if env.putFails(a.puts) || outcome.Denied? then (a.index, true) else (index, false)
  }

  function Persisted(env: Env, a: Attempt, id: string): Attempt {
    var (index, raised) := PutOutcome(env, a, id);
    a.(index := index, puts := a.puts + 1, persistedId := if raised then a.persistedId else id)
  }

  /** A whole line. */
  function LineStep(env: Env, a: Attempt, line: string): Attempt {
    match env.parse(line)
    case None => a
    case Some(ev) =>
      if ev.StartLine? && ev.sessionId != "" then Persisted(env, a.(lastId := ev.sessionId), ev.sessionId)
      else if ev.DoneLine? then if ev.sessionId != "" then a.(lastId := ev.sessionId) else a
      else
        var b := if ev.ResultLine? && ev.sessionId != "" then a.(lastId := ev.sessionId) else a;
        EmittedAll(env, b, AgentEvents(env, ev))
  }

  /** The unterminated rest: a session id here is noted but not written early, and a result's is not noted. */
  function TailStep(env: Env, a: Attempt, tail: string): Attempt {
    match env.parse(tail)
    case None => a
    case Some(ev) =>
      if (ev.StartLine? || ev.DoneLine?) && ev.sessionId != "" then a.(lastId := ev.sessionId)
      else if ev.DoneLine? then a
      else EmittedAll(env, a, AgentEvents(env, ev))
  }

  // ---------------------------------------------------------------------------------------------
  // One attempt

  function LineEnd(text: string): nat {
    IndexOf(text, '\n')
  }

  /** Take all whole lines out of a buffer. */
  function Lines(env: Env, a: Attempt, buf: string): (Attempt, string)
    decreases |buf|
  {
    var n := LineEnd(buf);
    if n == |buf| then (a, buf) else Lines(env, LineStep(env, a, buf[..n]), buf[n + 1..])
  }

  datatype Stream = Stream(attempt: Attempt, buf: string, stderrTail: string)

  function ChunkStep(env: Env, s: Stream, c: Chunk): Stream {
    match c
    case Stdout(data) =>
      var (a, rest) := Lines(env, s.attempt, s.buf + data);
      Stream(a, rest, s.stderrTail)
    case Stderr(data) => s.(stderrTail := Last(s.stderrTail + data, STDERR_LIMIT))
    case ExecError(error) => s.(attempt := Recorded(env, s.attempt, Error("", env.userFacing(error), "", "")))
    case Exit(code) =>
      if code != 0 && !s.attempt.sawError
      then s.(attempt := Recorded(env, s.attempt, Error("", env.exitText(code), "", s.stderrTail)))
      else s
  }

  function Chunks(env: Env, s: Stream, chunks: seq<Chunk>): Stream {
    if chunks == [] then s
    else ChunkStep(env, Chunks(env, s, chunks[..|chunks| - 1]), chunks[|chunks| - 1])
  }

  /** A whole attempt. An exception skips the unterminated rest. */
  function AttemptOutcome(env: Env, a: Attempt, script: Script): Attempt {
    var s := Chunks(env, Stream(a, "", ""), script.chunks);
    match script.raises
    case Some(text) => Recorded(env, s.attempt, Error("", env.transportText(text), "", ""))
    case None => TailStep(env, s.attempt, s.buf)
  }

  // ---------------------------------------------------------------------------------------------
  // Cutting the output differently changes nothing

  function EachLine(env: Env, a: Attempt, lines: seq<string>): Attempt
    decreases |lines|
  {
    if lines == [] then a else EachLine(env, LineStep(env, a, lines[0]), lines[1..])
  }

  /** Taking lines out one by one is splitting the whole text at its newlines: every field but the last is handled,
      in order and once, and the last is what is left. */
  lemma {:induction false} LinesAreSplit(env: Env, a: Attempt, buf: string)
    ensures var fields := Split(buf, '\n');
            Lines(env, a, buf) == (EachLine(env, a, fields[..|fields| - 1]), fields[|fields| - 1])
    decreases |buf|
  {
    hide LineStep, Split, IndexOf;
    SplitAtFirst(buf, '\n');
    var n := LineEnd(buf);
    if n < |buf| {
      var rest := Split(buf[n + 1..], '\n');
      LinesAreSplit(env, LineStep(env, a, buf[..n]), buf[n + 1..]);
      assert ([buf[..n]] + rest)[..|rest|] == [buf[..n]] + rest[..|rest| - 1];
      assert ([buf[..n]] + rest[..|rest| - 1])[1..] == rest[..|rest| - 1];
    }
  }

  lemma {:induction false} RestHasNoLine(env: Env, a: Attempt, buf: string)
    ensures LineEnd(Lines(env, a, buf).1) == |Lines(env, a, buf).1|
    decreases |buf|
  {
    var n := LineEnd(buf);
    if n < |buf| {
      RestHasNoLine(env, LineStep(env, a, buf[..n]), buf[n + 1..]);
    }
  }

  lemma CutAppend(x: string, y: string, n: nat)
    requires n < |x|
    ensures (x + y)[..n] == x[..n] && (x + y)[n + 1..] == x[n + 1..] + y
  {
  }

  /** Reading two pieces one after the other is reading them at once. */
  lemma {:induction false} LinesAppend(env: Env, a: Attempt, x: string, y: string)
    ensures Lines(env, a, x + y) == (var (b, rest) := Lines(env, a, x); Lines(env, b, rest + y))
    decreases |x|
  {
    hide LineStep, IndexOf;
    var n := LineEnd(x);
    IndexOfAppend(x, y, '\n');
    if n < |x| {
      CutAppend(x, y, n);
      LinesAppend(env, LineStep(env, a, x[..n]), x[n + 1..], y);
    }
  }

  /** A cut inside a piece of output, and the place of diagnostics among it, do not matter, wherever they occur. */
  lemma ChunkLaws(env: Env, s: Stream, x: string, y: string, c: Chunk)
    requires LineEnd(s.buf) == |s.buf|
    ensures ChunkStep(env, ChunkStep(env, s, Stdout(x)), Stdout(y)) == ChunkStep(env, s, Stdout(x + y))
    ensures ChunkStep(env, ChunkStep(env, s, Stderr(x)), Stderr(y)) == ChunkStep(env, s, Stderr(x + y))
    ensures !c.Exit? && !c.Stderr? ==>
              ChunkStep(env, ChunkStep(env, s, Stderr(x)), c) == ChunkStep(env, ChunkStep(env, s, c), Stderr(x))
  {
    hide Lines;
    assert s.buf + x + y == s.buf + (x + y) && s.stderrTail + x + y == s.stderrTail + (x + y);
    LinesAppend(env, s.attempt, s.buf + x, y);
    LastAppend(s.stderrTail + x, y, STDERR_LIMIT);
  }

  function Out(chunks: seq<Chunk>): string {
    if chunks == [] then ""
    else
      var c := chunks[|chunks| - 1];
      if c.Stdout? then Out(chunks[..|chunks| - 1]) + c.data else Out(chunks[..|chunks| - 1])
  }

  function Diagnostics(chunks: seq<Chunk>): string {
    if chunks == [] then ""
    else
      var c := chunks[|chunks| - 1];
      if c.Stderr? then Diagnostics(chunks[..|chunks| - 1]) + c.data else Diagnostics(chunks[..|chunks| - 1])
  }

  predicate OutputOnly(chunks: seq<Chunk>) {
    forall i | 0 <= i < |chunks| :: chunks[i].Stdout? || chunks[i].Stderr?
  }

  /** Any interleaving of output and diagnostics is as one piece of each; in particular the tail kept is the last
      2000 characters of all diagnostics. */
  lemma {:induction false} ChunksAre(env: Env, a: Attempt, chunks: seq<Chunk>)
    requires OutputOnly(chunks)
    ensures var (b, rest) := Lines(env, a, Out(chunks));
            Chunks(env, Stream(a, "", ""), chunks) == Stream(b, rest, Last(Diagnostics(chunks), STDERR_LIMIT))
  {
    if chunks != [] {
      var n := |chunks| - 1;
      hide Lines;
      ChunksAre(env, a, chunks[..n]);
      match chunks[n] {
        case Stdout(data) => LinesAppend(env, a, Out(chunks[..n]), data);
        case Stderr(data) => LastAppend(Diagnostics(chunks[..n]), data, STDERR_LIMIT);
      }
    } else {
      assert LineEnd("") == 0;
    }
  }

  /** An attempt that produces output and then exits: the closed form of its outcome in the joined output, the last
      2000 characters of the joined diagnostics, and the exit code. */
  lemma JoinedIs(env: Env, a: Attempt, chunks: seq<Chunk>, code: int)
    requires OutputOnly(chunks)
    ensures var (b, rest) := Lines(env, a, Out(chunks));
            var exited := if code != 0 && !b.sawError
                          then Recorded(env, b,
                                        Error("", env.exitText(code), "", Last(Diagnostics(chunks), STDERR_LIMIT)))
                          else b;
            AttemptOutcome(env, a, Script(chunks + [Exit(code)], None)) == TailStep(env, exited, rest)
  {
    hide Lines, TailStep;
    ChunksAre(env, a, chunks);
    assert (chunks + [Exit(code)])[..|chunks|] == chunks;
  }

  predicate SameButStderr(e: Event, f: Event) {
    e == f || (e.Error? && f.Error? && e.(stderr := "") == f.(stderr := ""))
  }

  /** Equal up to the diagnostics quoted in an exit error. */
  ghost predicate Alike(a: Attempt, b: Attempt) {
    && a == b.(errors := a.errors)
    && |a.errors| == |b.errors| && forall i | 0 <= i < |a.errors| :: SameButStderr(a.errors[i], b.errors[i])
  }

  lemma {:induction false} EmittedAllAlike(env: Env, a: Attempt, b: Attempt, events: seq<Event>)
    requires Alike(a, b)
    ensures Alike(EmittedAll(env, a, events), EmittedAll(env, b, events))
  {
    if events != [] {
      EmittedAllAlike(env, a, b, events[..|events| - 1]);
    }
  }

  /** Chunk independence: two execs that write the same output and exit alike relay the same events, report the same
      errors, end with the same session id and leave the same index, however their output is cut and whatever they
      write to their diagnostics in between; with the same diagnostics, or cut off by the same exception instead of
      exiting, the outcomes are equal outright. */
  lemma OnlyTheOutputMatters(env: Env, a: Attempt, one: seq<Chunk>, other: seq<Chunk>, code: int)
    requires OutputOnly(one) && OutputOnly(other) && Out(one) == Out(other)
    ensures forall text ::
              AttemptOutcome(env, a, Script(one, Some(text))) == AttemptOutcome(env, a, Script(other, Some(text)))
    ensures var x, y :=
              AttemptOutcome(env, a, Script(one + [Exit(code)], None)),
              AttemptOutcome(env, a, Script(other + [Exit(code)], None));
            Alike(x, y) && (Last(Diagnostics(one), STDERR_LIMIT) == Last(Diagnostics(other), STDERR_LIMIT) ==> x == y)
  {
    hide Lines;
    ChunksAre(env, a, one);
    ChunksAre(env, a, other);
    JoinedIs(env, a, one, code);
    JoinedIs(env, a, other, code);
    var (b, rest) := Lines(env, a, Out(one));
    var text := env.exitText(code);
    var x := Recorded(env, b, Error("", text, "", Last(Diagnostics(one), STDERR_LIMIT)));
    var y := Recorded(env, b, Error("", text, "", Last(Diagnostics(other), STDERR_LIMIT)));
    TailAlike(env, x, y, rest);
  }

  lemma TailAlike(env: Env, a: Attempt, b: Attempt, tail: string)
    requires Alike(a, b)
    ensures Alike(TailStep(env, a, tail), TailStep(env, b, tail))
  {
    hide EmittedAll;
    match env.parse(tail)
    case None =>
    case Some(ev) => EmittedAllAlike(env, a, b, AgentEvents(env, ev));
  }

  // ---------------------------------------------------------------------------------------------
  // Any script at all

  /** An attempt without what it has recorded of errors. */
  function Core(a: Attempt): Attempt {
    a.(sawError := false, codes := {}, errors := [])
  }

  lemma {:induction false} EmittedAllCore(env: Env, a: Attempt, events: seq<Event>)
    ensures Core(EmittedAll(env, a, events)) == Core(EmittedAll(env, Core(a), events))
  {
    if events != [] {
      EmittedAllCore(env, a, events[..|events| - 1]);
    }
  }

  lemma StepCore(env: Env, a: Attempt, line: string)
    ensures Core(LineStep(env, a, line)) == Core(LineStep(env, Core(a), line))
    ensures Core(TailStep(env, a, line)) == Core(TailStep(env, Core(a), line))
  {
    hide EmittedAll, MemoryStep;
    match env.parse(line)
    case None =>
    case Some(ev) =>
      EmittedAllCore(env, a, AgentEvents(env, ev));
      if ev.ResultLine? {
        EmittedAllCore(env, a.(lastId := ev.sessionId), AgentEvents(env, ev));
      }
  }

  lemma {:induction false} LinesCore(env: Env, a: Attempt, buf: string)
    ensures Core(Lines(env, a, buf).0) == Core(Lines(env, Core(a), buf).0)
    ensures Lines(env, a, buf).1 == Lines(env, Core(a), buf).1
    decreases |buf|
  {
    hide LineStep, IndexOf;
    var n := LineEnd(buf);
    if n < |buf| {
      var b, c := LineStep(env, a, buf[..n]), LineStep(env, Core(a), buf[..n]);
      StepCore(env, a, buf[..n]);
      LinesCore(env, b, buf[n + 1..]);
      LinesCore(env, c, buf[n + 1..]);
    }
  }

  lemma {:induction false} ChunksCore(env: Env, a: Attempt, chunks: seq<Chunk>)
    ensures var s := Chunks(env, Stream(a, "", ""), chunks);
            Core(s.attempt) == Core(Lines(env, a, Out(chunks)).0) && s.buf == Lines(env, a, Out(chunks)).1
  {
    hide Lines, Recorded;
    if chunks != [] {
      var n := |chunks| - 1;
      ChunksCore(env, a, chunks[..n]);
      var s, out := Chunks(env, Stream(a, "", ""), chunks[..n]), Out(chunks[..n]);
      match chunks[n] {
        case Stdout(data) =>
          LinesAppend(env, a, out, data);
          LinesCore(env, s.attempt, s.buf + data);
          LinesCore(env, Lines(env, a, out).0, s.buf + data);
        case Stderr(_) =>
        case ExecError(error) => RecordedCore(env, s.attempt, Error("", env.userFacing(error), "", ""));
        case Exit(code) => RecordedCore(env, s.attempt, Error("", env.exitText(code), "", s.stderrTail));
      }
    } else {
      NoLines(env, a);
    }
  }

  lemma NoLines(env: Env, a: Attempt)
    ensures Lines(env, a, "") == (a, "")
  {
    assert LineEnd("") == 0;
  }

  lemma RecordedCore(env: Env, a: Attempt, e: Event)
    requires e.Error?
    ensures Core(Recorded(env, a, e)) == Core(a)
  {
  }

  /** Whatever the scripts, with exec errors, exits and diagnostics anywhere among the output: two that write the same
      output and end alike, by themselves or by an exception, relay the same events, end with the same session id and
      leave the same index. Only the errors recorded may differ. */
  lemma RelayDependsOnOutputOnly(env: Env, a: Attempt, one: Script, other: Script)
    requires Out(one.chunks) == Out(other.chunks) && (one.raises.Some? <==> other.raises.Some?)
    ensures Core(AttemptOutcome(env, a, one)) == Core(AttemptOutcome(env, a, other))
  {
    hide Lines, TailStep, Recorded, Chunks;
    ChunksCore(env, a, one.chunks);
    ChunksCore(env, a, other.chunks);
    var s, t := Chunks(env, Stream(a, "", ""), one.chunks), Chunks(env, Stream(a, "", ""), other.chunks);
    if one.raises.Some? {
      RecordedCore(env, s.attempt, Error("", env.transportText(one.raises.value), "", ""));
      RecordedCore(env, t.attempt, Error("", env.transportText(other.raises.value), "", ""));
    } else {
      StepCore(env, s.attempt, s.buf);
      StepCore(env, t.attempt, t.buf);
    }
  }
}
