/** The two encoders of a normalized stream: Anthropic server-sent events and one collected JSON response. Frames
    are structured values, not bytes. Both methods are specified in closed form for every event sequence, mixed and
    failing ones included; the lemmas say when the two outputs agree. */
module AnthropicCodec {
  import opened Prelude
  import opened StreamTypes
  import opened AnthropicBlocks

  datatype SseFrame = StartFrame(id: string, model: string, usage: Usage)
                    | ContentFrame(frame: BlockFrame)
                    | DeltaFrame(stopReason: string, outputTokens: int)
                    | StopFrame
                    | ErrorFrame(kind: string, message: string)

  datatype Response = Response(id: string, model: string, content: seq<Block>, stopReason: string, usage: Usage)

  // ---------------------------------------------------------------------------------------------
  // Closed forms over event sequences

  predicate Terminal(e: StreamEvent) {
    e.MessageStop? || e.StreamError?
  }

  /** The events before the first stop or error. */
  function Consumed(events: seq<StreamEvent>): (c: seq<StreamEvent>)
    ensures c <= events && forall i | 0 <= i < |c| :: !Terminal(c[i])
    ensures |c| < |events| ==> Terminal(events[|c|])
  {
    if events == [] || Terminal(events[0]) then [] else [events[0]] + Consumed(events[1..])
  }

  /** The error that ends the stream, if one does. */
  function EndingError(events: seq<StreamEvent>): (e: Option<StreamEvent>)
    ensures e.Some? ==> e.value.StreamError?
  {
    var n := |Consumed(events)|;
    if n < |events| && events[n].StreamError? then Some(events[n]) else None
  }

  predicate HasText(events: seq<StreamEvent>) {
    events != [] && (events[|events| - 1].ContentDelta? || HasText(events[..|events| - 1]))
  }

  predicate HasPassthrough(events: seq<StreamEvent>) {
    events != [] && (events[|events| - 1].Passthrough? || HasPassthrough(events[..|events| - 1]))
  }

  function Texts(events: seq<StreamEvent>): string {
    if events == [] then "" else
      var n := |events| - 1;
      if events[n].ContentDelta? then Texts(events[..n]) + events[n].text else Texts(events[..n])
  }

  function PassedFrames(events: seq<StreamEvent>): seq<BlockFrame> {
    if events == [] then [] else
      var n := |events| - 1;
      var before := PassedFrames(events[..n]);
      if events[n].Passthrough? && events[n].frame.Some? then before + [events[n].frame.value] else before
  }

  function LastReason(events: seq<StreamEvent>): string {
    if events == [] then "end_turn" else
      var n := |events| - 1;
      if events[n].MessageDelta? && events[n].finishReason != "" then events[n].finishReason
      else LastReason(events[..n])
  }

  function LastModel(events: seq<StreamEvent>, fallback: string): string {
    if events == [] then fallback else
      var n := |events| - 1;
      if events[n].MessageStart? && events[n].model != "" then events[n].model else LastModel(events[..n], fallback)
  }

  /** The completion counts of the message deltas only. */
  function DeltaTokens(events: seq<StreamEvent>): int {
    if events == [] then 0 else
      var n := |events| - 1;
      DeltaTokens(events[..n])
      + if events[n].MessageDelta? && events[n].usage.Some? then events[n].usage.value.completion else 0
  }

  /** The completion counts of the message starts only. */
  function StartTokens(events: seq<StreamEvent>): int {
    if events == [] then 0 else
      var n := |events| - 1;
      StartTokens(events[..n])
      + if events[n].MessageStart? && events[n].usage.Some? then events[n].usage.value.completion else 0
  }

  /** The message_start frame an event would open the message with. */
  function Opens(ev: StreamEvent, id: string, fallback: string): (o: Option<SseFrame>)
    ensures o.Some? ==> o.value.StartFrame? && o.value.id == id
  {
    match ev
    case MessageStart(model, usage) =>
      Some(StartFrame(id, if model != "" then model else fallback, if usage.Some? then usage.value else Usage(0, 0)))
    case Passthrough(_) => Some(StartFrame(id, fallback, Usage(0, 0)))
    case ContentDelta(_) => Some(StartFrame(id, fallback, Usage(0, 0)))
    case _ => None
  }

  /** The message_start frame, once the first start, text or passthrough event has been seen. */
  function Opening(events: seq<StreamEvent>, id: string, fallback: string): (o: Option<SseFrame>)
    ensures o.Some? ==> o.value.StartFrame? && o.value.id == id
  {
    if events == [] then None else
      var n := |events| - 1;
      var before := Opening(events[..n], id, fallback);
      if before.Some? then before else Opens(events[n], id, fallback)
  }

  function StartOf(events: seq<StreamEvent>, id: string, fallback: string): SseFrame {
    var o := Opening(events, id, fallback);
    if o.Some? then o.value else StartFrame(id, fallback, Usage(0, 0))
  }

  /** The content frames an event brings: a passthrough frame verbatim, text as a delta of one text block at index 0,
      which it opens unless it is open. */
  function Brings(ev: StreamEvent, textOpen: bool): seq<SseFrame> {
    match ev
    case Passthrough(Some(f)) => [ContentFrame(f)]
    case ContentDelta(t) =>
      (if textOpen then [] else [ContentFrame(BlockStart(0, TEXT_BLOCK))]) + [ContentFrame(BlockDelta(0, TextDelta(t)))]
    case _ => []
  }

  /** The content frames relayed. */
  function Relayed(events: seq<StreamEvent>): seq<SseFrame> {
    if events == [] then [] else
      var n := |events| - 1;
      Relayed(events[..n]) + Brings(events[n], HasText(events[..n]))
  }

  function TextClose(events: seq<StreamEvent>): seq<SseFrame> {
    if HasText(events) then [ContentFrame(BlockStop(0))] else []
  }

  /** The whole server-sent output. */
  function Sse(events: seq<StreamEvent>, id: string, fallback: string): seq<SseFrame> {
    Closed(Consumed(events), EndingError(events), id, fallback)
  }

  function Closed(c: seq<StreamEvent>, error: Option<StreamEvent>, id: string, fallback: string): seq<SseFrame>
    requires error.Some? ==> error.value.StreamError?
  {
    var body := [StartOf(c, id, fallback)] + Relayed(c);
    match error
    case None => body + TextClose(c) + [DeltaFrame(LastReason(c), DeltaTokens(c)), StopFrame]
    case Some(e) =>
      body + [ErrorFrame(if e.code != "" then e.code else "api_error", e.error)] + TextClose(c) + [StopFrame]
  }

  /** The collected response's content. */
  function CollectedContent(c: seq<StreamEvent>, parse: string -> Json): seq<Block> {
    if HasPassthrough(c) then
      var content := Content(PassedFrames(c), parse);
      if content == [] then [TEXT_BLOCK] else content
    else [TEXT_BLOCK.(text := Some(Texts(c)))]
  }

  function Collected(events: seq<StreamEvent>, id: string, fallback: string, parse: string -> Json)
    : Result<Response, string>
  {
    var c := Consumed(events);
    match EndingError(events)
    case Some(e) => Err(if e.error != "" then e.error else "upstream error")
    case None => Ok(Response(id, LastModel(c, fallback), CollectedContent(c, parse), LastReason(c), Metered(c)))
  }

  lemma {:induction false} ConsumedIs(events: seq<StreamEvent>, n: nat)
    requires n <= |events| && forall i | 0 <= i < n :: !Terminal(events[i])
    requires n < |events| ==> Terminal(events[n])
    ensures Consumed(events) == events[..n]
  {
    if n > 0 {
      ConsumedIs(events[1..], n - 1);
      assert events[..n] == [events[0]] + events[1..][..n - 1];
    }
  }

  // ---------------------------------------------------------------------------------------------
  // What the closed forms say of the events

  lemma {:induction false} HasTextIff(c: seq<StreamEvent>)
    ensures HasText(c) <==> exists i | 0 <= i < |c| :: c[i].ContentDelta?
    ensures HasPassthrough(c) <==> exists i | 0 <= i < |c| :: c[i].Passthrough?
  {
    if c != [] {
      var n := |c| - 1;
      HasTextIff(c[..n]);
      assert forall i | 0 <= i < n :: c[..n][i] == c[i];
    }
  }

  lemma JoinTexts(a: seq<StreamEvent>, b: seq<StreamEvent>)
    requires b != []
    ensures (a + b)[..|a + b| - 1] == a + b[..|b| - 1] && (a + b)[|a + b| - 1] == b[|b| - 1]
  {
  }

  /** Texts are concatenated, completion counts added, and passthrough frames collected, in order. */
  lemma {:induction false} FoldsAppend(a: seq<StreamEvent>, b: seq<StreamEvent>)
    ensures Texts(a + b) == Texts(a) + Texts(b)
    ensures PassedFrames(a + b) == PassedFrames(a) + PassedFrames(b)
    ensures DeltaTokens(a + b) == DeltaTokens(a) + DeltaTokens(b)
    ensures StartTokens(a + b) == StartTokens(a) + StartTokens(b)
  {
    if b == [] {
      assert a + b == a;
    } else {
      JoinTexts(a, b);
      FoldsAppend(a, b[..|b| - 1]);
    }
  }

  /** And this is what one event contributes. */
  lemma FoldsOfOne(e: StreamEvent)
    ensures Texts([e]) == if e.ContentDelta? then e.text else ""
    ensures PassedFrames([e]) == if e.Passthrough? && e.frame.Some? then [e.frame.value] else []
    ensures DeltaTokens([e]) == if e.MessageDelta? && e.usage.Some? then e.usage.value.completion else 0
    ensures StartTokens([e]) == if e.MessageStart? && e.usage.Some? then e.usage.value.completion else 0
  {
    assert [e][..0] == [];
  }

  /** The stop reason is the last one given, or end_turn; the model is the last one given, or the fallback. */
  lemma {:induction false} LastOnesCount(c: seq<StreamEvent>, fallback: string, i: nat)
    ensures (forall k | 0 <= k < |c| :: !(c[k].MessageDelta? && c[k].finishReason != "")) ==>
              LastReason(c) == "end_turn"
    ensures (forall k | 0 <= k < |c| :: !(c[k].MessageStart? && c[k].model != "")) ==>
              LastModel(c, fallback) == fallback
    ensures i < |c| && c[i].MessageDelta? && c[i].finishReason != ""
            && (forall k | i < k < |c| :: !(c[k].MessageDelta? && c[k].finishReason != ""))
            ==> LastReason(c) == c[i].finishReason
    ensures i < |c| && c[i].MessageStart? && c[i].model != ""
            && (forall k | i < k < |c| :: !(c[k].MessageStart? && c[k].model != ""))
            ==> LastModel(c, fallback) == c[i].model
  {
    if c != [] {
      var n := |c| - 1;
      LastOnesCount(c[..n], fallback, i);
      assert forall k | 0 <= k < n :: c[..n][k] == c[k];
    }
  }

  /** The message_start frame comes from the first event that is not a message delta: a message start's model, if it
      gives one, and usage; otherwise the fallback and zero. */
  lemma {:induction false} FirstOneOpens(c: seq<StreamEvent>, id: string, fallback: string, i: nat)
    requires forall k | 0 <= k < |c| :: !Terminal(c[k])
    ensures (forall k | 0 <= k < |c| :: c[k].MessageDelta?) ==>
              Opening(c, id, fallback) == None && StartOf(c, id, fallback) == StartFrame(id, fallback, Usage(0, 0))
    ensures i < |c| && !c[i].MessageDelta? && (forall k | 0 <= k < i :: c[k].MessageDelta?) ==>
              && Opening(c, id, fallback) == Some(StartOf(c, id, fallback))
              && StartOf(c, id, fallback)
                 == StartFrame(id, if c[i].MessageStart? && c[i].model != "" then c[i].model else fallback,
                               if c[i].MessageStart? && c[i].usage.Some? then c[i].usage.value else Usage(0, 0))
  {
    if c != [] {
      var n := |c| - 1;
      assert forall k | 0 <= k < n :: c[..n][k] == c[k];
      FirstOneOpens(c[..n], id, fallback, i);
      if i < |c| && !c[i].MessageDelta? {
        assert i < n ==> !c[..n][i].MessageDelta?;
      }
    }
  }

  /** Whatever is mixed: each event relays its own frame, or its text as a delta of one text block at index 0, which the
      first text opens; nothing else. */
  lemma RelayedOneMore(c: seq<StreamEvent>, e: StreamEvent)
    ensures Relayed([]) == []
    ensures var started := exists i | 0 <= i < |c| :: c[i].ContentDelta?;
            Relayed(c + [e])
            == Relayed(c) + match e
                            case Passthrough(frame) => if frame.Some? then [ContentFrame(frame.value)] else []
                            case ContentDelta(text) =>
                              (if started then []
                               else [ContentFrame(BlockStart(0, Block("text", Some(""), None, None, None, "")))])
                              + [ContentFrame(BlockDelta(0, TextDelta(text)))]
                            case _ => []
  {
    HasTextIff(c);
    assert (c + [e])[..|c|] == c;
  }

  /** What is collected: with any passthrough event the blocks of the passthrough frames, or one empty text block, and
      no text; otherwise one text block with all text. */
  lemma CollectedIs(events: seq<StreamEvent>, n: nat, id: string, fallback: string, parse: string -> Json)
    requires n <= |events| && forall i | 0 <= i < n :: !events[i].MessageStop? && !events[i].StreamError?
    requires n == |events| || events[n].MessageStop?
    ensures var c, r := events[..n], Collected(events, id, fallback, parse);
            && r.Ok? && r.value.id == id && r.value.model == LastModel(c, fallback)
            && r.value.stopReason == LastReason(c) && r.value.usage == Usage(MaxPrompt(c), SumCompletion(c))
            && ((exists i | 0 <= i < n :: events[i].Passthrough?) ==>
                  var content := Content(PassedFrames(c), parse);
                  r.value.content == if content != [] then content
                                     else [Block("text", Some(""), None, None, None, "")])
            && ((forall i | 0 <= i < n :: !events[i].Passthrough?) ==>
                  r.value.content == [Block("text", Some(Texts(c)), None, None, None, "")])
  {
    ConsumedIs(events, n);
    HasTextIff(events[..n]);
    assert forall i | 0 <= i < n :: events[..n][i] == events[i];
  }

  // ---------------------------------------------------------------------------------------------
  // The encoders

  /** The frames sent so far: the opening, once there is one, then the relayed content. */
  function Emitted(c: seq<StreamEvent>, id: string, fallback: string): seq<SseFrame> {
    match Opening(c, id, fallback)
    case None => Relayed(c)
    case Some(f) => [f] + Relayed(c)
  }

  lemma {:induction false} NothingRelayedBefore(c: seq<StreamEvent>, id: string, fallback: string)
    requires Opening(c, id, fallback).None?
    ensures Relayed(c) == [] && !HasText(c)
  {
    if c != [] {
      NothingRelayedBefore(c[..|c| - 1], id, fallback);
    }
  }

  lemma SnocIs(c: seq<StreamEvent>, ev: StreamEvent)
    ensures (c + [ev])[..|c|] == c && (c + [ev])[|c|] == ev
  {
  }

  /** What one more event adds to the closed forms of the encoder. */
  lemma OneMoreEncoded(c: seq<StreamEvent>, ev: StreamEvent, id: string, fallback: string)
    ensures Opening(c + [ev], id, fallback)
            == if Opening(c, id, fallback).Some? then Opening(c, id, fallback) else Opens(ev, id, fallback)
    ensures Relayed(c + [ev]) == Relayed(c) + Brings(ev, HasText(c))
    ensures HasText(c + [ev]) <==> HasText(c) || ev.ContentDelta?
    ensures DeltaTokens(c + [ev])
            == DeltaTokens(c) + if ev.MessageDelta? && ev.usage.Some? then ev.usage.value.completion else 0
    ensures LastReason(c + [ev]) == if ev.MessageDelta? && ev.finishReason != "" then ev.finishReason else LastReason(c)
  {
    hide Opens, Brings;
    SnocIs(c, ev);
  }

  /** After the last event, the opening is sent if it has not been. */
  lemma EmittedIsBody(c: seq<StreamEvent>, id: string, fallback: string)
    ensures [StartOf(c, id, fallback)] + Relayed(c)
            == Emitted(c, id, fallback)
               + if Opening(c, id, fallback).Some? then [] else [StartFrame(id, fallback, Usage(0, 0))]
  {
    if Opening(c, id, fallback).None? {
      NothingRelayedBefore(c, id, fallback);
    }
    hide Opening, Relayed;
  }

  /** The frames sent for one more event: the opening, if it is the first to bring one, and its content. */
  lemma OneMoreEmitted(c: seq<StreamEvent>, ev: StreamEvent, id: string, fallback: string)
    requires !Terminal(ev)
    ensures var opens := Opens(ev, id, fallback);
            var open := if Opening(c, id, fallback).None? && opens.Some? then [opens.value] else [];
            Emitted(c + [ev], id, fallback) == Emitted(c, id, fallback) + (open + Brings(ev, HasText(c)))
  {
    OneMoreEncoded(c, ev, id, fallback);
    if Opening(c, id, fallback).None? {
      NothingRelayedBefore(c, id, fallback);
    }
    hide Opening, Relayed, HasText;
  }

  /** The variables the encoder's loop keeps. */
  class SseEncoder {
    const id: string
    const fallback: string
    var started: bool
    var textBlockOpen: bool
    var outTokens: int
    var model: string
    var finishReason: string

    constructor (id: string, fallback: string)
      ensures this.id == id && this.fallback == fallback && Reflects([])
    {
      this.id, this.fallback := id, fallback;
      started, textBlockOpen, outTokens, model, finishReason := false, false, 0, fallback, "end_turn";
    }

    /** The variables are what the events `c` leave behind. */
    ghost predicate Reflects(c: seq<StreamEvent>)
      reads this
    {
      && (started <==> Opening(c, id, fallback).Some?)
      && (textBlockOpen <==> HasText(c))
      && outTokens == DeltaTokens(c) && finishReason == LastReason(c)
      && (!started ==> model == fallback)
    }

    method EnsureMessageStart(usage: Option<Usage>) returns (frames: seq<SseFrame>)
      modifies `started
      ensures started
      ensures frames == if old(started) then []
                        else [StartFrame(id, model, if usage.Some? then usage.value else Usage(0, 0))]
    {
      frames := if started then [] else [StartFrame(id, model, if usage.Some? then usage.value else Usage(0, 0))];
      started := true;
    }

    method EnsureTextBlock() returns (frames: seq<SseFrame>)
      modifies `textBlockOpen
      ensures textBlockOpen
      ensures frames == if old(textBlockOpen) then [] else [ContentFrame(BlockStart(0, TEXT_BLOCK))]
    {
      frames := if textBlockOpen then [] else [ContentFrame(BlockStart(0, TEXT_BLOCK))];
      textBlockOpen := true;
    }

    /** One pass of the loop. */
    method Encode(ev: StreamEvent, ghost c: seq<StreamEvent>) returns (frames: seq<SseFrame>)
      requires Reflects(c) && !Terminal(ev)
      modifies this
      ensures Reflects(c + [ev]) && Emitted(c, id, fallback) + frames == Emitted(c + [ev], id, fallback)
    {
      OneMoreEncoded(c, ev, id, fallback);
      hide Opening, Relayed, HasText, DeltaTokens, LastReason, Emitted;
      ghost var open := if !started && Opens(ev, id, fallback).Some? then [Opens(ev, id, fallback).value] else [];
      match ev {
        case MessageStart(m, usage) =>
          if m != "" {
            model := m;
          }
          frames := EnsureMessageStart(usage);
          assert frames == open + [] && Brings(ev, HasText(c)) == [];
        case Passthrough(frame) =>
          var start := EnsureMessageStart(None);
          assert start == open;
          var content := if frame.Some? then [ContentFrame(frame.value)] else [];
          assert content == Brings(ev, HasText(c));
          frames := start + content;
        case ContentDelta(text) =>
          var start := EnsureMessageStart(None);
          assert start == open;
          var block := EnsureTextBlock();
          var content := block + [ContentFrame(BlockDelta(0, TextDelta(text)))];
          assert content == Brings(ev, HasText(c));
          frames := start + content;
        case MessageDelta(usage, reason) =>
          if usage.Some? {
            outTokens := outTokens + usage.value.completion;
          }
          if reason != "" {
            finishReason := reason;
          }
          frames := [];
          assert frames == open + [] && Brings(ev, HasText(c)) == [];
      }
      OneMoreEmitted(c, ev, id, fallback);
    }

    /** After the loop: `error` is the event that ended it, if it was an error. */
    method Finish(error: Option<StreamEvent>, ghost c: seq<StreamEvent>) returns (frames: seq<SseFrame>)
      requires Reflects(c) && (error.Some? ==> error.value.StreamError?)
      modifies this
      ensures Emitted(c, id, fallback) + frames == Closed(c, error, id, fallback)
    {
      EmittedIsBody(c, id, fallback);
      hide Opening, Relayed, HasText, DeltaTokens, LastReason, Emitted, StartOf;
      var start := EnsureMessageStart(None);
      var close := if textBlockOpen then [ContentFrame(BlockStop(0))] else [];
      var rest;
      if error.Some? {
        rest := [ErrorFrame(if error.value.code != "" then error.value.code else "api_error", error.value.error)]
                + close + [StopFrame];
      } else {
        rest := close + [DeltaFrame(finishReason, outTokens), StopFrame];
      }
      frames := start + rest;
      assert Emitted(c, id, fallback) + frames == Emitted(c, id, fallback) + start + rest;
    }
  }

  method StreamToAnthropicSse(events: seq<StreamEvent>, id: string, fallbackModel: string)
    returns (frames: seq<SseFrame>)
    ensures frames == Sse(events, id, fallbackModel)
  {
    frames := [];
    var encoder := new SseEncoder(id, fallbackModel);
    var n := 0;
    while n < |events| && !Terminal(events[n])
      invariant n <= |events| && forall i | 0 <= i < n :: !Terminal(events[i])
      invariant encoder.id == id && encoder.fallback == fallbackModel
      invariant encoder.Reflects(events[..n]) && frames == Emitted(events[..n], id, fallbackModel)
    {
      var more := encoder.Encode(events[n], events[..n]);
      assert events[..n + 1] == events[..n] + [events[n]];
      frames := frames + more;
      n := n + 1;
    }
    ConsumedIs(events, n);
    var rest := encoder.Finish(if n < |events| && events[n].StreamError? then Some(events[n]) else None, events[..n]);
    frames := frames + rest;
  }

  /** The variables the collector's loop keeps. */
  class Collector {
    const fallback: string
    const usage: UsageMeter
    var text: string
    var model: string
    var finishReason: string
    var assembly: Assembly
    var sawPassthrough: bool

    constructor (fallback: string, parse: string -> Json)
      ensures this.fallback == fallback && Reflects([], parse) && fresh(usage)
    {
      this.fallback := fallback;
      usage := new UsageMeter();
      text, model, finishReason, assembly, sawPassthrough := "", fallback, "end_turn", EMPTY, false;
    }

    /** The variables are what the events `c` leave behind. */
    ghost predicate Reflects(c: seq<StreamEvent>, parse: string -> Json)
      reads this, usage
    {
      && text == Texts(c) && usage.Value() == Metered(c)
      && model == LastModel(c, fallback) && finishReason == LastReason(c)
      && assembly == Assemble(PassedFrames(c), parse)
      && (sawPassthrough <==> HasPassthrough(c))
    }

    method Absorb(ghost c: seq<StreamEvent>, ev: StreamEvent, parse: string -> Json)
      requires Reflects(c, parse) && !Terminal(ev)
      modifies this, usage
      ensures Reflects(c + [ev], parse)
    {
      hide Feed, Assemble;
      SnocIs(c, ev);
      match ev {
        case MessageStart(m, u) =>
          if m != "" {
            model := m;
          }
          if u.Some? {
            usage.Merge(u.value);
          }
        case Passthrough(frame) =>
          sawPassthrough := true;
          if frame.Some? {
            PassedSnoc(PassedFrames(c), frame.value, parse);
            assembly := Feed(assembly, frame.value, parse);
          }
        case ContentDelta(t) =>
          text := text + t;
        case MessageDelta(u, reason) =>
          if u.Some? {
            usage.Merge(u.value);
          }
          if reason != "" {
            finishReason := reason;
          }
      }
    }

    method Content(ghost c: seq<StreamEvent>, parse: string -> Json) returns (content: seq<Block>)
      requires Reflects(c, parse)
      ensures content == CollectedContent(c, parse)
    {
      content := [TEXT_BLOCK.(text := Some(text))];
      if sawPassthrough {
        content := ListedContent(assembly, assembly.order, parse);
        if content == [] {
          content := [TEXT_BLOCK];
        }
      }
    }
  }

  /** Drain a stream into one response; `Err` is the raised upstream error. */
  method CollectToAnthropicResponse(events: seq<StreamEvent>, id: string, fallbackModel: string, parse: string -> Json)
    returns (response: Result<Response, string>)
    ensures response == Collected(events, id, fallbackModel, parse)
  {
    var collector := new Collector(fallbackModel, parse);
    var n := 0;
    while n < |events| && !Terminal(events[n])
      invariant n <= |events| && forall i | 0 <= i < n :: !Terminal(events[i])
      invariant collector.Reflects(events[..n], parse)
    {
      hide *;
      collector.Absorb(events[..n], events[n], parse);
      assert events[..n + 1] == events[..n] + [events[n]];
      n := n + 1;
    }
    ConsumedIs(events, n);
    if n < |events| && events[n].StreamError? {
      return Err(if events[n].error != "" then events[n].error else "upstream error");
    }
    var content := collector.Content(events[..n], parse);
    return Ok(Response(id, collector.model, content, collector.finishReason, collector.usage.Value()));
  }

  lemma PassedSnoc(frames: seq<BlockFrame>, f: BlockFrame, parse: string -> Json)
    ensures Assemble(frames + [f], parse) == Feed(Assemble(frames, parse), f, parse)
  {
    assert (frames + [f])[..|frames|] == frames;
  }

  // ---------------------------------------------------------------------------------------------
  // Shape of the server-sent output

  function ContentFrames(frames: seq<SseFrame>): seq<BlockFrame> {
    if frames == [] then []
    else
      var n := |frames| - 1;
      var before := ContentFrames(frames[..n]);
      if frames[n].ContentFrame? then before + [frames[n].frame] else before
  }

  lemma {:induction false} ContentFramesAppend(a: seq<SseFrame>, b: seq<SseFrame>)
    ensures ContentFrames(a + b) == ContentFrames(a) + ContentFrames(b)
  {
    if b == [] {
      assert a + b == a;
    } else {
      var n := |b| - 1;
      assert (a + b)[..|a + b| - 1] == a + b[..n] && (a + b)[|a + b| - 1] == b[n];
      ContentFramesAppend(a, b[..n]);
    }
  }

  lemma {:induction false} RelayedIsContent(c: seq<StreamEvent>)
    ensures forall i | 0 <= i < |Relayed(c)| :: Relayed(c)[i].ContentFrame?
  {
    if c != [] {
      RelayedIsContent(c[..|c| - 1]);
    }
  }

  /** The blocks open after some frames; `None` when a frame does not fit. */
  function OpenBlocks(frames: seq<BlockFrame>): Option<set<int>> {
    if frames == [] then Some({})
    else
      var n := |frames| - 1;
      match OpenBlocks(frames[..n])
      case None => None
      case Some(open) =>
        match frames[n]
        case BlockStart(i, _) => if i in open then None else Some(open + {i})
        case BlockDelta(i, _) => if i in open then Some(open) else None
        case BlockStop(i) => if i in open then Some(open - {i}) else None
        case OtherFrame(_, _) => Some(open)
  }

  predicate Balanced(frames: seq<BlockFrame>) {
    OpenBlocks(frames) == Some({})
  }

  function TextPieces(c: seq<StreamEvent>): seq<Delta> {
    if c == [] then []
    else
      var n := |c| - 1;
      if c[n].ContentDelta? then TextPieces(c[..n]) + [TextDelta(c[n].text)] else TextPieces(c[..n])
  }

  lemma TextStep(before: seq<SseFrame>, open: bool, t: string)
    ensures ContentFrames(before + Brings(ContentDelta(t), open))
            == ContentFrames(before) + (if open then [] else [BlockStart(0, TEXT_BLOCK)])
               + [BlockDelta(0, TextDelta(t))]
  {
    var start := if open then [] else [ContentFrame(BlockStart(0, TEXT_BLOCK))];
    var delta := [ContentFrame(BlockDelta(0, TextDelta(t)))];
    assert before + Brings(ContentDelta(t), open) == before + start + delta;
    ContentFramesAppend(before, start);
    ContentFramesAppend(before + start, delta);
    SingleFrames(BlockStart(0, TEXT_BLOCK));
    SingleFrames(BlockDelta(0, TextDelta(t)));
  }

  function OneTextBlock(pieces: seq<Delta>): seq<BlockFrame> {
    if pieces == [] then [] else [BlockStart(0, TEXT_BLOCK)] + DeltaFrames(0, pieces)
  }

  lemma OneTextBlockSnoc(ds: seq<Delta>, d: Delta)
    ensures OneTextBlock(ds + [d])
            == OneTextBlock(ds) + (if ds == [] then [BlockStart(0, TEXT_BLOCK)] else []) + [BlockDelta(0, d)]
  {
    assert DeltaFrames(0, ds + [d]) == DeltaFrames(0, ds) + [BlockDelta(0, d)];
  }

  lemma {:induction false} TextFrames(c: seq<StreamEvent>)
    requires !HasPassthrough(c)
    ensures ContentFrames(Relayed(c)) == OneTextBlock(TextPieces(c))
    ensures HasText(c) <==> TextPieces(c) != []
  {
    hide ContentFrames, OneTextBlock;
    if c != [] {
      var n := |c| - 1;
      TextFrames(c[..n]);
      if c[n].ContentDelta? {
        TextStep(Relayed(c[..n]), HasText(c[..n]), c[n].text);
        OneTextBlockSnoc(TextPieces(c[..n]), TextDelta(c[n].text));
      } else {
        assert Relayed(c[..n]) + [] == Relayed(c[..n]);
      }
    } else {
      NoFrames();
    }
  }

  lemma NoFrames()
    ensures ContentFrames([]) == [] && OneTextBlock([]) == []
  {
  }

  lemma SingleFrames(f: BlockFrame)
    ensures ContentFrames([ContentFrame(f)]) == [f]
  {
    assert [ContentFrame(f)][..0] == [];
  }

  lemma {:induction false} TextPiecesJoin(c: seq<StreamEvent>)
    ensures Joined(TextPieces(c), TextKey) == if HasText(c) then Some(Texts(c)) else None
    ensures !HasText(c) ==> Texts(c) == ""
    ensures Joined(TextPieces(c), ThinkingKey) == None && Joined(TextPieces(c), SignatureKey) == None
  {
    if c != [] {
      var n := |c| - 1;
      TextPiecesJoin(c[..n]);
      if c[n].ContentDelta? {
        assert TextPieces(c)[..|TextPieces(c)| - 1] == TextPieces(c[..n]);
        assert "" + c[n].text == c[n].text;
      }
    }
  }

  lemma {:induction false} PassthroughFrames(c: seq<StreamEvent>)
    requires !HasText(c)
    ensures ContentFrames(Relayed(c)) == PassedFrames(c)
  {
    if c != [] {
      var n := |c| - 1;
      PassthroughFrames(c[..n]);
      if c[n].Passthrough? && c[n].frame.Some? {
        ContentFramesAppend(Relayed(c[..n]), [ContentFrame(c[n].frame.value)]);
        SingleFrames(c[n].frame.value);
      } else {
        assert Relayed(c[..n]) + [] == Relayed(c[..n]);
      }
    }
  }

  /** The content frames of a whole error-free output. */
  function ExpectedFrames(c: seq<StreamEvent>): seq<BlockFrame> {
    if HasText(c) then [BlockStart(0, TEXT_BLOCK)] + DeltaFrames(0, TextPieces(c)) + [BlockStop(0)] else PassedFrames(c)
  }

  lemma Enclosed(start: SseFrame, relayed: seq<SseFrame>, close: seq<SseFrame>, delta: SseFrame)
    requires !start.ContentFrame? && !delta.ContentFrame?
    ensures ContentFrames([start] + relayed + close + [delta, StopFrame])
            == ContentFrames(relayed) + ContentFrames(close)
  {
    hide ContentFrames;
    WithoutStart(start, relayed);
    ContentFramesAppend([start] + relayed, close);
    WithoutEnd([start] + relayed + close, delta);
  }

  lemma WithoutStart(start: SseFrame, frames: seq<SseFrame>)
    requires !start.ContentFrame?
    ensures ContentFrames([start] + frames) == ContentFrames(frames)
  {
    NoContentIn(start);
    hide ContentFrames;
    ContentFramesAppend([start], frames);
  }

  lemma WithoutEnd(frames: seq<SseFrame>, delta: SseFrame)
    requires !delta.ContentFrame?
    ensures ContentFrames(frames + [delta, StopFrame]) == ContentFrames(frames)
  {
    assert (frames + [delta, StopFrame])[..|frames| + 1] == frames + [delta];
    assert (frames + [delta])[..|frames|] == frames;
  }

  lemma NoContentIn(f: SseFrame)
    requires !f.ContentFrame?
    ensures ContentFrames([f]) == []
  {
    assert [f][..0] == [];
  }

  /** An error-free output is one message_start, content frames, one message_delta and one message_stop, in this
      order; and in a response that does not mix the modes the content frames are the upstream's own, verbatim, or
      one text block. */
  lemma SseShape(events: seq<StreamEvent>, id: string, fallback: string)
    requires EndingError(events).None?
    ensures var frames, c := Sse(events, id, fallback), Consumed(events);
            && |frames| >= 3
            && frames[0] == StartOf(c, id, fallback)
            && (forall i | 0 < i < |frames| - 2 :: frames[i].ContentFrame?)
            && frames[|frames| - 2] == DeltaFrame(LastReason(c), DeltaTokens(c))
            && frames[|frames| - 1] == StopFrame
            && (!(HasText(c) && HasPassthrough(c)) ==> ContentFrames(frames) == ExpectedFrames(c))
  {
    var c := Consumed(events);
    RelayedIsContent(c);
    Enclosed(StartOf(c, id, fallback), Relayed(c), TextClose(c), DeltaFrame(LastReason(c), DeltaTokens(c)));
    SingleFrames(BlockStop(0));
    if HasText(c) && !HasPassthrough(c) {
      TextFrames(c);
    } else if !HasText(c) {
      PassthroughFrames(c);
    }
  }

  /** A stream that ends in an error says so: after the message_start and all relayed content there is exactly one error
      frame, with the error's code, or api_error, and message; then an open text block is closed and message_stop ends
      the output. No message_delta pretends that the answer was finished. The collected response is an error too. */
  lemma FailingStream(events: seq<StreamEvent>, n: nat, id: string, fallback: string, parse: string -> Json)
    requires n < |events| && events[n].StreamError?
    requires forall i | 0 <= i < n :: !events[i].MessageStop? && !events[i].StreamError?
    ensures var frames, c, e := Sse(events, id, fallback), events[..n], events[n];
            var hasText, k := exists i | 0 <= i < n :: events[i].ContentDelta?, 1 + |Relayed(c)|;
            && |frames| == k + (if hasText then 3 else 2)
            && frames[0].StartFrame? && frames[0] == StartOf(c, id, fallback) && frames[0].id == id
            && (forall i | 0 < i < k :: frames[i].ContentFrame?)
            && frames[k] == ErrorFrame(if e.code != "" then e.code else "api_error", e.error)
            && (hasText ==> frames[k + 1] == ContentFrame(BlockStop(0)))
            && frames[|frames| - 1] == StopFrame
            && (!(HasText(c) && HasPassthrough(c)) ==> ContentFrames(frames) == ExpectedFrames(c))
            && Collected(events, id, fallback, parse) == Err(if e.error != "" then e.error else "upstream error")
  {
    var c, e := events[..n], events[n];
    ConsumedIs(events, n);
    hide Consumed, HasText, HasPassthrough, Relayed, ContentFrames, ExpectedFrames, Opening;
    HasTextIff(c);
    assert forall i | 0 <= i < n :: c[i] == events[i];
    RelayedIsContent(c);
    if !(HasText(c) && HasPassthrough(c)) {
      FailingContent(c, StartOf(c, id, fallback), ErrorFrame(if e.code != "" then e.code else "api_error", e.error));
    }
  }

  lemma FailingContent(c: seq<StreamEvent>, start: SseFrame, error: SseFrame)
    requires !start.ContentFrame? && !error.ContentFrame? && !(HasText(c) && HasPassthrough(c))
    ensures ContentFrames([start] + Relayed(c) + [error] + TextClose(c) + [StopFrame]) == ExpectedFrames(c)
  {
    hide Relayed, ContentFrames, HasText, HasPassthrough;
    ErrorEnclosed(start, Relayed(c), error, TextClose(c));
    SingleFrames(BlockStop(0));
    NoFrames();
    if HasText(c) {
      TextFrames(c);
    } else {
      PassthroughFrames(c);
    }
  }

  lemma ErrorEnclosed(start: SseFrame, relayed: seq<SseFrame>, error: SseFrame, close: seq<SseFrame>)
    requires !start.ContentFrame? && !error.ContentFrame?
    ensures ContentFrames([start] + relayed + [error] + close + [StopFrame])
            == ContentFrames(relayed) + ContentFrames(close)
  {
    NoContentIn(error);
    NoContentIn(StopFrame);
    hide ContentFrames;
    WithoutStart(start, relayed);
    ContentFramesAppend([start] + relayed, [error]);
    ContentFramesAppend([start] + relayed + [error], close);
    ContentFramesAppend([start] + relayed + [error] + close, [StopFrame]);
  }

  /** Both outputs fail together, exactly when an error event comes before any message stop. */
  lemma FailsAlike(events: seq<StreamEvent>, id: string, fallback: string, parse: string -> Json)
    ensures Collected(events, id, fallback, parse).Err?
            <==> exists n | 0 <= n < |events| ::
                   events[n].StreamError? && forall i | 0 <= i < n :: !events[i].MessageStop? && !events[i].StreamError?
    ensures (exists k | 0 <= k < |Sse(events, id, fallback)| :: Sse(events, id, fallback)[k].ErrorFrame?)
            <==> Collected(events, id, fallback, parse).Err?
  {
    var n := |Consumed(events)|;
    var frames := Sse(events, id, fallback);
    if EndingError(events).Some? {
      FailingStream(events, n, id, fallback, parse);
      assert frames[1 + |Relayed(events[..n])|].ErrorFrame?;
    } else {
      SseShape(events, id, fallback);
      forall m | 0 <= m < |events| && events[m].StreamError?
        ensures exists i | 0 <= i < m :: events[i].MessageStop? || events[i].StreamError?
      {
        assert n <= m;
        assert n != m;
      }
      forall k | 0 <= k < |frames|
        ensures !frames[k].ErrorFrame?
      {
      }
    }
  }

  lemma {:induction false} OneOpenBlock(b: Block, ds: seq<Delta>)
    ensures OpenBlocks([BlockStart(0, b)] + DeltaFrames(0, ds)) == Some({0})
  {
    var frames := [BlockStart(0, b)] + DeltaFrames(0, ds);
    if ds == [] {
      assert frames == [BlockStart(0, b)] && frames[..0] == [] && {} + {0} == {0};
    } else {
      assert frames[..|ds|] == [BlockStart(0, b)] + DeltaFrames(0, ds[..|ds| - 1]);
      OneOpenBlock(b, ds[..|ds| - 1]);
    }
  }

  /** Blocks are balanced: always in text mode, and exactly when the upstream's own frames are in passthrough mode. */
  lemma BlocksAreBalanced(events: seq<StreamEvent>, id: string, fallback: string)
    requires EndingError(events).None?
    ensures var c := Consumed(events);
            && (!HasPassthrough(c) ==> Balanced(ContentFrames(Sse(events, id, fallback))))
            && (!HasText(c) ==> (Balanced(ContentFrames(Sse(events, id, fallback))) <==> Balanced(PassedFrames(c))))
  {
    var c := Consumed(events);
    SseShape(events, id, fallback);
    if HasText(c) {
      OneOpenBlock(TEXT_BLOCK, TextPieces(c));
      assert ExpectedFrames(c)[..|ExpectedFrames(c)| - 1]
             == [BlockStart(0, TEXT_BLOCK)] + DeltaFrames(0, TextPieces(c));
      assert {0} - {0} == {};
    } else if !HasPassthrough(c) {
      NoPassthroughNoFrames(c);
    }
  }

  lemma {:induction false} NoPassthroughNoFrames(c: seq<StreamEvent>)
    requires !HasPassthrough(c)
    ensures PassedFrames(c) == []
  {
    if c != [] {
      NoPassthroughNoFrames(c[..|c| - 1]);
    }
  }

  // ---------------------------------------------------------------------------------------------
  // Agreement

  datatype Decoded = Decoded(id: string, model: string, content: seq<Block>, stopReason: string, inputTokens: int,
                             outputTokens: int)

  /** What a client reads out of an error-free server-sent output. */
  function Decode(frames: seq<SseFrame>, parse: string -> Json): Decoded
    requires |frames| >= 3 && frames[0].StartFrame? && frames[|frames| - 2].DeltaFrame?
  {
    var end := frames[|frames| - 2];
    Decoded(frames[0].id, frames[0].model, Content(ContentFrames(frames), parse), end.stopReason,
            frames[0].usage.prompt, frames[0].usage.completion + end.outputTokens)
  }

  lemma {:induction false} AllOfOneIndex(frames: seq<BlockFrame>, i: int)
    requires forall k | 0 <= k < |frames| :: frames[k].index == i
    ensures Only(frames, i) == frames && forall j: int | j != i :: Only(frames, j) == []
  {
    if frames != [] {
      AllOfOneIndex(frames[..|frames| - 1], i);
    }
  }

  lemma TextIsSent(c: seq<StreamEvent>, parse: string -> Json)
    requires HasText(c)
    ensures Sends([BlockStart(0, TEXT_BLOCK)] + DeltaFrames(0, TextPieces(c)) + [BlockStop(0)], 0,
                  TEXT_BLOCK.(text := Some(Texts(c))), parse)
  {
    TextPiecesJoin(c);
    var whole := TEXT_BLOCK.(text := Some(Texts(c)));
    forall key: Key
      ensures if Get(whole, key).None? then Get(TEXT_BLOCK, key).None? && Joined(TextPieces(c), key).None?
              else OrEmpty(Joined(TextPieces(c), key)) == Get(whole, key).value && Get(TEXT_BLOCK, key) == Some("")
    {
      match key
      case TextKey =>
      case ThinkingKey =>
      case SignatureKey =>
    }
    assert Cuts(whole, TEXT_BLOCK, TextPieces(c), parse);
  }

  lemma TextModeContent(c: seq<StreamEvent>, parse: string -> Json)
    requires HasText(c)
    ensures Content(ExpectedFrames(c), parse) == [TEXT_BLOCK.(text := Some(Texts(c)))]
  {
    hide Sends, Content, Only, Cuts;
    var frames := ExpectedFrames(c);
    var whole := TEXT_BLOCK.(text := Some(Texts(c)));
    TextIsSent(c, parse);
    AllOfOneIndex(frames, 0);
    CollectingRebuilds(frames, map[0 := whole], parse);
    DeltasDoNotStart(0, TEXT_BLOCK, TextPieces(c));
    assert frames[..|frames| - 1] == [BlockStart(0, TEXT_BLOCK)] + DeltaFrames(0, TextPieces(c));
    assert StartOrder(frames) == [0];
    assert [0][..0] == [];
  }

  lemma {:induction false} FirstStartWins(c: seq<StreamEvent>, id: string, fallback: string)
    requires c != [] && c[0].MessageStart?
    ensures Opening(c, id, fallback) == Opening([c[0]], id, fallback)
  {
    if |c| == 1 {
      assert c == [c[0]];
    } else {
      FirstStartWins(c[..|c| - 1], id, fallback);
      assert Opening([c[0]], id, fallback).Some?;
    }
  }

  lemma {:induction false} TokensSplit(c: seq<StreamEvent>)
    ensures SumCompletion(c) == StartTokens(c) + DeltaTokens(c)
  {
    if c != [] {
      TokensSplit(c[..|c| - 1]);
    }
  }

  lemma {:induction false} AfterTheFirst(c: seq<StreamEvent>, fallback: string)
    requires c != []
    ensures StartTokens(c) == StartTokens([c[0]]) + StartTokens(c[1..])
    ensures MaxPrompt(c) == Max(MaxPrompt([c[0]]), MaxPrompt(c[1..])) && MaxPrompt(c[1..]) >= 0
    ensures LastModel(c, fallback) == LastModel(c[1..], LastModel([c[0]], fallback))
  {
    if |c| == 1 {
      assert c == [c[0]];
    } else {
      var n := |c| - 1;
      AfterTheFirst(c[..n], fallback);
      assert c[..n][1..] == c[1..][..n - 1] && c[1..][n - 1] == c[n] && c[..n][0] == c[0];
    }
  }

  /** The stream brings a block: text, or a passthrough frame that lists one. */
  predicate HasBlock(c: seq<StreamEvent>) {
    HasText(c) || exists k | 0 <= k < |PassedFrames(c)| :: Lists(PassedFrames(c)[k])
  }

  /** In a response that does not mix the modes, the decoded content is empty exactly without a block. */
  lemma DecodedContentIff(c: seq<StreamEvent>, parse: string -> Json)
    requires !(HasText(c) && HasPassthrough(c))
    ensures Content(ExpectedFrames(c), parse) != [] <==> HasBlock(c)
  {
    hide Content, Lists;
    if HasText(c) {
      TextModeContent(c, parse);
    } else {
      HasContentIff(PassedFrames(c), parse);
    }
  }

  /** The two outputs of an error-free stream that opens with a message start and does not mix the modes. Id and stop
      reason always agree. The content agrees if and only if the stream brings a block; without one nothing is
      streamed, and one empty text block is collected. Output tokens and model differ by what later message starts
      bring, and the input tokens of the stream are the first start's alone, where the collected ones are the largest
      reported by any event. */
  lemma StreamedAgreesWithCollected(events: seq<StreamEvent>, id: string, fallback: string, parse: string -> Json)
    requires EndingError(events).None? && Consumed(events) != [] && Consumed(events)[0].MessageStart?
    requires !(HasText(Consumed(events)) && HasPassthrough(Consumed(events)))
    ensures |Sse(events, id, fallback)| >= 3 && Sse(events, id, fallback)[0].StartFrame?
            && Sse(events, id, fallback)[|Sse(events, id, fallback)| - 2].DeltaFrame?
            && Collected(events, id, fallback, parse).Ok?
    ensures var d := Decode(Sse(events, id, fallback), parse);
            var r := Collected(events, id, fallback, parse).value;
            var later := Consumed(events)[1..];
            && (r.content == d.content <==> HasBlock(Consumed(events)))
            && (!HasBlock(Consumed(events)) ==> d.content == [] && r.content == [TEXT_BLOCK])
            && r.id == d.id && r.stopReason == d.stopReason
            && r.usage.completion == d.outputTokens + StartTokens(later)
            && r.model == LastModel(later, d.model)
            && d.inputTokens
               == (if Reported(Consumed(events)[0]).Some? then Reported(Consumed(events)[0]).value.prompt else 0)
            && r.usage.prompt == Max(d.inputTokens, MaxPrompt(later))
  {
    var c := Consumed(events);
    SseShape(events, id, fallback);
    FirstStartWins(c, id, fallback);
    AfterTheFirst(c, fallback);
    TokensSplit(c);
    assert [c[0]][..0] == [];
    DecodedContentIff(c, parse);
    if HasText(c) {
      TextModeContent(c, parse);
    } else if !HasPassthrough(c) {
      NoPassthroughNoFrames(c);
      TextPiecesJoin(c);
    }
  }

  /** Input tokens agree if and only if the message start's count is not negative and no later event reports a larger
      one. A single message start is not enough: upstreams that only report usage at the end violate it. */
  lemma InputTokensAgreeIff(events: seq<StreamEvent>, id: string, fallback: string, parse: string -> Json)
    requires EndingError(events).None? && Consumed(events) != [] && Consumed(events)[0].MessageStart?
    requires !(HasText(Consumed(events)) && HasPassthrough(Consumed(events)))
    ensures var frames, later := Sse(events, id, fallback), Consumed(events)[1..];
            && |frames| >= 3 && frames[0].StartFrame? && frames[|frames| - 2].DeltaFrame?
            && Collected(events, id, fallback, parse).Ok?
            && var d, r := Decode(frames, parse), Collected(events, id, fallback, parse).value;
               r.usage.prompt == d.inputTokens
               <==> d.inputTokens >= 0
                    && forall i | 0 <= i < |later| && Reported(later[i]).Some? ::
                         Reported(later[i]).value.prompt <= d.inputTokens
  {
    StreamedAgreesWithCollected(events, id, fallback, parse);
    MaxPromptIsTheMaximum(Consumed(events)[1..]);
  }

  /** A single message start without usage, and usage at the end: the stream says 0 input tokens, the response 10. */
  lemma InputTokensMayDiffer(id: string, fallback: string, parse: string -> Json)
    ensures var events := [MessageStart("m", None), ContentDelta("x"), MessageDelta(Some(Usage(10, 5)), "stop")];
            var frames := Sse(events, id, fallback);
            && |frames| >= 3 && frames[0].StartFrame? && frames[|frames| - 2].DeltaFrame?
            && Collected(events, id, fallback, parse).Ok?
            && Decode(frames, parse).inputTokens == 0
            && Collected(events, id, fallback, parse).value.usage.prompt == 10
  {
    var events := [MessageStart("m", None), ContentDelta("x"), MessageDelta(Some(Usage(10, 5)), "stop")];
    ConsumedIs(events, 3);
    assert events[..3] == events;
    assert events[..2][..1] == events[..1] && events[..1][..0] == [];
    assert !HasPassthrough([]) && !HasPassthrough(events[..1]) && !HasPassthrough(events[..2]);
    StreamedAgreesWithCollected(events, id, fallback, parse);
    var later := events[1..];
    assert later[..1][..0] == [] && MaxPrompt([]) == 0 && MaxPrompt(later[..1]) == 0 && MaxPrompt(later) == 10;
  }

  /** A message start and nothing else: nothing is streamed, one empty text block is collected. */
  lemma EmptyResponseDiffers(id: string, fallback: string, parse: string -> Json)
    ensures var events := [MessageStart("m", None), MessageStop];
            var frames := Sse(events, id, fallback);
            && |frames| >= 3 && frames[0].StartFrame? && frames[|frames| - 2].DeltaFrame?
            && Collected(events, id, fallback, parse).Ok?
            && Decode(frames, parse).content == []
            && Collected(events, id, fallback, parse).value.content == [TEXT_BLOCK]
  {
    var events := [MessageStart("m", None), MessageStop];
    ConsumedIs(events, 1);
    assert events[..1] == [events[0]] && events[..1][..0] == [];
    assert !HasText([]) && !HasPassthrough([]);
    NoPassthroughNoFrames(events[..1]);
    StreamedAgreesWithCollected(events, id, fallback, parse);
  }

  /** A second message start with another model and more output tokens: the stream keeps the first one's. */
  lemma LaterStartDiffers(id: string, fallback: string, parse: string -> Json)
    ensures var events := [MessageStart("a", Some(Usage(1, 1))), MessageStart("b", Some(Usage(1, 2)))];
            var frames := Sse(events, id, fallback);
            && |frames| >= 3 && frames[0].StartFrame? && frames[|frames| - 2].DeltaFrame?
            && Collected(events, id, fallback, parse).Ok?
            && var d, r := Decode(frames, parse), Collected(events, id, fallback, parse).value;
               d.model == "a" && r.model == "b" && r.usage.completion == d.outputTokens + 2
  {
    var events := [MessageStart("a", Some(Usage(1, 1))), MessageStart("b", Some(Usage(1, 2)))];
    ConsumedIs(events, 2);
    assert events[..2] == events && events[..1] == [events[0]] && events[..1][..0] == [];
    assert !HasText([]) && !HasText(events[..1]) && !HasText(events);
    StreamedAgreesWithCollected(events, id, fallback, parse);
    FirstStartWins(events, id, fallback);
    var later := events[1..];
    assert later[..0] == [] && StartTokens([]) == 0 && later[0] == events[1];
  }

  /** With a single message start, id, model, stop reason and output tokens agree, the content does if and only if the
      stream brings a block, and the input tokens if and only if no message delta reports more than the start did. */
  lemma SingleStartAgrees(events: seq<StreamEvent>, id: string, fallback: string, parse: string -> Json)
    requires EndingError(events).None? && Consumed(events) != [] && Consumed(events)[0].MessageStart?
    requires !(HasText(Consumed(events)) && HasPassthrough(Consumed(events)))
    requires forall i | 0 < i < |Consumed(events)| :: !Consumed(events)[i].MessageStart?
    ensures var frames, later := Sse(events, id, fallback), Consumed(events)[1..];
            && |frames| >= 3 && frames[0].StartFrame? && frames[|frames| - 2].DeltaFrame?
            && Collected(events, id, fallback, parse).Ok?
            && var d, r := Decode(frames, parse), Collected(events, id, fallback, parse).value;
               && r.id == d.id && r.model == d.model && r.stopReason == d.stopReason
               && r.usage.completion == d.outputTokens
               && (r.content == d.content <==> HasBlock(Consumed(events)))
               && (r.usage.prompt == d.inputTokens
                   <==> d.inputTokens >= 0
                        && forall i | 0 <= i < |later| && later[i].MessageDelta? && later[i].usage.Some? ::
                             later[i].usage.value.prompt <= d.inputTokens)
  {
    hide *;
    StreamedAgreesWithCollected(events, id, fallback, parse);
    InputTokensAgreeIff(events, id, fallback, parse);
    var c, d := Consumed(events), Decode(Sse(events, id, fallback), parse);
    forall i | 0 <= i < |c| - 1
      ensures !c[1..][i].MessageStart?
    {
      assert c[1..][i] == c[i + 1];
    }
    NoLaterStart(c[1..], d.model);
    OnlyDeltasReport(c[1..], d.inputTokens);
  }

  lemma OnlyDeltasReport(later: seq<StreamEvent>, most: int)
    requires forall i | 0 <= i < |later| :: !later[i].MessageStart?
    ensures (forall i | 0 <= i < |later| && Reported(later[i]).Some? :: Reported(later[i]).value.prompt <= most)
            <==> forall i | 0 <= i < |later| && later[i].MessageDelta? && later[i].usage.Some? ::
                   later[i].usage.value.prompt <= most
  {
    forall i | 0 <= i < |later|
      ensures Reported(later[i]) == if later[i].MessageDelta? then later[i].usage else None
    {
    }
  }

  lemma {:induction false} NoLaterStart(later: seq<StreamEvent>, model: string)
    requires forall i | 0 <= i < |later| :: !later[i].MessageStart?
    ensures StartTokens(later) == 0 && LastModel(later, model) == model
  {
    if later != [] {
      NoLaterStart(later[..|later| - 1], model);
    }
  }
}
