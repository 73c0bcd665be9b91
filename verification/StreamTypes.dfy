/** The gateway's normalized stream events, and its token accounting. */
module StreamTypes {
  import opened Prelude

  datatype Usage = Usage(prompt: int, completion: int)

  /** Parsed JSON, as an opaque value. */
  datatype Json = Json(value: string)

  /** An Anthropic content block; absent keys are `None`, and `rest` stands for the keys no code here touches. */
  datatype Block = Block(kind: string, text: Option<string>, thinking: Option<string>, signature: Option<string>,
                         input: Option<Json>, rest: string)

  datatype Delta = TextDelta(text: string) | ThinkingDelta(thinking: string) | SignatureDelta(signature: string)
                 | InputJsonDelta(partial: string) | OtherDelta(kind: string)

  /** A raw upstream content-block frame. */
  datatype BlockFrame = BlockStart(index: int, block: Block) | BlockDelta(index: int, delta: Delta)
                      | BlockStop(index: int) | OtherFrame(index: int, kind: string)

  /** A passthrough event without a frame stands for one whose frame is not a JSON object. */
  datatype StreamEvent = MessageStart(model: string, usage: Option<Usage>)
                       | ContentDelta(text: string)
                       | MessageDelta(usage: Option<Usage>, finishReason: string)
                       | MessageStop
                       | StreamError(error: string, code: string)
                       | Passthrough(frame: Option<BlockFrame>)

  predicate IsContent(e: StreamEvent) {
    e.ContentDelta? || e.MessageStart?
  }

  function Max(a: int, b: int): int {
    if a > b then a else b
  }

  /** The usage an event reports, if it is of a kind that is metered. */
  function Reported(e: StreamEvent): Option<Usage> {
    match e
    case MessageStart(_, u) => u
    case MessageDelta(u, _) => u
    case _ => None
  }

  /** The largest prompt count reported (at least 0). */
  function MaxPrompt(events: seq<StreamEvent>): int {
    if events == [] then 0 else
      var rest := MaxPrompt(events[..|events| - 1]);
      match Reported(events[|events| - 1])
      case None => rest
      case Some(u) => Max(rest, u.prompt)
  }

  /** The sum of the completion counts reported. */
  function SumCompletion(events: seq<StreamEvent>): int {
    if events == [] then 0 else
      var rest := SumCompletion(events[..|events| - 1]);
      match Reported(events[|events| - 1])
      case None => rest
      case Some(u) => rest + u.completion
  }

  /** What billing records for a run of delivered events. */
  function Metered(events: seq<StreamEvent>): Usage {
    Usage(MaxPrompt(events), SumCompletion(events))
  }

  /** The accumulator the meter and the collector keep. */
  class UsageMeter {
    var promptTokens: int
    var completionTokens: int

    function Value(): Usage
      reads this
    {
      Usage(promptTokens, completionTokens)
    }

    constructor ()
      ensures Value() == Usage(0, 0)
    {
      promptTokens, completionTokens := 0, 0;
    }

    function TotalTokens(): (total: int)
      reads this
      ensures total == Value().prompt + Value().completion
    {
      promptTokens + completionTokens
    }

    method Merge(other: Usage)
      modifies this
      ensures Value() == Usage(Max(old(promptTokens), other.prompt), old(completionTokens) + other.completion)
    {
      promptTokens := Max(promptTokens, other.prompt);
      completionTokens := completionTokens + other.completion;
    }
  }

  /** Every reported prompt count is covered, and the recorded one was reported unless it is 0. */
  lemma {:induction false} MaxPromptIsTheMaximum(events: seq<StreamEvent>)
    ensures forall i | 0 <= i < |events| && Reported(events[i]).Some? ::
              Reported(events[i]).value.prompt <= MaxPrompt(events)
    ensures MaxPrompt(events) >= 0
    ensures MaxPrompt(events) == 0
            || exists i | 0 <= i < |events| ::
                 Reported(events[i]).Some? && Reported(events[i]).value.prompt == MaxPrompt(events)
  {
    if events != [] {
      var n := |events| - 1;
      MaxPromptIsTheMaximum(events[..n]);
      forall i | 0 <= i < |events| && Reported(events[i]).Some?
        ensures Reported(events[i]).value.prompt <= MaxPrompt(events)
      {
        if i < n {
          assert events[..n][i] == events[i];
        }
      }
      if MaxPrompt(events) != 0 && MaxPrompt(events) == MaxPrompt(events[..n]) {
        var i :| 0 <= i < n && Reported(events[..n][i]).Some?
                 && Reported(events[..n][i]).value.prompt == MaxPrompt(events);
        assert Reported(events[i]).value.prompt == MaxPrompt(events);
      }
    }
  }

  /** Only message starts and message deltas report usage. */
  lemma ReportedIs(e: StreamEvent)
    ensures Reported(e) == if e.MessageStart? || e.MessageDelta? then e.usage else None
  {
  }

  /** Completion counts add up. */
  lemma {:induction false} SumsAppend(a: seq<StreamEvent>, b: seq<StreamEvent>)
    ensures SumCompletion(a + b) == SumCompletion(a) + SumCompletion(b)
  {
    if b == [] {
      assert a + b == a;
    } else {
      assert (a + b)[..|a + b| - 1] == a + b[..|b| - 1] && (a + b)[|a + b| - 1] == b[|b| - 1];
      SumsAppend(a, b[..|b| - 1]);
    }
  }

  lemma SumOfOne(e: StreamEvent)
    ensures SumCompletion([e])
            == if (e.MessageStart? || e.MessageDelta?) && e.usage.Some? then e.usage.value.completion else 0
  {
    assert [e][..0] == [];
  }
}
