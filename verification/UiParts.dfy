/** The reducer of the chat page: one agent event into an assistant message's parts. Parsing and normalizing event
    data is done before; an event whose data is refused carries no new part. A character is a UTF-16 unit. */
module UiParts {
  import opened Prelude
  import T = Text

  datatype TextKind = Plain | Reasoning

  /** The part kinds that are replaced in place, by key. A memory recall has no key: there is one. */
  datatype Kind = Environment | MemoryRecall | ScmApproval | Plan | Question | RunSummary | StructuredResult | Progress

  datatype ToolResult = ToolResult(content: string, isError: bool, outcome: string)

  datatype Part = TextPart(kind: TextKind, text: string)
                | ToolCall(id: string, name: string, args: string, result: Option<ToolResult>, output: string)
                | File(fileId: string, data: string)
                | Keyed(of: Kind, key: string, payload: string)

  datatype Event = Text(text: string) | Thinking(text: string) | Clarification(text: string) | ErrorText(text: string)
                 | ToolUse(id: string, name: string, input: string)
                 | ToolOutput(id: string, content: string, name: string, input: string)
                 | ToolDone(id: string, content: string, isError: bool, outcome: string)
                 | FileReady(id: string, data: string)
                 | Update(of: Kind, next: Option<(string, string)>)
                 | Other

  const MAX_TOOL_OUTPUT := 65536
  const WARNING := "\n\n\U{26A0}\U{FE0F} "

  /** What a part is, apart from its contents. */
  datatype Shape = OfText(kind: TextKind) | OfCall(id: string) | OfFile(id: string) | OfKey(of: Kind, key: string)

  function ShapeOf(p: Part): Shape {
    match p
    case TextPart(kind, _) => OfText(kind)
    case ToolCall(id, _, _, _, _) => OfCall(id)
    case File(id, _) => OfFile(id)
    case Keyed(kind, key, _) => OfKey(kind, if kind.MemoryRecall? then "" else key)
  }

  predicate SameShapes(a: seq<Part>, b: seq<Part>) {
    |a| == |b| && forall i | 0 <= i < |a| :: ShapeOf(a[i]) == ShapeOf(b[i])
  }

  function Or(s: string, default: string): string {
    if s != "" then s else default
  }

  // ---------------------------------------------------------------------------------------------
  // The helpers

  function AppendTo(parts: seq<Part>, kind: TextKind, chunk: string): seq<Part> {
    var n := |parts|;
    if n > 0 && parts[n - 1].TextPart? && parts[n - 1].kind == kind
    then parts[..n - 1] + [TextPart(kind, parts[n - 1].text + chunk)]
    else parts + [TextPart(kind, chunk)]
  }

  predicate IsCall(p: Part, id: string) {
    p.ToolCall? && p.id == id
  }

  predicate HasCall(parts: seq<Part>, id: string) {
    exists i | 0 <= i < |parts| :: IsCall(parts[i], id)
  }

  function CallIndex(parts: seq<Part>, id: string): (n: nat)
    ensures n <= |parts| && (n < |parts| ==> IsCall(parts[n], id)) && forall i | 0 <= i < n :: !IsCall(parts[i], id)
  {
    if parts == [] || IsCall(parts[0], id) then 0 else 1 + CallIndex(parts[1..], id)
  }

  function FillToolResult(parts: seq<Part>, id: string, content: string, isError: bool, outcome: string): seq<Part> {
    if HasCall(parts, id) then
      var result := ToolResult(content, isError,
                               if !isError then "success"
                               else if outcome in {"permission_denied", "unavailable", "failed", "timeout"} then outcome
                               else "failed");
      seq(|parts|, i requires 0 <= i < |parts| =>
        if IsCall(parts[i], id) then parts[i].(result := Some(result)) else parts[i])
    else AppendTo(parts, Plain, (if isError then "\n[tool error] " else "\n[tool result] ") + content + "\n")
  }

  /** `generated` is the id a part gets when the event has none. */
  function UpsertToolUse(parts: seq<Part>, id: string, name: string, args: string, generated: string): seq<Part> {
    var n := CallIndex(parts, id);
    if n == |parts| then parts + [ToolCall(Or(id, generated), Or(name, "tool"), args, None, "")]
    else parts[n := parts[n].(name := Or(name, "tool"), args := args)]
  }

  /** Add output to every part of a call, keeping the last of it. */
  function WithOutput(parts: seq<Part>, id: string, chunk: string): (after: seq<Part>)
    ensures SameShapes(parts, after)
    ensures forall i | 0 <= i < |parts| && !IsCall(parts[i], id) :: after[i] == parts[i]
  {
    seq(|parts|, i requires 0 <= i < |parts| =>
      if IsCall(parts[i], id) then parts[i].(output := T.Last(parts[i].output + chunk, MAX_TOOL_OUTPUT)) else parts[i])
  }

  function AppendToolOutput(parts: seq<Part>, id: string, chunk: string, name: string, args: string, generated: string)
    : seq<Part>
    decreases if HasCall(parts, id) then 0 else 1
  {
    if id == "" || chunk == "" then parts
    else if HasCall(parts, id) then WithOutput(parts, id, chunk)
    else
      UpsertHasCall(parts, id, name, args, generated);
      AppendToolOutput(UpsertToolUse(parts, id, name, args, generated), id, chunk, name, args, generated)
  }

  lemma UpsertHasCall(parts: seq<Part>, id: string, name: string, args: string, generated: string)
    requires id != ""
    ensures HasCall(UpsertToolUse(parts, id, name, args, generated), id)
  {
    var n := CallIndex(parts, id);
    assert IsCall(UpsertToolUse(parts, id, name, args, generated)[n], id);
  }

  /** The parts output goes to: those there are, or those with a new call. */
  function WithCall(parts: seq<Part>, id: string, name: string, args: string, generated: string): seq<Part> {
    if HasCall(parts, id) then parts else UpsertToolUse(parts, id, name, args, generated)
  }

  lemma OutputIs(parts: seq<Part>, id: string, chunk: string, name: string, args: string, generated: string)
    requires id != "" && chunk != ""
    ensures AppendToolOutput(parts, id, chunk, name, args, generated)
            == WithOutput(WithCall(parts, id, name, args, generated), id, chunk)
    ensures HasCall(WithCall(parts, id, name, args, generated), id)
    ensures !HasCall(parts, id) ==>
              WithCall(parts, id, name, args, generated) == parts + [ToolCall(id, Or(name, "tool"), args, None, "")]
  {
    if !HasCall(parts, id) {
      UpsertHasCall(parts, id, name, args, generated);
      assert CallIndex(parts, id) == |parts|;
    }
  }

  predicate IsKeyed(p: Part, kind: Kind, key: string) {
    p.Keyed? && p.of == kind && (kind.MemoryRecall? || p.key == key)
  }

  function KeyIndex(parts: seq<Part>, kind: Kind, key: string): (n: nat)
    ensures n <= |parts| && (n < |parts| ==> IsKeyed(parts[n], kind, key))
            && forall i | 0 <= i < n :: !IsKeyed(parts[i], kind, key)
  {
    if parts == [] || IsKeyed(parts[0], kind, key) then 0 else 1 + KeyIndex(parts[1..], kind, key)
  }

  /** The upserts: in place, or new at the end; a new environment part goes to the front. */
  function Upsert(parts: seq<Part>, next: Part): seq<Part>
    requires next.Keyed?
  {
    var n := KeyIndex(parts, next.of, next.key);
    if n < |parts| then parts[n := next]
    else if next.of.Environment? then [next] + parts
    else parts + [next]
  }

  function ReducePart(parts: seq<Part>, ev: Event, generated: string): seq<Part> {
    match ev
    case Text(t) => AppendTo(parts, Plain, t)
    case Clarification(t) => AppendTo(parts, Plain, t)
    case Thinking(t) => AppendTo(parts, Reasoning, t)
    case ErrorText(t) => AppendTo(parts, Plain, WARNING + t)
    case ToolUse(id, name, input) => UpsertToolUse(parts, id, name, input, generated)
    case ToolOutput(id, content, name, input) => AppendToolOutput(parts, id, content, name, input, generated)
    case ToolDone(id, content, isError, outcome) => FillToolResult(parts, id, content, isError, outcome)
    case FileReady(id, data) => parts + [File(Or(id, generated), data)]
    case Update(kind, next) => if next.None? then parts else Upsert(parts, Keyed(kind, next.value.0, next.value.1))
    case Other => parts
  }

  // ---------------------------------------------------------------------------------------------
  // What every event keeps

  /** Two parts that may not both be there: the same tool call or the same key. */
  predicate Clash(a: Part, b: Part) {
    !a.TextPart? && !a.File? && ShapeOf(a) == ShapeOf(b)
  }

  /** At most one part per tool call id and per key; every tool call has an id; texts of a kind never adjoin. */
  predicate Tidy(parts: seq<Part>) {
    && (forall i, j | 0 <= i < j < |parts| :: !Clash(parts[i], parts[j]))
    && (forall i | 0 <= i < |parts| && parts[i].ToolCall? :: parts[i].id != "")
    && (forall i | 0 <= i < |parts| - 1 && parts[i].TextPart? :: ShapeOf(parts[i]) != ShapeOf(parts[i + 1]))
  }

  /** At most one part is changed, and it stays what it is. */
  predicate Edits(before: seq<Part>, after: seq<Part>) {
    && SameShapes(before, after)
    && forall i, j | 0 <= i < j < |before| :: before[i] == after[i] || before[j] == after[j]
  }

  /** Nothing is removed or reordered: one part is edited in place, or one is added at an end. */
  predicate Grows(before: seq<Part>, after: seq<Part>) {
    || Edits(before, after)
    || (|after| == |before| + 1 && after[..|before|] == before)
    || (|after| == |before| + 1 && after[1..] == before && after[0].Keyed? && after[0].of.Environment?)
  }

  lemma {:induction false} EditsKeepTidy(before: seq<Part>, after: seq<Part>)
    requires Tidy(before) && SameShapes(before, after)
    ensures Tidy(after)
  {
    forall i, j | 0 <= i < j < |after|
      ensures !Clash(after[i], after[j])
    {
      assert !Clash(before[i], before[j]);
    }
    forall i | 0 <= i < |after|
      ensures after[i].ToolCall? ==> after[i].id != ""
    {
      assert ShapeOf(before[i]) == ShapeOf(after[i]);
    }
  }

  lemma AppendKeepsTidy(parts: seq<Part>, p: Part)
    requires Tidy(parts) && (p.ToolCall? ==> p.id != "")
    requires forall i | 0 <= i < |parts| :: !Clash(parts[i], p)
    requires parts != [] && p.TextPart? ==> ShapeOf(parts[|parts| - 1]) != ShapeOf(p)
    ensures Tidy(parts + [p]) && Grows(parts, parts + [p])
  {
    hide Clash;
    var after := parts + [p];
    assert after[..|parts|] == parts;
    forall i, j | 0 <= i < j < |after|
      ensures !Clash(after[i], after[j])
    {
      assert j < |parts| ==> !Clash(parts[i], parts[j]);
    }
    forall i | 0 <= i < |after| - 1 && after[i].TextPart?
      ensures ShapeOf(after[i]) != ShapeOf(after[i + 1])
    {
      if i < |parts| - 1 {
        assert ShapeOf(parts[i]) != ShapeOf(parts[i + 1]);
      }
    }
  }

  lemma AppendToKeeps(parts: seq<Part>, kind: TextKind, chunk: string)
    requires Tidy(parts)
    ensures Tidy(AppendTo(parts, kind, chunk)) && Grows(parts, AppendTo(parts, kind, chunk))
  {
    var n := |parts|;
    if n > 0 && parts[n - 1].TextPart? && parts[n - 1].kind == kind {
      EditsKeepTidy(parts, AppendTo(parts, kind, chunk));
    } else {
      AppendKeepsTidy(parts, TextPart(kind, chunk));
    }
  }

  lemma UpsertToolUseKeeps(parts: seq<Part>, id: string, name: string, args: string, generated: string)
    requires Tidy(parts) && generated != "" && !HasCall(parts, generated)
    ensures Tidy(UpsertToolUse(parts, id, name, args, generated))
    ensures Grows(parts, UpsertToolUse(parts, id, name, args, generated))
  {
    var n := CallIndex(parts, id);
    if n == |parts| {
      AppendKeepsTidy(parts, ToolCall(Or(id, generated), Or(name, "tool"), args, None, ""));
    } else {
      EditsKeepTidy(parts, UpsertToolUse(parts, id, name, args, generated));
    }
  }

  lemma OneCall(parts: seq<Part>, id: string, i: nat, j: nat)
    requires Tidy(parts) && i < |parts| && j < |parts| && IsCall(parts[i], id) && IsCall(parts[j], id)
    ensures i == j
  {
    assert Clash(parts[i], parts[j]) && Clash(parts[j], parts[i]);
  }

  /** Changing every part of one call id changes at most one. */
  lemma CallEdits(before: seq<Part>, after: seq<Part>, id: string)
    requires Tidy(before) && SameShapes(before, after)
    requires forall i | 0 <= i < |before| && !IsCall(before[i], id) :: after[i] == before[i]
    ensures Edits(before, after) && Tidy(after)
  {
    EditsKeepTidy(before, after);
    forall i, j | 0 <= i < |before| && 0 <= j < |before|
      ensures i < j ==> before[i] == after[i] || before[j] == after[j]
    {
      if IsCall(before[i], id) && IsCall(before[j], id) {
        OneCall(before, id, i, j);
      }
    }
  }

  lemma ToolOutputKeeps(parts: seq<Part>, id: string, chunk: string, name: string, args: string, generated: string)
    requires Tidy(parts) && generated != "" && !HasCall(parts, generated)
    ensures var after := AppendToolOutput(parts, id, chunk, name, args, generated);
            Tidy(after) && Grows(parts, after)
  {
    if id != "" && chunk != "" {
      hide AppendToolOutput;
      OutputIs(parts, id, chunk, name, args, generated);
      var more := WithCall(parts, id, name, args, generated);
      if !HasCall(parts, id) {
        UpsertToolUseKeeps(parts, id, name, args, generated);
      }
      var after := WithOutput(more, id, chunk);
      CallEdits(more, after, id);
      if !HasCall(parts, id) {
        assert after[..|parts|] == parts;
      }
    }
  }

  lemma UpsertKeeps(parts: seq<Part>, next: Part)
    requires next.Keyed? && Tidy(parts)
    ensures Tidy(Upsert(parts, next)) && Grows(parts, Upsert(parts, next))
  {
    var n := KeyIndex(parts, next.of, next.key);
    if n < |parts| {
      EditsKeepTidy(parts, parts[n := next]);
    } else if next.of.Environment? {
      var after := [next] + parts;
      assert after[1..] == parts;
      assert forall i | 0 < i < |after| :: after[i] == parts[i - 1];
      forall i, j | 0 <= i < j < |after|
        ensures !Clash(after[i], after[j])
      {
        if i > 0 {
          assert !Clash(parts[i - 1], parts[j - 1]);
        }
      }
    } else {
      AppendKeepsTidy(parts, next);
    }
  }

  /** Every event keeps the message tidy and only grows it. The generated id must be new, as a random one is. */
  lemma EventKeeps(parts: seq<Part>, ev: Event, generated: string)
    requires Tidy(parts) && generated != "" && !HasCall(parts, generated)
    ensures Tidy(ReducePart(parts, ev, generated)) && Grows(parts, ReducePart(parts, ev, generated))
  {
    hide Tidy, Grows;
    match ev
    case Text(t) => AppendToKeeps(parts, Plain, t);
    case Clarification(t) => AppendToKeeps(parts, Plain, t);
    case Thinking(t) => AppendToKeeps(parts, Reasoning, t);
    case ErrorText(t) => AppendToKeeps(parts, Plain, WARNING + t);
    case ToolUse(id, name, input) => UpsertToolUseKeeps(parts, id, name, input, generated);
    case ToolOutput(id, content, name, input) => ToolOutputKeeps(parts, id, content, name, input, generated);
    case ToolDone(id, content, isError, outcome) => ToolDoneKeeps(parts, id, content, isError, outcome);
    case FileReady(id, data) => FileKeeps(parts, File(Or(id, generated), data));
    case Update(kind, next) =>
      if next.Some? {
        UpsertKeeps(parts, Keyed(kind, next.value.0, next.value.1));
      } else {
        NothingKeeps(parts);
      }
    case Other => NothingKeeps(parts);
  }

  lemma ToolDoneKeeps(parts: seq<Part>, id: string, content: string, isError: bool, outcome: string)
    requires Tidy(parts)
    ensures var after := FillToolResult(parts, id, content, isError, outcome);
            Tidy(after) && Grows(parts, after)
  {
    if HasCall(parts, id) {
      CallEdits(parts, FillToolResult(parts, id, content, isError, outcome), id);
    } else {
      AppendToKeeps(parts, Plain, (if isError then "\n[tool error] " else "\n[tool result] ") + content + "\n");
    }
  }

  lemma FileKeeps(parts: seq<Part>, p: Part)
    requires Tidy(parts) && p.File?
    ensures Tidy(parts + [p]) && Grows(parts, parts + [p])
  {
    AppendKeepsTidy(parts, p);
  }

  lemma NothingKeeps(parts: seq<Part>)
    requires Tidy(parts)
    ensures Grows(parts, parts)
  {
  }

  // ---------------------------------------------------------------------------------------------
  // What tool events, files and updates put into a message

  /** All parts but those of one call are as they were. */
  predicate OnlyCallChanges(before: seq<Part>, after: seq<Part>, id: string) {
    |after| == |before| && forall i | 0 <= i < |before| && !IsCall(before[i], id) :: after[i] == before[i]
  }

  /** A tool use names its call, a new one at the end if need be; other parts, and what the call has put out or
      returned, stay. */
  lemma UseDoes(parts: seq<Part>, id: string, name: string, input: string, generated: string)
    ensures var after := ReducePart(parts, ToolUse(id, name, input), generated);
            var shown := if name != "" then name else "tool";
            && (!HasCall(parts, id) ==>
                  after == parts + [ToolCall(if id != "" then id else generated, shown, input, None, "")])
            && (Tidy(parts) && HasCall(parts, id) ==>
                  && OnlyCallChanges(parts, after, id)
                  && forall i | 0 <= i < |parts| && IsCall(parts[i], id) ::
                       after[i] == ToolCall(id, shown, input, parts[i].result, parts[i].output))
  {
    var n := CallIndex(parts, id);
    if Tidy(parts) && HasCall(parts, id) {
      forall i | 0 <= i < |parts| && IsCall(parts[i], id)
        ensures i == n
      {
        OneCall(parts, id, i, n);
      }
    }
  }

  /** A tool result goes to its call, whatever was there: success, or one of four failures, `failed` if none is
      named. */
  lemma DoneDoes(parts: seq<Part>, id: string, content: string, isError: bool, outcome: string, generated: string)
    ensures var after := ReducePart(parts, ToolDone(id, content, isError, outcome), generated);
            var shown := if !isError then "success"
                         else if outcome == "permission_denied" || outcome == "unavailable" || outcome == "timeout"
                         then outcome else "failed";
            HasCall(parts, id) ==>
              && OnlyCallChanges(parts, after, id)
              && forall i | 0 <= i < |parts| && IsCall(parts[i], id) ::
                   after[i] == ToolCall(id, parts[i].name, parts[i].args, Some(ToolResult(content, isError, shown)),
                                        parts[i].output)
  {
  }

  /** Output goes to its call, of which the last 65536 characters are kept; an unknown call is added with it. */
  lemma OutputDoes(parts: seq<Part>, id: string, content: string, name: string, input: string, generated: string)
    ensures var after := ReducePart(parts, ToolOutput(id, content, name, input), generated);
            var shown := if name != "" then name else "tool";
            && (id == "" || content == "" ==> after == parts)
            && (id != "" && content != "" && !HasCall(parts, id) ==>
                  after == parts + [ToolCall(id, shown, input, None, T.Last(content, 65536))])
            && (id != "" && content != "" && HasCall(parts, id) ==>
                  && OnlyCallChanges(parts, after, id)
                  && forall i | 0 <= i < |parts| && IsCall(parts[i], id) ::
                       after[i] == ToolCall(id, parts[i].name, parts[i].args, parts[i].result,
                                            T.Last(parts[i].output + content, 65536)))
  {
    if id != "" && content != "" {
      OutputIs(parts, id, content, name, input, generated);
      hide AppendToolOutput, UpsertToolUse;
      if !HasCall(parts, id) {
        var call := ToolCall(id, Or(name, "tool"), input, None, "");
        var after := WithOutput(parts + [call], id, content);
        assert "" + content == content;
        assert after[..|parts|] == parts && after[|parts|] == call.(output := T.Last(content, 65536));
      }
    }
  }

  /** Text goes on where text of its kind stands last, and starts a new part otherwise; nothing before it changes. */
  predicate Speaks(parts: seq<Part>, after: seq<Part>, kind: TextKind, text: string) {
    var n := |parts|;
    if n > 0 && parts[n - 1].TextPart? && parts[n - 1].kind == kind
    then after == parts[..n - 1] + [TextPart(kind, parts[n - 1].text + text)]
    else after == parts + [TextPart(kind, text)]
  }

  lemma TextDoes(parts: seq<Part>, text: string, generated: string)
    ensures Speaks(parts, ReducePart(parts, Text(text), generated), Plain, text)
    ensures Speaks(parts, ReducePart(parts, Clarification(text), generated), Plain, text)
    ensures Speaks(parts, ReducePart(parts, Thinking(text), generated), Reasoning, text)
    ensures Speaks(parts, ReducePart(parts, ErrorText(text), generated), Plain, "\n\n\U{26A0}\U{FE0F} " + text)
    ensures forall id, isError, outcome | !HasCall(parts, id) ::
              Speaks(parts, ReducePart(parts, ToolDone(id, text, isError, outcome), generated), Plain,
                     (if isError then "\n[tool error] " else "\n[tool result] ") + text + "\n")
  {
  }

  /** A file is added at the end. An update that is refused changes nothing; otherwise it replaces the first part of its
      kind and key, of its kind alone for a memory recall, or is added: an environment in front, any other at the
      end. */
  lemma OthersDo(parts: seq<Part>, id: string, data: string, kind: Kind, key: string, payload: string,
                 generated: string, n: nat)
    ensures ReducePart(parts, FileReady(id, data), generated)
            == parts + [File(if id != "" then id else generated, data)]
    ensures ReducePart(parts, Other, generated) == parts && ReducePart(parts, Update(kind, None), generated) == parts
    ensures var after := ReducePart(parts, Update(kind, Some((key, payload))), generated);
            && (n < |parts| && parts[n].Keyed? && parts[n].of == kind && (kind.MemoryRecall? || parts[n].key == key)
                && (forall i | 0 <= i < n ::
                      !(parts[i].Keyed? && parts[i].of == kind && (kind.MemoryRecall? || parts[i].key == key)))
                ==> after == parts[n := Keyed(kind, key, payload)])
            && ((forall i | 0 <= i < |parts| ::
                   !(parts[i].Keyed? && parts[i].of == kind && (kind.MemoryRecall? || parts[i].key == key)))
                ==> after == if kind.Environment? then [Keyed(kind, key, payload)] + parts
                             else parts + [Keyed(kind, key, payload)])
  {
    var m := KeyIndex(parts, kind, key);
    if n < |parts| && IsKeyed(parts[n], kind, key) && forall i | 0 <= i < n :: !IsKeyed(parts[i], kind, key) {
      assert m == n;
    }
  }

  // ---------------------------------------------------------------------------------------------
  // Cutting text or output differently changes nothing

  /** Two text chunks are as good as one, of any lengths. */
  lemma TextMayBeSplit(parts: seq<Part>, kind: TextKind, a: string, b: string)
    ensures AppendTo(AppendTo(parts, kind, a), kind, b) == AppendTo(parts, kind, a + b)
  {
    var n := |parts|;
    if n > 0 && parts[n - 1].TextPart? && parts[n - 1].kind == kind {
      assert parts[n - 1].text + a + b == parts[n - 1].text + (a + b);
    }
    var once := AppendTo(parts, kind, a);
    assert once[..|once| - 1]
           == if n > 0 && parts[n - 1].TextPart? && parts[n - 1].kind == kind then parts[..n - 1] else parts;
  }

  /** Two nonempty output chunks are as good as one, whether or not the call is known already. */
  lemma OutputMayBeSplit(parts: seq<Part>, id: string, a: string, b: string, name: string, args: string, g: string,
                         h: string)
    requires a != "" && b != ""
    ensures AppendToolOutput(AppendToolOutput(parts, id, a, name, args, g), id, b, name, args, h)
            == AppendToolOutput(parts, id, a + b, name, args, g)
  {
    if id != "" {
      hide AppendToolOutput, WithOutput, HasCall;
      OutputIs(parts, id, a, name, args, g);
      OutputIs(parts, id, a + b, name, args, g);
      var more := WithCall(parts, id, name, args, g);
      var once := WithOutput(more, id, a);
      OutputKeepsCall(more, id, a);
      OutputIs(once, id, b, name, args, h);
      KnownOutputMayBeSplit(more, id, a, b);
    }
  }

  lemma OutputKeepsCall(parts: seq<Part>, id: string, chunk: string)
    requires HasCall(parts, id)
    ensures HasCall(WithOutput(parts, id, chunk), id)
  {
    var k :| 0 <= k < |parts| && IsCall(parts[k], id);
    assert IsCall(WithOutput(parts, id, chunk)[k], id);
  }

  lemma LongerOutput(output: string, a: string, b: string)
    ensures T.Last(T.Last(output + a, MAX_TOOL_OUTPUT) + b, MAX_TOOL_OUTPUT)
            == T.Last(output + (a + b), MAX_TOOL_OUTPUT)
  {
    T.LastAppend(output + a, b, MAX_TOOL_OUTPUT);
    assert output + a + b == output + (a + b);
  }

  lemma KnownOutputMayBeSplit(parts: seq<Part>, id: string, a: string, b: string)
    ensures WithOutput(WithOutput(parts, id, a), id, b) == WithOutput(parts, id, a + b)
  {
    hide T.Last;
    forall i | 0 <= i < |parts|
      ensures WithOutput(WithOutput(parts, id, a), id, b)[i] == WithOutput(parts, id, a + b)[i]
    {
      if IsCall(parts[i], id) {
        LongerOutput(parts[i].output, a, b);
      }
    }
  }

  // ---------------------------------------------------------------------------------------------
  // No text is lost

  /** All text of a kind, in order. */
  function AllText(parts: seq<Part>, kind: TextKind): string {
    if parts == [] then ""
    else
      var n := |parts| - 1;
      if parts[n].TextPart? && parts[n].kind == kind then AllText(parts[..n], kind) + parts[n].text
      else AllText(parts[..n], kind)
  }

  function Note(content: string, isError: bool): string {
    (if isError then "\n[tool error] " else "\n[tool result] ") + content + "\n"
  }

  /** The text an event brings; a tool result brings some when its call is unknown. */
  function Spoken(parts: seq<Part>, ev: Event, kind: TextKind): string {
    match ev
    case Text(t) => if kind.Plain? then t else ""
    case Clarification(t) => if kind.Plain? then t else ""
    case ErrorText(t) => if kind.Plain? then WARNING + t else ""
    case Thinking(t) => if kind.Reasoning? then t else ""
    case ToolDone(id, content, isError, _) => if kind.Plain? && !HasCall(parts, id) then Note(content, isError) else ""
    case _ => ""
  }

  lemma AppendToSays(parts: seq<Part>, kind: TextKind, chunk: string, of: TextKind)
    ensures AllText(AppendTo(parts, kind, chunk), of) == AllText(parts, of) + if of == kind then chunk else ""
  {
    var after, n := AppendTo(parts, kind, chunk), |parts|;
    if n > 0 && parts[n - 1].TextPart? && parts[n - 1].kind == kind {
      assert after[..n - 1] == parts[..n - 1];
    } else {
      assert after[..n] == parts;
    }
    assert AllText(parts, of) + "" == AllText(parts, of);
  }

  lemma AppendPartSays(parts: seq<Part>, p: Part, kind: TextKind)
    requires !p.TextPart?
    ensures AllText(parts + [p], kind) == AllText(parts, kind)
  {
    assert (parts + [p])[..|parts|] == parts;
  }

  lemma {:induction false} PrependSays(p: Part, parts: seq<Part>, kind: TextKind)
    requires !p.TextPart?
    ensures AllText([p] + parts, kind) == AllText(parts, kind)
  {
    if parts == [] {
      assert ([p] + parts)[..0] == [];
    } else {
      assert ([p] + parts)[..|parts|] == [p] + parts[..|parts| - 1];
      PrependSays(p, parts[..|parts| - 1], kind);
    }
  }

  lemma {:induction false} SameTextSays(before: seq<Part>, after: seq<Part>, kind: TextKind)
    requires |before| == |after|
    requires forall i | 0 <= i < |before| :: before[i] == after[i] || (!before[i].TextPart? && !after[i].TextPart?)
    ensures AllText(before, kind) == AllText(after, kind)
  {
    if before != [] {
      SameTextSays(before[..|before| - 1], after[..|after| - 1], kind);
    }
  }

  lemma UseSays(parts: seq<Part>, id: string, name: string, args: string, generated: string, kind: TextKind)
    ensures AllText(UpsertToolUse(parts, id, name, args, generated), kind) == AllText(parts, kind)
  {
    var n := CallIndex(parts, id);
    if n == |parts| {
      AppendPartSays(parts, ToolCall(Or(id, generated), Or(name, "tool"), args, None, ""), kind);
    } else {
      SameTextSays(parts, UpsertToolUse(parts, id, name, args, generated), kind);
    }
  }

  lemma OutputSays(parts: seq<Part>, id: string, chunk: string, name: string, args: string, generated: string,
                   kind: TextKind)
    ensures AllText(AppendToolOutput(parts, id, chunk, name, args, generated), kind) == AllText(parts, kind)
  {
    if id != "" && chunk != "" {
      OutputIs(parts, id, chunk, name, args, generated);
      hide AppendToolOutput;
      UseSays(parts, id, name, args, generated, kind);
      var more := WithCall(parts, id, name, args, generated);
      SameTextSays(more, WithOutput(more, id, chunk), kind);
    }
  }

  lemma UpsertSays(parts: seq<Part>, next: Part, kind: TextKind)
    requires next.Keyed?
    ensures AllText(Upsert(parts, next), kind) == AllText(parts, kind)
  {
    AppendPartSays(parts, next, kind);
    PrependSays(next, parts, kind);
    var n := KeyIndex(parts, next.of, next.key);
    if n < |parts| {
      SameTextSays(parts, parts[n := next], kind);
    }
  }

  /** Conservation: every event adds exactly the text it brings, at the end, and no other event changes any text. */
  lemma EventSays(parts: seq<Part>, ev: Event, generated: string, kind: TextKind)
    ensures AllText(ReducePart(parts, ev, generated), kind) == AllText(parts, kind) + Spoken(parts, ev, kind)
  {
    hide AllText, AppendTo, Upsert, UpsertToolUse, AppendToolOutput, HasCall;
    assert AllText(parts, kind) + "" == AllText(parts, kind);
    match ev
    case Text(t) => AppendToSays(parts, Plain, t, kind);
    case Clarification(t) => AppendToSays(parts, Plain, t, kind);
    case ErrorText(t) => AppendToSays(parts, Plain, WARNING + t, kind);
    case Thinking(t) => AppendToSays(parts, Reasoning, t, kind);
    case ToolUse(id, name, input) => UseSays(parts, id, name, input, generated, kind);
    case ToolOutput(id, content, name, input) => OutputSays(parts, id, content, name, input, generated, kind);
    case ToolDone(id, content, isError, outcome) =>
      AppendToSays(parts, Plain, Note(content, isError), kind);
      if HasCall(parts, id) {
        SameTextSays(parts, FillToolResult(parts, id, content, isError, outcome), kind);
      }
    case FileReady(id, data) => AppendPartSays(parts, File(Or(id, generated), data), kind);
    case Update(of, next) =>
      if next.Some? {
        UpsertSays(parts, Keyed(of, next.value.0, next.value.1), kind);
      }
    case Other =>
  }

  // ---------------------------------------------------------------------------------------------
  // Over whole runs

  /** Every event with the id generated for it. */
  function Reduce(events: seq<(Event, string)>): seq<Part> {
    if events == [] then []
    else ReducePart(Reduce(events[..|events| - 1]), events[|events| - 1].0, events[|events| - 1].1)
  }

  ghost predicate FreshIds(events: seq<(Event, string)>) {
    forall n | 0 <= n < |events| :: events[n].1 != "" && !HasCall(Reduce(events[..n]), events[n].1)
  }

  lemma FreshPrefix(events: seq<(Event, string)>, n: nat)
    requires FreshIds(events) && n <= |events|
    ensures FreshIds(events[..n])
    ensures n < |events| ==> events[n].1 != "" && !HasCall(Reduce(events[..n]), events[n].1)
  {
    hide HasCall, Reduce;
    forall m | 0 <= m < n
      ensures events[..n][m].1 != "" && !HasCall(Reduce(events[..n][..m]), events[..n][m].1)
    {
      assert events[..n][..m] == events[..m];
    }
  }

  function OutputOf(events: seq<(Event, string)>, id: string): string {
    if events == [] then ""
    else
      var ev, before := events[|events| - 1].0, OutputOf(events[..|events| - 1], id);
      if ev.ToolOutput? && ev.id == id then before + ev.content else before
  }

  /** The output kept for a call is the tail of `all`; without a part there has been none. */
  predicate Keeps(parts: seq<Part>, id: string, all: string) {
    && (forall i | 0 <= i < |parts| && IsCall(parts[i], id) :: parts[i].output == T.Last(all, MAX_TOOL_OUTPUT))
    && (!HasCall(parts, id) ==> all == "")
  }

  lemma StillKeeps(before: seq<Part>, after: seq<Part>, id: string, all: string)
    requires Keeps(before, id, all)
    requires forall i | 0 <= i < |after| && IsCall(after[i], id) ::
               (exists j | 0 <= j < |before| :: IsCall(before[j], id) && before[j].output == after[i].output)
               || (!HasCall(before, id) && after[i].output == "")
    requires HasCall(before, id) ==> HasCall(after, id)
    ensures Keeps(after, id, all)
  {
  }

  lemma OutputKept(parts: seq<Part>, id: string, all: string, chunk: string, name: string, args: string,
                   generated: string)
    requires id != "" && Keeps(parts, id, all)
    ensures Keeps(AppendToolOutput(parts, id, chunk, name, args, generated), id, all + chunk)
  {
    if chunk == "" {
      assert all + chunk == all;
    } else {
      OutputIs(parts, id, chunk, name, args, generated);
      hide AppendToolOutput;
      var more := WithCall(parts, id, name, args, generated);
      var after := WithOutput(more, id, chunk);
      OutputKeepsCall(more, id, chunk);
      forall i | 0 <= i < |after| && IsCall(after[i], id)
        ensures after[i].output == T.Last(all + chunk, MAX_TOOL_OUTPUT)
      {
        assert ShapeOf(more[i]) == ShapeOf(after[i]);
        assert more[i].output == T.Last(all, MAX_TOOL_OUTPUT);
        T.LastAppend(all, chunk, MAX_TOOL_OUTPUT);
      }
    }
  }

  lemma TextKeepsOutput(parts: seq<Part>, id: string, all: string, kind: TextKind, chunk: string)
    requires Keeps(parts, id, all)
    ensures Keeps(AppendTo(parts, kind, chunk), id, all)
  {
    var after := AppendTo(parts, kind, chunk);
    if i :| 0 <= i < |parts| && IsCall(parts[i], id) {
      assert after[i] == parts[i];
    }
    StillKeeps(parts, after, id, all);
  }

  lemma UseKeepsOutput(parts: seq<Part>, id: string, all: string, ev: Event, generated: string)
    requires Keeps(parts, id, all) && ev.ToolUse? && !HasCall(parts, generated)
    ensures Keeps(ReducePart(parts, ev, generated), id, all)
  {
    var after := UpsertToolUse(parts, ev.id, ev.name, ev.input, generated);
    if i :| 0 <= i < |parts| && IsCall(parts[i], id) {
      assert IsCall(after[i], id);
    }
    StillKeeps(parts, after, id, all);
  }

  lemma OtherOutputKeeps(parts: seq<Part>, id: string, all: string, ev: Event, generated: string)
    requires Keeps(parts, id, all) && ev.ToolOutput? && ev.id != id
    ensures Keeps(ReducePart(parts, ev, generated), id, all)
  {
    if ev.id != "" && ev.content != "" {
      OutputIs(parts, ev.id, ev.content, ev.name, ev.input, generated);
      hide AppendToolOutput;
      var more := WithCall(parts, ev.id, ev.name, ev.input, generated);
      var after := WithOutput(more, ev.id, ev.content);
      if i :| 0 <= i < |parts| && IsCall(parts[i], id) {
        assert more[i] == parts[i];
        assert IsCall(after[i], id);
      }
      forall i | 0 <= i < |after| && IsCall(after[i], id)
        ensures i < |parts| && IsCall(parts[i], id) && parts[i].output == after[i].output
      {
        assert ShapeOf(more[i]) == ShapeOf(after[i]);
      }
      StillKeeps(parts, after, id, all);
    }
  }

  lemma DoneKeepsOutput(parts: seq<Part>, id: string, all: string, ev: Event)
    requires Keeps(parts, id, all) && ev.ToolDone?
    ensures Keeps(FillToolResult(parts, ev.id, ev.content, ev.isError, ev.outcome), id, all)
  {
    if HasCall(parts, ev.id) {
      var after := FillToolResult(parts, ev.id, ev.content, ev.isError, ev.outcome);
      if i :| 0 <= i < |parts| && IsCall(parts[i], id) {
        assert IsCall(after[i], id);
      }
      StillKeeps(parts, after, id, all);
    } else {
      TextKeepsOutput(parts, id, all, Plain,
                      (if ev.isError then "\n[tool error] " else "\n[tool result] ") + ev.content + "\n");
    }
  }

  lemma AddingKeepsOutput(parts: seq<Part>, id: string, all: string, p: Part)
    requires Keeps(parts, id, all) && !p.ToolCall?
    ensures Keeps(parts + [p], id, all) && (p.Keyed? ==> Keeps(Upsert(parts, p), id, all))
  {
    if i :| 0 <= i < |parts| && IsCall(parts[i], id) {
      assert IsCall((parts + [p])[i], id);
      if p.Keyed? {
        var n := KeyIndex(parts, p.of, p.key);
        var at := if n == |parts| && p.of.Environment? then i + 1 else i;
        assert IsCall(Upsert(parts, p)[at], id);
      }
    }
    StillKeeps(parts, parts + [p], id, all);
    if p.Keyed? {
      StillKeeps(parts, Upsert(parts, p), id, all);
    }
  }

  lemma EventKeepsOutput(parts: seq<Part>, ev: Event, generated: string, id: string, all: string)
    requires id != "" && Keeps(parts, id, all) && !HasCall(parts, generated)
    ensures Keeps(ReducePart(parts, ev, generated), id, if ev.ToolOutput? && ev.id == id then all + ev.content else all)
  {
    hide Keeps;
    match ev
    case Text(t) => TextKeepsOutput(parts, id, all, Plain, t);
    case Clarification(t) => TextKeepsOutput(parts, id, all, Plain, t);
    case Thinking(t) => TextKeepsOutput(parts, id, all, Reasoning, t);
    case ErrorText(t) => TextKeepsOutput(parts, id, all, Plain, WARNING + t);
    case ToolUse(_, _, _) => UseKeepsOutput(parts, id, all, ev, generated);
    case ToolOutput(of, content, name, input) =>
      if of == id {
        OutputKept(parts, id, all, content, name, input, generated);
      } else {
        OtherOutputKeeps(parts, id, all, ev, generated);
      }
    case ToolDone(_, _, _, _) => DoneKeepsOutput(parts, id, all, ev);
    case FileReady(f, data) => AddingKeepsOutput(parts, id, all, File(Or(f, generated), data));
    case Update(kind, next) =>
      if next.Some? {
        AddingKeepsOutput(parts, id, all, Keyed(kind, next.value.0, next.value.1));
      }
    case Other =>
  }

  /** Over every event sequence from the empty message: the message stays tidy, and for every call the output kept is
      the last 65536 characters of all its output. */
  lemma {:induction false} EveryMessageIsTidy(events: seq<(Event, string)>, id: string)
    requires FreshIds(events) && id != ""
    ensures Tidy(Reduce(events)) && Keeps(Reduce(events), id, OutputOf(events, id))
  {
    if events != [] {
      var n := |events| - 1;
      hide Tidy, Keeps, HasCall, FreshIds, ReducePart;
      FreshPrefix(events, n);
      EveryMessageIsTidy(events[..n], id);
      EventKeeps(Reduce(events[..n]), events[n].0, events[n].1);
      EventKeepsOutput(Reduce(events[..n]), events[n].0, events[n].1, id, OutputOf(events[..n], id));
    }
  }

  /** The shapes of the parts after a prefix of the events occur, in their order, among the shapes after all of them:
      at `at[i]` for part i. */
  ghost predicate Embeds(before: seq<Part>, after: seq<Part>, at: seq<nat>) {
    && |at| == |before|
    && (forall i | 0 <= i < |at| :: at[i] < |after| && ShapeOf(after[at[i]]) == ShapeOf(before[i]))
    && (forall i, j | 0 <= i < j < |at| :: at[i] < at[j])
  }

  lemma GrowthEmbeds(before: seq<Part>, middle: seq<Part>, after: seq<Part>, at: seq<nat>) returns (moved: seq<nat>)
    requires Embeds(before, middle, at) && Grows(middle, after)
    ensures Embeds(before, after, moved)
  {
    if |after| == |middle| + 1 && after[1..] == middle {
      moved := seq(|at|, i requires 0 <= i < |at| => at[i] + 1);
      forall i | 0 <= i < |at|
        ensures ShapeOf(after[moved[i]]) == ShapeOf(before[i])
      {
        assert after[moved[i]] == after[1..][at[i]];
      }
    } else {
      moved := at;
      if |after| == |middle| + 1 {
        forall i | 0 <= i < |at|
          ensures ShapeOf(after[at[i]]) == ShapeOf(before[i])
        {
          assert after[at[i]] == after[..|middle|][at[i]];
        }
      }
    }
  }

  /** Parts are never removed or reordered, from any point of a run to any later one. */
  lemma {:induction false} PartsStay(events: seq<(Event, string)>, n: nat) returns (at: seq<nat>)
    requires FreshIds(events) && n <= |events|
    ensures Embeds(Reduce(events[..n]), Reduce(events), at)
  {
    if n == |events| {
      assert events[..n] == events;
      at := seq(|Reduce(events)|, i requires 0 <= i < |Reduce(events)| => i);
    } else {
      var m := |events| - 1;
      hide Tidy, Grows, Embeds, ReducePart, Keeps, HasCall, FreshIds;
      FreshPrefix(events, m);
      assert events[..m][..n] == events[..n];
      var before := PartsStay(events[..m], n);
      EveryMessageIsTidy(events[..m], "id");
      EventKeeps(Reduce(events[..m]), events[m].0, events[m].1);
      at := GrowthEmbeds(Reduce(events[..n]), Reduce(events[..m]), Reduce(events), before);
    }
  }
}
