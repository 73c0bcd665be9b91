/** Rebuilding content blocks from the raw content-block frames an Anthropic upstream streams: the part of the
    collector that keys blocks, JSON buffers and block order by the upstream's block index. */
module AnthropicBlocks {
  import opened Prelude
  import opened StreamTypes

  datatype Assembly = Assembly(blocks: map<int, Block>, json: map<int, string>, order: seq<int>)

  const EMPTY := Assembly(map[], map[], [])
  const TEXT_BLOCK := Block("text", Some(""), None, None, None, "")
  const THINKING_BLOCK := Block("thinking", None, Some(""), None, None, "")

  function OrEmpty(s: Option<string>): string {
    if s.Some? then s.value else ""
  }

  function JsonAt(a: Assembly, i: int): string {
    if i in a.json then a.json[i] else ""
  }

  /** A delta for an unknown index makes a default block and lists it. */
  function Ensure(a: Assembly, i: int, fallback: Block): Assembly {
    Assembly(if i in a.blocks then a.blocks else a.blocks[i := fallback], a.json,
             if i in a.order then a.order else a.order + [i])
  }

  /** `parse` is the reading of a tool input: JSON, or the empty object for blank or malformed text. */
  function Finalize(a: Assembly, i: int, parse: string -> Json): Assembly {
    if i in a.blocks && a.blocks[i].kind == "tool_use" then
      a.(blocks := a.blocks[i := a.blocks[i].(input := Some(parse(JsonAt(a, i))))])
    else a
  }

  function Feed(a: Assembly, f: BlockFrame, parse: string -> Json): Assembly {
    match f
    case BlockStart(i, b) => Assembly(a.blocks[i := b], a.json[i := ""], a.order + [i])
    case BlockDelta(i, TextDelta(t)) =>
      var e := Ensure(a, i, TEXT_BLOCK);
      e.(blocks := e.blocks[i := e.blocks[i].(text := Some(OrEmpty(e.blocks[i].text) + t))])
    case BlockDelta(i, ThinkingDelta(t)) =>
      var e := Ensure(a, i, THINKING_BLOCK);
      e.(blocks := e.blocks[i := e.blocks[i].(thinking := Some(OrEmpty(e.blocks[i].thinking) + t))])
    case BlockDelta(i, SignatureDelta(t)) =>
      var e := Ensure(a, i, THINKING_BLOCK);
      e.(blocks := e.blocks[i := e.blocks[i].(signature := Some(OrEmpty(e.blocks[i].signature) + t))])
    case BlockDelta(i, InputJsonDelta(t)) => a.(json := a.json[i := JsonAt(a, i) + t])
    case BlockDelta(_, OtherDelta(_)) => a
    case BlockStop(i) => Finalize(a, i, parse)
    case OtherFrame(_, _) => a
  }

  function Assemble(frames: seq<BlockFrame>, parse: string -> Json): Assembly {
    if frames == [] then EMPTY
    else Feed(Assemble(frames[..|frames| - 1], parse), frames[|frames| - 1], parse)
  }

  /** A listed block as the response carries it; a tool block still without input gets it now. */
  function Finished(a: Assembly, i: int, parse: string -> Json): Block
    requires i in a.blocks
  {
    if a.blocks[i].kind == "tool_use" && a.blocks[i].input.None? then
      a.blocks[i].(input := Some(parse(JsonAt(a, i))))
    else a.blocks[i]
  }

  function ListedContent(a: Assembly, order: seq<int>, parse: string -> Json): seq<Block> {
    if order == [] then []
    else
      var n := |order| - 1;
      ListedContent(a, order[..n], parse) + if order[n] in a.blocks then [Finished(a, order[n], parse)] else []
  }

  function Content(frames: seq<BlockFrame>, parse: string -> Json): seq<Block> {
    var a := Assemble(frames, parse);
    ListedContent(a, a.order, parse)
  }

  // ---------------------------------------------------------------------------------------------
  // When there is any content

  /** The frames that list a block: starts, and the deltas a default block is made for. */
  predicate Lists(f: BlockFrame) {
    f.BlockStart? || (f.BlockDelta? && (f.delta.TextDelta? || f.delta.ThinkingDelta? || f.delta.SignatureDelta?))
  }

  predicate AllListed(a: Assembly) {
    forall k | 0 <= k < |a.order| :: a.order[k] in a.blocks
  }

  lemma FeedLists(a: Assembly, f: BlockFrame, parse: string -> Json)
    requires AllListed(a)
    ensures AllListed(Feed(a, f, parse))
    ensures Feed(a, f, parse).order != [] <==> a.order != [] || Lists(f)
  {
  }

  lemma {:induction false} ListsBlocks(frames: seq<BlockFrame>, parse: string -> Json)
    ensures AllListed(Assemble(frames, parse))
    ensures Assemble(frames, parse).order != [] <==> exists k | 0 <= k < |frames| :: Lists(frames[k])
  {
    hide Lists, Feed, AllListed;
    if frames != [] {
      var n := |frames| - 1;
      ListsBlocks(frames[..n], parse);
      FeedLists(Assemble(frames[..n], parse), frames[n], parse);
      if Assemble(frames[..n], parse).order != [] {
        var k :| 0 <= k < n && Lists(frames[..n][k]);
        assert Lists(frames[k]);
      } else {
        assert forall k | 0 <= k < n :: frames[..n][k] == frames[k];
      }
    } else {
      assert AllListed(EMPTY) by { NothingListed(); }
    }
  }

  lemma NothingListed()
    ensures AllListed(EMPTY)
  {
  }

  lemma ListedContentNonempty(a: Assembly, parse: string -> Json)
    requires AllListed(a)
    ensures ListedContent(a, a.order, parse) != [] <==> a.order != []
  {
  }

  /** There is content exactly when some frame lists a block. */
  lemma HasContentIff(frames: seq<BlockFrame>, parse: string -> Json)
    ensures Content(frames, parse) != [] <==> exists k | 0 <= k < |frames| :: Lists(frames[k])
  {
    hide Lists, Assemble, ListedContent;
    ListsBlocks(frames, parse);
    ListedContentNonempty(Assemble(frames, parse), parse);
  }

  // ---------------------------------------------------------------------------------------------
  // Indices do not disturb each other

  /** What one index sees of an assembly. */
  datatype View = View(block: Option<Block>, json: string)

  function ViewAt(a: Assembly, i: int): View {
    View(if i in a.blocks then Some(a.blocks[i]) else None, JsonAt(a, i))
  }

  /** The frames of one index, in order. */
  function Only(frames: seq<BlockFrame>, i: int): seq<BlockFrame> {
    if frames == [] then []
    else
      var n := |frames| - 1;
      Only(frames[..n], i) + if frames[n].index == i then [frames[n]] else []
  }

  lemma FeedIsLocal(a: Assembly, b: Assembly, f: BlockFrame, i: int, parse: string -> Json)
    requires ViewAt(a, i) == ViewAt(b, i)
    ensures f.index != i ==> ViewAt(Feed(a, f, parse), i) == ViewAt(a, i)
    ensures f.index == i ==> ViewAt(Feed(a, f, parse), i) == ViewAt(Feed(b, f, parse), i)
  {
    if f.BlockDelta? {
      match f.delta
      case TextDelta(_) =>
      case ThinkingDelta(_) =>
      case SignatureDelta(_) =>
      case InputJsonDelta(_) =>
      case OtherDelta(_) =>
    }
  }

  /** However the indices are interleaved, each index ends as if it had been alone. */
  lemma {:induction false} IndicesAreIndependent(frames: seq<BlockFrame>, i: int, parse: string -> Json)
    ensures ViewAt(Assemble(frames, parse), i) == ViewAt(Assemble(Only(frames, i), parse), i)
  {
    if frames != [] {
      var n := |frames| - 1;
      IndicesAreIndependent(frames[..n], i, parse);
      FeedIsLocal(Assemble(frames[..n], parse), Assemble(Only(frames[..n], i), parse), frames[n], i, parse);
      if frames[n].index == i {
        assert Only(frames, i)[..|Only(frames, i)| - 1] == Only(frames[..n], i);
      } else {
        assert Only(frames, i) == Only(frames[..n], i);
      }
    }
  }

  // ---------------------------------------------------------------------------------------------
  // One block, cut into deltas

  datatype Key = TextKey | ThinkingKey | SignatureKey

  function Get(b: Block, key: Key): Option<string> {
    match key
    case TextKey => b.text
    case ThinkingKey => b.thinking
    case SignatureKey => b.signature
  }

  /** What a delta appends to a key, if it belongs to it. */
  function Piece(d: Delta, key: Key): Option<string> {
    match d
    case TextDelta(t) => if key == TextKey then Some(t) else None
    case ThinkingDelta(t) => if key == ThinkingKey then Some(t) else None
    case SignatureDelta(t) => if key == SignatureKey then Some(t) else None
    case _ => None
  }

  /** The pieces of a key put together; `None` when no delta belongs to it. */
  function Joined(ds: seq<Delta>, key: Key): Option<string> {
    if ds == [] then None
    else
      var n := |ds| - 1;
      match Piece(ds[n], key)
      case None => Joined(ds[..n], key)
      case Some(t) => Some(OrEmpty(Joined(ds[..n], key)) + t)
  }

  /** The pieces of a tool input put together. */
  function Inputs(ds: seq<Delta>): string {
    if ds == [] then "" else Inputs(ds[..|ds| - 1]) + if ds[|ds| - 1].InputJsonDelta? then ds[|ds| - 1].partial else ""
  }

  function DeltaFrames(i: int, ds: seq<Delta>): (frames: seq<BlockFrame>)
    ensures |frames| == |ds| && forall k | 0 <= k < |ds| :: frames[k] == BlockDelta(i, ds[k])
  {
    seq(|ds|, k requires 0 <= k < |ds| => BlockDelta(i, ds[k]))
  }

  /** A key after its deltas: the joined pieces behind what was there, or untouched. */
  function Appended(was: Option<string>, added: Option<string>): Option<string> {
    if added.Some? then Some(OrEmpty(was) + added.value) else was
  }

  lemma DeltaAppends(a: Assembly, i: int, d: Delta, key: Key, parse: string -> Json)
    requires i in a.blocks
    ensures var b := Feed(a, BlockDelta(i, d), parse);
            && i in b.blocks
            && JsonAt(b, i) == JsonAt(a, i) + (if d.InputJsonDelta? then d.partial else "")
            && b.blocks[i].kind == a.blocks[i].kind && b.blocks[i].rest == a.blocks[i].rest
            && b.blocks[i].input == a.blocks[i].input
            && Get(b.blocks[i], key) == Appended(Get(a.blocks[i], key), Piece(d, key))
  {
  }

  lemma AppendedTwice(was: Option<string>, joined: Option<string>, piece: Option<string>)
    ensures Appended(Appended(was, joined), piece)
         == Appended(was, if piece.Some? then Some(OrEmpty(joined) + piece.value) else joined)
  {
    if piece.Some? {
      assert OrEmpty(was) + (OrEmpty(joined) + piece.value) == (OrEmpty(was) + OrEmpty(joined)) + piece.value;
      assert joined.None? ==> OrEmpty(was) + OrEmpty(joined) == OrEmpty(was);
    }
  }

  lemma {:induction false} DeltasAppend(i: int, b: Block, ds: seq<Delta>, key: Key, parse: string -> Json)
    ensures var a := Assemble([BlockStart(i, b)] + DeltaFrames(i, ds), parse);
            && i in a.blocks && JsonAt(a, i) == Inputs(ds)
            && a.blocks[i].kind == b.kind && a.blocks[i].rest == b.rest && a.blocks[i].input == b.input
            && Get(a.blocks[i], key) == Appended(Get(b, key), Joined(ds, key))
  {
    var frames := [BlockStart(i, b)] + DeltaFrames(i, ds);
    if ds == [] {
      assert frames[..0] == [] && frames == [BlockStart(i, b)];
    } else {
      var n := |ds| - 1;
      DeltasAppend(i, b, ds[..n], key, parse);
      assert frames[..|frames| - 1] == [BlockStart(i, b)] + DeltaFrames(i, ds[..n]);
      assert frames[|frames| - 1] == BlockDelta(i, ds[n]);
      DeltaAppends(Assemble(frames[..|frames| - 1], parse), i, ds[n], key, parse);
      AppendedTwice(Get(b, key), Joined(ds[..n], key), Piece(ds[n], key));
    }
  }

  // ---------------------------------------------------------------------------------------------
  // Rebuilding the original list

  /** `open` and the deltas are a way of sending `whole`: every string key is cut into pieces, in order and at any
      places, and a tool input is cut likewise. A key may open empty, or be absent until its first piece. */
  ghost predicate Cuts(whole: Block, open: Block, ds: seq<Delta>, parse: string -> Json) {
    && open.kind == whole.kind && open.rest == whole.rest
    && (forall key: Key ::
          if Get(whole, key).None? then Get(open, key).None? && Joined(ds, key).None?
          else OrEmpty(Joined(ds, key)) == Get(whole, key).value
               && (Get(open, key) == Some("") || (Get(open, key).None? && Joined(ds, key).Some?)))
    && whole.input == (if whole.kind == "tool_use" then Some(parse(Inputs(ds))) else open.input)
  }

  /** The frames of one block: one start, its deltas, one stop. */
  ghost predicate Sends(frames: seq<BlockFrame>, i: int, whole: Block, parse: string -> Json) {
    exists open: Block, ds: seq<Delta> ::
      Cuts(whole, open, ds, parse) && frames == [BlockStart(i, open)] + DeltaFrames(i, ds) + [BlockStop(i)]
  }

  lemma OneBlockRebuilt(frames: seq<BlockFrame>, i: int, whole: Block, parse: string -> Json)
    requires Sends(frames, i, whole, parse)
    ensures var a := Assemble(frames, parse); i in a.blocks && a.blocks[i] == whole && Finished(a, i, parse) == whole
  {
    var open: Block, ds: seq<Delta> :|
      Cuts(whole, open, ds, parse) && frames == [BlockStart(i, open)] + DeltaFrames(i, ds) + [BlockStop(i)];
    assert frames[..|frames| - 1] == [BlockStart(i, open)] + DeltaFrames(i, ds);
    forall key: Key
      ensures Appended(Get(open, key), Joined(ds, key)) == Get(whole, key)
    {
      if Get(whole, key).Some? && Joined(ds, key).Some? {
        assert OrEmpty(Get(open, key)) + Joined(ds, key).value == Joined(ds, key).value;
      }
    }
    DeltasAppend(i, open, ds, TextKey, parse);
    DeltasAppend(i, open, ds, ThinkingKey, parse);
    DeltasAppend(i, open, ds, SignatureKey, parse);
    assert Get(whole, TextKey) == whole.text && Get(whole, ThinkingKey) == whole.thinking
           && Get(whole, SignatureKey) == whole.signature;
  }

  /** The indices of the start frames, in order. */
  function StartOrder(frames: seq<BlockFrame>): seq<int> {
    if frames == [] then []
    else
      var n := |frames| - 1;
      StartOrder(frames[..n]) + if frames[n].BlockStart? then [frames[n].index] else []
  }

  /** Every index opens with a start frame. */
  ghost predicate OpensWithStart(frames: seq<BlockFrame>) {
    forall i: int :: Only(frames, i) != [] ==> Only(frames, i)[0].BlockStart?
  }

  lemma OpensWithStartPrefix(frames: seq<BlockFrame>)
    requires frames != [] && OpensWithStart(frames)
    ensures OpensWithStart(frames[..|frames| - 1])
    ensures frames[|frames| - 1].BlockStart? || Only(frames[..|frames| - 1], frames[|frames| - 1].index) != []
  {
    var n := |frames| - 1;
    forall i: int
      ensures Only(frames[..n], i) != [] ==> Only(frames[..n], i)[0].BlockStart?
    {
      assert Only(frames[..n], i) != [] ==> Only(frames, i)[0] == Only(frames[..n], i)[0];
    }
    assert Only(frames, frames[n].index) == Only(frames[..n], frames[n].index) + [frames[n]];
  }

  /** Blocks are listed in the order of their start frames, and only once the index has been heard of. */
  lemma {:induction false} ListedInStartOrder(frames: seq<BlockFrame>, parse: string -> Json)
    requires OpensWithStart(frames)
    ensures Assemble(frames, parse).order == StartOrder(frames)
    ensures forall i: int :: Only(frames, i) != [] ==> i in StartOrder(frames) && i in Assemble(frames, parse).blocks
  {
    if frames != [] {
      var n := |frames| - 1;
      OpensWithStartPrefix(frames);
      ListedInStartOrder(frames[..n], parse);
      var i := frames[n].index;
      assert frames[n].BlockStart? || (i in StartOrder(frames[..n]) && i in Assemble(frames[..n], parse).blocks);
      forall j: int | Only(frames, j) != []
        ensures j in StartOrder(frames) && j in Assemble(frames, parse).blocks
      {
        assert j != i ==> Only(frames, j) == Only(frames[..n], j);
      }
    }
  }

  function Pick(whole: map<int, Block>, order: seq<int>): seq<Block>
    requires forall k | 0 <= k < |order| :: order[k] in whole
  {
    if order == [] then []
    else
      var n := |order| - 1;
      Pick(whole, order[..n]) + [whole[order[n]]]
  }

  lemma {:induction false} ListedContentIs(a: Assembly, order: seq<int>, whole: map<int, Block>, parse: string -> Json)
    requires forall k | 0 <= k < |order| ::
               order[k] in whole && order[k] in a.blocks && Finished(a, order[k], parse) == whole[order[k]]
    ensures ListedContent(a, order, parse) == Pick(whole, order)
  {
    if order != [] {
      ListedContentIs(a, order[..|order| - 1], whole, parse);
    }
  }

  lemma {:induction false} StartedAppears(frames: seq<BlockFrame>, i: int)
    requires i in StartOrder(frames)
    ensures Only(frames, i) != []
  {
    var n := |frames| - 1;
    if i in StartOrder(frames[..n]) {
      StartedAppears(frames[..n], i);
    }
  }

  lemma {:induction false} StartsCounted(frames: seq<BlockFrame>, i: int)
    ensures multiset(StartOrder(frames))[i] == |StartOrder(Only(frames, i))|
  {
    if frames != [] {
      var n := |frames| - 1;
      StartsCounted(frames[..n], i);
      if frames[n].index == i {
        assert Only(frames, i)[..|Only(frames, i)| - 1] == Only(frames[..n], i);
      } else {
        assert Only(frames, i) == Only(frames[..n], i);
      }
    }
  }

  lemma {:induction false} DeltasDoNotStart(i: int, b: Block, ds: seq<Delta>)
    ensures StartOrder([BlockStart(i, b)] + DeltaFrames(i, ds)) == [i]
  {
    var frames := [BlockStart(i, b)] + DeltaFrames(i, ds);
    if ds == [] {
      assert frames == [BlockStart(i, b)] && frames[..0] == [];
    } else {
      assert frames[..|ds|] == [BlockStart(i, b)] + DeltaFrames(i, ds[..|ds| - 1]);
      DeltasDoNotStart(i, b, ds[..|ds| - 1]);
    }
  }

  lemma SentOnce(frames: seq<BlockFrame>, i: int, whole: Block, parse: string -> Json)
    requires Sends(frames, i, whole, parse)
    ensures StartOrder(frames) == [i] && frames[0].BlockStart?
  {
    var open: Block, ds: seq<Delta> :|
      Cuts(whole, open, ds, parse) && frames == [BlockStart(i, open)] + DeltaFrames(i, ds) + [BlockStop(i)];
    assert frames[..|frames| - 1] == [BlockStart(i, open)] + DeltaFrames(i, ds);
    DeltasDoNotStart(i, open, ds);
  }

  /** Collecting rebuilds the original blocks, each exactly once and in start order, for every way of cutting their
      strings into deltas and every interleaving of their frames. */
  lemma CollectingRebuilds(frames: seq<BlockFrame>, whole: map<int, Block>, parse: string -> Json)
    requires forall i: int | Only(frames, i) != [] :: i in whole
    requires forall i | i in whole :: Sends(Only(frames, i), i, whole[i], parse)
    ensures forall k | 0 <= k < |StartOrder(frames)| :: StartOrder(frames)[k] in whole
    ensures forall i | i in whole :: multiset(StartOrder(frames))[i] == 1
    ensures Content(frames, parse) == Pick(whole, StartOrder(frames))
  {
    forall i: int | Only(frames, i) != []
      ensures Only(frames, i)[0].BlockStart?
    {
      SentOnce(Only(frames, i), i, whole[i], parse);
    }
    ListedInStartOrder(frames, parse);
    var order := StartOrder(frames);
    forall k | 0 <= k < |order|
      ensures order[k] in whole && order[k] in Assemble(frames, parse).blocks
              && Finished(Assemble(frames, parse), order[k], parse) == whole[order[k]]
    {
      var i := order[k];
      StartedAppears(frames, i);
      IndicesAreIndependent(frames, i, parse);
      OneBlockRebuilt(Only(frames, i), i, whole[i], parse);
    }
    ListedContentIs(Assemble(frames, parse), StartOrder(frames), whole, parse);
    forall i | i in whole
      ensures multiset(order)[i] == 1
    {
      SentOnce(Only(frames, i), i, whole[i], parse);
      StartsCounted(frames, i);
    }
  }

  // ---------------------------------------------------------------------------------------------
  // A dropped stop frame

  /** The final sweep over tool blocks whose stop frame was dropped helps only blocks that opened without an
      input: a block that opened with one (as Anthropic's own start frames do) keeps that opening value. */
  lemma DroppedStop(i: int, open: Block, ds: seq<Delta>, parse: string -> Json)
    requires open.kind == "tool_use"
    ensures var frames := [BlockStart(i, open)] + DeltaFrames(i, ds);
            var a := Assemble(frames, parse);
            && i in a.blocks
            && (Finished(a, i, parse).input == Some(parse(Inputs(ds)))
                <==> open.input.None? || open.input == Some(parse(Inputs(ds))))
  {
    DeltasAppend(i, open, ds, TextKey, parse);
  }
}
