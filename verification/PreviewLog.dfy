/** The preview log: a live segment and one rotated segment, each bounded. Starting and waiting for the process are
    not part of the model; `chunks` is what reading its output yields. */
module PreviewLog {
  import opened Prelude

  const MAX_BYTES: nat := 1024 * 1024

  type Bytes = seq<bv8>

  datatype Segments = Segments(rotated: Option<Bytes>, live: Bytes)

  /** What a reader sees, oldest first. */
  function Shown(s: Segments): Bytes {
    if s.rotated.Some? then s.rotated.value + s.live else s.live
  }

  function Output(chunks: seq<Bytes>): Bytes {
    if chunks == [] then [] else Output(chunks[..|chunks| - 1]) + chunks[|chunks| - 1]
  }

  predicate IsSuffix(s: Bytes, whole: Bytes) {
    |s| <= |whole| && s == whole[|whole| - |s|..]
  }

  /** The log holds the end of the output, bounded, and either all of it or more than one segment's worth. */
  predicate HoldsEndOf(s: Segments, output: Bytes) {
    && IsSuffix(Shown(s), output)
    && |s.live| <= 1048576 && (s.rotated.Some? ==> |s.rotated.value| <= 1048576)
    && (Shown(s) == output || |Shown(s)| > 1048576)
  }

  /** Reads never return more than they ask for. */
  predicate AreReads(chunks: seq<Bytes>) {
    forall i | 0 <= i < |chunks| :: 0 < |chunks[i]| <= 65536
  }

  function Clipped(chunk: Bytes): Bytes {
    if |chunk| > MAX_BYTES then chunk[|chunk| - MAX_BYTES..] else chunk
  }

  function Written(s: Segments, chunk: Bytes): Segments {
    var c := Clipped(chunk);
    if |s.live| + |c| > MAX_BYTES then Segments(Some(s.live), c) else Segments(s.rotated, s.live + c)
  }

  function AllWritten(chunks: seq<Bytes>): Segments {
    if chunks == [] then Segments(None, []) else Written(AllWritten(chunks[..|chunks| - 1]), chunks[|chunks| - 1])
  }

  /** The log after each chunk. */
  function History(chunks: seq<Bytes>): seq<Segments> {
    if chunks == [] then [] else History(chunks[..|chunks| - 1]) + [AllWritten(chunks)]
  }

  class PreviewFiles {
    var live: Option<Bytes>
    var rotated: Option<Bytes>

    /** One turn of the loop: rotate first when the chunk would not fit. */
    method WriteChunk(data: Bytes, size: nat) returns (newSize: nat)
      requires live.Some? && size == |live.value|
      modifies this
      ensures live.Some? && newSize == |live.value|
      ensures Segments(rotated, live.value) == Written(old(Segments(rotated, live.value)), data)
    {
      var chunk := data;
      if |chunk| > MAX_BYTES {
        chunk := chunk[|chunk| - MAX_BYTES..];
      }
      newSize := size;
      if size + |chunk| > MAX_BYTES {
        rotated := live;
        live := Some([]);
        newSize := 0;
      }
      live := Some(live.value + chunk);
      newSize := newSize + |chunk|;
    }

    /** Files of an earlier run may be there; they are not part of this log. `seen` is the log after each chunk. */
    method RunPreviewProcess(chunks: seq<Bytes>) returns (ghost seen: seq<Segments>)
      modifies this
      ensures live.Some? && Segments(rotated, live.value) == AllWritten(chunks)
      ensures seen == History(chunks)
    {
      rotated := None;
      live := Some([]);
      var size := 0;
      seen := [];
      for n := 0 to |chunks|
        invariant live.Some? && size == |live.value| && Segments(rotated, live.value) == AllWritten(chunks[..n])
        invariant seen == History(chunks[..n])
      {
        hide Written;
        assert chunks[..n + 1][..n] == chunks[..n];
        size := WriteChunk(chunks[n], size);
        seen := seen + [Segments(rotated, live.value)];
      }
      assert chunks[..|chunks|] == chunks;
    }
  }

  lemma SuffixFrom(p: Bytes, s: Bytes)
    ensures IsSuffix(s, p + s)
  {
  }

  lemma SuffixAppend(s: Bytes, whole: Bytes, more: Bytes)
    requires IsSuffix(s, whole)
    ensures IsSuffix(s + more, whole + more)
  {
    var p := whole[..|whole| - |s|];
    assert whole == p + s;
    assert whole + more == p + (s + more);
    SuffixFrom(p, s + more);
  }

  lemma SuffixOfSuffix(a: Bytes, b: Bytes, whole: Bytes)
    requires IsSuffix(a + b, whole)
    ensures IsSuffix(b, whole)
  {
    var p := whole[..|whole| - |a + b|];
    assert whole == p + (a + b);
    assert whole == (p + a) + b;
    SuffixFrom(p + a, b);
  }

  /** Rotating: what is shown next is the live segment and the chunk. */
  lemma RotatedHolds(s: Segments, output: Bytes, chunk: Bytes)
    requires IsSuffix(Shown(s), output)
    ensures IsSuffix(s.live + chunk, output + chunk)
  {
    hide IsSuffix;
    if s.rotated.Some? {
      SuffixOfSuffix(s.rotated.value, s.live, output);
    }
    SuffixAppend(s.live, output, chunk);
  }

  lemma Regroup(a: Bytes, b: Bytes, c: Bytes)
    ensures a + (b + c) == a + b + c && |a + b + c| == |a| + |b| + |c|
  {
  }

  lemma WrittenHolds(s: Segments, output: Bytes, chunk: Bytes)
    requires HoldsEndOf(s, output) && |chunk| <= MAX_BYTES
    ensures HoldsEndOf(Written(s, chunk), output + chunk)
  {
    hide IsSuffix;
    var after := Written(s, chunk);
    if |s.live| + |chunk| > MAX_BYTES {
      RotatedHolds(s, output, chunk);
      assert Shown(after) == s.live + chunk;
    } else {
      SuffixAppend(Shown(s), output, chunk);
      if s.rotated.Some? {
        Regroup(s.rotated.value, s.live, chunk);
      }
      assert Shown(after) == Shown(s) + chunk;
    }
  }

  /** After every chunk of any run: the rotated segment followed by the live one is the end of all output so far, each
      is at most 1 MiB, and together they are all of it or more than 1 MiB. */
  lemma {:induction false} LogHoldsTheEnd(chunks: seq<Bytes>)
    requires AreReads(chunks)
    ensures HoldsEndOf(AllWritten(chunks), Output(chunks))
  {
    if chunks != [] {
      var n := |chunks| - 1;
      hide HoldsEndOf, Written;
      LogHoldsTheEnd(chunks[..n]);
      WrittenHolds(AllWritten(chunks[..n]), Output(chunks[..n]), chunks[n]);
    } else {
      assert IsSuffix([], []);
    }
  }

  /** The same of every moment of one run. */
  lemma {:induction false} EveryMomentHoldsTheEnd(chunks: seq<Bytes>, k: nat)
    requires AreReads(chunks) && k < |chunks|
    ensures |History(chunks)| == |chunks| && HoldsEndOf(History(chunks)[k], Output(chunks[..k + 1]))
  {
    hide HoldsEndOf, Output;
    var n := |chunks| - 1;
    if k < n {
      EveryMomentHoldsTheEnd(chunks[..n], k);
      assert chunks[..n][..k + 1] == chunks[..k + 1];
    } else {
      LogHoldsTheEnd(chunks);
      assert chunks[..k + 1] == chunks;
      if n > 0 {
        EveryMomentHoldsTheEnd(chunks[..n], 0);
      }
    }
  }

  /** Nothing is lost before the second rotation: with at most 1 MiB of output the live segment is all of it. */
  lemma {:induction false} ShortOutputIsWhole(chunks: seq<Bytes>)
    requires AreReads(chunks) && |Output(chunks)| <= 1048576
    ensures AllWritten(chunks) == Segments(None, Output(chunks))
  {
    if chunks != [] {
      ShortOutputIsWhole(chunks[..|chunks| - 1]);
    }
  }

  /** The clipping branch is what reads of at most 64 KiB rule out: a longer chunk after other output would leave a
      gap, so the log would no longer be the end of the output. */
  lemma OversizedChunkLeavesAGap(s: Segments, output: Bytes, chunk: Bytes)
    requires 0 < |s.live| && |s.live| + MAX_BYTES <= |chunk| && s.live[0] != chunk[|chunk| - MAX_BYTES - |s.live|]
    ensures !IsSuffix(Shown(Written(s, chunk)), output + chunk)
  {
    var clipped := chunk[|chunk| - MAX_BYTES..];
    var shown, all := s.live + clipped, output + chunk;
    assert Shown(Written(s, chunk)) == shown;
    assert shown[0] == s.live[0];
    assert all[|all| - |shown|] == chunk[|chunk| - MAX_BYTES - |s.live|];
  }
}
