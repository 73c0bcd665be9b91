/** Staging and switching a revision in the sandbox when commands fail: which files the new revision gets under a
    given choice of faults, if any, and how that compares with the run in which nothing fails. */
module KnowledgeFaults {
  import opened Prelude
  import opened KnowledgeManifest
  import opened KnowledgeStaging

  /** What hits one command: nothing, a failing exit of the command, or an exception of the executor. */
  datatype Fault = Fine | CommandFails | ExecutorRaises

  /** The faults, by the number of the command they hit. */
  type Faults = nat -> Fault

  /** The commands numbered `from` up to `to` go through. */
  ghost predicate AllFine(faults: Faults, from: nat, to: nat) {
    forall t: nat | from <= t < to :: faults(t).Fine?
  }

  /** A staged item and the number of the next command; `None` when staging is given up. */
  type Progress = (Option<Files>, nat)

  /** The item is not kept: without a reference it is copied if the current revision has it, and otherwise left out;
      with one it is downloaded and written. Only a document may do without its copy. */
  function PlaceItem(item: Item, inputs: Inputs, current: Files, staged: Files, t: nat, faults: Faults): (r: Progress)
    ensures t <= r.1
  {
    if item.id !in inputs.plan.references then
      var copy := CurrentCopy(inputs.index, item.id, current);
      if !HasCurrentPath(inputs.index, item.id) then (Some(staged), t)
      else if copy.Some? && faults(t).Fine? then (Some(staged[item.path := copy.value]), t + 1)
      else if IsFeishuDocument(item.source.typ) && !faults(t).ExecutorRaises? then (Some(staged), t + 1)
      else (None, t + 1)
    else
      var content := Fetch(inputs.plan.references[item.id], inputs.store);
      if content.None? || !faults(t).Fine? then (None, t + 1)
      else if !faults(t + 1).Fine? then (None, t + 2)
      else (Some(staged[item.path := content.value]), t + 2)
  }

  /** One item: make its directory, then keep the current file or place it. */
  function StageItemUnder(item: Item, inputs: Inputs, current: Files, staged: Files, t: nat, faults: Faults)
    : (r: Progress)
    ensures t <= r.1
  {
    var copy := CurrentCopy(inputs.index, item.id, current);
    if item.path == NoPath then (Some(staged), t)
    else if !faults(t).Fine? then (None, t + 1)
    else if item.id !in inputs.plan.refresh && HasCurrentPath(inputs.index, item.id) then
      if copy.Some? && faults(t + 1).Fine? then (Some(staged[item.path := copy.value]), t + 2)
      else if IsFeishuDocument(item.source.typ) && !faults(t + 1).ExecutorRaises? then
        PlaceItem(item, inputs, current, staged, t + 2, faults)
      else (None, t + 2)
    else PlaceItem(item, inputs, current, staged, t + 1, faults)
  }

  function StageAllUnder(items: seq<Item>, inputs: Inputs, current: Files, t: nat, faults: Faults): (r: Progress)
    ensures t <= r.1
  {
    if items == [] then (Some(map[]), t)
    else
      var (staged, u) := StageAllUnder(items[..|items| - 1], inputs, current, t, faults);
      if staged.None? then (None, u)
      else StageItemUnder(items[|items| - 1], inputs, current, staged.value, u, faults)
  }

  /** Manifest, rename, link and link swap. */
  const COMMIT_COMMANDS := 4

  /** The files of the new revision when command `t` is the first of the try block; `None` when `current` is not
      switched. Nothing after the switch has a say in it. */
  ghost function Published(inputs: Inputs, current: Files, t: nat, faults: Faults): Option<Files> {
    var (staged, u) := StageAllUnder(inputs.plan.sources, inputs, current, t, faults);
    if AllFine(faults, u, u + COMMIT_COMMANDS) then staged else None
  }

  // ---------------------------------------------------------------------------------------------
  // Compared with a run without faults

  lemma ItemWithoutFaults(item: Item, inputs: Inputs, current: Files, staged: Files, t: nat, faults: Faults)
    requires AllFine(faults, t, StageItemUnder(item, inputs, current, staged, t, faults).1)
    ensures StageItemUnder(item, inputs, current, staged, t, faults).0 == StageItem(item, inputs, current, staged)
  {
    var r := StageItemUnder(item, inputs, current, staged, t, faults);
    assert t < r.1 ==> faults(t).Fine?;
    assert t + 1 < r.1 ==> faults(t + 1).Fine?;
    assert t + 2 < r.1 ==> faults(t + 2).Fine?;
    assert t + 3 < r.1 ==> faults(t + 3).Fine?;
  }

  lemma {:induction false} StagingWithoutFaults(items: seq<Item>, inputs: Inputs, current: Files, t: nat,
                                                faults: Faults)
    requires AllFine(faults, t, StageAllUnder(items, inputs, current, t, faults).1)
    ensures StageAllUnder(items, inputs, current, t, faults).0 == StageAll(items, inputs, current)
  {
    if items != [] {
      hide StageItemUnder, StageItem;
      var n := |items| - 1;
      var (staged, u) := StageAllUnder(items[..n], inputs, current, t, faults);
      StagingWithoutFaults(items[..n], inputs, current, t, faults);
      if staged.Some? {
        ItemWithoutFaults(items[n], inputs, current, staged.value, u, faults);
      }
    }
  }

  /** A staging step under faults is one of the steps the safety proof allows. */
  lemma UnderIsStaged(item: Item, inputs: Inputs, current: Files, staged: Files, t: nat, faults: Faults)
    requires StageItemUnder(item, inputs, current, staged, t, faults).0.Some?
    ensures Staged(staged, StageItemUnder(item, inputs, current, staged, t, faults).0.value,
                   item, inputs, current, true)
  {
  }

  lemma StepUnder(items: seq<Item>, n: nat, inputs: Inputs, current: Files, t: nat, faults: Faults)
    requires n < |items|
    ensures var (staged, u) := StageAllUnder(items[..n], inputs, current, t, faults);
            StageAllUnder(items[..n + 1], inputs, current, t, faults)
            == if staged.None? then (None, u) else StageItemUnder(items[n], inputs, current, staged.value, u, faults)
  {
    assert items[..n + 1][..n] == items[..n];
  }

  lemma {:induction false} GivenUpStays(items: seq<Item>, n: nat, inputs: Inputs, current: Files, t: nat,
                                        faults: Faults)
    requires n <= |items| && StageAllUnder(items[..n], inputs, current, t, faults).0.None?
    ensures StageAllUnder(items, inputs, current, t, faults) == StageAllUnder(items[..n], inputs, current, t, faults)
    decreases |items| - n
  {
    if n == |items| {
      assert items[..n] == items;
    } else {
      StepUnder(items, n, inputs, current, t, faults);
      GivenUpStays(items, n + 1, inputs, current, t, faults);
    }
  }

  /** Whatever fails, staging that goes through leaves every listed Wiki file with the content of its version. */
  lemma {:induction false} StagedUnderFaultsIsRight(inputs: Inputs, current: Files, t: nat, faults: Faults,
                                                    truth: string -> Content, n: nat)
    requires AllSourced(inputs, current, truth) && n <= |inputs.plan.sources|
    requires StageAllUnder(inputs.plan.sources[..n], inputs, current, t, faults).0.Some?
    ensures AllStaged(inputs.plan.sources[..n],
                      StageAllUnder(inputs.plan.sources[..n], inputs, current, t, faults).0.value, truth)
  {
    hide StageAllUnder, StageItemUnder, Staged, AllStaged, AllSourced;
    var items := inputs.plan.sources;
    if n > 0 {
      StepUnder(items, n - 1, inputs, current, t, faults);
      StagedUnderFaultsIsRight(inputs, current, t, faults, truth, n - 1);
      var (was, u) := StageAllUnder(items[..n - 1], inputs, current, t, faults);
      UnderIsStaged(items[n - 1], inputs, current, was.value, u, faults);
      StagedStep(n - 1, was.value, StageItemUnder(items[n - 1], inputs, current, was.value, u, faults).0.value,
                 inputs, current, truth);
    } else {
      assert items[..0] == [];
      NothingStaged(inputs, current, t, faults, truth);
    }
  }

  lemma StagedIsRight(inputs: Inputs, current: Files, t: nat, faults: Faults, truth: string -> Content)
    requires AllSourced(inputs, current, truth)
    requires StageAllUnder(inputs.plan.sources, inputs, current, t, faults).0.Some?
    ensures AllStaged(inputs.plan.sources, StageAllUnder(inputs.plan.sources, inputs, current, t, faults).0.value,
                      truth)
    ensures WellFormed(inputs.plan.sources)
  {
    hide AllStaged, WellFormed, StageAllUnder, Sourced;
    var items := inputs.plan.sources;
    assert items[..|items|] == items;
    StagedUnderFaultsIsRight(inputs, current, t, faults, truth, |items|);
  }

  /** Without faults until `end`, the try block publishes what staging without faults gives. It ran to `end`, which is
      after the commit if staging went through and the commit met no fault. */
  lemma PublishedWithoutFaults(inputs: Inputs, current: Files, t: nat, faults: Faults, end: nat)
    requires var (staged, u) := StageAllUnder(inputs.plan.sources, inputs, current, t, faults);
             && u <= end
             && (staged.Some? && !AllFine(faults, u, u + COMMIT_COMMANDS) ==> !AllFine(faults, u, end))
    ensures AllFine(faults, t, end) ==>
              Published(inputs, current, t, faults) == StageAll(inputs.plan.sources, inputs, current)
  {
    if AllFine(faults, t, end) {
      StagingWithoutFaults(inputs.plan.sources, inputs, current, t, faults);
    }
  }

  lemma NothingStaged(inputs: Inputs, current: Files, t: nat, faults: Faults, truth: string -> Content)
    ensures StageAllUnder([], inputs, current, t, faults) == (Some(map[]), t) && AllStaged([], map[], truth)
  {
  }

  // ---------------------------------------------------------------------------------------------
  // What a fault can cost

  /** Two stagings of the same items: the first lacks nothing but documents. */
  ghost predicate LacksOnlyDocuments(files: Files, full: Files) {
    && (forall p | p in files :: p in full && files[p] == full[p])
    && forall p | p in full && p !in files :: p.FeishuFile?
  }

  lemma ItemLacksOnlyDocuments(item: Item, inputs: Inputs, current: Files, files: Files, full: Files, t: nat,
                               faults: Faults)
    requires OwnsPath(item) && (IsFeishuDocument(item.source.typ) ==> item.id !in inputs.plan.references)
    requires LacksOnlyDocuments(files, full) && (item.path != NoPath ==> item.path !in full)
    requires StageItemUnder(item, inputs, current, files, t, faults).0.Some?
    ensures StageItem(item, inputs, current, full).Some?
    ensures LacksOnlyDocuments(StageItemUnder(item, inputs, current, files, t, faults).0.value,
                               StageItem(item, inputs, current, full).value)
  {
  }

  lemma OwnFileIsNew(items: seq<Item>, inputs: Inputs, current: Files)
    requires WellFormed(items) && items != [] && StageAll(items[..|items| - 1], inputs, current).Some?
    ensures var path := items[|items| - 1].path;
            path != NoPath ==> path !in StageAll(items[..|items| - 1], inputs, current).value
  {
    var n := |items| - 1;
    forall p | p in StageAll(items[..n], inputs, current).value && p != NoPath
      ensures p != items[n].path
    {
      StagedPaths(items[..n], inputs, current, p);
      var k :| 0 <= k < n && items[..n][k].path == p;
      assert OwnsPath(items[k]) && OwnsPath(items[n]) && items[k].id != items[n].id;
    }
  }

  /** Whatever fails, staging that goes through would also go through without faults, and with the same files, except
      that it may have left out documents. */
  lemma {:induction false} FaultsOnlyLoseDocuments(items: seq<Item>, inputs: Inputs, current: Files, t: nat,
                                                   faults: Faults)
    requires WellFormed(items)
    requires forall k | 0 <= k < |items| && IsFeishuDocument(items[k].source.typ) ::
               items[k].id !in inputs.plan.references
    requires StageAllUnder(items, inputs, current, t, faults).0.Some?
    ensures StageAll(items, inputs, current).Some?
    ensures LacksOnlyDocuments(StageAllUnder(items, inputs, current, t, faults).0.value,
                               StageAll(items, inputs, current).value)
  {
    if items != [] {
      hide StageItemUnder, StageItem, LacksOnlyDocuments;
      var n := |items| - 1;
      FaultsOnlyLoseDocuments(items[..n], inputs, current, t, faults);
      var (files, u) := StageAllUnder(items[..n], inputs, current, t, faults);
      var full := StageAll(items[..n], inputs, current).value;
      OwnFileIsNew(items, inputs, current);
      ItemLacksOnlyDocuments(items[n], inputs, current, files.value, full, u, faults);
    } else {
      NothingLacks();
    }
  }

  lemma NothingLacks()
    ensures LacksOnlyDocuments(map[], map[])
  {
  }

  lemma DocumentsAreNotDownloaded(e: Entry, inputs: Inputs, i: Item)
    requires EntryPlanned(e, inputs.index, inputs.plan, i) && i.id == e.id
    ensures IsFeishuDocument(i.source.typ) ==> i.id !in inputs.plan.references
  {
  }

  /** The same of a whole plan: a call that faults have hit publishes no other content than one they spared. */
  lemma PublishedUnderFaults(entries: seq<Entry>, current: seq<Item>, inputs: Inputs, files: Files, t: nat,
                             faults: Faults)
    requires DistinctEntries(entries) && WellFormed(current) && inputs.index == ById(current)
    requires PlanOf(entries, inputs.index, inputs.plan) && Published(inputs, files, t, faults).Some?
    ensures StageAll(inputs.plan.sources, inputs, files).Some?
    ensures LacksOnlyDocuments(Published(inputs, files, t, faults).value,
                               StageAll(inputs.plan.sources, inputs, files).value)
  {
    hide StageAll, StageAllUnder, LacksOnlyDocuments, WellFormed, IsFeishuDocument, DecideSource, EntryPlanned,
         DistinctEntries, ById;
    var items := inputs.plan.sources;
    PlanWellFormed(entries, current, inputs.plan);
    forall k | 0 <= k < |items| && IsFeishuDocument(items[k].source.typ)
      ensures items[k].id !in inputs.plan.references
    {
      DocumentsAreNotDownloaded(entries[k], inputs, items[k]);
    }
    FaultsOnlyLoseDocuments(items, inputs, files, t, faults);
  }
}
