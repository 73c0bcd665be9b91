/** What a provisioner puts into a new revision: the reference definition both the sandbox and the host
    variant are proved against, and what it means for a revision to be complete. */
module KnowledgeStaging {
  import opened Prelude
  import opened KnowledgeManifest

  type Files = map<Path, Content>

  datatype Dir = Dir(files: Files, manifest: Option<Manifest>)

  datatype Inputs = Inputs(plan: Plan, index: map<string, Item>, store: map<string, Content>)

  /** The object store read with its size and digest checks; `None` when the provisioner raises. */
  function Fetch(r: Reference, store: map<string, Content>): Option<Content> {
    if r.key in store && |store[r.key]| == r.size && (r.sha.Some? ==> DigestOf(store[r.key]) == r.sha.value)
    then Some(store[r.key])
    else None
  }

  predicate HasCurrentPath(index: map<string, Item>, id: string) {
    id in index && index[id].path != NoPath
  }

  function CurrentCopy(index: map<string, Item>, id: string, current: Files): Option<Content> {
    if HasCurrentPath(index, id) && index[id].path in current then Some(current[index[id].path]) else None
  }

  /** One item, no step failing: keep the current file, else download, else (documents only) leave it out. */
  function StageItem(item: Item, inputs: Inputs, current: Files, staged: Files): Option<Files> {
    var copy := CurrentCopy(inputs.index, item.id, current);
    var keep := item.id !in inputs.plan.refresh && HasCurrentPath(inputs.index, item.id);
    if item.path == NoPath then Some(staged)
    else if keep && copy.Some? then Some(staged[item.path := copy.value])
    else if keep && !IsFeishuDocument(item.source.typ) then None
    else if item.id !in inputs.plan.references then
      if copy.Some? then Some(staged[item.path := copy.value])
      else if HasCurrentPath(inputs.index, item.id) && !IsFeishuDocument(item.source.typ) then None
      else Some(staged)
    else
      match Fetch(inputs.plan.references[item.id], inputs.store)
      case None => None
      case Some(c) => Some(staged[item.path := c])
  }

  function StageAll(items: seq<Item>, inputs: Inputs, current: Files): Option<Files> {
    if items == [] then Some(map[])
    else
      match StageAll(items[..|items| - 1], inputs, current)
      case None => None
      case Some(staged) => StageItem(items[|items| - 1], inputs, current, staged)
  }

  /** The file holds the content of the recorded version, and matches the recorded digest if there is one. */
  ghost predicate FileOk(i: Item, c: Content, truth: string -> Content) {
    c == truth(i.version) && (i.sha.Some? ==> DigestOf(c) == i.sha.value)
  }

  ghost predicate ItemStaged(i: Item, files: Files, truth: string -> Content) {
    i.source.typ == CocolaWiki && i.path != NoPath ==> i.path in files && FileOk(i, files[i.path], truth)
  }

  ghost predicate AllStaged(items: seq<Item>, files: Files, truth: string -> Content) {
    forall k | 0 <= k < |items| :: ItemStaged(items[k], files, truth)
  }

  /** A complete revision: its manifest lists only Wiki files that are present with the right content. */
  ghost predicate Complete(d: Dir, truth: string -> Content) {
    d.manifest.Some? && WellFormed(d.manifest.value.sources) && AllStaged(d.manifest.value.sources, d.files, truth)
  }

  /** Whatever passes the download checks is the content of the referenced version. A reference that carries
      the version's digest makes this true of every store. */
  ghost predicate HonestStore(plan: Plan, store: map<string, Content>, truth: string -> Content) {
    forall id | id in plan.references ::
      var r := plan.references[id];
      Fetch(r, store).Some? ==> Fetch(r, store).value == truth(r.version)
  }

  /** The same of the references a context carries. */
  ghost predicate HonestReferences(entries: seq<Entry>, store: map<string, Content>, truth: string -> Content) {
    forall k | 0 <= k < |entries| && entries[k].reference.Some? ::
      var r := entries[k].reference.value;
      Fetch(r, store).Some? ==> Fetch(r, store).value == truth(r.version)
  }

  lemma DecidedReference(e: Entry, current: Option<Item>)
    requires !InvalidEntry(e)
    ensures var r := DecideSource(e, current).reference; r.Some? ==> r == e.reference
  {
  }

  lemma HonestPlan(entries: seq<Entry>, index: map<string, Item>, plan: Plan, store: map<string, Content>,
                   truth: string -> Content)
    requires PlanOf(entries, index, plan) && HonestReferences(entries, store, truth)
    ensures HonestStore(plan, store, truth)
  {
    hide DecideSource, Fetch, InvalidEntry;
    forall id | id in plan.references
      ensures var r := plan.references[id];
              Fetch(r, store).Some? ==> Fetch(r, store).value == truth(r.version)
    {
      assert Mentions(entries, id);
      var k :| 0 <= k < |entries| && entries[k].id == id;
      assert EntryPlanned(entries[k], index, plan, plan.sources[k]);
      DecidedReference(entries[k], Find(index, entries[k].id));
    }
  }

  /** The plan and the current revision it was made from. */
  ghost predicate GoodInputs(entries: seq<Entry>, sources: seq<Item>, current: Files, inputs: Inputs,
                             truth: string -> Content)
  {
    && DistinctEntries(entries)
    && WellFormed(sources) && AllStaged(sources, current, truth)
    && inputs.index == ById(sources)
    && PlanOf(entries, inputs.index, inputs.plan)
    && HonestStore(inputs.plan, inputs.store, truth)
  }

  /** Wherever this item's file may come from, it is the content the item records. */
  ghost predicate Sourced(i: Item, inputs: Inputs, current: Files, truth: string -> Content) {
    i.source.typ == CocolaWiki && i.path != NoPath ==>
      if i.id in inputs.plan.refresh then
        && i.id in inputs.plan.references
        && var c := Fetch(inputs.plan.references[i.id], inputs.store);
           c.Some? ==> FileOk(i, c.value, truth)
      else
        var c := CurrentCopy(inputs.index, i.id, current);
        c.Some? && FileOk(i, c.value, truth)
  }

  ghost predicate AllSourced(inputs: Inputs, current: Files, truth: string -> Content) {
    && WellFormed(inputs.plan.sources)
    && forall k | 0 <= k < |inputs.plan.sources| :: Sourced(inputs.plan.sources[k], inputs, current, truth)
  }

  lemma ItemSourced(e: Entry, sources: seq<Item>, current: Files, inputs: Inputs, i: Item, truth: string -> Content)
    requires WellFormed(sources) && AllStaged(sources, current, truth)
    requires EntryPlanned(e, ById(sources), inputs.plan, i) && i.id == e.id && inputs.index == ById(sources)
    requires HonestStore(inputs.plan, inputs.store, truth)
    ensures Sourced(i, inputs, current, truth)
  {
    KeptWikiFileIsCurrent(e, sources);
    if i.source.typ == CocolaWiki && i.path != NoPath && e.id !in inputs.plan.refresh {
      var found := Find(inputs.index, e.id).value;
      var c :| 0 <= c < |sources| && sources[c] == found;
      assert ItemStaged(sources[c], current, truth);
    }
  }

  /** A copy of a kept file and a checked download both give the recorded content, for every item of the plan. */
  lemma PlanIsSourced(entries: seq<Entry>, sources: seq<Item>, current: Files, inputs: Inputs, truth: string -> Content)
    requires GoodInputs(entries, sources, current, inputs, truth)
    ensures AllSourced(inputs, current, truth)
  {
    PlanWellFormed(entries, sources, inputs.plan);
    forall k | 0 <= k < |inputs.plan.sources|
      ensures Sourced(inputs.plan.sources[k], inputs, current, truth)
    {
      assert EntryPlanned(entries[k], inputs.index, inputs.plan, inputs.plan.sources[k]);
      ItemSourced(entries[k], sources, current, inputs, inputs.plan.sources[k], truth);
    }
  }

  /** What one staging step may do, whatever fails: nothing, or write the item's own file; and a step that
      succeeds on a Wiki file wrote the kept copy or the checked download. */
  ghost predicate Staged(was: Files, now: Files, item: Item, inputs: Inputs, current: Files, ok: bool) {
    var copy := CurrentCopy(inputs.index, item.id, current);
    && (now == was || (item.path in now && now == was[item.path := now[item.path]]))
    && (ok && item.path != NoPath && item.source.typ == CocolaWiki ==>
          if item.id !in inputs.plan.refresh && HasCurrentPath(inputs.index, item.id) then
            copy.Some? && now == was[item.path := copy.value]
          else item.id in inputs.plan.references ==>
            var c := Fetch(inputs.plan.references[item.id], inputs.store);
            c.Some? && now == was[item.path := c.value])
  }

  /** A successful step stages its item, and writing an item's own file disturbs no other item's file. */
  lemma StagedStep(k: nat, was: Files, now: Files, inputs: Inputs, current: Files, truth: string -> Content)
    requires AllSourced(inputs, current, truth) && k < |inputs.plan.sources|
    requires AllStaged(inputs.plan.sources[..k], was, truth)
    requires Staged(was, now, inputs.plan.sources[k], inputs, current, true)
    ensures AllStaged(inputs.plan.sources[..k + 1], now, truth)
  {
    var items := inputs.plan.sources;
    assert Sourced(items[k], inputs, current, truth);
    forall j | 0 <= j < k + 1
      ensures ItemStaged(items[j], now, truth)
    {
      if j < k {
        assert ItemStaged(items[..k][j], was, truth);
        assert OwnsPath(items[j]) && OwnsPath(items[k]) && items[j].id != items[k].id;
      }
    }
  }

  /** The reference definition is right: whenever staging goes through, every listed Wiki file is present with
      the content of its recorded version, kept files included. */
  lemma {:induction false} StageAllComplete(inputs: Inputs, current: Files, truth: string -> Content, n: nat)
    requires AllSourced(inputs, current, truth) && n <= |inputs.plan.sources|
    requires StageAll(inputs.plan.sources[..n], inputs, current).Some?
    ensures AllStaged(inputs.plan.sources[..n], StageAll(inputs.plan.sources[..n], inputs, current).value, truth)
  {
    var items := inputs.plan.sources;
    if n > 0 {
      StageAllStep(items, n - 1, inputs, current);
      StageAllComplete(inputs, current, truth, n - 1);
      var was := StageAll(items[..n - 1], inputs, current).value;
      StagedStep(n - 1, was, StageItem(items[n - 1], inputs, current, was).value, inputs, current, truth);
    }
  }

  /** One step of `StageAll` from the front, as the staging loops take it. */
  lemma StageAllStep(items: seq<Item>, n: nat, inputs: Inputs, current: Files)
    requires n < |items|
    ensures StageAll(items[..n + 1], inputs, current) ==
            (match StageAll(items[..n], inputs, current)
             case None => None
             case Some(staged) => StageItem(items[n], inputs, current, staged))
  {
    assert items[..n + 1][..n] == items[..n];
  }

  lemma {:induction false} StageAllFails(items: seq<Item>, n: nat, inputs: Inputs, current: Files)
    requires n <= |items| && StageAll(items[..n], inputs, current).None?
    ensures StageAll(items, inputs, current).None?
    decreases |items| - n
  {
    if n == |items| {
      assert items[..n] == items;
    } else {
      StageAllStep(items, n, inputs, current);
      StageAllFails(items, n + 1, inputs, current);
    }
  }

  /** Nothing is staged but the items' own files. */
  lemma {:induction false} StagedPaths(items: seq<Item>, inputs: Inputs, current: Files, p: Path)
    requires StageAll(items, inputs, current).Some? && p in StageAll(items, inputs, current).value
    ensures exists k | 0 <= k < |items| :: items[k].path == p
  {
    var n := |items| - 1;
    var before := StageAll(items[..n], inputs, current).value;
    if p in before {
      StagedPaths(items[..n], inputs, current, p);
      var k :| 0 <= k < n && items[..n][k].path == p;
      assert items[k].path == p;
    } else {
      assert items[n].path == p;
    }
  }

  // ---------------------------------------------------------------------------------------------
  // The whole call, no step failing

  datatype Failure = InvalidReference | PrepareFailed | StageFailed | StateWriteFailed

  datatype Outcome = Hit(stale: bool) | Updated(stale: bool) | LastKnownGood | Raised(failure: Failure)

  function CurrentById(current: Option<Manifest>): map<string, Item> {
    ById(if current.Some? then current.value.sources else [])
  }

  function Desired(ctx: Context, plan: Plan, resolvedAt: string): Manifest {
    Manifest(ctx.agentId, ctx.revision, plan.sources, resolvedAt)
  }

  predicate IsHit(ctx: Context, plan: Plan, current: Option<Manifest>) {
    current.Some? && Signature(current.value) == Signature(Desired(ctx, plan, "")) && plan.refresh == {}
  }

  /** The plan made against a complete (or absent) current revision has all its files sourced. */
  lemma ProvisionInputsSourced(ctx: Context, m: Option<Manifest>, current: Dir, store: map<string, Content>,
                               truth: string -> Content)
    requires DistinctEntries(ctx.entries) && HonestReferences(ctx.entries, store, truth)
    requires m.Some? ==> m == current.manifest && Complete(current, truth)
    requires PlanFor(ctx.entries, CurrentById(m)).Some?
    ensures AllSourced(Inputs(PlanFor(ctx.entries, CurrentById(m)).value, CurrentById(m), store), current.files, truth)
  {
    var index := CurrentById(m);
    var plan := PlanFor(ctx.entries, index).value;
    PlanForIsThePlan(ctx.entries, index);
    HonestPlan(ctx.entries, index, plan, store, truth);
    PlanIsSourced(ctx.entries, if m.Some? then m.value.sources else [], current.files, Inputs(plan, index, store),
                  truth);
  }

  /** The files and the manifest found under `current`, if there is such a revision. */
  function FilesOf(current: Option<Dir>): Files {
    if current.Some? then current.value.files else map[]
  }

  function ManifestOf(current: Option<Dir>): Option<Manifest> {
    if current.Some? then current.value.manifest else None
  }

  /** Outcome and current revision after a miss in which no command fails; `m` is the manifest that was read. */
  function ExpectedMiss(ctx: Context, m: Option<Manifest>, current: Option<Dir>, inputs: Inputs, resolvedAt: string)
    : (Outcome, Option<Dir>)
  {
    match StageAll(inputs.plan.sources, inputs, FilesOf(current))
    case None => (if m.Some? then LastKnownGood else Raised(StageFailed), current)
    case Some(files) => (Updated(inputs.plan.stale), Some(Dir(files, Some(Desired(ctx, inputs.plan, resolvedAt)))))
  }

  lemma ExpectedMissIsComplete(ctx: Context, m: Option<Manifest>, current: Option<Dir>, inputs: Inputs,
                               resolvedAt: string, truth: string -> Content)
    requires AllSourced(inputs, FilesOf(current), truth)
    ensures var (outcome, after) := ExpectedMiss(ctx, m, current, inputs, resolvedAt);
            outcome.Updated? ==> Complete(after.value, truth)
  {
    var items := inputs.plan.sources;
    assert items[..|items|] == items;
    if StageAll(items, inputs, FilesOf(current)).Some? {
      StageAllComplete(inputs, FilesOf(current), truth, |items|);
    }
  }

  /** Outcome and current revision after a call that read `m` and in which no later command fails. */
  function ExpectedFrom(ctx: Context, m: Option<Manifest>, current: Option<Dir>, store: map<string, Content>,
                        resolvedAt: string): (Outcome, Option<Dir>)
  {
    match PlanFor(ctx.entries, CurrentById(m))
    case None => (Raised(InvalidReference), current)
    case Some(plan) =>
      if IsHit(ctx, plan, m) then (Hit(plan.stale), current)
      else ExpectedMiss(ctx, m, current, Inputs(plan, CurrentById(m), store), resolvedAt)
  }

  /** Outcome and current revision after a call in which no command fails. */
  function Expected(ctx: Context, current: Option<Dir>, store: map<string, Content>, resolvedAt: string)
    : (Outcome, Option<Dir>)
  {
    ExpectedFrom(ctx, ManifestOf(current), current, store, resolvedAt)
  }

  lemma {:induction false} NothingToCopy(items: seq<Item>, inputs: Inputs, current: Files)
    requires inputs.index == map[]
    ensures StageAll(items, inputs, current) == StageAll(items, inputs, map[])
  {
    if items != [] {
      NothingToCopy(items[..|items| - 1], inputs, current);
    }
  }

  /** A manifest that cannot be read makes the call what it is in an empty sandbox: it downloads everything, and only
      when that fails is the current revision left alone, and the call raises. */
  lemma FailedReadIsColdMiss(ctx: Context, current: Option<Dir>, store: map<string, Content>, resolvedAt: string)
    ensures var (outcome, after) := ExpectedFrom(ctx, None, current, store, resolvedAt);
            && outcome == Expected(ctx, None, store, resolvedAt).0
            && (outcome.Updated? || outcome == Raised(InvalidReference) || outcome == Raised(StageFailed))
            && after == if outcome.Updated? then Expected(ctx, None, store, resolvedAt).1 else current
  {
    var plan := PlanFor(ctx.entries, CurrentById(None));
    if plan.Some? {
      NothingToCopy(plan.value.sources, Inputs(plan.value, CurrentById(None), store), FilesOf(current));
    }
  }

  /** With nothing failing, the call leaves a complete revision whenever it found one or updated, a hit or an
      update means the manifest is the desired one with one item per entry, its stale flag tells whether some item
      is stale, and the call raises only over an invalid reference or when there was no manifest to fall back to. */
  lemma ExpectedIsRight(ctx: Context, current: Option<Dir>, store: map<string, Content>, resolvedAt: string,
                        truth: string -> Content)
    requires DistinctEntries(ctx.entries) && HonestReferences(ctx.entries, store, truth)
    requires ManifestOf(current).Some? ==> Complete(current.value, truth)
    ensures var (outcome, after) := Expected(ctx, current, store, resolvedAt);
            && (ManifestOf(current).Some? || outcome.Updated? ==> after.Some? && Complete(after.value, truth))
            && (outcome.Hit? || outcome.Updated? ==>
                  && ManifestOf(after).Some?
                  && ManifestOf(after).value.agentId == ctx.agentId && ManifestOf(after).value.revision == ctx.revision
                  && |ManifestOf(after).value.sources| == |ctx.entries|
                  && (outcome.stale <==> AnyStale(ManifestOf(after).value.sources)))
            && (outcome.LastKnownGood? ==> after == current && current.Some?)
            && (outcome.Raised? && !(exists k | 0 <= k < |ctx.entries| :: InvalidEntry(ctx.entries[k])) ==>
                  ManifestOf(current).None?)
  {
    hide Complete, AllSourced, HonestReferences, StageAll;
    var m := ManifestOf(current);
    PlanForIsThePlan(ctx.entries, CurrentById(m));
    if PlanFor(ctx.entries, CurrentById(m)).Some? {
      ProvisionInputsSourced(ctx, m, if current.Some? then current.value else Dir(map[], None), store, truth);
      var inputs := Inputs(PlanFor(ctx.entries, CurrentById(m)).value, CurrentById(m), store);
      ExpectedMissIsComplete(ctx, m, current, inputs, resolvedAt, truth);
    }
  }
}
