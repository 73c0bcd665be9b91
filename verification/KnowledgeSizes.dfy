/** Two promises of a manifest that hold only under a condition, stated of the whole call. The recorded sizes: a
    downloaded file is measured, a kept one is not. And whether the reader in the sandbox accepts the revision. */
module KnowledgeSizes {
  import opened Prelude
  import opened KnowledgeManifest
  import opened KnowledgeStaging
  import KnowledgeHost

  /** A Wiki file is there and has the recorded size. */
  predicate SizeOk(i: Item, files: Files) {
    i.source.typ == CocolaWiki && i.path != NoPath ==> i.path in files && |files[i.path]| == i.size
  }

  predicate SizesTrue(d: Dir) {
    d.manifest.Some? && forall k | 0 <= k < |d.manifest.value.sources| :: SizeOk(d.manifest.value.sources[k], d.files)
  }

  /** The entry is ready, its file is kept, and its reference gives another size than the current item. */
  predicate Drifts(e: Entry, current: Option<Item>) {
    && e.state == StateReady && e.source.typ == CocolaWiki && !InvalidEntry(e)
    && !DecideSource(e, current).refresh && e.reference.value.size != current.value.size
  }

  /** Where staging takes a Wiki file from. */
  function Origin(i: Item, inputs: Inputs, current: Files): Option<Content> {
    if i.id !in inputs.plan.refresh && HasCurrentPath(inputs.index, i.id) then CurrentCopy(inputs.index, i.id, current)
    else if i.id in inputs.plan.references then Fetch(inputs.plan.references[i.id], inputs.store)
    else CurrentCopy(inputs.index, i.id, current)
  }

  predicate HasOrigin(i: Item, inputs: Inputs) {
    i.id in inputs.plan.references || HasCurrentPath(inputs.index, i.id)
  }

  predicate TakenFrom(i: Item, inputs: Inputs, current: Files, files: Files) {
    i.source.typ == CocolaWiki && i.path != NoPath && HasOrigin(i, inputs) ==>
      i.path in files && Origin(i, inputs, current) == Some(files[i.path])
  }

  lemma ItemTaken(i: Item, inputs: Inputs, current: Files, staged: Files)
    requires StageItem(i, inputs, current, staged).Some?
    ensures var files := StageItem(i, inputs, current, staged).value;
            && TakenFrom(i, inputs, current, files)
            && forall p | p in staged && p != i.path :: p in files && files[p] == staged[p]
  {
  }

  /** After staging, every Wiki file is what its origin gives. */
  lemma {:induction false} AllTaken(items: seq<Item>, inputs: Inputs, current: Files)
    requires WellFormed(items) && StageAll(items, inputs, current).Some?
    ensures forall k | 0 <= k < |items| :: TakenFrom(items[k], inputs, current, StageAll(items, inputs, current).value)
  {
    if items != [] {
      var n := |items| - 1;
      AllTaken(items[..n], inputs, current);
      var staged := StageAll(items[..n], inputs, current).value;
      hide StageItem, Origin;
      ItemTaken(items[n], inputs, current, staged);
      forall k | 0 <= k < n
        ensures TakenFrom(items[k], inputs, current, StageAll(items, inputs, current).value)
      {
        assert TakenFrom(items[..n][k], inputs, current, staged);
        assert OwnsPath(items[k]) && OwnsPath(items[n]) && items[k].id != items[n].id;
      }
    }
  }

  /** A stale item repeats the current item's size, and its file is the current one. */
  lemma StaleSize(e: Entry, found: Item, inputs: Inputs, current: Files, files: Files)
    requires e.state == StateTemporarilyUnavailable && Find(inputs.index, e.id) == Some(found) && found.id == e.id
    requires SizeOk(found, current) && e.id !in inputs.plan.refresh
    requires TakenFrom(DecideSource(e, Some(found)).item, inputs, current, files)
    ensures SizeOk(DecideSource(e, Some(found)).item, files)
  {
  }

  /** A ready Wiki item has the reference's size; its file has the reference's when downloaded, the current item's
      when kept. */
  lemma ReadySize(e: Entry, found: Option<Item>, inputs: Inputs, current: Files, files: Files)
    requires e.state == StateReady && e.source.typ == CocolaWiki && !InvalidEntry(e)
    requires found == Find(inputs.index, e.id) && Find(inputs.plan.references, e.id) == e.reference
    requires found.Some? ==> found.value.id == e.id && OwnsPath(found.value) && SizeOk(found.value, current)
    requires e.id in inputs.plan.refresh <==> DecideSource(e, found).refresh
    requires TakenFrom(DecideSource(e, found).item, inputs, current, files)
    ensures SizeOk(DecideSource(e, found).item, files) <==> !Drifts(e, found)
  {
    assert e.reference.Some?;
    if !DecideSource(e, found).refresh {
      assert OwnsPath(found.value);
    }
  }

  /** One planned item against the current revision's true sizes: its size is right exactly when it did not drift. */
  lemma PlannedSize(e: Entry, sources: seq<Item>, inputs: Inputs, current: Files, i: Item, files: Files)
    requires WellFormed(sources) && inputs.index == ById(sources)
    requires forall k | 0 <= k < |sources| :: SizeOk(sources[k], current)
    requires EntryPlanned(e, inputs.index, inputs.plan, i) && i.id == e.id
    requires TakenFrom(i, inputs, current, files)
    ensures SizeOk(i, files) <==> !Drifts(e, Find(inputs.index, e.id))
  {
    var found := Find(inputs.index, e.id);
    if found.Some? {
      assert found.value in sources;
      var k :| 0 <= k < |sources| && sources[k] == found.value;
      assert SizeOk(sources[k], current) && OwnsPath(sources[k]);
    }
    if e.state == StateReady && e.source.typ == CocolaWiki {
      ReadySize(e, found, inputs, current, files);
    } else if e.state == StateTemporarilyUnavailable && found.Some? {
      StaleSize(e, found.value, inputs, current, files);
    }
    hide SizeOk, TakenFrom;
    assert i.source.typ == CocolaWiki && i.path != NoPath ==>
             (e.state == StateReady && e.source.typ == CocolaWiki)
             || (e.state == StateTemporarilyUnavailable && found.Some?);
  }

  /** A call that updates a revision of true sizes leaves true sizes if and only if no ready Wiki entry whose file is
      kept carries a reference of another size than the current item's. */
  lemma SizesStayTrueIff(ctx: Context, current: Option<Dir>, store: map<string, Content>, resolvedAt: string)
    requires DistinctEntries(ctx.entries) && Expected(ctx, current, store, resolvedAt).0.Updated?
    requires ManifestOf(current).Some? ==> WellFormed(ManifestOf(current).value.sources) && SizesTrue(current.value)
    ensures SizesTrue(Expected(ctx, current, store, resolvedAt).1.value)
            <==> forall k | 0 <= k < |ctx.entries| ::
                   !Drifts(ctx.entries[k], Find(CurrentById(ManifestOf(current)), ctx.entries[k].id))
  {
    hide StageAll, SizeOk, Drifts, TakenFrom, WellFormed, DistinctEntries;
    var m := ManifestOf(current);
    var sources := if m.Some? then m.value.sources else [];
    var index := CurrentById(m);
    var after := Expected(ctx, current, store, resolvedAt).1.value;
    var items := after.manifest.value.sources;
    PlanForIsThePlan(ctx.entries, index);
    var inputs := Inputs(PlanFor(ctx.entries, index).value, index, store);
    assert WellFormed([]) by { EmptyIsWellFormed(); }
    PlanWellFormed(ctx.entries, sources, inputs.plan);
    AllTaken(items, inputs, FilesOf(current));
    forall k | 0 <= k < |ctx.entries|
      ensures SizeOk(items[k], after.files) <==> !Drifts(ctx.entries[k], Find(index, ctx.entries[k].id))
    {
      assert EntryPlanned(ctx.entries[k], index, inputs.plan, items[k]);
      PlannedSize(ctx.entries[k], sources, inputs, FilesOf(current), items[k], after.files);
    }
  }

  lemma EmptyIsWellFormed()
    ensures WellFormed([])
  {
  }

  /** What staging did for one ready Wiki item: its file is there. */
  lemma ReadyIsThere(e: Entry, inputs: Inputs, current: Files, i: Item, files: Files)
    requires EntryPlanned(e, inputs.index, inputs.plan, i) && i.id == e.id && TakenFrom(i, inputs, current, files)
    ensures i.source.typ == CocolaWiki && i.path != NoPath && i.status == Ready ==> i.path in files
  {
  }

  /** Staged files lie in their own item's directory, so each is alone there. */
  lemma AloneInItsDirectory(items: seq<Item>, inputs: Inputs, current: Files, k: nat, p: Path)
    requires WellFormed(items) && k < |items| && StageAll(items, inputs, current).Some?
    requires p in StageAll(items, inputs, current).value && p.WikiFile? && p.id == items[k].id
    ensures p == items[k].path
  {
    StagedPaths(items, inputs, current, p);
    var j :| 0 <= j < |items| && items[j].path == p;
    assert OwnsPath(items[j]);
  }

  /** The sandbox reader accepts every Wiki item of an updated revision if and only if every entry is readable against
      the current one. */
  lemma ReaderAcceptsUpdateIff(ctx: Context, current: Option<Dir>, store: map<string, Content>, resolvedAt: string)
    requires DistinctEntries(ctx.entries) && Expected(ctx, current, store, resolvedAt).0.Updated?
    requires ManifestOf(current).Some? ==> WellFormed(ManifestOf(current).value.sources)
    ensures var after := Expected(ctx, current, store, resolvedAt).1.value;
            && after.manifest.Some? && |after.manifest.value.sources| == |ctx.entries|
            && ((forall k | 0 <= k < |ctx.entries| :: ReaderAccepts(after.manifest.value.sources[k], after.files))
                <==> forall k | 0 <= k < |ctx.entries| ::
                       Readable(ctx.entries[k], Find(CurrentById(ManifestOf(current)), ctx.entries[k].id)))
  {
    hide StageAll, TakenFrom, WellFormed, DistinctEntries, ReaderAccepts, Readable, DecideSource;
    var m := ManifestOf(current);
    var index := CurrentById(m);
    var after := Expected(ctx, current, store, resolvedAt).1.value;
    var items := after.manifest.value.sources;
    PlanForIsThePlan(ctx.entries, index);
    var inputs := Inputs(PlanFor(ctx.entries, index).value, index, store);
    EmptyIsWellFormed();
    PlanWellFormed(ctx.entries, if m.Some? then m.value.sources else [], inputs.plan);
    AllTaken(items, inputs, FilesOf(current));
    forall k | 0 <= k < |ctx.entries|
      ensures ReaderAccepts(items[k], after.files) <==> Readable(ctx.entries[k], Find(index, ctx.entries[k].id))
    {
      assert EntryPlanned(ctx.entries[k], index, inputs.plan, items[k]);
      ReadyIsThere(ctx.entries[k], inputs, FilesOf(current), items[k], after.files);
      forall p | p in after.files && p.WikiFile? && p.id == ctx.entries[k].id
        ensures p == items[k].path
      {
        AloneInItsDirectory(items, inputs, FilesOf(current), k, p);
      }
      ReaderAcceptsPlanned(ctx.entries[k], Find(index, ctx.entries[k].id), after.files);
    }
  }

  lemma PlanOfOne(e: Entry, i: Item)
    requires i.id == e.id && Drifts(e, Some(i))
    ensures ById([i]) == map[i.id := i]
    ensures var item := DecideSource(e, Some(i)).item;
            && PlanFor([e], ById([i])) == Some(Plan([item], map[e.id := e.reference.value], {}, false))
            && item.size != i.size && item.source.typ == CocolaWiki && item.id == e.id
            && item.path == i.path && i.path != NoPath
  {
    assert [i][..0] == [] && [e][..0] == [];
    assert ById([]) == map[] && PlanFor([], ById([i])) == Some(Plan([], map[], {}, false));
    var p := Extend(Plan([], map[], {}, false), e, ById([i]));
    assert PlanFor([e], ById([i])) == Some(p);
    assert p.sources == [DecideSource(e, Some(i)).item];
  }

  lemma StageOfOne(item: Item, inputs: Inputs, current: Files)
    requires item.path != NoPath && item.id !in inputs.plan.refresh && CurrentCopy(inputs.index, item.id, current).Some?
    ensures StageAll([item], inputs, current).Some?
  {
    assert [item][..0] == [];
    assert StageAll([], inputs, current) == Some(map[]);
  }

  /** A single kept file whose reference drifted: the call does update. */
  lemma DriftUpdates(ctx: Context, current: Option<Dir>, e: Entry, i: Item, store: map<string, Content>,
                     resolvedAt: string)
    requires ctx.entries == [e] && ManifestOf(current).Some? && ManifestOf(current).value.sources == [i]
    requires i.id == e.id && Drifts(e, Some(i)) && i.path in current.value.files
    ensures Expected(ctx, current, store, resolvedAt).0.Updated?
    ensures Drifts(e, Find(CurrentById(ManifestOf(current)), e.id))
  {
    PlanOfOne(e, i);
    var m := ManifestOf(current);
    var plan := PlanFor(ctx.entries, CurrentById(m)).value;
    hide PlanFor, ById, DecideSource, Drifts, StageAll;
    assert plan.sources[0].size != m.value.sources[0].size;
    StageOfOne(plan.sources[0], Inputs(plan, CurrentById(m), store), FilesOf(current));
  }

  /** Such a run: the store is not even asked, and the new manifest says 5 where the file has 3 characters. */
  method RecordsAWrongSize() returns (host: KnowledgeHost.HostWorkspace, outcome: Outcome)
    ensures outcome.Updated? && host.current.Some? && !SizesTrue(host.current.value)
  {
    var source := Source(CocolaWiki, "title", "", "node");
    var item := Item("a", source, Ready, "", "v1", None, 3, "", WikiFile("a", "f.md"));
    var reference := Reference("key", "v1", 5, None, false, "f.md", "");
    var ctx := Context("agent", 2, [Entry("a", source, StateReady, Some(reference))]);
    host := new KnowledgeHost.HostWorkspace(
      Some(Dir(map[WikiFile("a", "f.md") := "abc"], Some(Manifest("agent", 1, [item], "")))));
    ghost var before := host.current;
    outcome := host.Provision(ctx, map[], "");
    DriftUpdates(ctx, before, ctx.entries[0], item, map[], "");
    SizesStayTrueIff(ctx, before, map[], "");
    assert Drifts(ctx.entries[0], Find(CurrentById(ManifestOf(before)), ctx.entries[0].id));
  }
}
