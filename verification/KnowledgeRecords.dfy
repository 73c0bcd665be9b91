/** What a provisioning call records and keeps, entry by entry: the next manifest field by field, when a call hits,
    updates or raises, and which files a new revision carries over, with and without faults. */
module KnowledgeRecords {
  import opened Prelude
  import opened KnowledgeManifest
  import opened KnowledgeStaging
  import opened KnowledgeFaults

  // ---------------------------------------------------------------------------------------------
  // The next manifest

  /** What the next manifest says of one entry. Unavailable: nothing but that. Temporarily unavailable: the current item
      again, stale, under the new label, or a placeholder when there is none. Ready: a Wiki file with version, digest,
      size and type of its reference; a Feishu document under its own file; any other source without a file. */
  lemma NextManifestRecords(entries: seq<Entry>, index: map<string, Item>, k: nat)
    requires DistinctEntries(entries) && k < |entries| && PlanFor(entries, index).Some?
    ensures |PlanFor(entries, index).value.sources| == |entries|
    ensures var e, i := entries[k], PlanFor(entries, index).value.sources[k];
            var document := e.source.typ == FeishuDoc || e.source.typ == FeishuWiki;
            var file := if document then FeishuFile(e.id) else NoPath;
            match e.state
            case StateUnavailable =>
              i == Item(e.id, e.source, Unavailable, "", "", None, 0, "", NoPath)
            case StateTemporarilyUnavailable =>
              if e.id !in index then i == Item(e.id, e.source, TemporarilyUnavailable, "", "", None, 0, "", file)
              else
                var c := index[e.id];
                && i.status == Stale && i.staleReason == "refresh_temporarily_unavailable"
                && i.source == Source(c.source.typ, e.source.title, c.source.url, c.source.nodeId)
                && i.id == c.id && i.version == c.version && i.sha == c.sha && i.size == c.size && i.mime == c.mime
                && i.path == c.path
            case StateReady =>
              if e.source.typ != CocolaWiki then i == Item(e.id, e.source, Ready, "", "", None, 0, "", file)
              else
                && e.reference.Some?
                && var r := e.reference.value;
                   i == Item(e.id, e.source, Ready, "", r.version, r.sha, r.size, r.mime, WikiFile(e.id, r.filename))
  {
    PlanForIsThePlan(entries, index);
    assert EntryPlanned(entries[k], index, PlanFor(entries, index).value, PlanFor(entries, index).value.sources[k]);
  }

  /** A Wiki file is downloaded unless the current item is ready with the same version, digest and path; nothing else
      is. The plan is stale exactly when an entry is temporarily unavailable that the current manifest knows. */
  lemma WhatIsDownloaded(entries: seq<Entry>, index: map<string, Item>, k: nat)
    requires DistinctEntries(entries) && k < |entries| && PlanFor(entries, index).Some?
    ensures var e, p := entries[k], PlanFor(entries, index).value;
            && (e.id in p.references <==> e.state == StateReady && e.source.typ == CocolaWiki)
            && (e.id in p.references ==> e.reference == Some(p.references[e.id]))
            && (e.id in p.refresh <==>
                  && e.state == StateReady && e.source.typ == CocolaWiki
                  && var r := e.reference.value;
                     !(e.id in index && index[e.id].status == Ready && index[e.id].version == r.version
                       && index[e.id].sha == r.sha && index[e.id].path == WikiFile(e.id, r.filename)))
            && (p.stale <==> exists j | 0 <= j < |entries| ::
                               entries[j].state == StateTemporarilyUnavailable && entries[j].id in index)
  {
    var p := PlanFor(entries, index).value;
    PlanForIsThePlan(entries, index);
    forall j | 0 <= j < |entries|
      ensures p.sources[j].status == Stale
              <==> entries[j].state == StateTemporarilyUnavailable && entries[j].id in index
    {
      NextManifestRecords(entries, index, j);
    }
    assert EntryPlanned(entries[k], index, p, p.sources[k]);
  }

  /** The references that make a call raise: of a ready Wiki entry, without key or version, of a size that is negative
      or above 100 MiB, or with a malformed digest. */
  lemma RaisesOverReferenceIff(entries: seq<Entry>, index: map<string, Item>)
    requires DistinctEntries(entries)
    ensures PlanFor(entries, index).None? <==>
              exists k | 0 <= k < |entries| ::
                && entries[k].state == StateReady && entries[k].source.typ == CocolaWiki
                && (entries[k].reference.None?
                    || var r := entries[k].reference.value;
                       r.key == "" || r.version == "" || r.size < 0 || r.size > 104857600 || r.shaMalformed)
  {
    PlanForIsThePlan(entries, index);
    if PlanFor(entries, index).None? {
      var k :| 0 <= k < |entries| && InvalidEntry(entries[k]);
      assert entries[k].state == StateReady && entries[k].source.typ == CocolaWiki;
    } else {
      forall k | 0 <= k < |entries|
        ensures !InvalidEntry(entries[k])
      {
      }
    }
  }

  /** A hit: the manifest read is of this agent and revision, records the same items, and nothing has to be downloaded.
      Whatever is not a hit or an update leaves the current revision alone: a call that cannot stage its files falls
      back to it when its manifest was read, and raises otherwise. */
  lemma HitIff(ctx: Context, m: Option<Manifest>, current: Option<Dir>, store: map<string, Content>, resolvedAt: string)
    ensures var (outcome, after) := ExpectedFrom(ctx, m, current, store, resolvedAt);
            var planned := PlanFor(ctx.entries, CurrentById(m));
            && (outcome.Hit? <==>
                  && planned.Some? && m.Some? && m.value.agentId == ctx.agentId && m.value.revision == ctx.revision
                  && m.value.sources == planned.value.sources && planned.value.refresh == {})
            && (outcome.Hit? ==> outcome.stale == planned.value.stale)
            && (planned.None? ==> outcome == Raised(InvalidReference))
            && (planned.Some? && !outcome.Hit? && !outcome.Updated? ==>
                  outcome == if m.Some? then LastKnownGood else Raised(StageFailed))
            && (!outcome.Updated? ==> after == current)
  {
  }

  /** What an update leaves: the planned items under the agent, revision and time of the call, and the staged files. */
  lemma UpdateLeaves(ctx: Context, m: Option<Manifest>, current: Option<Dir>, store: map<string, Content>,
                     resolvedAt: string)
    requires ExpectedFrom(ctx, m, current, store, resolvedAt).0.Updated?
    ensures var after := ExpectedFrom(ctx, m, current, store, resolvedAt).1;
            && PlanFor(ctx.entries, CurrentById(m)).Some? && after.Some?
            && var plan := PlanFor(ctx.entries, CurrentById(m)).value;
               && after.value.manifest == Some(Manifest(ctx.agentId, ctx.revision, plan.sources, resolvedAt))
               && Some(after.value.files)
                  == StageAll(plan.sources, Inputs(plan, CurrentById(m), store), FilesOf(current))
               && ExpectedFrom(ctx, m, current, store, resolvedAt).0 == Updated(plan.stale)
  {
  }

  // ---------------------------------------------------------------------------------------------
  // What staging puts under one item's path

  lemma PathsDiffer(items: seq<Item>, j: nat, k: nat)
    requires WellFormed(items) && j < k < |items|
    ensures items[j].path != NoPath && items[k].path != NoPath ==> items[j].path != items[k].path
  {
    assert OwnsPath(items[j]) && OwnsPath(items[k]) && items[j].id != items[k].id;
  }

  /** What is under an item's path: the current copy when the item need not be downloaded and there is one, otherwise
      the checked download, otherwise a current copy, otherwise nothing. */
  predicate FileIs(item: Item, inputs: Inputs, current: Files, files: Files) {
    var index := inputs.index;
    var copy := if item.id in index && index[item.id].path != NoPath && index[item.id].path in current
                then Some(current[index[item.id].path]) else None;
    var file := if item.path in files then Some(files[item.path]) else None;
    if item.id !in inputs.plan.refresh && copy.Some? then file == copy
    else if item.id in inputs.plan.references then file == Fetch(inputs.plan.references[item.id], inputs.store)
    else file == copy
  }

  lemma StepPuts(item: Item, inputs: Inputs, current: Files, staged: Files)
    requires item.path != NoPath && item.path !in staged && StageItem(item, inputs, current, staged).Some?
    ensures FileIs(item, inputs, current, StageItem(item, inputs, current, staged).value)
  {
  }

  lemma StepKeeps(item: Item, inputs: Inputs, current: Files, staged: Files, other: Item)
    requires StageItem(item, inputs, current, staged).Some?
    requires other.path != NoPath && (item.path == NoPath || other.path != item.path)
    requires FileIs(other, inputs, current, staged)
    ensures FileIs(other, inputs, current, StageItem(item, inputs, current, staged).value)
  {
  }

  /** After staging, every item's file is what it should be. */
  lemma {:induction false} StagedFilesAre(items: seq<Item>, inputs: Inputs, current: Files, k: nat)
    requires WellFormed(items) && k < |items| && items[k].path != NoPath && StageAll(items, inputs, current).Some?
    ensures FileIs(items[k], inputs, current, StageAll(items, inputs, current).value)
  {
    hide StageItem, FileIs;
    var n := |items| - 1;
    var staged := StageAll(items[..n], inputs, current).value;
    if k < n {
      StagedFilesAre(items[..n], inputs, current, k);
      PathsDiffer(items, k, n);
      StepKeeps(items[n], inputs, current, staged, items[k]);
    } else {
      OwnFileIsNew(items, inputs, current);
      StepPuts(items[n], inputs, current, staged);
    }
  }

  /** A download passes if and only if the store has the object, with the size and, if there is one, the digest of the
      reference. */
  lemma FetchIff(r: Reference, store: map<string, Content>)
    ensures Fetch(r, store).Some? <==>
              r.key in store && |store[r.key]| == r.size && (r.sha.Some? ==> r.sha.value == DigestOf(store[r.key]))
    ensures Fetch(r, store).Some? ==> Fetch(r, store).value == store[r.key]
  {
  }

  /** An item can be staged: it has no file, or is a document, or its file is in the current revision, or is downloaded
      and the download passes; or it has neither a current file nor a reference. */
  predicate Stageable(item: Item, inputs: Inputs, current: Files) {
    var index := inputs.index;
    var named := item.id in index && index[item.id].path != NoPath;
    var copied := named && index[item.id].path in current;
    var document := item.source.typ == FeishuDoc || item.source.typ == FeishuWiki;
    || item.path == NoPath
    || (if item.id !in inputs.plan.refresh && named && (copied || !document) then copied
        else if item.id in inputs.plan.references then Fetch(inputs.plan.references[item.id], inputs.store).Some?
        else !named || copied || document)
  }

  lemma {:induction false} StagingSucceedsIff(items: seq<Item>, inputs: Inputs, current: Files)
    ensures StageAll(items, inputs, current).Some?
            <==> forall k | 0 <= k < |items| :: Stageable(items[k], inputs, current)
  {
    if items != [] {
      hide Stageable, StageItem;
      var n := |items| - 1;
      StagingSucceedsIff(items[..n], inputs, current);
      assert forall k | 0 <= k < n :: items[..n][k] == items[k];
      if StageAll(items[..n], inputs, current).Some? {
        StepSucceedsIff(items[n], inputs, current, StageAll(items[..n], inputs, current).value);
      }
    }
  }

  lemma StepSucceedsIff(item: Item, inputs: Inputs, current: Files, staged: Files)
    ensures StageItem(item, inputs, current, staged).Some? <==> Stageable(item, inputs, current)
  {
  }

  // ---------------------------------------------------------------------------------------------
  // What an update carries over, brings, and needs

  /** The file an entry needs: a ready Wiki entry a passing download, or, when it has not changed, its current file; a
      temporarily unavailable one the file its current Wiki item names, if it names one. No other entry needs any. */
  predicate Obtainable(e: Entry, index: map<string, Item>, current: Files, store: map<string, Content>) {
    match e.state
    case StateUnavailable => true
    case StateReady =>
      e.source.typ == CocolaWiki && e.reference.Some? ==>
        var r := e.reference.value;
        if e.id in index && index[e.id].status == Ready && index[e.id].version == r.version && index[e.id].sha == r.sha
           && index[e.id].path == WikiFile(e.id, r.filename)
        then index[e.id].path in current
        else Fetch(r, store).Some?
    case StateTemporarilyUnavailable =>
      e.id in index && index[e.id].source.typ == CocolaWiki && index[e.id].path != NoPath ==>
        index[e.id].path in current
  }

  lemma EntryObtained(e: Entry, sources: seq<Item>, inputs: Inputs, i: Item, current: Files)
    requires WellFormed(sources) && inputs.index == ById(sources)
    requires EntryPlanned(e, inputs.index, inputs.plan, i) && i.id == e.id
    ensures Stageable(i, inputs, current) <==> Obtainable(e, inputs.index, current, inputs.store)
  {
    if e.id in inputs.index {
      assert inputs.index[e.id] in sources;
      assert OwnsPath(inputs.index[e.id]);
    }
    hide Fetch, WellFormed, ById;
  }

  /** Without faults a call updates if and only if no reference is invalid, it does not hit, and every entry's file can
      be obtained. */
  lemma UpdatesIff(ctx: Context, m: Option<Manifest>, current: Option<Dir>, store: map<string, Content>,
                   resolvedAt: string)
    requires DistinctEntries(ctx.entries) && (m.Some? ==> WellFormed(m.value.sources))
    ensures var outcome := ExpectedFrom(ctx, m, current, store, resolvedAt).0;
            outcome.Updated? <==>
              && PlanFor(ctx.entries, CurrentById(m)).Some? && !outcome.Hit?
              && forall k | 0 <= k < |ctx.entries| ::
                   Obtainable(ctx.entries[k], CurrentById(m), FilesOf(current), store)
  {
    hide StageAll, Stageable, Obtainable, IsHit, WellFormed;
    var sources := if m.Some? then m.value.sources else [];
    NoItemsAreWellFormed();
    PlanForIsThePlan(ctx.entries, CurrentById(m));
    if PlanFor(ctx.entries, CurrentById(m)).Some? {
      var plan := PlanFor(ctx.entries, CurrentById(m)).value;
      var inputs := Inputs(plan, CurrentById(m), store);
      PlanWellFormed(ctx.entries, sources, plan);
      StagingSucceedsIff(plan.sources, inputs, FilesOf(current));
      forall k | 0 <= k < |ctx.entries|
        ensures Stageable(plan.sources[k], inputs, FilesOf(current))
                <==> Obtainable(ctx.entries[k], CurrentById(m), FilesOf(current), store)
      {
        assert EntryPlanned(ctx.entries[k], CurrentById(m), plan, plan.sources[k]);
        EntryObtained(ctx.entries[k], sources, inputs, plan.sources[k], FilesOf(current));
      }
    }
  }

  lemma NoItemsAreWellFormed()
    ensures WellFormed([])
  {
  }

  /** What an update leaves for one entry. A document with a file in the current revision is carried over, unchanged and
      under its own name; a stale item keeps its file; a Wiki file is the current one when nothing changed, and the
      object the reference names otherwise. */
  lemma UpdateKeepsFiles(ctx: Context, m: Option<Manifest>, current: Option<Dir>, store: map<string, Content>,
                         resolvedAt: string, k: nat)
    requires DistinctEntries(ctx.entries) && k < |ctx.entries| && (m.Some? ==> WellFormed(m.value.sources))
    requires ExpectedFrom(ctx, m, current, store, resolvedAt).0.Updated?
    ensures var after := ExpectedFrom(ctx, m, current, store, resolvedAt).1.value.files;
            var e, index, files := ctx.entries[k], CurrentById(m), FilesOf(current);
            var kept := e.id in index && index[e.id].path != NoPath && index[e.id].path in files;
            match e.state
            case StateUnavailable => true
            case StateTemporarilyUnavailable =>
              kept ==> index[e.id].path in after && after[index[e.id].path] == files[index[e.id].path]
            case StateReady =>
              if e.source.typ == FeishuDoc || e.source.typ == FeishuWiki then
                && (FeishuFile(e.id) in after <==> kept)
                && (kept ==> after[FeishuFile(e.id)] == files[index[e.id].path])
              else if e.source.typ == CocolaWiki then
                && e.reference.Some?
                && var r := e.reference.value;
                   var path := WikiFile(e.id, r.filename);
                   && path in after
                   && (if e.id in index && index[e.id].status == Ready && index[e.id].version == r.version
                          && index[e.id].sha == r.sha && index[e.id].path == path
                       then path in files && after[path] == files[path]
                       else Fetch(r, store) == Some(after[path]))
              else true
  {
    hide StageAll, IsHit, WellFormed, DecideSource, Stageable, PlanFor, ById;
    var sources := if m.Some? then m.value.sources else [];
    var plan := PlanFor(ctx.entries, CurrentById(m)).value;
    var inputs := Inputs(plan, CurrentById(m), store);
    NoItemsAreWellFormed();
    PlanForIsThePlan(ctx.entries, CurrentById(m));
    PlanWellFormed(ctx.entries, sources, plan);
    NextManifestRecords(ctx.entries, CurrentById(m), k);
    WhatIsDownloaded(ctx.entries, CurrentById(m), k);
    if plan.sources[k].path != NoPath {
      StagedFilesAre(plan.sources, inputs, FilesOf(current), k);
    }
    UpdatesIff(ctx, m, current, store, resolvedAt);
    assert Obtainable(ctx.entries[k], CurrentById(m), FilesOf(current), store);
  }

  // ---------------------------------------------------------------------------------------------
  // Under faults

  /** The command does not stop the staging of this item: it meets no fault, or it is a copy of a document that fails
      without the executor raising. The first command makes the directory. */
  predicate Spared(item: Item, first: nat, u: nat, faults: Faults) {
    || faults(u).Fine?
    || ((item.source.typ == FeishuDoc || item.source.typ == FeishuWiki) && u > first && faults(u).CommandFails?)
  }

  ghost predicate AllSpared(item: Item, first: nat, end: nat, faults: Faults) {
    forall u: nat | first <= u < end :: Spared(item, first, u, faults)
  }

  lemma StepGoesThroughIff(item: Item, inputs: Inputs, current: Files, staged: Files, full: Files, t: nat,
                           faults: Faults)
    requires item.source.typ == FeishuDoc || item.source.typ == FeishuWiki ==> item.id !in inputs.plan.references
    ensures var (after, end) := StageItemUnder(item, inputs, current, staged, t, faults);
            after.Some? <==>
              StageItem(item, inputs, current, full).Some? && AllSpared(item, t, end, faults)
  {
    var (after, end) := StageItemUnder(item, inputs, current, staged, t, faults);
    hide Fetch;
    assert t < end ==> Spared(item, t, t, faults) || !Spared(item, t, t, faults);
    assert t + 1 < end ==> Spared(item, t, t + 1, faults) || !Spared(item, t, t + 1, faults);
    assert t + 2 < end ==> Spared(item, t, t + 2, faults) || !Spared(item, t, t + 2, faults);
    assert t + 3 < end ==> Spared(item, t, t + 3, faults) || !Spared(item, t, t + 3, faults);
  }

  /** The number of the first command of an item. */
  function FirstCommand(items: seq<Item>, inputs: Inputs, current: Files, t: nat, faults: Faults, k: nat): nat
    requires k <= |items|
  {
    StageAllUnder(items[..k], inputs, current, t, faults).1
  }

  /** Every command of an item is spared. */
  ghost predicate ItemSpared(items: seq<Item>, inputs: Inputs, current: Files, t: nat, faults: Faults, k: nat)
    requires k < |items|
  {
    AllSpared(items[k], FirstCommand(items, inputs, current, t, faults, k),
              FirstCommand(items, inputs, current, t, faults, k + 1), faults)
  }

  lemma SparedInPrefix(items: seq<Item>, inputs: Inputs, current: Files, t: nat, faults: Faults, k: nat, n: nat)
    requires k < n <= |items|
    ensures ItemSpared(items[..n], inputs, current, t, faults, k) <==> ItemSpared(items, inputs, current, t, faults, k)
  {
    assert items[..n][..k] == items[..k] && items[..n][..k + 1] == items[..k + 1] && items[..n][k] == items[k];
  }

  /** Staging goes through under faults if and only if it would without any, and every fault that hit it was a failed
      copy of a document. */
  lemma {:induction false} GoesThroughIff(items: seq<Item>, inputs: Inputs, current: Files, t: nat, faults: Faults)
    requires forall k | 0 <= k < |items| ::
               items[k].source.typ == FeishuDoc || items[k].source.typ == FeishuWiki ==>
                 items[k].id !in inputs.plan.references
    ensures StageAllUnder(items, inputs, current, t, faults).0.Some? <==>
              && StageAll(items, inputs, current).Some?
              && forall k | 0 <= k < |items| :: ItemSpared(items, inputs, current, t, faults, k)
  {
    if items != [] {
      hide StageItemUnder, StageItem, ItemSpared;
      var n := |items| - 1;
      GoesThroughIff(items[..n], inputs, current, t, faults);
      forall k | 0 <= k < n
        ensures ItemSpared(items[..n], inputs, current, t, faults, k)
                <==> ItemSpared(items, inputs, current, t, faults, k)
      {
        SparedInPrefix(items, inputs, current, t, faults, k, n);
      }
      LastGoesThroughIff(items, inputs, current, t, faults);
    }
  }

  lemma LastGoesThroughIff(items: seq<Item>, inputs: Inputs, current: Files, t: nat, faults: Faults)
    requires items != []
    requires items[|items| - 1].source.typ == FeishuDoc || items[|items| - 1].source.typ == FeishuWiki ==>
               items[|items| - 1].id !in inputs.plan.references
    ensures var n := |items| - 1;
            StageAllUnder(items[..n], inputs, current, t, faults).0.Some?
            && StageAll(items[..n], inputs, current).Some? ==>
              (StageAllUnder(items, inputs, current, t, faults).0.Some? <==>
                 StageAll(items, inputs, current).Some? && ItemSpared(items, inputs, current, t, faults, n))
  {
    hide StageItemUnder, StageItem, AllSpared;
    var n := |items| - 1;
    assert items[..n + 1] == items;
    var (staged, u) := StageAllUnder(items[..n], inputs, current, t, faults);
    if staged.Some? && StageAll(items[..n], inputs, current).Some? {
      StepGoesThroughIff(items[n], inputs, current, staged.value, StageAll(items[..n], inputs, current).value, u,
                         faults);
    }
  }

  /** A document with a current file is carried over exactly when one of the two copies tried meets no fault. */
  lemma StepCarries(item: Item, inputs: Inputs, current: Files, staged: Files, t: nat, faults: Faults)
    requires item.source.typ == FeishuDoc || item.source.typ == FeishuWiki
    requires item.id !in inputs.plan.references && item.id !in inputs.plan.refresh
    requires item.path != NoPath && item.path !in staged && item.id in inputs.index
    requires inputs.index[item.id].path != NoPath && inputs.index[item.id].path in current
    requires StageItemUnder(item, inputs, current, staged, t, faults).0.Some?
    ensures var after := StageItemUnder(item, inputs, current, staged, t, faults).0.value;
            && (item.path in after <==> faults(t + 1).Fine? || faults(t + 2).Fine?)
            && (item.path in after ==> after[item.path] == current[inputs.index[item.id].path])
  {
  }

  lemma StepLeavesOthers(item: Item, inputs: Inputs, current: Files, staged: Files, t: nat, faults: Faults, p: Path)
    requires p != item.path && StageItemUnder(item, inputs, current, staged, t, faults).0.Some?
    ensures var after := StageItemUnder(item, inputs, current, staged, t, faults).0.value;
            (p in after <==> p in staged) && (p in after ==> after[p] == staged[p])
  {
  }

  /** The same of a whole staging: under any faults, a document with a current file is in the new revision, with the
      same content, if and only if one of its two copies met no fault. */
  lemma {:induction false} DocumentsSurvive(items: seq<Item>, inputs: Inputs, current: Files, t: nat, faults: Faults,
                                            k: nat)
    requires WellFormed(items) && k < |items| && StageAllUnder(items, inputs, current, t, faults).0.Some?
    requires forall j | 0 <= j < |items| && IsFeishuDocument(items[j].source.typ) ::
               items[j].id !in inputs.plan.references
    requires items[k].source.typ == FeishuDoc || items[k].source.typ == FeishuWiki
    requires items[k].id !in inputs.plan.references && items[k].id !in inputs.plan.refresh
    requires items[k].path != NoPath && items[k].id in inputs.index
    requires inputs.index[items[k].id].path != NoPath && inputs.index[items[k].id].path in current
    ensures var after := StageAllUnder(items, inputs, current, t, faults).0.value;
            var first := FirstCommand(items, inputs, current, t, faults, k);
            && (items[k].path in after <==> faults(first + 1).Fine? || faults(first + 2).Fine?)
            && (items[k].path in after ==> after[items[k].path] == current[inputs.index[items[k].id].path])
  {
    hide StageItemUnder, StageItem, LacksOnlyDocuments;
    var n := |items| - 1;
    var (staged, u) := StageAllUnder(items[..n], inputs, current, t, faults);
    if k < n {
      assert items[..n][..k] == items[..k];
      DocumentsSurvive(items[..n], inputs, current, t, faults, k);
      PathsDiffer(items, k, n);
      if items[n].path == NoPath {
        NoFileNoStep(items[n], inputs, current, staged.value, u, faults);
      } else {
        StepLeavesOthers(items[n], inputs, current, staged.value, u, faults, items[k].path);
      }
    } else {
      FaultsOnlyLoseDocuments(items[..n], inputs, current, t, faults);
      OwnFileIsNew(items, inputs, current);
      LacksAre(staged.value, StageAll(items[..n], inputs, current).value);
      StepCarries(items[n], inputs, current, staged.value, u, faults);
    }
  }

  lemma NoFileNoStep(item: Item, inputs: Inputs, current: Files, staged: Files, t: nat, faults: Faults)
    requires item.path == NoPath
    ensures StageItemUnder(item, inputs, current, staged, t, faults) == (Some(staged), t)
  {
  }

  lemma LacksAre(files: Files, full: Files)
    requires LacksOnlyDocuments(files, full)
    ensures forall p | p in files :: p in full
  {
  }

  /** Of a planned call: if it publishes, every ready document whose current item has a file is in the new revision
      under its own name with the same content, unless both its copies met a fault. */
  lemma PublishedDocuments(entries: seq<Entry>, sources: seq<Item>, inputs: Inputs, files: Files, t: nat,
                           faults: Faults, k: nat)
    requires DistinctEntries(entries) && WellFormed(sources) && inputs.index == ById(sources)
    requires PlanFor(entries, inputs.index) == Some(inputs.plan) && k < |entries|
    requires Published(inputs, files, t, faults).Some?
    requires entries[k].state == StateReady
    requires entries[k].source.typ == FeishuDoc || entries[k].source.typ == FeishuWiki
    requires entries[k].id in inputs.index && inputs.index[entries[k].id].path != NoPath
    requires inputs.index[entries[k].id].path in files
    ensures |inputs.plan.sources| == |entries|
    ensures var after, e := Published(inputs, files, t, faults).value, entries[k];
            var first := FirstCommand(inputs.plan.sources, inputs, files, t, faults, k);
            && (FeishuFile(e.id) in after <==> faults(first + 1).Fine? || faults(first + 2).Fine?)
            && (FeishuFile(e.id) in after ==> after[FeishuFile(e.id)] == files[inputs.index[e.id].path])
  {
    hide StageAllUnder, PlanFor, DecideSource, ById;
    var items := inputs.plan.sources;
    PlanForIsThePlan(entries, inputs.index);
    PlanWellFormed(entries, sources, inputs.plan);
    NextManifestRecords(entries, inputs.index, k);
    WhatIsDownloaded(entries, inputs.index, k);
    forall j | 0 <= j < |items| && IsFeishuDocument(items[j].source.typ)
      ensures items[j].id !in inputs.plan.references
    {
      assert EntryPlanned(entries[j], inputs.index, inputs.plan, items[j]);
      DocumentsAreNotDownloaded(entries[j], inputs, items[j]);
    }
    hide DistinctEntries, WellFormed;
    DocumentsSurvive(items, inputs, files, t, faults, k);
  }
}
