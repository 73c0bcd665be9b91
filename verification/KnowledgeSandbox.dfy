/** Agent Knowledge provisioning into a sandbox, over an abstract file system in which every command may fail.
    A failed command has no effect. The file system after each command is recorded, so the safety property is
    about every intermediate state and not only about the end of the call. */
module KnowledgeSandbox {
  import opened Prelude
  import opened KnowledgeManifest
  import opened KnowledgeStaging
  import opened KnowledgeFaults

  /** Entries of the revisions directory: <name>.tmp while staging, <name> afterwards. */
  datatype Name = Staging(name: string) | Final(name: string)

  datatype StateFile = StateFile(revision: int, stale: bool, reason: string)

  datatype FileSystem = FileSystem(revisions: map<Name, Dir>, current: Option<Name>, next: Option<Name>,
                                   state: Option<StateFile>)
  {
    function CurrentDir(): Option<Dir> {
      if current.Some? && current.value in revisions then Some(revisions[current.value]) else None
    }

    function CurrentFiles(): Files {
      FilesOf(CurrentDir())
    }

    /** The manifest a read of current/.manifest.json yields; absent or unreadable is a cold miss. */
    function CurrentManifest(): Option<Manifest> {
      ManifestOf(CurrentDir())
    }

    // The commands. `None` is a command that fails by itself.

    function MakeDir(n: Name): Option<FileSystem> {
      Some(if n in revisions then this else this.(revisions := revisions[n := Dir(map[], None)]))
    }

    function RemoveDir(n: Name): Option<FileSystem> {
      Some(this.(revisions := revisions - {n}))
    }

    function WriteFile(n: Name, path: Path, content: Content): Option<FileSystem> {
      if n !in revisions then None
      else Some(this.(revisions := revisions[n := revisions[n].(files := revisions[n].files[path := content])]))
    }

    function CopyFromCurrent(from: Path, n: Name, to: Path): Option<FileSystem> {
      if from in CurrentFiles() then WriteFile(n, to, CurrentFiles()[from]) else None
    }

    function WriteManifest(n: Name, m: Manifest): Option<FileSystem> {
      if n !in revisions then None
      else Some(this.(revisions := revisions[n := revisions[n].(manifest := Some(m))]))
    }

    function MoveDir(from: Name, to: Name): Option<FileSystem> {
      if from !in revisions || to in revisions then None
      else Some(this.(revisions := (revisions - {from})[to := revisions[from]]))
    }

    function LinkNext(n: Name): Option<FileSystem> {
      Some(this.(next := Some(n)))
    }

    function SwitchCurrent(): Option<FileSystem> {
      if next.None? then None else Some(this.(current := next, next := None))
    }

    function RemoveNext(): Option<FileSystem> {
      Some(this.(next := None))
    }

    function KeepOnly(n: Name): Option<FileSystem> {
      Some(this.(revisions := map m | m in revisions && m == n :: revisions[m]))
    }

    function WriteState(s: StateFile): Option<FileSystem> {
      Some(this.(state := Some(s)))
    }
  }

  /** `base` with the staging directory `n` holding `d`. */
  function WithStage(base: FileSystem, n: Name, d: Dir): FileSystem {
    base.(revisions := base.revisions[n := d])
  }

  function PutFile(d: Dir, path: Path, content: Content): Dir {
    d.(files := d.files[path := content])
  }

  /** `s` is `base` plus a staging directory `n` that `base` does not have. */
  ghost predicate Stages(s: FileSystem, base: FileSystem, n: Name) {
    n in s.revisions && n !in base.revisions && base.current != Some(n) && s == WithStage(base, n, s.revisions[n])
  }

  /** `current` and the revision it names are as they were in `before`. */
  ghost predicate KeepsCurrent(s: FileSystem, before: FileSystem) {
    s.current == before.current && s.CurrentDir() == before.CurrentDir()
  }

  /** `current` and the revision it names are as they were before the call, or `current` names the new revision
      and that one is complete. */
  ghost predicate Safe(s: FileSystem, before: FileSystem, fin: Name, truth: string -> Content) {
    || KeepsCurrent(s, before)
    || (s.current == Some(fin) && fin in s.revisions && Complete(s.revisions[fin], truth))
  }

  /** The outcome of a call: the plan, whether it is a hit, whether the current manifest was read, whether the three
      preparing commands went through, whether `current` was switched, and whether the last command went through. */
  function OutcomeOf(plan: Option<Plan>, hit: bool, readable: bool, prepared: bool, switched: bool, lastOk: bool)
    : Outcome
  {
    if plan.None? then Raised(InvalidReference)
    else if !hit && !prepared then Raised(PrepareFailed)
    else if !hit && !switched && !readable then Raised(StageFailed)
    else if !lastOk then Raised(StateWriteFailed)
    else if hit then Hit(plan.value.stale)
    else if switched then Updated(plan.value.stale)
    else LastKnownGood
  }

  /** When a call hits, updates, falls back and raises, one by one. */
  lemma OutcomeIs(plan: Option<Plan>, hit: bool, readable: bool, prepared: bool, switched: bool, lastOk: bool)
    requires hit ==> plan.Some?
    ensures var outcome := OutcomeOf(plan, hit, readable, prepared, switched, lastOk);
            && (outcome.Hit? <==> hit && lastOk)
            && (outcome.Updated? <==> plan.Some? && !hit && prepared && switched && lastOk)
            && (outcome.LastKnownGood? <==> plan.Some? && !hit && prepared && !switched && readable && lastOk)
            && (outcome.Hit? ==> outcome.stale == plan.value.stale)
            && (outcome.Updated? ==> outcome.stale == plan.value.stale)
            && (outcome == Raised(InvalidReference) <==> plan.None?)
            && (outcome == Raised(PrepareFailed) <==> plan.Some? && !hit && !prepared)
            && (outcome == Raised(StageFailed) <==> plan.Some? && !hit && prepared && !switched && !readable)
            && (outcome == Raised(StateWriteFailed) <==>
                  plan.Some? && !lastOk && (hit || (prepared && (switched || readable))))
  {
  }

  const REASON := "refresh_temporarily_unavailable"

  /** What the state file says after a call that did not raise. */
  predicate StateMatches(outcome: Outcome, revision: int, m: Option<Manifest>, state: Option<StateFile>) {
    var reason := "refresh_temporarily_unavailable";
    match outcome
    case Hit(stale) => state == Some(StateFile(revision, stale, if stale then reason else ""))
    case Updated(stale) => state == Some(StateFile(revision, stale, if stale then reason else ""))
    case LastKnownGood => m.Some? && state == Some(StateFile(m.value.revision, true, reason))
    case Raised(_) => true
  }

  /** `current` as it was, or switched to the new revision with these files and this manifest. */
  ghost predicate Switched(s: FileSystem, before: FileSystem, fin: Name, files: Option<Files>, m: Manifest) {
    if files.None? then KeepsCurrent(s, before)
    else s.current == Some(fin) && s.CurrentDir() == Some(Dir(files.value, Some(m)))
  }

  class Sandbox {
    var fs: FileSystem
    var clock: nat
    const faults: Faults
    ghost var trace: seq<FileSystem>

    constructor (fs: FileSystem, faults: Faults)
      ensures this.fs == fs && this.faults == faults && clock == 0 && trace == []
    {
      this.fs := fs;
      this.faults := faults;
      clock := 0;
      trace := [];
    }

    /** Every command issued since `start`, quiet: none of them was hit by a fault. */
    ghost predicate Quiet(start: nat)
      reads this
    {
      AllFine(faults, start, clock)
    }

    /** The states recorded since `start` are all `base` plus the staging directory. */
    ghost predicate AllStaging(start: nat, base: FileSystem, n: Name)
      reads this
    {
      start <= |trace| && forall t | start <= t < |trace| :: Stages(trace[t], base, n)
    }

    ghost predicate AllSafe(start: nat, before: FileSystem, fin: Name, truth: string -> Content)
      reads this
    {
      start <= |trace| && forall t | start <= t < |trace| :: Safe(trace[t], before, fin, truth)
    }

    /** Issue one command whose effect would be `effect`. */
    method Exec(effect: Option<FileSystem>) returns (ok: bool)
      modifies this
      ensures ok <==> effect.Some? && faults(old(clock)).Fine?
      ensures fs == if ok then effect.value else old(fs)
      ensures clock == old(clock) + 1 && trace == old(trace) + [fs]
    {
      ok := effect.Some? && faults(clock).Fine?;
      if ok {
        fs := effect.value;
      }
      clock := clock + 1;
      trace := trace + [fs];
    }

    /** cp from the current revision into the staging directory. An optional copy raises only when the executor does. */
    method CopyKnowledgeFile(from: Path, to: Path, optional: bool, n: Name, ghost base: FileSystem)
      returns (copied: bool, raised: bool)
      requires Stages(fs, base, n)
      modifies this
      ensures Stages(fs, base, n)
      ensures copied <==> from in base.CurrentFiles() && faults(old(clock)).Fine?
      ensures raised <==> !copied && (!optional || faults(old(clock)).ExecutorRaises?)
      ensures fs.revisions[n] == if copied then PutFile(old(fs.revisions[n]), to, base.CurrentFiles()[from])
                                 else old(fs.revisions[n])
      ensures clock == old(clock) + 1 && trace == old(trace) + [fs]
    {
      var broken := faults(clock).ExecutorRaises?;
      copied := Exec(fs.CopyFromCurrent(from, n, to));
      raised := broken || (!copied && !optional);
    }

    /** Fetch a reference from the object store, check it, and write it into the staging directory. */
    method Download(r: Reference, store: map<string, Content>, to: Path, n: Name, ghost base: FileSystem)
      returns (ok: bool)
      requires Stages(fs, base, n)
      modifies this
      ensures Stages(fs, base, n)
      ensures var fetched := Fetch(r, store).Some? && faults(old(clock)).Fine?;
              && (ok <==> fetched && faults(old(clock) + 1).Fine?)
              && clock == old(clock) + if fetched then 2 else 1
      ensures fs.revisions[n] == if ok then PutFile(old(fs.revisions[n]), to, Fetch(r, store).value)
                                 else old(fs.revisions[n])
      ensures |trace| > |old(trace)| && trace[..|old(trace)|] == old(trace)
      ensures AllStaging(|old(trace)|, base, n)
    {
      var content := Fetch(r, store);
      ok := Exec(if content.Some? then Some(fs) else None);
      if ok {
        ok := Exec(fs.WriteFile(n, to, content.value));
      }
    }

    /** The part of the staging loop body for an item whose file is not kept. */
    method Place(item: Item, inputs: Inputs, n: Name, ghost base: FileSystem) returns (ok: bool)
      requires Stages(fs, base, n)
      modifies this
      ensures Stages(fs, base, n)
      ensures |trace| >= |old(trace)| && trace[..|old(trace)|] == old(trace) && AllStaging(|old(trace)|, base, n)
      ensures fs.revisions[n].manifest == old(fs.revisions[n].manifest)
      ensures (if ok then Some(fs.revisions[n].files) else None, clock)
              == PlaceItem(item, inputs, base.CurrentFiles(), old(fs.revisions[n].files), old(clock), faults)
    {
      if item.id !in inputs.plan.references {
        if HasCurrentPath(inputs.index, item.id) {
          var _, raised :=
            CopyKnowledgeFile(inputs.index[item.id].path, item.path, IsFeishuDocument(item.source.typ), n, base);
          return !raised;
        }
        return true;
      }
      ok := Download(inputs.plan.references[item.id], inputs.store, item.path, n, base);
    }

    /** One pass of the staging loop body. */
    method StageOne(item: Item, inputs: Inputs, n: Name, ghost base: FileSystem) returns (ok: bool)
      requires Stages(fs, base, n)
      modifies this
      ensures Stages(fs, base, n)
      ensures |trace| >= |old(trace)| && trace[..|old(trace)|] == old(trace) && AllStaging(|old(trace)|, base, n)
      ensures fs.revisions[n].manifest == old(fs.revisions[n].manifest)
      ensures (if ok then Some(fs.revisions[n].files) else None, clock)
              == StageItemUnder(item, inputs, base.CurrentFiles(), old(fs.revisions[n].files), old(clock), faults)
    {
      hide PlaceItem, IsFeishuDocument;
      if item.path == NoPath {
        return true;
      }
      var made := Exec(Some(fs));  // mkdir -p of the file's directory; directories are implicit in the model
      if !made {
        return false;
      }
      if item.id !in inputs.plan.refresh && HasCurrentPath(inputs.index, item.id) {
        var copied, raised :=
          CopyKnowledgeFile(inputs.index[item.id].path, item.path, IsFeishuDocument(item.source.typ), n, base);
        if copied || raised {
          return copied;
        }
      }
      ok := Place(item, inputs, n, base);
    }

    /** The staging loop. */
    method StageSources(inputs: Inputs, n: Name, ghost base: FileSystem) returns (ok: bool)
      requires Stages(fs, base, n) && fs.revisions[n] == Dir(map[], None)
      modifies this
      ensures Stages(fs, base, n) && fs.revisions[n].manifest == None
      ensures |trace| >= |old(trace)| && trace[..|old(trace)|] == old(trace) && AllStaging(|old(trace)|, base, n)
      ensures (if ok then Some(fs.revisions[n].files) else None, clock)
              == StageAllUnder(inputs.plan.sources, inputs, base.CurrentFiles(), old(clock), faults)
    {
      hide StageItemUnder;
      var items := inputs.plan.sources;
      ghost var current, start := base.CurrentFiles(), clock;
      for k := 0 to |items|
        invariant Stages(fs, base, n) && fs.revisions[n].manifest == None
        invariant |trace| >= |old(trace)| && trace[..|old(trace)|] == old(trace) && AllStaging(|old(trace)|, base, n)
        invariant (Some(fs.revisions[n].files), clock) == StageAllUnder(items[..k], inputs, current, start, faults)
      {
        StepUnder(items, k, inputs, current, start, faults);
        ok := StageOne(items[k], inputs, n, base);
        if !ok {
          GivenUpStays(items, k + 1, inputs, current, start, faults);
          return false;
        }
      }
      assert items[..|items|] == items;
      return true;
    }

    /** From the staged sources to the switch of `current`: manifest, rename, link, atomic link swap. */
    method Commit(m: Manifest, name: string, ghost base: FileSystem, ghost truth: string -> Content)
      returns (finalCreated: bool, switched: bool)
      requires Stages(fs, base, Staging(name)) && Final(name) !in base.revisions && base.current != Some(Final(name))
      requires WellFormed(m.sources) && AllStaged(m.sources, fs.revisions[Staging(name)].files, truth)
      modifies this
      ensures old(clock) < clock && |trace| >= |old(trace)| && trace[..|old(trace)|] == old(trace)
      ensures AllSafe(|old(trace)|, base, Final(name), truth) && Safe(fs, base, Final(name), truth)
      ensures switched ==> finalCreated
      ensures switched <==> AllFine(faults, old(clock), old(clock) + COMMIT_COMMANDS)
      ensures !switched ==> KeepsCurrent(fs, base) && !Quiet(old(clock))
      ensures switched ==> fs.current == Some(Final(name))
                           && fs.CurrentDir() == Some(Dir(old(fs.revisions[Staging(name)].files), Some(m)))
    {
      hide AllStaged, WellFormed;
      finalCreated, switched := false, false;
      ghost var start := clock;
      var ok := Exec(fs.WriteManifest(Staging(name), m));
      assert ok <==> faults(start).Fine?;
      if !ok {
        return;
      }
      finalCreated := Exec(fs.MoveDir(Staging(name), Final(name)));
      assert finalCreated <==> faults(start + 1).Fine?;
      if !finalCreated {
        return;
      }
      ok := Exec(fs.LinkNext(Final(name)));
      assert ok <==> faults(start + 2).Fine?;
      if !ok {
        return;
      }
      switched := Exec(fs.SwitchCurrent());
      assert switched <==> faults(start + 3).Fine?;
    }

    /** The exception handler: three best-effort removals. */
    method Abandon(name: string, finalCreated: bool, ghost before: FileSystem, ghost truth: string -> Content)
      requires KeepsCurrent(fs, before) && fs.current != Some(Staging(name)) && fs.current != Some(Final(name))
      modifies this
      ensures KeepsCurrent(fs, before)
      ensures clock == old(clock) + (if finalCreated then 3 else 2)
      ensures |trace| >= |old(trace)| && trace[..|old(trace)|] == old(trace)
      ensures AllSafe(|old(trace)|, before, Final(name), truth)
      ensures Quiet(old(clock)) ==> Staging(name) !in fs.revisions && fs.next == None
                                    && (finalCreated ==> Final(name) !in fs.revisions)
    {
      ghost var start := clock;
      var removed := Exec(fs.RemoveDir(Staging(name)));
      assert removed <==> faults(start).Fine?;
      removed := Exec(fs.RemoveNext());
      assert removed <==> faults(start + 1).Fine?;
      if finalCreated {
        removed := Exec(fs.RemoveDir(Final(name)));
        assert removed <==> faults(start + 2).Fine?;
      }
    }

    /** The try block: the staged sources, then the commit. */
    method StageAndCommit(inputs: Inputs, m: Manifest, name: string, ghost base: FileSystem,
                          ghost truth: string -> Content)
      returns (finalCreated: bool, switched: bool)
      requires Stages(fs, base, Staging(name)) && fs.revisions[Staging(name)] == Dir(map[], None)
      requires Final(name) !in base.revisions && base.current != Some(Final(name))
      requires AllSourced(inputs, base.CurrentFiles(), truth) && m.sources == inputs.plan.sources
      modifies this
      ensures old(clock) <= clock && |trace| >= |old(trace)| && trace[..|old(trace)|] == old(trace)
      ensures AllSafe(|old(trace)|, base, Final(name), truth) && Safe(fs, base, Final(name), truth)
      ensures switched ==> finalCreated
      ensures switched <==> Published(inputs, base.CurrentFiles(), old(clock), faults).Some?
      ensures Switched(fs, base, Final(name), Published(inputs, base.CurrentFiles(), old(clock), faults), m)
      ensures Quiet(old(clock)) ==>
                Published(inputs, base.CurrentFiles(), old(clock), faults)
                == StageAll(inputs.plan.sources, inputs, base.CurrentFiles())
    {
      hide StageAll, StageAllUnder, AllStaged, Complete, AllSourced, WellFormed, AllFine;
      finalCreated, switched := false, false;
      ghost var start, current := clock, base.CurrentFiles();
      var staged := StageSources(inputs, Staging(name), base);
      if staged {
        StagedIsRight(inputs, current, start, faults, truth);
        finalCreated, switched := Commit(m, name, base, truth);
      }
      PublishedWithoutFaults(inputs, current, start, faults, clock);
    }

    /** The try block with its handler. Whether `current` is switched, and to which files, is settled by the faults
        that hit the commands up to the switch. */
    method Publish(inputs: Inputs, m: Manifest, name: string, ghost base: FileSystem, ghost truth: string -> Content)
      returns (switched: bool)
      requires Stages(fs, base, Staging(name)) && fs.revisions[Staging(name)] == Dir(map[], None)
      requires Final(name) !in base.revisions && base.current != Some(Final(name))
      requires AllSourced(inputs, base.CurrentFiles(), truth) && m.sources == inputs.plan.sources
      modifies this
      ensures old(clock) < clock && |trace| >= |old(trace)| && trace[..|old(trace)|] == old(trace)
      ensures AllSafe(|old(trace)|, base, Final(name), truth) && Safe(fs, base, Final(name), truth)
      ensures switched <==> Published(inputs, base.CurrentFiles(), old(clock), faults).Some?
      ensures Switched(fs, base, Final(name), Published(inputs, base.CurrentFiles(), old(clock), faults), m)
      ensures Quiet(old(clock)) ==>
                Published(inputs, base.CurrentFiles(), old(clock), faults)
                == StageAll(inputs.plan.sources, inputs, base.CurrentFiles())
      ensures switched && faults((clock - 1) as nat).Fine? ==> fs.revisions.Keys == {Final(name)}
    {
      hide StageAll, Published, Complete, AllSourced;
      var finalCreated;
      finalCreated, switched := StageAndCommit(inputs, m, name, base, truth);
      if switched {
        var _ := Exec(fs.KeepOnly(Final(name)));
      } else {
        Abandon(name, finalCreated, base, truth);
      }
    }

    method ReadManifest() returns (m: Option<Manifest>)
      modifies this
      ensures fs == old(fs) && clock == old(clock) + 1 && trace == old(trace) + [fs]
      ensures m == if faults(old(clock)).Fine? then fs.CurrentManifest() else None
    {
      var ok := Exec(Some(fs));
      m := if ok then fs.CurrentManifest() else None;
    }

    method WriteState(revision: int, stale: bool) returns (ok: bool)
      modifies this
      ensures ok <==> faults(old(clock)).Fine?
      ensures fs == if ok then old(fs).(state := fs.state) else old(fs)
      ensures ok ==> fs.state == Some(StateFile(revision, stale, if stale then REASON else ""))
      ensures clock == old(clock) + 1 && trace == old(trace) + [fs]
    {
      ok := Exec(fs.WriteState(StateFile(revision, stale, if stale then REASON else "")));
    }

    /** The three commands before the try block: revisions root, removal of a left-over stage, empty stage. */
    method Prepare(name: string) returns (ok: bool)
      requires fs.current != Some(Staging(name))
      modifies this
      ensures ok <==> AllFine(faults, old(clock), old(clock) + 3)
      ensures old(clock) < clock && (!ok ==> !Quiet(old(clock)))
      ensures |trace| >= |old(trace)| && trace[..|old(trace)|] == old(trace)
      ensures forall t | |old(trace)| <= t < |trace| :: KeepsCurrent(trace[t], old(fs))
      ensures KeepsCurrent(fs, old(fs))
      ensures ok ==> clock == old(clock) + 3
                     && Staging(name) in fs.revisions && fs.revisions[Staging(name)] == Dir(map[], None)
                     && Stages(fs, old(fs).(revisions := old(fs).revisions - {Staging(name)}), Staging(name))
    {
      ghost var start := clock;
      ok := Exec(Some(fs));
      assert ok <==> faults(start).Fine?;
      if ok {
        ok := Exec(fs.RemoveDir(Staging(name)));
        assert ok <==> faults(start + 1).Fine?;
      }
      if ok {
        ok := Exec(fs.MakeDir(Staging(name)));
        assert ok <==> faults(start + 2).Fine?;
      }
    }

    /** Everything after the staging directory exists: publish, then record the state file. */
    method Refresh(ctx: Context, m: Option<Manifest>, inputs: Inputs, name: string, resolvedAt: string,
                   ghost base: FileSystem, ghost truth: string -> Content)
      returns (outcome: Outcome)
      requires Stages(fs, base, Staging(name)) && fs.revisions[Staging(name)] == Dir(map[], None)
      requires Final(name) !in base.revisions && base.current != Some(Final(name))
      requires AllSourced(inputs, base.CurrentFiles(), truth)
      modifies this
      ensures old(clock) < clock && |trace| >= |old(trace)| && trace[..|old(trace)|] == old(trace)
      ensures AllSafe(|old(trace)|, base, Final(name), truth)
      ensures var files := Published(inputs, base.CurrentFiles(), old(clock), faults);
              && outcome
                 == OutcomeOf(Some(inputs.plan), false, m.Some?, true, files.Some?, faults((clock - 1) as nat).Fine?)
              && Switched(fs, base, Final(name), files, Desired(ctx, inputs.plan, resolvedAt))
      ensures StateMatches(outcome, ctx.revision, m, fs.state)
      ensures Quiet(old(clock)) ==>
                (outcome, fs.CurrentDir()) == ExpectedMiss(ctx, m, base.CurrentDir(), inputs, resolvedAt)
    {
      hide Published, StageAll;
      ghost var start := clock;
      var switched := Publish(inputs, Desired(ctx, inputs.plan, resolvedAt), name, base, truth);
      ghost var mid := clock;
      if !switched && m.None? {
        return Raised(StageFailed);
      }
      var ok := WriteState(if switched then ctx.revision else m.value.revision, !switched || inputs.plan.stale);
      assert Quiet(start) ==> AllFine(faults, start, mid);
      outcome := if !ok then Raised(StateWriteFailed)
                 else if switched then Updated(inputs.plan.stale) else LastKnownGood;
    }

    /** The miss path: prepare the staging directory, then refresh. */
    method Replace(ctx: Context, m: Option<Manifest>, inputs: Inputs, name: string, resolvedAt: string,
                   ghost truth: string -> Content)
      returns (outcome: Outcome)
      requires Final(name) !in fs.revisions && fs.current != Some(Final(name)) && fs.current != Some(Staging(name))
      requires AllSourced(inputs, fs.CurrentFiles(), truth)
      modifies this
      ensures old(clock) < clock && |trace| >= |old(trace)| && trace[..|old(trace)|] == old(trace)
      ensures AllSafe(|old(trace)|, old(fs), Final(name), truth)
      ensures var prepared := AllFine(faults, old(clock), old(clock) + 3);
              var files := if prepared then Published(inputs, old(fs).CurrentFiles(), old(clock) + 3, faults) else None;
              && outcome == OutcomeOf(Some(inputs.plan), false, m.Some?, prepared, files.Some?,
                                      faults((clock - 1) as nat).Fine?)
              && Switched(fs, old(fs), Final(name), files, Desired(ctx, inputs.plan, resolvedAt))
              && (files.None? ==> KeepsCurrent(fs, old(fs)))
      ensures StateMatches(outcome, ctx.revision, m, fs.state)
      ensures Quiet(old(clock)) ==>
                (outcome, fs.CurrentDir()) == ExpectedMiss(ctx, m, old(fs).CurrentDir(), inputs, resolvedAt)
    {
      hide Published, ExpectedMiss;
      ghost var before, start := fs, clock;
      var prepared := Prepare(name);
      if !prepared {
        return Raised(PrepareFailed);
      }
      ghost var base := before.(revisions := before.revisions - {Staging(name)});
      assert KeepsCurrent(base, before);
      ghost var mid, early := clock, |trace|;
      outcome := Refresh(ctx, m, inputs, name, resolvedAt, base, truth);
      assert Quiet(start) ==> Quiet(mid);
      assert AllSafe(early, before, Final(name), truth);
    }

    /** Read the current manifest and plan against it. */
    method Resolve(ctx: Context, ghost store: map<string, Content>, ghost truth: string -> Content)
      returns (m: Option<Manifest>, plan: Option<Plan>)
      requires DistinctEntries(ctx.entries) && HonestReferences(ctx.entries, store, truth)
      requires fs.CurrentManifest().Some? ==> Complete(fs.CurrentDir().value, truth)
      modifies this
      ensures fs == old(fs) && clock == old(clock) + 1 && trace == old(trace) + [fs]
      ensures m == if faults(old(clock)).Fine? then fs.CurrentManifest() else None
      ensures plan == PlanFor(ctx.entries, CurrentById(m))
      ensures plan.Some? ==> AllSourced(Inputs(plan.value, CurrentById(m), store), fs.CurrentFiles(), truth)
    {
      m := ReadManifest();
      plan := PlanSources(ctx.entries, CurrentById(m));
      if plan.Some? {
        ProvisionInputsSourced(ctx, m, if fs.CurrentDir().Some? then fs.CurrentDir().value else Dir(map[], None),
                               store, truth);
      }
    }

    /** Provision the sandbox. Whatever fails, every state the call passes through is safe. The faults settle the rest:
        `current` is switched to the published files, if there are any, and otherwise left alone; the outcome is the
        stated function. With a readable last known good revision the call still raises exactly when some reference is
        invalid, a preparing command fails, or the final state write does. If no command after the read of the
        manifest fails, outcome and revision are those of the reference definition, for the manifest read or none. */
    method Provision(ctx: Context, store: map<string, Content>, name: string, resolvedAt: string,
                     ghost truth: string -> Content)
      returns (outcome: Outcome)
      requires DistinctEntries(ctx.entries) && HonestReferences(ctx.entries, store, truth)
      requires fs.CurrentManifest().Some? ==> Complete(fs.CurrentDir().value, truth)
      requires Final(name) !in fs.revisions && fs.current != Some(Final(name)) && fs.current != Some(Staging(name))
      modifies this
      ensures old(clock) < clock && |trace| >= |old(trace)| && trace[..|old(trace)|] == old(trace)
      ensures AllSafe(|old(trace)|, old(fs), Final(name), truth)
      ensures var m := if faults(old(clock)).Fine? then old(fs).CurrentManifest() else None;
              var plan := PlanFor(ctx.entries, CurrentById(m));
              var hit := plan.Some? && IsHit(ctx, plan.value, m);
              var prepared := AllFine(faults, old(clock) + 1, old(clock) + 4);
              var files := if plan.None? || hit || !prepared then None
                           else Published(Inputs(plan.value, CurrentById(m), store), old(fs).CurrentFiles(),
                                          old(clock) + 4, faults);
              var lastOk := faults((clock - 1) as nat).Fine?;
              && outcome == OutcomeOf(plan, hit, m.Some?, prepared, files.Some?, lastOk)
              && (if files.None? then KeepsCurrent(fs, old(fs))
                  else Switched(fs, old(fs), Final(name), files, Desired(ctx, plan.value, resolvedAt)))
              && StateMatches(outcome, ctx.revision, m, fs.state)
              && (m.Some? ==> (outcome.Raised? <==> plan.None? || (!hit && !prepared) || !lastOk))
              && (Quiet(old(clock) + 1) ==>
                    (outcome, fs.CurrentDir()) == ExpectedFrom(ctx, m, old(fs).CurrentDir(), store, resolvedAt))
    {
      hide PlanFor, StageAll, AllSourced, Complete, DistinctEntries, HonestReferences, ExpectedMiss, CurrentById, IsHit,
           Published, Switched;
      var m, planned := Resolve(ctx, store, truth);
      if planned.None? {
        outcome := Raised(InvalidReference);
      } else if IsHit(ctx, planned.value, m) {
        var ok := WriteState(ctx.revision, planned.value.stale);
        outcome := if ok then Hit(planned.value.stale) else Raised(StateWriteFailed);
      } else {
        outcome := Replace(ctx, m, Inputs(planned.value, CurrentById(m), store), name, resolvedAt, truth);
      }
      assert trace[|old(trace)|] == old(fs);
      assert AllSafe(|old(trace)|, old(fs), Final(name), truth);
    }
  }

  /** A readable last known good revision does not keep the call from raising: one failing mkdir is enough. */
  method RaisesDespiteLastKnownGood() returns (readable: bool, outcome: Outcome)
    ensures readable && outcome == Raised(PrepareFailed)
  {
    var good := Dir(map[], Some(Manifest("agent", 1, [], "")));
    var sandbox := new Sandbox(FileSystem(map[Final("1") := good], Some(Final("1")), None, None),
                               t => if t == 1 then CommandFails else Fine);
    assert sandbox.faults(1) == CommandFails;
    readable := sandbox.fs.CurrentManifest().Some?;
    outcome := sandbox.Provision(Context("agent", 2, []), map[], "2", "", _ => "");
  }
}
