/** Agent Knowledge provisioning onto the host file system: the in-process variant, in which no file operation
    fails. It is proved against the same reference definition as the sandbox variant, so the two agree. */
module KnowledgeHost {
  import opened Prelude
  import opened KnowledgeManifest
  import opened KnowledgeStaging

  class HostWorkspace {
    var current: Option<Dir>
    var previous: Option<Dir>
    var staging: Option<Dir>
    var revision: int
    var stale: bool

    constructor (current: Option<Dir>)
      ensures this.current == current && previous == None && staging == None && revision == 0 && !stale
    {
      this.current, previous, staging, revision, stale := current, None, None, 0, false;
    }

    /** The staging loop; `false` is a raised error. */
    method StageSources(inputs: Inputs) returns (ok: bool)
      requires staging == Some(Dir(map[], None))
      modifies `staging
      ensures staging.Some? && staging.value.manifest == None
      ensures var expected := StageAll(inputs.plan.sources, inputs, FilesOf(current));
              (ok <==> expected.Some?) && (ok ==> staging.value.files == expected.value)
    {
      var items := inputs.plan.sources;
      for k := 0 to |items|
        invariant staging.Some? && staging.value.manifest == None
        invariant StageAll(items[..k], inputs, FilesOf(current)) == Some(staging.value.files)
      {
        StageAllStep(items, k, inputs, FilesOf(current));
        ok := StageOne(items[k], inputs);
        if !ok {
          StageAllFails(items, k + 1, inputs, FilesOf(current));
          return false;
        }
      }
      assert items[..|items|] == items;
      return true;
    }

    method StageOne(item: Item, inputs: Inputs) returns (ok: bool)
      requires staging.Some? && staging.value.manifest == None
      modifies `staging
      ensures staging.Some? && staging.value.manifest == None
      ensures var expected := StageItem(item, inputs, FilesOf(current), old(staging.value.files));
              (ok <==> expected.Some?) && (ok ==> staging.value.files == expected.value)
    {
      if item.path == NoPath {
        return true;
      }
      var copy := CurrentCopy(inputs.index, item.id, FilesOf(current));
      var document := IsFeishuDocument(item.source.typ);
      if item.id !in inputs.plan.refresh && HasCurrentPath(inputs.index, item.id) {
        if copy.Some? {
          PutStaged(item.path, copy.value);
          return true;
        }
        if !document {
          return false;
        }
      }
      if item.id !in inputs.plan.references {
        if HasCurrentPath(inputs.index, item.id) {
          if copy.Some? {
            PutStaged(item.path, copy.value);
          } else if !document {
            return false;
          }
        }
        return true;
      }
      var content := Fetch(inputs.plan.references[item.id], inputs.store);
      if content.None? {
        return false;
      }
      PutStaged(item.path, content.value);
      return true;
    }

    method PutStaged(path: Path, content: Content)
      requires staging.Some?
      modifies `staging
      ensures staging == Some(old(staging.value).(files := old(staging.value.files)[path := content]))
    {
      staging := Some(staging.value.(files := staging.value.files[path := content]));
    }

    /** Two renames put the staged directory in the place of the current one. */
    method Provision(ctx: Context, store: map<string, Content>, resolvedAt: string) returns (outcome: Outcome)
      modifies this
      ensures (outcome, current) == Expected(ctx, old(current), store, resolvedAt)
      ensures outcome.Hit? || outcome.Updated? ==> revision == ctx.revision && stale == outcome.stale
      ensures outcome.LastKnownGood? ==> revision == ManifestOf(old(current)).value.revision && stale
      ensures outcome.Raised? ==> revision == old(revision) && stale == old(stale)
    {
      var m := ManifestOf(current);
      var index := CurrentById(m);
      var planned := PlanSources(ctx.entries, index);
      if planned.None? {
        return Raised(InvalidReference);
      }
      var plan := planned.value;
      if IsHit(ctx, plan, m) {
        revision, stale := ctx.revision, plan.stale;
        return Hit(plan.stale);
      }
      staging := Some(Dir(map[], None));
      var ok := StageSources(Inputs(plan, index, store));
      if !ok {
        staging := None;
        if m.None? {
          return Raised(StageFailed);
        }
        revision, stale := m.value.revision, true;
        return LastKnownGood;
      }
      staging := Some(staging.value.(manifest := Some(Desired(ctx, plan, resolvedAt))));
      previous := None;
      if current.Some? {
        previous, current := current, None;
      }
      current, staging := staging, None;
      previous := None;
      revision, stale := ctx.revision, plan.stale;
      return Updated(plan.stale);
    }
  }
}
