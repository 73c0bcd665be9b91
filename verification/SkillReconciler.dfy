/** The server's reconciliation and the script it runs in the sandbox, command by command, with a fault choice for
    every command. A failed copy or extraction leaves a broken directory behind; any other failed command has no
    effect. */
module SkillReconciler {
  import opened Prelude
  import opened SkillSets

  const BROKEN := Own(Tree(map[]))

  lemma {:induction false} OneMoreDescriptor(env: Env, skills: seq<Skill>, userId: string, n: nat)
    requires n < |skills|
    ensures DescriptorsOf(env, skills[..n + 1], userId)
            == DescriptorsOf(env, skills[..n], userId) + [DescriptorOf(env, skills[n], userId)]
  {
    assert skills[..n + 1][..n] == skills[..n];
  }

  function IdSet(ds: seq<Descriptor>): set<string> {
    if ds == [] then {} else IdSet(ds[..|ds| - 1]) + {ds[|ds| - 1].id}
  }

  lemma {:induction false} UniqueExtends(ds: seq<Descriptor>, d: Descriptor)
    ensures UniqueIds(ds + [d]) <==> UniqueIds(ds) && d.id !in IdSet(ds)
    ensures IdSet(ds + [d]) == IdSet(ds) + {d.id}
  {
    var all := ds + [d];
    assert all[..|ds|] == ds;
    InIdSet(ds, d.id);
    if UniqueIds(all) {
      forall i, j | 0 <= i < j < |ds| ensures ds[i].id != ds[j].id {
        assert all[i].id != all[j].id;
      }
      forall i | 0 <= i < |ds| ensures ds[i].id != d.id {
        assert all[i].id != all[|ds|].id;
      }
    }
  }

  lemma {:induction false} InIdSet(ds: seq<Descriptor>, id: string)
    ensures id in IdSet(ds) <==> exists i | 0 <= i < |ds| :: ds[i].id == id
  {
    if ds != [] {
      var n := |ds| - 1;
      InIdSet(ds[..n], id);
      if id in IdSet(ds[..n]) {
        var i :| 0 <= i < n && ds[..n][i].id == id;
        assert ds[i].id == id;
      }
      if i :| 0 <= i < n && ds[i].id == id {
        assert ds[..n][i].id == id;
      }
    }
  }

  lemma {:induction false} DuplicateStays(env: Env, skills: seq<Skill>, userId: string, n: nat)
    requires n <= |skills| && !UniqueIds(DescriptorsOf(env, skills[..n], userId))
    ensures !UniqueIds(DescriptorsOf(env, skills, userId))
  {
    if n == |skills| {
      assert skills[..n] == skills;
    } else {
      assert skills[..|skills| - 1][..n] == skills[..n];
      DuplicateStays(env, skills[..|skills| - 1], userId, n);
      UniqueExtends(DescriptorsOf(env, skills[..|skills| - 1], userId),
                    DescriptorOf(env, skills[|skills| - 1], userId));
    }
  }

  /** Validate the Skills and describe them; the digest is over the sorted list. */
  method SkillDescriptors(env: Env, skills: seq<Skill>, userId: string) returns (r: Result<seq<Descriptor>, string>)
    ensures r.Ok? <==> (forall i | 0 <= i < |skills| :: env.validId(skills[i].nativeId))
                       && UniqueIds(DescriptorsOf(env, skills, userId))
    ensures r.Ok? ==> r.value == env.sort(DescriptorsOf(env, skills, userId))
  {
    var descriptors: seq<Descriptor> := [];
    var seenIds: set<string> := {};
    var n := 0;
    while n < |skills|
      invariant n <= |skills| && descriptors == DescriptorsOf(env, skills[..n], userId)
      invariant forall i | 0 <= i < n :: env.validId(skills[i].nativeId)
      invariant UniqueIds(descriptors) && seenIds == IdSet(descriptors)
    {
      var d := DescriptorOf(env, skills[n], userId);
      OneMoreDescriptor(env, skills, userId, n);
      UniqueExtends(descriptors, d);
      hide UniqueIds, IdSet, DescriptorsOf;
      if !env.validId(d.id) {
        return Err("invalid Runtime skill id");
      }
      if d.id in seenIds {
        DuplicateStays(env, skills, userId, n + 1);
        return Err("duplicate normalized skill id");
      }
      seenIds := seenIds + {d.id};
      descriptors := descriptors + [d];
      n := n + 1;
    }
    assert skills[..n] == skills;
    return Ok(env.sort(descriptors));
  }

  method BuildSkillBatchArchive(env: Env, skills: seq<Skill>, ds: seq<Descriptor>, previous: seq<Descriptor>,
                                selected: Inventory)
    returns (archive: Option<Archive>)
    ensures archive == ArchiveFor(env, skills, previous, ds, selected)
  {
    var items: seq<Item> := [];
    var n := 0;
    while n < |ds|
      invariant n <= |ds| && ItemsFor(env, skills, previous, ds[..n]) == Some(items)
    {
      hide ItemFor;
      assert ds[..n + 1][..n] == ds[..n];
      var item := ItemFor(env, skills, previous, ds[n]);
      if item.None? {
        NoItemsAfter(env, skills, previous, ds, n + 1);
        return None;
      }
      items := items + [item.value];
      n := n + 1;
    }
    assert ds[..n] == ds;
    return Some(Archive(env.hash(ds), items, Ids(Items(selected)), InventoryDigest(env, selected)));
  }

  lemma {:induction false} NoItemsAfter(env: Env, skills: seq<Skill>, previous: seq<Descriptor>, ds: seq<Descriptor>,
                                        n: nat)
    requires n <= |ds| && ItemsFor(env, skills, previous, ds[..n]).None?
    ensures ItemsFor(env, skills, previous, ds).None?
  {
    if n == |ds| {
      assert ds[..n] == ds;
    } else {
      assert ds[..|ds| - 1][..n] == ds[..n];
      NoItemsAfter(env, skills, previous, ds[..|ds| - 1], n);
    }
  }

  lemma {:induction false} AtMostOnce(ds: seq<Descriptor>, d: Descriptor)
    requires UniqueIds(ds)
    ensures multiset(ds)[d] <= 1
  {
    if ds != [] {
      var n := |ds| - 1;
      assert ds == ds[..n] + [ds[n]];
      AtMostOnce(ds[..n], d);
      if d == ds[n] {
        assert d !in ds[..n];
      }
    }
  }

  lemma Twice(ds: seq<Descriptor>, i: nat, j: nat)
    requires i < j < |ds| && ds[i] == ds[j]
    ensures multiset(ds)[ds[i]] >= 2
  {
    assert ds == ds[..j] + ds[j..];
    assert ds[..j][i] == ds[i] && ds[j..][0] == ds[i];
  }

  lemma UniqueSurvivesSort(orig: seq<Descriptor>, sorted: seq<Descriptor>)
    requires UniqueIds(orig) && multiset(orig) == multiset(sorted)
    ensures UniqueIds(sorted)
  {
    forall i, j | 0 <= i < j < |sorted|
      ensures sorted[i].id != sorted[j].id
    {
      AtMostOnce(orig, sorted[i]);
      assert sorted[i] in multiset(orig) && sorted[j] in multiset(orig);
      var a :| 0 <= a < |orig| && orig[a] == sorted[i];
      var b :| 0 <= b < |orig| && orig[b] == sorted[j];
      if sorted[i] == sorted[j] {
        Twice(sorted, i, j);
      }
    }
  }

  lemma {:induction false} NoDirsAfter(items: seq<Item>, installed: Option<SkillSet>, n: nat)
    requires n <= |items| && ItemDirs(items[..n], installed).None?
    ensures ItemDirs(items, installed).None?
  {
    if n == |items| {
      assert items[..n] == items;
    } else {
      assert items[..|items| - 1][..n] == items[..n];
      NoDirsAfter(items[..|items| - 1], installed, n);
    }
  }

  class SkillStore {
    const fails: nat -> bool
    var sets: map<string, SkillSet>
    var current: Option<string>
    var nextLink: Option<string>
    var ops: nat
    /** What was under `current` after each command. */
    ghost var seen: seq<Option<SkillSet>>

    function Installed(): Option<SkillSet>
      reads this
    {
      if current.Some? && current.value in sets then Some(sets[current.value]) else None
    }

    /** `was` is what is installed, and all that has been seen since `before`. */
    ghost predicate Still(before: seq<Option<SkillSet>>, was: Option<SkillSet>)
      reads this
    {
      before <= seen && Installed() == was && forall i | |before| <= i < |seen| :: seen[i] == was
    }

    method Command() returns (ok: bool)
      modifies `ops
      ensures ok == !fails(old(ops)) && ops == old(ops) + 1
    {
      ok := !fails(ops);
      ops := ops + 1;
    }

    /** One Skill directory of the stage. */
    method StageItem(stage: string, item: Item) returns (ok: bool)
      requires stage in sets && current != Some(stage)
      modifies `sets, `ops, `seen
      ensures stage in sets && sets - {stage} == old(sets) - {stage} && ops == old(ops) + 1
      ensures Installed() == old(Installed()) && seen == old(seen) + [Installed()]
      ensures ok <==> !fails(old(ops)) && TreeFor(item, Installed()).Some?
      ensures ok ==> sets[stage]
                     == old(sets[stage]).(dirs := old(sets[stage]).dirs[item.descriptor.id :=
                                                                          Own(TreeFor(item, Installed()).value)])
    {
      var tree := TreeFor(item, Installed());
      ok := Command();
      ok := ok && tree.Some?;
      var entry := if ok then Own(tree.value) else BROKEN;
      sets := sets[stage := sets[stage].(dirs := sets[stage].dirs[item.descriptor.id := entry])];
      seen := seen + [Installed()];
    }

    method StageItems(stage: string, items: seq<Item>) returns (ok: bool)
      requires stage in sets && current != Some(stage) && sets[stage] == SkillSet(map[], None)
      modifies `sets, `ops, `seen
      ensures stage in sets && sets - {stage} == old(sets) - {stage}
      ensures Still(old(seen), old(Installed()))
      ensures ok ==>
                ItemDirs(items, Installed()).Some? && sets[stage] == SkillSet(ItemDirs(items, Installed()).value, None)
      ensures !ok && (forall i :: !fails(i)) ==> ItemDirs(items, Installed()).None?
    {
      ghost var installed := Installed();
      var n := 0;
      while n < |items|
        invariant n <= |items| && stage in sets && sets - {stage} == old(sets) - {stage}
        invariant Still(old(seen), installed)
        invariant ItemDirs(items[..n], installed).Some?
                  && sets[stage] == SkillSet(ItemDirs(items[..n], installed).value, None)
      {
        hide TreeFor;
        assert items[..n + 1][..n] == items[..n];
        ok := StageItem(stage, items[n]);
        if !ok {
          if TreeFor(items[n], installed).None? {
            NoDirsAfter(items, installed, n + 1);
          }
          return false;
        }
        n := n + 1;
      }
      assert items[..n] == items;
      return true;
    }

    /** The image's items, each a link; a configured id in the way stops the script. */
    method LinkItems(stage: string, items: seq<PlatformItem>, ds: seq<Descriptor>) returns (ok: bool)
      requires stage in sets && current != Some(stage) && sets[stage].manifest.None?
      modifies `sets, `ops, `seen
      ensures stage in sets && sets - {stage} == old(sets) - {stage}
      ensures Still(old(seen), old(Installed()))
      ensures ok ==> !Collides(ds, items) && sets[stage] == SkillSet(Linked(old(sets[stage]).dirs, items), None)
      ensures !ok && (forall i :: !fails(i)) ==> Collides(ds, items)
    {
      ghost var installed := Installed();
      var n := 0;
      while n < |items|
        invariant n <= |items| && stage in sets && sets - {stage} == old(sets) - {stage}
        invariant Still(old(seen), installed)
        invariant sets[stage] == SkillSet(Linked(old(sets[stage]).dirs, items[..n]), None)
        invariant !Collides(ds, items[..n])
      {
        assert items[..n + 1][..n] == items[..n];
        if i :| 0 <= i < |ds| && ds[i].id == items[n].id {
          return false;
        }
        ok := Command();
        if !ok {
          return false;
        }
        sets := sets[stage := sets[stage].(dirs := sets[stage].dirs[items[n].id := Link(items[n])])];
        seen := seen + [Installed()];
        n := n + 1;
      }
      assert items[..n] == items;
      return true;
    }

    /** Fill the stage: Skills, platform links, manifest. */
    method Stage(env: Env, archive: Archive, stage: string, inventory: Inventory) returns (ok: bool)
      requires stage in sets && current != Some(stage) && sets[stage] == SkillSet(map[], None)
      modifies `sets, `ops, `seen
      ensures stage in sets && sets - {stage} == old(sets) - {stage}
      ensures Still(old(seen), old(Installed()))
      ensures ok ==> Reconciled(env, archive, Installed(), inventory) == Some(sets[stage])
      ensures !ok && (forall i :: !fails(i)) ==> Reconciled(env, archive, Installed(), inventory).None?
    {
      hide ItemDirs, Collides, Linked, Keep, AllAvailable;
      ok := StageItems(stage, archive.items);
      if !ok {
        return;
      }
      if !AllAvailable(archive.platformIds, Items(inventory)) {
        return false;
      }
      var kept := if inventory.Some? then Some(Keep(inventory.value, archive.platformIds)) else None;
      if InventoryDigest(env, kept) != archive.platformDigest {
        return false;
      }
      ok := LinkItems(stage, Items(kept), DescriptorsIn(archive.items));
      if !ok {
        return;
      }
      ok := Command();
      if ok {
        var manifest := Manifest(archive.digest, DescriptorsIn(archive.items), archive.platformDigest, Items(kept));
        sets := sets[stage := sets[stage].(manifest := Some(manifest))];
        seen := seen + [Installed()];
      }
    }

    /** Point `current` at the stage by renaming a new link over it. */
    method Swap(stage: string) returns (ok: bool)
      requires stage in sets && current != Some(stage)
      modifies `current, `nextLink, `ops, `seen
      ensures if ok then current == Some(stage) else current == old(current)
      ensures old(seen) <= seen
      ensures forall i | |old(seen)| <= i < |seen| ::
                seen[i] == old(Installed()) || (ok && seen[i] == Some(sets[stage]))
      ensures !ok ==> exists i :: fails(i)
    {
      if nextLink.Some? {
        ok := Command();
        if !ok {
          assert fails(old(ops));
          return;
        }
        nextLink := None;
        seen := seen + [Installed()];
      }
      ok := Command();
      if !ok {
        assert fails(ops - 1);
        return;
      }
      nextLink := Some(stage);
      seen := seen + [Installed()];
      ok := Command();
      if !ok {
        assert fails(ops - 1);
        return;
      }
      nextLink, current := None, Some(stage);
      seen := seen + [Installed()];
    }

    /** Remove all sets but the new and the previous one; a removal that fails is ignored. */
    method CleanUp(keep: set<string>) returns (ok: bool)
      requires current.Some? && current.value in keep && current.value in sets
      modifies `sets, `ops, `seen
      ensures forall name | name in keep && name in old(sets) :: name in sets && sets[name] == old(sets)[name]
      ensures sets.Keys <= old(sets).Keys && ((forall i :: !fails(i)) ==> sets.Keys <= keep)
      ensures Still(old(seen), old(Installed()))
      ensures !ok ==> exists i :: fails(i)
    {
      ok := Command();
      if !ok {
        assert fails(old(ops));
        return;
      }
      ghost var installed := Installed();
      var names := sets.Keys - keep;
      while names != {}
        invariant names !! keep && current == old(current)
        invariant sets.Keys <= old(sets).Keys
        invariant (forall i :: !fails(i)) ==> sets.Keys <= keep + names
        invariant forall name | name in keep && name in old(sets) :: name in sets && sets[name] == old(sets)[name]
        invariant Still(old(seen), installed)
        decreases |names|
      {
        var name :| name in names;
        Remove(name);
        names := names - {name};
      }
      ok := true;
    }

    /** Remove one set that is not installed; a failure is ignored. */
    method Remove(name: string)
      requires current != Some(name)
      modifies `sets, `ops, `seen
      ensures Installed() == old(Installed())
      ensures old(seen) <= seen && forall i | |old(seen)| <= i < |seen| :: seen[i] == Installed()
      ensures sets == if fails(old(ops)) then old(sets) else old(sets) - {name}
    {
      var removed := Command();
      if removed {
        sets := sets - {name};
        seen := seen + [Installed()];
      }
    }

    /** Remove a stage that was not installed, as far as possible. */
    method Discard(stage: string)
      requires current != Some(stage)
      modifies `sets, `ops, `seen
      ensures Still(old(seen), old(Installed()))
      ensures sets - {stage} == old(sets) - {stage} && ((forall i :: !fails(i)) ==> stage !in sets)
    {
      Remove(stage);
    }

    /** The whole script. At every moment `current` shows the old set or, after the swap, the new one; the script
        installs exactly what it would without faults, or leaves `current` alone; and without faults it gives up only
        when it must. `stage` is the fresh name `mkdtemp` picks. */
    method Reconcile(env: Env, archive: Archive, stage: string, inventory: Inventory) returns (raised: bool)
      requires stage !in sets && current != Some(stage)
      modifies this
      ensures old(seen) <= seen
      ensures forall i | |old(seen)| <= i < |seen| :: seen[i] == old(Installed()) || seen[i] == Installed()
      ensures Installed() == old(Installed())
              || (Installed().Some? && Installed() == Reconciled(env, archive, old(Installed()), inventory))
      ensures !raised ==> Installed().Some? && Installed() == Reconciled(env, archive, old(Installed()), inventory)
      ensures (forall i :: !fails(i)) ==> (raised <==> Reconciled(env, archive, old(Installed()), inventory).None?)
      ensures old(current).Some? && old(current.value in sets) ==>
                old(current.value) in sets && sets[old(current.value)] == old(sets[current.value])
      ensures (forall i :: !fails(i)) && !raised ==>
                sets.Keys <= {stage} + if old(current).Some? then {old(current.value)} else {}
    {
      hide Reconciled;
      var ok := Command();
      if !ok {
        assert fails(old(ops));
        return true;
      }
      var oldName := current;
      sets := sets[stage := SkillSet(map[], None)];
      seen := seen + [Installed()];
      ok := Stage(env, archive, stage, inventory);
      if ok {
        ok := Swap(stage);
      }
      if !ok {
        Discard(stage);
        return true;
      }
      ok := CleanUp({stage} + if oldName.Some? then {oldName.value} else {});
      raised := !ok;
    }

    /** `_sync_skills_into_sandbox`: inspect, compare digests, and reconcile if they differ. `inspected` is the
        inventory the inspection reports, unless it fails; `inventory` the one the script finds. */
    method Sync(env: Env, skills: seq<Skill>, userId: string, inspected: Option<Inventory>, inventory: Inventory,
                custom: bool, stage: string)
      returns (r: Result<(seq<Descriptor>, seq<PlatformItem>), string>)
      requires Honest(env, skills, userId) && Consistent(env, Installed())
      requires stage !in sets && current != Some(stage)
      modifies this
      ensures Consistent(env, Installed()) && old(seen) <= seen
      ensures forall i | |old(seen)| <= i < |seen| :: seen[i] == old(Installed()) || seen[i] == Installed()
      ensures Installed() == old(Installed())
              || (inspected.Some? && Installs(env, skills, userId, Selected(inspected.value, custom)))
      ensures r.Ok? ==> inspected.Some? && Installs(env, skills, userId, Selected(inspected.value, custom))
                        && r.value
                           == (env.sort(DescriptorsOf(env, skills, userId)), Items(Selected(inspected.value, custom)))
      ensures r.Ok? ==> Holds(env, skills, userId, Items(inspected.value), custom, r.value.1, Installed().value.dirs)
      ensures r.Ok? ==> multiset(r.value.0) == multiset(DescriptorsOf(env, skills, userId))
      ensures inspected == Some(inventory) && (forall i :: !fails(i)) ==>
                (r.Ok? <==>
                   && (forall i | 0 <= i < |skills| :: env.validId(skills[i].nativeId))
                   && (forall i, j | 0 <= i < j < |skills| :: skills[i].nativeId != skills[j].nativeId)
                   && (forall i | 0 <= i < |Items(inventory)| :: env.validId(Items(inventory)[i].id))
                   && (forall i, j | 0 <= i < j < |Items(inventory)| ::
                         Items(inventory)[i].id != Items(inventory)[j].id)
                   && !Clash(skills, Items(inventory), custom)
                   && forall k | 0 <= k < |skills| :: Obtainable(env, skills[k], userId, old(Installed())))
    {
      hide Obtainable, Clash, Holds, UniqueIds;
      DistinctIff(env, skills, userId);
      if inspected.None? || !ValidInventory(env, Items(inspected.value)) {
        return Err("skill set inspection failed");
      }
      var selected := Selected(inspected.value, custom);
      var described := SkillDescriptors(env, skills, userId);
      if described.Err? {
        return Err(described.error);
      }
      var ds := described.value;
      ClashIff(env, skills, userId, ds, inspected.value, custom);
      if Collides(ds, Items(selected)) {
        return Err("configured Skill uses reserved platform id");
      }
      var loaded := (ds, Items(selected));
      UniqueSurvivesSort(DescriptorsOf(env, skills, userId), ds);
      WantedHolds(env, skills, userId, ds, inspected.value, custom);
      var installed := Installed();
      if installed.Some? && installed.value.manifest.Some? {
        var m := installed.value.manifest.value;
        if m.digest == env.hash(ds) && m.platformDigest == InventoryDigest(env, selected) {
          HitMeansDone(env, skills, userId, installed.value, ds, selected);
          UnchangedAreObtainable(env, skills, userId, installed, ds);
          return Ok(loaded);
        }
      }
      var raised := ReconcileTo(env, skills, userId, ds, selected, inventory, stage);
      if inspected == Some(inventory) {
        SucceedsIff(env, skills, userId, installed, ds, inventory, custom);
      }
      return if raised then Err("batch skill sync failed") else Ok(loaded);
    }

    /** What is installed is exactly a from-scratch build of these Skills and platform items, manifest included. */
    ghost predicate Installs(env: Env, skills: seq<Skill>, userId: string, selected: Inventory)
      reads this
    {
      var ds := env.sort(DescriptorsOf(env, skills, userId));
      && Installed().Some? && Right(env, Installed().value)
      && Installed().value.dirs == Wanted(env, ds, Items(selected))
      && Installed().value.manifest.value.skills == ds
      && Installed().value.manifest.value.platformItems == Items(selected)
    }

    /** Build the archive and run the script. */
    method ReconcileTo(env: Env, skills: seq<Skill>, userId: string, ds: seq<Descriptor>, selected: Inventory,
                       inventory: Inventory, stage: string) returns (raised: bool)
      requires Honest(env, skills, userId) && Consistent(env, Installed())
      requires ds == env.sort(DescriptorsOf(env, skills, userId)) && UniqueIds(DescriptorsOf(env, skills, userId))
               && UniqueIds(ds)
      requires stage !in sets && current != Some(stage)
      modifies this
      ensures Consistent(env, Installed()) && old(seen) <= seen
      ensures forall i | |old(seen)| <= i < |seen| :: seen[i] == old(Installed()) || seen[i] == Installed()
      ensures Installed() == old(Installed()) || Installs(env, skills, userId, selected)
      ensures !raised ==> Installs(env, skills, userId, selected)
      ensures var archive := ArchiveFor(env, skills, PreviousSkills(old(Installed())), ds, selected);
              (forall i :: !fails(i)) ==>
                (raised <==> archive.None? || Reconciled(env, archive.value, old(Installed()), inventory).None?)
    {
      hide ArchiveFor, Reconciled, Right, Wanted, UniqueIds;
      var installed := Installed();
      var archive := BuildSkillBatchArchive(env, skills, ds, PreviousSkills(installed), selected);
      if archive.None? {
        return true;
      }
      raised := Reconcile(env, archive.value, stage, inventory);
      if Reconciled(env, archive.value, installed, inventory).Some? {
        IncrementalIsFromScratch(env, skills, userId, installed, ds, selected, inventory);
      }
    }
  }

  lemma DistinctIff(env: Env, skills: seq<Skill>, userId: string)
    ensures UniqueIds(DescriptorsOf(env, skills, userId))
            <==> forall i, j | 0 <= i < j < |skills| :: skills[i].nativeId != skills[j].nativeId
  {
    DescriptorsAt(env, skills, userId);
    hide DescriptorsOf;
    var ds := DescriptorsOf(env, skills, userId);
    assert forall i | 0 <= i < |ds| :: ds[i].id == skills[i].nativeId;
  }

  predicate ValidInventory(env: Env, items: seq<PlatformItem>) {
    && (forall i | 0 <= i < |items| :: env.validId(items[i].id))
    && (forall i, j | 0 <= i < j < |items| :: items[i].id != items[j].id)
  }

  /** A Skill has the id of a platform item that would be taken. */
  predicate Clash(skills: seq<Skill>, items: seq<PlatformItem>, custom: bool) {
    exists i, j | 0 <= i < |skills| && 0 <= j < |items| ::
      skills[i].nativeId == items[j].id && (!custom || "cocola-" <= items[j].id)
  }

  lemma ClashIff(env: Env, skills: seq<Skill>, userId: string, ds: seq<Descriptor>, inventory: Inventory, custom: bool)
    requires multiset(ds) == multiset(DescriptorsOf(env, skills, userId))
    ensures Collides(ds, Items(Selected(inventory, custom))) <==> Clash(skills, Items(inventory), custom)
  {
    SelectedIs(inventory, custom);
    hide Selected;
    if Collides(ds, Items(Selected(inventory, custom))) {
      CollidingClash(env, skills, userId, ds, Items(inventory), Items(Selected(inventory, custom)), custom);
    }
    if Clash(skills, Items(inventory), custom) {
      ClashCollides(env, skills, userId, ds, Items(inventory), Items(Selected(inventory, custom)), custom);
    }
  }

  lemma CollidingClash(env: Env, skills: seq<Skill>, userId: string, ds: seq<Descriptor>, items: seq<PlatformItem>,
                       taken: seq<PlatformItem>, custom: bool)
    requires multiset(ds) == multiset(DescriptorsOf(env, skills, userId)) && Collides(ds, taken)
    requires forall it | it in taken :: it in items && (!custom || "cocola-" <= it.id)
    ensures Clash(skills, items, custom)
  {
    hide DescriptorsOf;
    var i, j :| 0 <= i < |ds| && 0 <= j < |taken| && ds[i].id == taken[j].id;
    var k := DescribedSkill(env, skills, userId, ds, i);
    assert taken[j] in items;
    var m :| 0 <= m < |items| && items[m] == taken[j];
    assert skills[k].nativeId == items[m].id;
  }

  lemma ClashCollides(env: Env, skills: seq<Skill>, userId: string, ds: seq<Descriptor>, items: seq<PlatformItem>,
                      taken: seq<PlatformItem>, custom: bool)
    requires multiset(ds) == multiset(DescriptorsOf(env, skills, userId)) && Clash(skills, items, custom)
    requires forall it | it in items && (!custom || "cocola-" <= it.id) :: it in taken
    ensures Collides(ds, taken)
  {
    DescriptorsAt(env, skills, userId);
    hide DescriptorsOf;
    var i, j :| 0 <= i < |skills| && 0 <= j < |items| && skills[i].nativeId == items[j].id
                && (!custom || "cocola-" <= items[j].id);
    assert items[j] in taken;
    assert DescriptorsOf(env, skills, userId)[i] in multiset(ds);
    var k :| 0 <= k < |ds| && ds[k] == DescriptorsOf(env, skills, userId)[i];
    var m :| 0 <= m < |taken| && taken[m] == items[j];
    assert ds[k].id == taken[m].id;
  }

  /** What an installed set holds: of the platform items exactly those taken, each as a link, in inventory order, and of
      a custom set only those whose id starts with cocola-; every Skill as its own content; and nothing else. */
  ghost predicate Holds(env: Env, skills: seq<Skill>, userId: string, items: seq<PlatformItem>, custom: bool,
                        taken: seq<PlatformItem>, dirs: map<string, Entry>) {
    && (forall i | 0 <= i < |items| :: items[i] in taken <==> !custom || "cocola-" <= items[i].id)
    && (forall k | 0 <= k < |taken| :: taken[k] in items)
    && (forall a, b | 0 <= a < b < |taken| :: Precedes(items, taken[a], taken[b]))
    && (forall k | 0 <= k < |taken| :: taken[k].id in dirs && dirs[taken[k].id] == Link(taken[k]))
    && (forall k | 0 <= k < |skills| ::
          skills[k].nativeId in dirs
          && dirs[skills[k].nativeId] == Own(env.content(DescriptorOf(env, skills[k], userId))))
    && (forall id | id in dirs ::
          || (exists k | 0 <= k < |taken| :: taken[k].id == id)
          || (exists k | 0 <= k < |skills| :: skills[k].nativeId == id))
  }

  lemma WantedHolds(env: Env, skills: seq<Skill>, userId: string, ds: seq<Descriptor>, inventory: Inventory,
                    custom: bool)
    requires ValidInventory(env, Items(inventory)) && UniqueIds(ds)
    requires multiset(ds) == multiset(DescriptorsOf(env, skills, userId))
    requires !Collides(ds, Items(Selected(inventory, custom)))
    ensures var taken := Items(Selected(inventory, custom));
            Holds(env, skills, userId, Items(inventory), custom, taken, Wanted(env, ds, taken))
  {
    hide Selected, DescriptorsOf, Wanted, UniqueIds, DescriptorOf;
    SelectedIs(inventory, custom);
    TakenAreDistinct(env, inventory, custom);
    var taken := Items(Selected(inventory, custom));
    forall k | 0 <= k < |taken|
      ensures taken[k].id in Wanted(env, ds, taken) && Wanted(env, ds, taken)[taken[k].id] == Link(taken[k])
    {
      WantedIs(env, ds, taken, "");
    }
    forall k | 0 <= k < |skills|
      ensures var id := skills[k].nativeId;
              id in Wanted(env, ds, taken)
              && Wanted(env, ds, taken)[id] == Own(env.content(DescriptorOf(env, skills[k], userId)))
    {
      SkillIsWanted(env, skills, userId, ds, taken, k);
    }
    forall id | id in Wanted(env, ds, taken)
      ensures (exists k | 0 <= k < |taken| :: taken[k].id == id)
              || (exists k | 0 <= k < |skills| :: skills[k].nativeId == id)
    {
      NothingElseIsWanted(env, skills, userId, ds, taken, id);
    }
  }

  lemma SkillIsWanted(env: Env, skills: seq<Skill>, userId: string, ds: seq<Descriptor>, taken: seq<PlatformItem>,
                      k: nat)
    requires UniqueIds(ds) && multiset(ds) == multiset(DescriptorsOf(env, skills, userId)) && k < |skills|
    requires (forall i, j | 0 <= i < j < |taken| :: taken[i].id != taken[j].id) && !Collides(ds, taken)
    ensures var id := skills[k].nativeId;
            id in Wanted(env, ds, taken)
            && Wanted(env, ds, taken)[id] == Own(env.content(DescriptorOf(env, skills[k], userId)))
  {
    hide DescriptorsOf, Wanted, UniqueIds;
    DescriptorsAt(env, skills, userId);
    WantedIs(env, ds, taken, "");
    assert DescriptorsOf(env, skills, userId)[k] in multiset(ds);
    var i :| 0 <= i < |ds| && ds[i] == DescriptorOf(env, skills[k], userId);
  }

  lemma NothingElseIsWanted(env: Env, skills: seq<Skill>, userId: string, ds: seq<Descriptor>, taken: seq<PlatformItem>,
                            id: string)
    requires UniqueIds(ds) && multiset(ds) == multiset(DescriptorsOf(env, skills, userId))
    requires (forall i, j | 0 <= i < j < |taken| :: taken[i].id != taken[j].id) && !Collides(ds, taken)
    requires id in Wanted(env, ds, taken)
    ensures (exists k | 0 <= k < |taken| :: taken[k].id == id)
            || (exists k | 0 <= k < |skills| :: skills[k].nativeId == id)
  {
    hide DescriptorsOf, Wanted, UniqueIds;
    WantedIs(env, ds, taken, id);
    if i :| 0 <= i < |ds| && ds[i].id == id {
      var k := DescribedSkill(env, skills, userId, ds, i);
      assert skills[k].nativeId == id;
    }
  }

  lemma TakenAreDistinct(env: Env, inventory: Inventory, custom: bool)
    requires ValidInventory(env, Items(inventory))
    ensures var taken := Items(Selected(inventory, custom));
            forall i, j | 0 <= i < j < |taken| :: taken[i].id != taken[j].id
  {
    hide Selected;
    SelectedIs(inventory, custom);
    var items, taken := Items(inventory), Items(Selected(inventory, custom));
    forall a, b | 0 <= a < b < |taken|
      ensures taken[a].id != taken[b].id
    {
      assert Precedes(items, taken[a], taken[b]);
    }
  }

  lemma UnchangedAreObtainable(env: Env, skills: seq<Skill>, userId: string, installed: Option<SkillSet>,
                               ds: seq<Descriptor>)
    requires installed.Some? && installed.value.manifest.Some? && installed.value.manifest.value.skills == ds
    requires multiset(ds) == multiset(DescriptorsOf(env, skills, userId))
    ensures forall k | 0 <= k < |skills| :: Obtainable(env, skills[k], userId, installed)
  {
    DescriptorsAt(env, skills, userId);
    forall k | 0 <= k < |skills|
      ensures Obtainable(env, skills[k], userId, installed)
    {
      assert DescriptorsOf(env, skills, userId)[k] in multiset(ds);
    }
  }
}
