/** Skill set reconciliation: the values, what a from-scratch build of some Skills is, and what the incremental one
    computes. Hashes are injective functions; ZIP and JSON encoding are not part of the model. */
module SkillSets {
  import opened Prelude

  /** What the catalog says of a Skill; the keys of a manifest item besides `kind` and `member`. */
  datatype Descriptor = Descriptor(id: string, catalogId: string, version: string, contentSha256: string, scope: string,
                                   owner: string)

  datatype Skill = Skill(nativeId: string, catalogId: string, name: string, version: string, contentSha256: string,
                         scope: string, owner: string)

  datatype PlatformItem = PlatformItem(id: string, name: string, version: string, path: string, contentSha256: string)

  datatype Tree = Tree(files: map<string, string>)

  /** A directory of a set: a Skill's own files, or a link to the image's. */
  datatype Entry = Own(tree: Tree) | Link(item: PlatformItem)

  datatype Manifest = Manifest(digest: string, skills: seq<Descriptor>, platformDigest: string,
                               platformItems: seq<PlatformItem>)

  /** A set under construction has no manifest yet. */
  datatype SkillSet = SkillSet(dirs: map<string, Entry>, manifest: Option<Manifest>)

  /** An image without a platform manifest has no inventory. */
  type Inventory = Option<seq<PlatformItem>>

  /** `payload` is the tree a Skill's payload unpacks to, unless fetching, the checksum or unpacking fails, or it has
      none. `content` is that tree as a function of the descriptor alone. */
  datatype Env = Env(payload: Skill -> Option<Tree>, content: Descriptor -> Tree, validId: string -> bool,
                     ownerOf: (Skill, string) -> string,
                     hash: seq<Descriptor> -> string, platformHash: seq<PlatformItem> -> string,
                     sort: seq<Descriptor> -> seq<Descriptor>)

  predicate HasSkillMd(t: Tree) {
    "SKILL.md" in t.files
  }

  function DescriptorOf(env: Env, skill: Skill, userId: string): Descriptor {
    Descriptor(skill.nativeId, skill.catalogId, skill.version, skill.contentSha256, skill.scope,
               env.ownerOf(skill, userId))
  }

  /** Hashes do not collide and are never empty; sorting only reorders; payloads are what their descriptors say. */
  ghost predicate Honest(env: Env, skills: seq<Skill>, userId: string) {
    && (forall a, b :: env.hash(a) == env.hash(b) ==> a == b)
    && (forall a, b :: env.platformHash(a) == env.platformHash(b) ==> a == b)
    && (forall a :: env.platformHash(a) != "")
    && (forall a :: multiset(env.sort(a)) == multiset(a))
    && (forall k | 0 <= k < |skills| && env.payload(skills[k]).Some? ::
          env.payload(skills[k]).value == env.content(DescriptorOf(env, skills[k], userId)))
  }

  function DescriptorsOf(env: Env, skills: seq<Skill>, userId: string): seq<Descriptor> {
    if skills == [] then []
    else DescriptorsOf(env, skills[..|skills| - 1], userId) + [DescriptorOf(env, skills[|skills| - 1], userId)]
  }

  predicate UniqueIds(ds: seq<Descriptor>) {
    forall i, j | 0 <= i < j < |ds| :: ds[i].id != ds[j].id
  }

  // ---------------------------------------------------------------------------------------------
  // From scratch

  function OwnDirs(env: Env, ds: seq<Descriptor>): map<string, Entry> {
    if ds == [] then map[]
    else OwnDirs(env, ds[..|ds| - 1])[ds[|ds| - 1].id := Own(env.content(ds[|ds| - 1]))]
  }

  function Linked(dirs: map<string, Entry>, items: seq<PlatformItem>): map<string, Entry> {
    if items == [] then dirs
    else Linked(dirs, items[..|items| - 1])[items[|items| - 1].id := Link(items[|items| - 1])]
  }

  /** The directories these Skills and platform items mean. */
  function Wanted(env: Env, ds: seq<Descriptor>, items: seq<PlatformItem>): map<string, Entry> {
    Linked(OwnDirs(env, ds), items)
  }

  function InventoryDigest(env: Env, inventory: Inventory): string {
    if inventory.None? then "" else env.platformHash(inventory.value)
  }

  function Items(inventory: Inventory): seq<PlatformItem> {
    if inventory.None? then [] else inventory.value
  }

  /** An installed set that is exactly what its manifest says, with digests to match. */
  ghost predicate Right(env: Env, s: SkillSet) {
    && s.manifest.Some?
    && var m := s.manifest.value;
       && s.dirs == Wanted(env, m.skills, m.platformItems)
       && m.digest == env.hash(m.skills)
       && (m.platformDigest == "" ==> m.platformItems == [])
       && (m.platformDigest != "" ==> m.platformDigest == env.platformHash(m.platformItems))
       && (forall i | 0 <= i < |m.skills| :: HasSkillMd(env.content(m.skills[i])))
       && (forall i, j | 0 <= i < |m.skills| && 0 <= j < |m.platformItems| :: m.skills[i].id != m.platformItems[j].id)
       && UniqueIds(m.skills)
  }

  // ---------------------------------------------------------------------------------------------
  // Platform inventory

  predicate StartsWithCocola(id: string) {
    "cocola-" <= id
  }

  function Keep(items: seq<PlatformItem>, ids: seq<string>): seq<PlatformItem> {
    if items == [] then []
    else
      var n := |items| - 1;
      var before := Keep(items[..n], ids);
      if items[n].id in ids then before + [items[n]] else before
  }

  function Ids(items: seq<PlatformItem>): seq<string> {
    if items == [] then [] else Ids(items[..|items| - 1]) + [items[|items| - 1].id]
  }

  function CocolaOnly(items: seq<PlatformItem>): seq<PlatformItem> {
    if items == [] then []
    else
      var n := |items| - 1;
      var before := CocolaOnly(items[..n]);
      if StartsWithCocola(items[n].id) then before + [items[n]] else before
  }

  /** A custom skill set keeps only the built-in platform items. */
  function Selected(inventory: Inventory, custom: bool): Inventory {
    if inventory.Some? && custom then Some(CocolaOnly(inventory.value)) else inventory
  }

  // ---------------------------------------------------------------------------------------------
  // The batch archive

  datatype Item = Reuse(descriptor: Descriptor) | Payload(descriptor: Descriptor, tree: Tree)

  datatype Archive = Archive(digest: string, items: seq<Item>, platformIds: seq<string>, platformDigest: string)

  function DescriptorsIn(items: seq<Item>): seq<Descriptor> {
    if items == [] then [] else DescriptorsIn(items[..|items| - 1]) + [items[|items| - 1].descriptor]
  }

  /** The manifest item under an id; with several, the last. */
  function ById(ds: seq<Descriptor>, id: string): (d: Option<Descriptor>)
    ensures d.Some? ==> d.value in ds && d.value.id == id
  {
    if ds == [] then None
    else if ds[|ds| - 1].id == id then Some(ds[|ds| - 1])
    else ById(ds[..|ds| - 1], id)
  }

  function SkillById(skills: seq<Skill>, id: string): (skill: Option<Skill>)
    ensures skill.Some? ==> skill.value in skills && skill.value.nativeId == id
  {
    if skills == [] then None
    else if skills[|skills| - 1].nativeId == id then Some(skills[|skills| - 1])
    else SkillById(skills[..|skills| - 1], id)
  }

  /** Unchanged Skills are reused, changed ones carry their payload; `None` when a payload cannot be had. */
  function ItemFor(env: Env, skills: seq<Skill>, previous: seq<Descriptor>, d: Descriptor): Option<Item> {
    if ById(previous, d.id) == Some(d) then Some(Reuse(d))
    else
      var skill := SkillById(skills, d.id);
      if skill.None? || env.payload(skill.value).None? then None
      else Some(Payload(d, env.payload(skill.value).value))
  }

  function ItemsFor(env: Env, skills: seq<Skill>, previous: seq<Descriptor>, ds: seq<Descriptor>): Option<seq<Item>> {
    if ds == [] then Some([])
    else
      var before, item := ItemsFor(env, skills, previous, ds[..|ds| - 1]), ItemFor(env, skills, previous, ds[|ds| - 1]);
      if before.None? || item.None? then None else Some(before.value + [item.value])
  }

  // ---------------------------------------------------------------------------------------------
  // The reconcile script, without faults

  /** The tree an item stands for, if it is usable: a reused one is copied out of the installed set. */
  function TreeFor(item: Item, installed: Option<SkillSet>): Option<Tree> {
    match item
    case Payload(_, tree) => if HasSkillMd(tree) then Some(tree) else None
    case Reuse(d) =>
      if installed.Some? && d.id in installed.value.dirs && installed.value.dirs[d.id].Own?
         && HasSkillMd(installed.value.dirs[d.id].tree)
      then Some(installed.value.dirs[d.id].tree) else None
  }

  function ItemDirs(items: seq<Item>, installed: Option<SkillSet>): Option<map<string, Entry>> {
    if items == [] then Some(map[])
    else
      var n := |items| - 1;
      var before, tree := ItemDirs(items[..n], installed), TreeFor(items[n], installed);
      if before.None? || tree.None? then None else Some(before.value[items[n].descriptor.id := Own(tree.value)])
  }

  predicate Collides(ds: seq<Descriptor>, items: seq<PlatformItem>) {
    exists i, j | 0 <= i < |ds| && 0 <= j < |items| :: ds[i].id == items[j].id
  }

  predicate AllAvailable(ids: seq<string>, items: seq<PlatformItem>) {
    forall k | 0 <= k < |ids| :: ids[k] in Ids(items)
  }

  /** The set the script installs, or `None` when it gives up. */
  function Reconciled(env: Env, archive: Archive, installed: Option<SkillSet>, inventory: Inventory): Option<SkillSet> {
    var own := ItemDirs(archive.items, installed);
    var kept := if inventory.Some? then Some(Keep(inventory.value, archive.platformIds)) else None;
    if own.None? || !AllAvailable(archive.platformIds, Items(inventory))
       || InventoryDigest(env, kept) != archive.platformDigest
       || Collides(DescriptorsIn(archive.items), Items(kept)) then None
    else Some(SkillSet(Linked(own.value, Items(kept)),
                       Some(Manifest(archive.digest, DescriptorsIn(archive.items), archive.platformDigest,
                                     Items(kept)))))
  }

  // ---------------------------------------------------------------------------------------------
  // Incremental is from scratch

  lemma {:induction false} LinkedHas(dirs: map<string, Entry>, items: seq<PlatformItem>, id: string)
    ensures (forall j | 0 <= j < |items| :: items[j].id != id) ==>
              (id in Linked(dirs, items) <==> id in dirs) && (id in dirs ==> Linked(dirs, items)[id] == dirs[id])
  {
    if items != [] {
      LinkedHas(dirs, items[..|items| - 1], id);
    }
  }

  lemma {:induction false} OwnHas(env: Env, ds: seq<Descriptor>, i: nat)
    requires i < |ds| && UniqueIds(ds)
    ensures ds[i].id in OwnDirs(env, ds) && OwnDirs(env, ds)[ds[i].id] == Own(env.content(ds[i]))
  {
    if i < |ds| - 1 {
      OwnHas(env, ds[..|ds| - 1], i);
    }
  }

  /** What is copied out of a right set is what the descriptor means. */
  lemma ReuseIsRight(env: Env, s: SkillSet, d: Descriptor)
    requires Right(env, s) && d in s.manifest.value.skills
    ensures TreeFor(Reuse(d), Some(s)) == Some(env.content(d)) && HasSkillMd(env.content(d))
  {
    var m := s.manifest.value;
    var i :| 0 <= i < |m.skills| && m.skills[i] == d;
    OwnHas(env, m.skills, i);
    LinkedHas(OwnDirs(env, m.skills), m.platformItems, d.id);
  }

  /** The manifest the server read is the one of the installed set. */
  function PreviousSkills(installed: Option<SkillSet>): seq<Descriptor> {
    if installed.Some? && installed.value.manifest.Some? then installed.value.manifest.value.skills else []
  }

  ghost predicate Consistent(env: Env, installed: Option<SkillSet>) {
    installed.Some? ==> Right(env, installed.value)
  }

  lemma {:induction false} SkillByIdIs(env: Env, skills: seq<Skill>, userId: string, i: nat)
    requires i < |skills| && UniqueIds(DescriptorsOf(env, skills, userId))
    ensures SkillById(skills, skills[i].nativeId) == Some(skills[i])
  {
    DescriptorsAt(env, skills, userId);
    var n := |skills| - 1;
    if i < n {
      assert DescriptorsOf(env, skills, userId)[..n] == DescriptorsOf(env, skills[..n], userId);
      assert DescriptorsOf(env, skills, userId)[i].id != DescriptorsOf(env, skills, userId)[n].id;
      forall a, b | 0 <= a < b < n
        ensures DescriptorsOf(env, skills[..n], userId)[a].id != DescriptorsOf(env, skills[..n], userId)[b].id
      {
        assert DescriptorsOf(env, skills, userId)[a].id != DescriptorsOf(env, skills, userId)[b].id;
      }
      SkillByIdIs(env, skills[..n], userId, i);
    }
  }

  /** Every Skill is described, in order and field by field. */
  lemma {:induction false} DescriptorsAt(env: Env, skills: seq<Skill>, userId: string)
    ensures |DescriptorsOf(env, skills, userId)| == |skills|
    ensures forall i | 0 <= i < |skills| ::
              && DescriptorsOf(env, skills, userId)[i] == DescriptorOf(env, skills[i], userId)
              && DescriptorOf(env, skills[i], userId)
                 == Descriptor(skills[i].nativeId, skills[i].catalogId, skills[i].version, skills[i].contentSha256,
                               skills[i].scope, env.ownerOf(skills[i], userId))
  {
    if skills != [] {
      DescriptorsAt(env, skills[..|skills| - 1], userId);
    }
  }

  /** A usable item stands for what its descriptor means, reused or not. */
  predicate Faithful(env: Env, item: Option<Item>, installed: Option<SkillSet>, d: Descriptor) {
    item.Some? ==>
      && item.value.descriptor == d
      && (TreeFor(item.value, installed).Some? ==>
            TreeFor(item.value, installed) == Some(env.content(d)) && HasSkillMd(env.content(d)))
  }

  predicate Usable(item: Option<Item>, installed: Option<SkillSet>) {
    item.Some? && TreeFor(item.value, installed).Some?
  }

  /** Both with reuse and without an item is faithful, and what a build from scratch can use, the incremental one
      can. */
  lemma ItemIsFaithful(env: Env, skills: seq<Skill>, userId: string, installed: Option<SkillSet>, i: nat)
    requires Honest(env, skills, userId) && Consistent(env, installed)
    requires i < |skills| && UniqueIds(DescriptorsOf(env, skills, userId))
    ensures var d := DescriptorOf(env, skills[i], userId);
            && Faithful(env, ItemFor(env, skills, PreviousSkills(installed), d), installed, d)
            && (Usable(ItemFor(env, skills, [], d), None) ==>
                  Usable(ItemFor(env, skills, PreviousSkills(installed), d), installed))
  {
    var d := DescriptorOf(env, skills[i], userId);
    SkillByIdIs(env, skills, userId, i);
    if ById(PreviousSkills(installed), d.id) == Some(d) {
      ReuseIsRight(env, installed.value, d);
    }
  }

  lemma {:induction false} ItemsAreFaithful(env: Env, skills: seq<Skill>, previous: seq<Descriptor>,
                                            ds: seq<Descriptor>, installed: Option<SkillSet>)
    requires forall i | 0 <= i < |ds| :: Faithful(env, ItemFor(env, skills, previous, ds[i]), installed, ds[i])
    ensures var items := ItemsFor(env, skills, previous, ds);
            && (items.Some? ==> DescriptorsIn(items.value) == ds)
            && (items.Some? && ItemDirs(items.value, installed).Some? ==>
                  ItemDirs(items.value, installed) == Some(OwnDirs(env, ds))
                  && forall i | 0 <= i < |ds| :: HasSkillMd(env.content(ds[i])))
  {
    if ds != [] {
      hide ItemFor, TreeFor, HasSkillMd;
      ItemsAreFaithful(env, skills, previous, ds[..|ds| - 1], installed);
      OneMoreItem(env, skills, previous, ds, installed);
    }
  }

  lemma {:induction false} ItemsAreUsable(env: Env, skills: seq<Skill>, previous: seq<Descriptor>, ds: seq<Descriptor>,
                                          installed: Option<SkillSet>)
    requires forall i | 0 <= i < |ds| :: Usable(ItemFor(env, skills, previous, ds[i]), installed)
    ensures var items := ItemsFor(env, skills, previous, ds);
            items.Some? && ItemDirs(items.value, installed).Some?
  {
    if ds != [] {
      hide ItemFor, TreeFor;
      ItemsAreUsable(env, skills, previous, ds[..|ds| - 1], installed);
      OneMoreItem(env, skills, previous, ds, installed);
    }
  }

  lemma {:induction false} UsableItems(env: Env, skills: seq<Skill>, previous: seq<Descriptor>, ds: seq<Descriptor>,
                                       installed: Option<SkillSet>)
    requires var items := ItemsFor(env, skills, previous, ds);
             items.Some? && ItemDirs(items.value, installed).Some?
    ensures forall i | 0 <= i < |ds| :: Usable(ItemFor(env, skills, previous, ds[i]), installed)
  {
    if ds != [] {
      hide ItemFor, TreeFor;
      OneMoreItem(env, skills, previous, ds, installed);
      UsableItems(env, skills, previous, ds[..|ds| - 1], installed);
    }
  }

  lemma OneMoreItem(env: Env, skills: seq<Skill>, previous: seq<Descriptor>, ds: seq<Descriptor>,
                    installed: Option<SkillSet>)
    requires ds != []
    ensures var before, items := ItemsFor(env, skills, previous, ds[..|ds| - 1]), ItemsFor(env, skills, previous, ds);
            var item := ItemFor(env, skills, previous, ds[|ds| - 1]);
            && (items.Some? <==> before.Some? && item.Some?)
            && (items.Some? ==>
                  var dirs, tree := ItemDirs(before.value, installed), TreeFor(item.value, installed);
                  && DescriptorsIn(items.value) == DescriptorsIn(before.value) + [item.value.descriptor]
                  && ItemDirs(items.value, installed)
                     == (if dirs.None? || tree.None? then None
                         else Some(dirs.value[item.value.descriptor.id := Own(tree.value)])))
  {
    hide ItemFor, TreeFor;
    var before, item := ItemsFor(env, skills, previous, ds[..|ds| - 1]), ItemFor(env, skills, previous, ds[|ds| - 1]);
    if before.Some? && item.Some? {
      var items := before.value + [item.value];
      assert items[..|items| - 1] == before.value;
    }
  }

  lemma {:induction false} KeepIds(items: seq<PlatformItem>, custom: bool)
    ensures var selected := if custom then CocolaOnly(items) else items;
            && AllAvailable(Ids(selected), items)
            && (forall id :: id in Ids(selected) <==> id in Ids(items) && (custom ==> StartsWithCocola(id)))
  {
    if items != [] {
      var n := |items| - 1;
      KeepIds(items[..n], custom);
      if custom && StartsWithCocola(items[n].id) {
        var sel := CocolaOnly(items);
        assert sel[..|sel| - 1] == CocolaOnly(items[..n]);
      }
      var ids := Ids(if custom then CocolaOnly(items) else items);
      forall k | 0 <= k < |ids|
        ensures ids[k] in Ids(items)
      {
        assert ids[k] in ids;
      }
    }
  }

  lemma {:induction false} KeepIs(items: seq<PlatformItem>, ids: seq<string>, custom: bool)
    requires forall k | 0 <= k < |items| :: items[k].id in ids <==> (custom ==> StartsWithCocola(items[k].id))
    ensures Keep(items, ids) == if custom then CocolaOnly(items) else items
  {
    if items != [] {
      hide StartsWithCocola;
      var n := |items| - 1;
      forall k | 0 <= k < n
        ensures items[..n][k].id in ids <==> (custom ==> StartsWithCocola(items[..n][k].id))
      {
        assert items[..n][k] == items[k];
      }
      KeepIs(items[..n], ids, custom);
      assert items == items[..n] + [items[n]];
    }
  }

  lemma {:induction false} IdsHas(items: seq<PlatformItem>, k: nat)
    requires k < |items|
    ensures items[k].id in Ids(items)
  {
    if k < |items| - 1 {
      IdsHas(items[..|items| - 1], k);
    }
  }

  /** Asking for the ids of the selected items gets exactly the selected items, from the same inventory. */
  lemma SelectionRoundTrips(inventory: Inventory, custom: bool)
    ensures AllAvailable(Ids(Items(Selected(inventory, custom))), Items(inventory))
    ensures inventory.Some? ==>
              Keep(inventory.value, Ids(Items(Selected(inventory, custom)))) == Items(Selected(inventory, custom))
  {
    if inventory.Some? {
      var items := inventory.value;
      KeepIds(items, custom);
      forall k | 0 <= k < |items|
        ensures items[k].id in Ids(items)
      {
        IdsHas(items, k);
      }
      KeepIs(items, Ids(Items(Selected(inventory, custom))), custom);
    }
  }

  function ArchiveFor(env: Env, skills: seq<Skill>, previous: seq<Descriptor>, ds: seq<Descriptor>, selected: Inventory)
    : Option<Archive>
  {
    var items := ItemsFor(env, skills, previous, ds);
    if items.None? then None
    else Some(Archive(env.hash(ds), items.value, Ids(Items(selected)), InventoryDigest(env, selected)))
  }

  lemma DescribedSkill(env: Env, skills: seq<Skill>, userId: string, ds: seq<Descriptor>, i: nat) returns (k: nat)
    requires i < |ds| && multiset(ds) == multiset(DescriptorsOf(env, skills, userId))
    ensures k < |skills| && DescriptorOf(env, skills[k], userId) == ds[i]
  {
    DescriptorsAt(env, skills, userId);
    assert ds[i] in multiset(ds);
    assert ds[i] in DescriptorsOf(env, skills, userId);
    k :| 0 <= k < |skills| && DescriptorsOf(env, skills, userId)[k] == ds[i];
  }

  lemma AllAreFaithful(env: Env, skills: seq<Skill>, userId: string, installed: Option<SkillSet>, ds: seq<Descriptor>)
    requires Honest(env, skills, userId) && Consistent(env, installed)
    requires UniqueIds(DescriptorsOf(env, skills, userId))
             && multiset(ds) == multiset(DescriptorsOf(env, skills, userId))
    ensures forall i | 0 <= i < |ds| ::
              && Faithful(env, ItemFor(env, skills, PreviousSkills(installed), ds[i]), installed, ds[i])
              && (Usable(ItemFor(env, skills, [], ds[i]), None)
                  ==> Usable(ItemFor(env, skills, PreviousSkills(installed), ds[i]), installed))
  {
    hide Honest, Consistent, ItemFor, TreeFor, Faithful, Usable;
    forall i | 0 <= i < |ds|
      ensures Faithful(env, ItemFor(env, skills, PreviousSkills(installed), ds[i]), installed, ds[i])
      ensures Usable(ItemFor(env, skills, [], ds[i]), None)
              ==> Usable(ItemFor(env, skills, PreviousSkills(installed), ds[i]), installed)
    {
      var k := DescribedSkill(env, skills, userId, ds, i);
      ItemIsFaithful(env, skills, userId, installed, k);
    }
  }

  lemma SetIsRight(env: Env, skills: seq<Skill>, userId: string, archive: Archive, installed: Option<SkillSet>,
                   ds: seq<Descriptor>, selected: Inventory, inventory: Inventory)
    requires Honest(env, skills, userId) && UniqueIds(ds)
    requires archive.digest == env.hash(ds) && archive.platformDigest == InventoryDigest(env, selected)
    requires DescriptorsIn(archive.items) == ds && ItemDirs(archive.items, installed) == Some(OwnDirs(env, ds))
    requires forall i | 0 <= i < |ds| :: HasSkillMd(env.content(ds[i]))
    requires Reconciled(env, archive, installed, inventory).Some?
    ensures var s := Reconciled(env, archive, installed, inventory).value;
            && Right(env, s)
            && s.dirs == Wanted(env, ds, Items(selected))
            && s.manifest == Some(Manifest(env.hash(ds), ds, InventoryDigest(env, selected), Items(selected)))
  {
    hide UniqueIds, ItemDirs, AllAvailable, Keep, OwnDirs, Linked, HasSkillMd;
    var kept := if inventory.Some? then Some(Keep(inventory.value, archive.platformIds)) else None;
    assert InventoryDigest(env, kept) == InventoryDigest(env, selected);
    assert Items(kept) == Items(selected);
    assert !Collides(ds, Items(kept));
  }

  lemma ItemsAreRight(env: Env, skills: seq<Skill>, userId: string, installed: Option<SkillSet>, ds: seq<Descriptor>)
    requires Honest(env, skills, userId) && Consistent(env, installed)
    requires UniqueIds(DescriptorsOf(env, skills, userId))
             && multiset(ds) == multiset(DescriptorsOf(env, skills, userId))
    ensures var items := ItemsFor(env, skills, PreviousSkills(installed), ds);
            && (items.Some? ==> DescriptorsIn(items.value) == ds)
            && (items.Some? && ItemDirs(items.value, installed).Some? ==>
                  ItemDirs(items.value, installed) == Some(OwnDirs(env, ds))
                  && forall i | 0 <= i < |ds| :: HasSkillMd(env.content(ds[i])))
  {
    hide *;
    AllAreFaithful(env, skills, userId, installed, ds);
    ItemsAreFaithful(env, skills, PreviousSkills(installed), ds, installed);
  }

  /** The heart of it. Reconciling with reuse, against whatever right set is installed, gives exactly the directories
      a from-scratch build of these Skills and these platform items gives, under digests of exactly them; and the
      result is right again, so the next reconciliation may reuse it. */
  lemma IncrementalIsFromScratch(env: Env, skills: seq<Skill>, userId: string, installed: Option<SkillSet>,
                                 ds: seq<Descriptor>, selected: Inventory, inventory: Inventory)
    requires Honest(env, skills, userId) && Consistent(env, installed)
    requires UniqueIds(DescriptorsOf(env, skills, userId))
             && multiset(ds) == multiset(DescriptorsOf(env, skills, userId))
    requires UniqueIds(ds)
    requires ArchiveFor(env, skills, PreviousSkills(installed), ds, selected).Some?
    requires Reconciled(env, ArchiveFor(env, skills, PreviousSkills(installed), ds, selected).value, installed,
                        inventory).Some?
    ensures var archive := ArchiveFor(env, skills, PreviousSkills(installed), ds, selected).value;
            var s := Reconciled(env, archive, installed, inventory).value;
            && Right(env, s)
            && s.dirs == Wanted(env, ds, Items(selected))
            && s.manifest == Some(Manifest(env.hash(ds), ds, InventoryDigest(env, selected), Items(selected)))
  {
    hide Honest, Right, Consistent, UniqueIds, ItemsFor, ItemDirs, AllAvailable, Keep, OwnDirs, Linked, Collides,
         HasSkillMd;
    ItemsAreRight(env, skills, userId, installed, ds);
    var archive := ArchiveFor(env, skills, PreviousSkills(installed), ds, selected).value;
    SetIsRight(env, skills, userId, archive, installed, ds, selected, inventory);
  }

  /** It succeeds whenever the build from scratch does, with the same set. The converse fails: a Skill whose payload
      can no longer be fetched is still reused. */
  lemma SucceedsLikeFromScratch(env: Env, skills: seq<Skill>, userId: string, installed: Option<SkillSet>,
                                ds: seq<Descriptor>, selected: Inventory, inventory: Inventory)
    requires Honest(env, skills, userId) && Consistent(env, installed)
    requires UniqueIds(DescriptorsOf(env, skills, userId))
             && multiset(ds) == multiset(DescriptorsOf(env, skills, userId))
    requires ArchiveFor(env, skills, [], ds, selected).Some?
    requires Reconciled(env, ArchiveFor(env, skills, [], ds, selected).value, None, inventory).Some?
    ensures ArchiveFor(env, skills, PreviousSkills(installed), ds, selected).Some?
    ensures Reconciled(env, ArchiveFor(env, skills, PreviousSkills(installed), ds, selected).value, installed,
                       inventory)
            == Reconciled(env, ArchiveFor(env, skills, [], ds, selected).value, None, inventory)
  {
    assert Consistent(env, None) && PreviousSkills(None) == [];
    hide Honest, Right, Consistent, UniqueIds, ItemsFor, ItemFor, ItemDirs, AllAvailable, Keep, OwnDirs, Linked,
         Collides, HasSkillMd, TreeFor, Usable, PreviousSkills;
    ItemsAreRight(env, skills, userId, installed, ds);
    ItemsAreRight(env, skills, userId, None, ds);
    AllAreFaithful(env, skills, userId, installed, ds);
    UsableItems(env, skills, [], ds, None);
    ItemsAreUsable(env, skills, PreviousSkills(installed), ds, installed);
  }

  /** Reuse is sound only because of that difference: with the payload gone, a build from scratch fails where the
      incremental one goes through. */
  lemma ScratchMayFail(env: Env, skills: seq<Skill>, userId: string, installed: Option<SkillSet>, ds: seq<Descriptor>)
    requires |skills| == 1 && Honest(env, skills, userId) && env.payload(skills[0]).None?
    requires Consistent(env, installed) && PreviousSkills(installed) == ds && ds == DescriptorsOf(env, skills, userId)
    ensures ItemsFor(env, skills, [], ds).None?
    ensures var items := ItemsFor(env, skills, ds, ds);
            items.Some? && ItemDirs(items.value, installed).Some?
  {
    DescriptorsAt(env, skills, userId);
    SkillByIdIs(env, skills, userId, 0);
    ReuseIsRight(env, installed.value, ds[0]);
    OneMoreItem(env, skills, ds, ds, installed);
    OneMoreItem(env, skills, [], ds, installed);
  }

  /** A digest hit: the installed set already is what a from-scratch build would give. */
  lemma HitMeansDone(env: Env, skills: seq<Skill>, userId: string, s: SkillSet, ds: seq<Descriptor>,
                     selected: Inventory)
    requires Honest(env, skills, userId) && Right(env, s)
    requires s.manifest.value.digest == env.hash(ds)
             && s.manifest.value.platformDigest == InventoryDigest(env, selected)
    ensures s.manifest.value.skills == ds && s.manifest.value.platformItems == Items(selected)
    ensures s.dirs == Wanted(env, ds, Items(selected))
  {
  }

  // ---------------------------------------------------------------------------------------------
  // What a wanted set holds

  /** `x` comes before `y` in the list. */
  predicate Precedes(items: seq<PlatformItem>, x: PlatformItem, y: PlatformItem) {
    exists i, j | 0 <= i < j < |items| :: items[i] == x && items[j] == y
  }

  lemma PrecedesExtends(items: seq<PlatformItem>, last: PlatformItem, x: PlatformItem, y: PlatformItem)
    ensures Precedes(items, x, y) ==> Precedes(items + [last], x, y)
    ensures x in items ==> Precedes(items + [last], x, last)
  {
    var all := items + [last];
    if Precedes(items, x, y) {
      var i, j :| 0 <= i < j < |items| && items[i] == x && items[j] == y;
      assert all[i] == x && all[j] == y;
    }
    if x in items {
      var i :| 0 <= i < |items| && items[i] == x;
      assert all[i] == x && all[|items|] == last;
    }
  }

  /** Every built-in item is kept, and nothing else. */
  lemma {:induction false} BuiltInAreKept(items: seq<PlatformItem>, x: PlatformItem)
    ensures x in CocolaOnly(items) <==> x in items && "cocola-" <= x.id
  {
    if items != [] {
      var n := |items| - 1;
      BuiltInAreKept(items[..n], x);
      assert items == items[..n] + [items[n]];
    }
  }

  lemma {:induction false} KeptInOrder(items: seq<PlatformItem>, a: nat, b: nat)
    requires a < b < |CocolaOnly(items)|
    ensures Precedes(items, CocolaOnly(items)[a], CocolaOnly(items)[b])
  {
    hide StartsWithCocola, Precedes;
    var n := |items| - 1;
    var before, all := CocolaOnly(items[..n]), CocolaOnly(items);
    assert items == items[..n] + [items[n]];
    PrecedesExtends(items[..n], items[n], all[a], all[b]);
    if b < |before| {
      KeptInOrder(items[..n], a, b);
    } else {
      BuiltInAreKept(items[..n], before[a]);
    }
  }

  /** The platform items taken are those of the inventory, in its order; of a custom set only the built-in ones. */
  lemma SelectedIs(inventory: Inventory, custom: bool)
    ensures Selected(inventory, custom).Some? <==> inventory.Some?
    ensures inventory.Some? ==>
              var items, taken := inventory.value, Items(Selected(inventory, custom));
              && (forall i | 0 <= i < |items| :: items[i] in taken <==> !custom || "cocola-" <= items[i].id)
              && (forall k | 0 <= k < |taken| :: taken[k] in items)
              && (forall a, b | 0 <= a < b < |taken| :: Precedes(items, taken[a], taken[b]))
  {
    if inventory.Some? {
      var items, taken := inventory.value, Items(Selected(inventory, custom));
      forall x
        ensures x in taken <==> x in items && (custom ==> "cocola-" <= x.id)
      {
        BuiltInAreKept(items, x);
      }
      forall a, b | 0 <= a < b < |taken|
        ensures Precedes(items, taken[a], taken[b])
      {
        if custom {
          KeptInOrder(items, a, b);
        } else {
          assert taken == items;
        }
      }
    }
  }

  lemma {:induction false} LinkedHolds(dirs: map<string, Entry>, items: seq<PlatformItem>, id: string)
    requires forall i, j | 0 <= i < j < |items| :: items[i].id != items[j].id
    ensures forall j | 0 <= j < |items| ::
              items[j].id in Linked(dirs, items) && Linked(dirs, items)[items[j].id] == Link(items[j])
    ensures id in Linked(dirs, items) <==> id in dirs || exists j | 0 <= j < |items| :: items[j].id == id
    ensures id in dirs && (forall j | 0 <= j < |items| :: items[j].id != id) ==> Linked(dirs, items)[id] == dirs[id]
  {
    if items != [] {
      var n := |items| - 1;
      assert forall j | 0 <= j < n :: items[..n][j] == items[j];
      LinkedHolds(dirs, items[..n], id);
    }
  }

  lemma {:induction false} OwnHolds(env: Env, ds: seq<Descriptor>, id: string)
    ensures id in OwnDirs(env, ds) <==> exists i | 0 <= i < |ds| :: ds[i].id == id
  {
    if ds != [] {
      var n := |ds| - 1;
      OwnHolds(env, ds[..n], id);
      assert forall i | 0 <= i < n :: ds[..n][i] == ds[i];
    }
  }

  /** A wanted set: every Skill's own content and a link for every platform item, under their ids, and nothing else. */
  lemma WantedIs(env: Env, ds: seq<Descriptor>, items: seq<PlatformItem>, id: string)
    requires UniqueIds(ds) && forall i, j | 0 <= i < j < |items| :: items[i].id != items[j].id
    requires forall i, j | 0 <= i < |ds| && 0 <= j < |items| :: ds[i].id != items[j].id
    ensures forall i | 0 <= i < |ds| ::
              ds[i].id in Wanted(env, ds, items) && Wanted(env, ds, items)[ds[i].id] == Own(env.content(ds[i]))
    ensures forall j | 0 <= j < |items| ::
              items[j].id in Wanted(env, ds, items) && Wanted(env, ds, items)[items[j].id] == Link(items[j])
    ensures id in Wanted(env, ds, items) ==>
              (exists i | 0 <= i < |ds| :: ds[i].id == id) || (exists j | 0 <= j < |items| :: items[j].id == id)
  {
    hide Linked, OwnDirs, UniqueIds;
    LinkedHolds(OwnDirs(env, ds), items, id);
    OwnHolds(env, ds, id);
    forall i | 0 <= i < |ds|
      ensures ds[i].id in Wanted(env, ds, items) && Wanted(env, ds, items)[ds[i].id] == Own(env.content(ds[i]))
    {
      OwnHas(env, ds, i);
      LinkedHolds(OwnDirs(env, ds), items, ds[i].id);
    }
  }

  // ---------------------------------------------------------------------------------------------
  // When reconciling succeeds

  /** The installed set holds this very Skill, or its payload can be had and is a Skill. */
  predicate Obtainable(env: Env, skill: Skill, userId: string, installed: Option<SkillSet>) {
    || (installed.Some? && installed.value.manifest.Some?
        && DescriptorOf(env, skill, userId) in installed.value.manifest.value.skills)
    || (env.payload(skill).Some? && "SKILL.md" in env.payload(skill).value.files)
  }

  lemma {:induction false} ByIdFinds(ds: seq<Descriptor>, d: Descriptor)
    requires UniqueIds(ds)
    ensures ById(ds, d.id) == Some(d) <==> d in ds
  {
    if ds != [] {
      var n := |ds| - 1;
      ByIdFinds(ds[..n], d);
      if d in ds && d != ds[n] {
        var i :| 0 <= i < |ds| && ds[i] == d;
        assert ds[..n][i] == d && ds[i].id != ds[n].id;
      }
    }
  }

  lemma UsableIff(env: Env, skills: seq<Skill>, userId: string, installed: Option<SkillSet>, i: nat)
    requires Honest(env, skills, userId) && Consistent(env, installed)
    requires i < |skills| && UniqueIds(DescriptorsOf(env, skills, userId))
    ensures Usable(ItemFor(env, skills, PreviousSkills(installed), DescriptorOf(env, skills[i], userId)), installed)
            <==> Obtainable(env, skills[i], userId, installed)
  {
    hide UniqueIds;
    var d := DescriptorOf(env, skills[i], userId);
    SkillByIdIs(env, skills, userId, i);
    if installed.Some? {
      ByIdFinds(PreviousSkills(installed), d);
      if d in PreviousSkills(installed) {
        ReuseIsRight(env, installed.value, d);
      }
    }
  }

  lemma AllUsableIff(env: Env, skills: seq<Skill>, userId: string, installed: Option<SkillSet>, ds: seq<Descriptor>)
    requires Honest(env, skills, userId) && Consistent(env, installed)
    requires UniqueIds(DescriptorsOf(env, skills, userId))
    requires multiset(ds) == multiset(DescriptorsOf(env, skills, userId))
    ensures (forall i | 0 <= i < |ds| :: Usable(ItemFor(env, skills, PreviousSkills(installed), ds[i]), installed))
            <==> forall k | 0 <= k < |skills| :: Obtainable(env, skills[k], userId, installed)
  {
    hide Honest, Consistent, ItemFor, TreeFor, Usable, Obtainable, UniqueIds, PreviousSkills, DescriptorOf;
    if forall k | 0 <= k < |skills| :: Obtainable(env, skills[k], userId, installed) {
      forall i | 0 <= i < |ds|
        ensures Usable(ItemFor(env, skills, PreviousSkills(installed), ds[i]), installed)
      {
        var k := DescribedSkill(env, skills, userId, ds, i);
        UsableIff(env, skills, userId, installed, k);
      }
    }
    if forall i | 0 <= i < |ds| :: Usable(ItemFor(env, skills, PreviousSkills(installed), ds[i]), installed) {
      forall k | 0 <= k < |skills|
        ensures Obtainable(env, skills[k], userId, installed)
      {
        DescriptorsAt(env, skills, userId);
        assert DescriptorsOf(env, skills, userId)[k] in multiset(ds);
        var i :| 0 <= i < |ds| && ds[i] == DescriptorOf(env, skills[k], userId);
        UsableIff(env, skills, userId, installed, k);
      }
    }
  }

  lemma ItemsUsableIff(env: Env, skills: seq<Skill>, previous: seq<Descriptor>, ds: seq<Descriptor>,
                       installed: Option<SkillSet>)
    ensures var items := ItemsFor(env, skills, previous, ds);
            items.Some? && ItemDirs(items.value, installed).Some?
            <==> forall i | 0 <= i < |ds| :: Usable(ItemFor(env, skills, previous, ds[i]), installed)
  {
    hide ItemFor, ItemsFor, ItemDirs, Usable;
    var items := ItemsFor(env, skills, previous, ds);
    if forall i | 0 <= i < |ds| :: Usable(ItemFor(env, skills, previous, ds[i]), installed) {
      ItemsAreUsable(env, skills, previous, ds, installed);
    }
    if items.Some? && ItemDirs(items.value, installed).Some? {
      UsableItems(env, skills, previous, ds, installed);
    }
  }

  /** An archive for a selection is accepted over the inventory the selection was made from. */
  lemma SelectionAccepted(env: Env, items: seq<Item>, ds: seq<Descriptor>, installed: Option<SkillSet>,
                          inventory: Inventory, custom: bool)
    requires DescriptorsIn(items) == ds && !Collides(ds, Items(Selected(inventory, custom)))
    ensures var selected := Selected(inventory, custom);
            var archive := Archive(env.hash(ds), items, Ids(Items(selected)), InventoryDigest(env, selected));
            Reconciled(env, archive, installed, inventory).Some? <==> ItemDirs(items, installed).Some?
  {
    hide Collides, AllAvailable, Keep, Ids, Linked, ItemDirs;
    SelectionRoundTrips(inventory, custom);
    NothingSelected(custom);
  }

  /** Over an unchanged image, and with no id taken twice, reconciling succeeds if and only if every Skill can be had:
      out of the installed set, unchanged, or by its payload. */
  lemma SucceedsIff(env: Env, skills: seq<Skill>, userId: string, installed: Option<SkillSet>, ds: seq<Descriptor>,
                    inventory: Inventory, custom: bool)
    requires Honest(env, skills, userId) && Consistent(env, installed)
    requires UniqueIds(DescriptorsOf(env, skills, userId))
    requires multiset(ds) == multiset(DescriptorsOf(env, skills, userId))
    requires !Collides(ds, Items(Selected(inventory, custom)))
    ensures var archive := ArchiveFor(env, skills, PreviousSkills(installed), ds, Selected(inventory, custom));
            archive.Some? && Reconciled(env, archive.value, installed, inventory).Some?
            <==> forall k | 0 <= k < |skills| :: Obtainable(env, skills[k], userId, installed)
  {
    hide Honest, Consistent, ItemFor, ItemsFor, ItemDirs, TreeFor, Usable, Obtainable, UniqueIds, PreviousSkills,
         Collides, Selected, Reconciled, DescriptorsOf;
    var items := ItemsFor(env, skills, PreviousSkills(installed), ds);
    AllUsableIff(env, skills, userId, installed, ds);
    ItemsUsableIff(env, skills, PreviousSkills(installed), ds, installed);
    ItemsAreRight(env, skills, userId, installed, ds);
    if items.Some? {
      SelectionAccepted(env, items.value, ds, installed, inventory, custom);
    }
  }

  lemma NothingSelected(custom: bool)
    ensures Selected(None, custom).None? && Ids([]) == []
  {
  }
}
