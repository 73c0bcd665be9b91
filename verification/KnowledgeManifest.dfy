/** Agent Knowledge manifests: the per-source rule that decides what the next manifest records, and the
    plan (sources, references, refresh set) both provisioners compute before they touch any file. */
module KnowledgeManifest {
  import opened Prelude
  import T = Text

  /** File contents, as sequences of characters. The manifest field `label` is `title` here. */
  type Content = string

  const MAX_REFERENCE_BYTES := 100 * 1024 * 1024

  /** A SHA-256 digest. Hashing is taken to be injective, so the digest of a content names that content. */
  datatype Digest = DigestOf(content: Content)

  datatype SourceType = CocolaWiki | FeishuDoc | FeishuWiki | FeishuSheet | FeishuBase

  datatype Status = Ready | Unavailable | TemporarilyUnavailable | Stale

  datatype EntryState = StateReady | StateUnavailable | StateTemporarilyUnavailable

  /** A path inside a revision. `WikiFile` stands for cocola-wiki/<id>/<filename>, `FeishuFile` for feishu/<id>.md. */
  datatype Path = NoPath | WikiFile(id: string, filename: string) | FeishuFile(id: string)

  datatype Source = Source(typ: SourceType, title: string, url: string, nodeId: string)

  datatype Reference = Reference(key: string, version: string, size: int, sha: Option<Digest>,
                                 shaMalformed: bool, filename: string, mime: string)

  datatype Entry = Entry(id: string, source: Source, state: EntryState, reference: Option<Reference>)

  datatype Context = Context(agentId: string, revision: int, entries: seq<Entry>)

  /** One manifest item; the fields a non-Wiki item does not carry are empty. */
  datatype Item = Item(id: string, source: Source, status: Status, staleReason: string,
                       version: string, sha: Option<Digest>, size: int, mime: string, path: Path)

  datatype Manifest = Manifest(agentId: string, revision: int, sources: seq<Item>, resolvedAt: string)

  /** What the manifest signature hashes: everything except the resolution time. */
  function Signature(m: Manifest): (string, int, seq<Item>) {
    (m.agentId, m.revision, m.sources)
  }

  predicate IsFeishuDocument(t: SourceType) {
    t == FeishuDoc || t == FeishuWiki
  }

  datatype Decision = Decision(item: Item, reference: Option<Reference>, refresh: bool)

  predicate ValidReference(r: Reference) {
    && r.key != "" && r.version != ""
    && 0 <= r.size <= MAX_REFERENCE_BYTES
    && !r.shaMalformed
  }

  /** True exactly when the source of this entry cannot be recorded: a ready Wiki entry with a bad reference. */
  predicate InvalidEntry(e: Entry) {
    e.state == StateReady && e.source.typ == CocolaWiki && (e.reference.None? || !ValidReference(e.reference.value))
  }

  predicate Unchanged(current: Option<Item>, item: Item) {
    && current.Some?
    && current.value.version == item.version
    && current.value.sha == item.sha
    && current.value.path == item.path
    && current.value.status == Ready
  }

  /** The item rule: from an entry and the item of the same id in the current manifest. */
  function DecideSource(e: Entry, current: Option<Item>): (d: Decision)
    requires !InvalidEntry(e)
  {
    var path := if IsFeishuDocument(e.source.typ) then FeishuFile(e.id) else NoPath;
    var base := Item(e.id, e.source, Ready, "", "", None, 0, "", NoPath);
    match e.state
    case StateUnavailable =>
      Decision(base.(status := Unavailable), None, false)
    case StateTemporarilyUnavailable =>
      if current.None? then
        Decision(base.(status := TemporarilyUnavailable, path := path), None, false)
      else
        Decision(current.value.(source := current.value.source.(title := e.source.title), status := Stale,
                                staleReason := "refresh_temporarily_unavailable"), None, false)
    case StateReady =>
      if e.source.typ != CocolaWiki then
        Decision(base.(path := path), None, false)
      else
        var r := e.reference.value;
        var item := base.(version := r.version, sha := r.sha, size := r.size, mime := r.mime,
                          path := WikiFile(e.id, r.filename));
        Decision(item, Some(r), !Unchanged(current, item))
  }

  /** The index of the current manifest by id; a later item with the same id wins. */
  function ById(items: seq<Item>): (m: map<string, Item>)
    ensures forall id | id in m :: m[id] in items && m[id].id == id
  {
    if items == [] then map[]
    else
      var last := items[|items| - 1];
      ById(items[..|items| - 1])[last.id := last]
  }

  function Find<T>(index: map<string, T>, id: string): Option<T> {
    if id in index then Some(index[id]) else None
  }

  /** A path lies in its own item's directory, so items with different ids never share a file. */
  predicate OwnsPath(i: Item) {
    match i.path
    case NoPath => true
    case WikiFile(id, _) => id == i.id && i.source.typ == CocolaWiki
    case FeishuFile(id) => id == i.id && IsFeishuDocument(i.source.typ)
  }

  ghost predicate WellFormed(items: seq<Item>) {
    && (forall i | 0 <= i < |items| :: OwnsPath(items[i]))
    && (forall i, j | 0 <= i < j < |items| :: items[i].id != items[j].id)
  }

  ghost predicate DistinctEntries(entries: seq<Entry>) {
    forall i, j | 0 <= i < j < |entries| :: entries[i].id != entries[j].id
  }

  /** Everything the provisioners compute before staging. */
  datatype Plan = Plan(sources: seq<Item>, references: map<string, Reference>, refresh: set<string>, stale: bool)

  /** The plan after one more entry. */
  function Extend(p: Plan, e: Entry, index: map<string, Item>): Plan
    requires !InvalidEntry(e)
  {
    var d := DecideSource(e, Find(index, e.id));
    Plan(p.sources + [d.item],
         if d.reference.Some? then p.references[e.id := d.reference.value] else p.references,
         if d.refresh then p.refresh + {e.id} else p.refresh,
         p.stale || d.item.status == Stale)
  }

  /** `None` stands for the ValueError an invalid Wiki reference raises. */
  function PlanFor(entries: seq<Entry>, index: map<string, Item>): Option<Plan> {
    if entries == [] then Some(Plan([], map[], {}, false))
    else
      var e := entries[|entries| - 1];
      match PlanFor(entries[..|entries| - 1], index)
      case None => None
      case Some(p) => if InvalidEntry(e) then None else Some(Extend(p, e, index))
  }

  /** The provisioners' opening loop. */
  method PlanSources(entries: seq<Entry>, index: map<string, Item>) returns (plan: Option<Plan>)
    ensures plan == PlanFor(entries, index)
  {
    var sources: seq<Item> := [];
    var references: map<string, Reference> := map[];
    var refresh: set<string> := {};
    var stale := false;
    for n := 0 to |entries|
      invariant PlanFor(entries[..n], index) == Some(Plan(sources, references, refresh, stale))
    {
      var e := entries[n];
      assert entries[..n + 1][..n] == entries[..n];
      if InvalidEntry(e) {
        PlanStaysInvalid(entries, index, n + 1);
        return None;
      }
      var d := DecideSource(e, Find(index, e.id));
      sources := sources + [d.item];
      stale := stale || d.item.status == Stale;
      if d.reference.Some? {
        references := references[e.id := d.reference.value];
      }
      if d.refresh {
        refresh := refresh + {e.id};
      }
    }
    assert entries[..|entries|] == entries;
    return Some(Plan(sources, references, refresh, stale));
  }

  lemma {:induction false} PlanStaysInvalid(entries: seq<Entry>, index: map<string, Item>, n: nat)
    requires n <= |entries| && PlanFor(entries[..n], index).None?
    ensures PlanFor(entries, index).None?
    decreases |entries| - n
  {
    if n == |entries| {
      assert entries[..n] == entries;
    } else {
      assert entries[..n + 1][..n] == entries[..n];
      PlanStaysInvalid(entries, index, n + 1);
    }
  }

  /** The plan treats this entry as the item rule says. */
  predicate EntryPlanned(e: Entry, index: map<string, Item>, p: Plan, item: Item) {
    && !InvalidEntry(e)
    && var d := DecideSource(e, Find(index, e.id));
       item == d.item && (e.id in p.refresh <==> d.refresh) && Find(p.references, e.id) == d.reference
  }

  ghost predicate Mentions(entries: seq<Entry>, id: string) {
    exists k | 0 <= k < |entries| :: entries[k].id == id
  }

  ghost predicate AnyStale(items: seq<Item>) {
    exists k | 0 <= k < |items| :: items[k].status == Stale
  }

  /** The plan agrees, entry by entry, with the item rule, mentions no other id, and is stale exactly when some
      item is. */
  ghost predicate PlanOf(entries: seq<Entry>, index: map<string, Item>, p: Plan) {
    && |p.sources| == |entries|
    && (forall k | 0 <= k < |entries| :: EntryPlanned(entries[k], index, p, p.sources[k]))
    && (p.stale <==> AnyStale(p.sources))
    && (forall id | id in p.references || id in p.refresh :: Mentions(entries, id))
  }

  lemma PlanExtends(entries: seq<Entry>, n: nat, index: map<string, Item>, p: Plan)
    requires n < |entries| && DistinctEntries(entries) && !InvalidEntry(entries[n])
    requires PlanOf(entries[..n], index, p)
    ensures PlanOf(entries[..n + 1], index, Extend(p, entries[n], index))
  {
    hide DecideSource, InvalidEntry;
    var e := entries[n];
    var q := Extend(p, e, index);
    assert !Mentions(entries[..n], e.id);
    forall k | 0 <= k < n + 1
      ensures EntryPlanned(entries[k], index, q, q.sources[k])
    {
      if k < n {
        assert entries[..n][k] == entries[k];
        assert EntryPlanned(entries[k], index, p, p.sources[k]);
      }
    }
    forall id | id in q.references || id in q.refresh
      ensures Mentions(entries[..n + 1], id)
    {
      if id == e.id {
        assert entries[..n + 1][n].id == id;
      } else {
        assert Mentions(entries[..n], id);
        var k :| 0 <= k < n && entries[..n][k].id == id;
        assert entries[..n + 1][k].id == id;
      }
    }
    ExtendStale(p.sources, q.sources[n]);
  }

  /** What the loop computes is exactly the plan the item rule describes, and there is none exactly when some
      entry is invalid. */
  lemma {:induction false} PlanForIsThePlan(entries: seq<Entry>, index: map<string, Item>)
    requires DistinctEntries(entries)
    ensures PlanFor(entries, index).None? <==> exists k | 0 <= k < |entries| :: InvalidEntry(entries[k])
    ensures PlanFor(entries, index).Some? ==> PlanOf(entries, index, PlanFor(entries, index).value)
  {
    hide DecideSource, Mentions;
    if entries != [] {
      var n := |entries| - 1;
      PlanForIsThePlan(entries[..n], index);
      if PlanFor(entries[..n], index).None? {
        var k :| 0 <= k < n && InvalidEntry(entries[..n][k]);
        assert InvalidEntry(entries[k]);
      } else {
        var p := PlanFor(entries[..n], index).value;
        forall k | 0 <= k < n
          ensures !InvalidEntry(entries[k])
        {
          assert EntryPlanned(entries[..n][k], index, p, p.sources[k]);
        }
        if !InvalidEntry(entries[n]) {
          PlanExtends(entries, n, index, p);
          assert entries[..n + 1] == entries;
        }
      }
    }
  }

  lemma ExtendStale(items: seq<Item>, item: Item)
    ensures AnyStale(items + [item]) <==> AnyStale(items) || item.status == Stale
  {
    var all := items + [item];
    if AnyStale(items) {
      var k :| 0 <= k < |items| && items[k].status == Stale;
      assert all[k].status == Stale;
    }
    if item.status == Stale {
      assert all[|items|].status == Stale;
    }
  }

  lemma {:induction false} ByIdFinds(items: seq<Item>, k: nat)
    requires k < |items|
    requires forall i, j | 0 <= i < j < |items| :: items[i].id != items[j].id
    ensures Find(ById(items), items[k].id) == Some(items[k])
  {
    var rest := items[..|items| - 1];
    if k < |rest| {
      ByIdFinds(rest, k);
    }
  }

  /** The next manifest is well formed whenever the current one is. */
  lemma PlanWellFormed(entries: seq<Entry>, current: seq<Item>, p: Plan)
    requires DistinctEntries(entries) && WellFormed(current) && PlanOf(entries, ById(current), p)
    ensures WellFormed(p.sources)
    ensures forall k | 0 <= k < |entries| :: p.sources[k].id == entries[k].id
  {
    forall k | 0 <= k < |entries|
      ensures p.sources[k].id == entries[k].id && OwnsPath(p.sources[k])
    {
      var found := Find(ById(current), entries[k].id);
      if found.Some? {
        assert found.value in current;
      }
      assert EntryPlanned(entries[k], ById(current), p, p.sources[k]);
    }
  }

  /** A Wiki file that is not refreshed is recorded exactly as the current manifest records it: same version,
      digest and path. This is why copying the current file is enough. The size is not among them. */
  lemma KeptWikiFileIsCurrent(e: Entry, current: seq<Item>)
    requires !InvalidEntry(e) && WellFormed(current)
    ensures var found := Find(ById(current), e.id);
            var d := DecideSource(e, found);
            d.item.source.typ == CocolaWiki && d.item.path != NoPath && !d.refresh ==>
              && found.Some? && found.value in current && found.value.source.typ == CocolaWiki
              && found.value.version == d.item.version
              && found.value.sha == d.item.sha
              && found.value.path == d.item.path
  {
    var found := Find(ById(current), e.id);
    if found.Some? {
      assert found.value in current;
      assert OwnsPath(found.value);
    }
  }

  // ---------------------------------------------------------------------------------------------
  // Which planned items the sandbox reader accepts

  const MAX_PATH: nat := 512

  /** The path as the manifest writes it. Ids are hexadecimal and file names sanitized to one component that does not
      start with a dot, so it cannot leave the revision. */
  function PathText(p: Path): string {
    match p
    case NoPath => ""
    case WikiFile(id, filename) => "cocola-wiki/" + id + "/" + filename
    case FeishuFile(id) => "feishu/" + id + ".md"
  }

  function Stripped(s: string): (r: string)
    ensures r <= s && (r != "" ==> !T.IsSpace(r[|r| - 1])) && forall i | |r| <= i < |s| :: T.IsSpace(s[i])
  {
    if s != "" && T.IsSpace(s[|s| - 1]) then Stripped(s[..|s| - 1]) else s
  }

  /** The reader strips the path. No path begins with a space, so this touches the end of a file name only; where
      nothing is left of it, the path is that of the directory. */
  predicate Found(p: Path, files: map<Path, Content>) {
    match p
    case NoPath => false
    case WikiFile(id, filename) =>
      if Stripped(filename) == "" then exists q | q in files :: q.WikiFile? && q.id == id
      else WikiFile(id, Stripped(filename)) in files
    case FeishuFile(_) => p in files
  }

  predicate TooLong(p: Path) {
    |Stripped(PathText(p))| > MAX_PATH
  }

  /** The reader's rules for a Wiki item: a ready or stale item must name a file; a named path must not be too long, and
      a ready item's file must be there. */
  predicate ReaderAccepts(i: Item, files: map<Path, Content>) {
    i.source.typ == CocolaWiki ==>
      if i.path == NoPath then i.status != Ready && i.status != Stale
      else !TooLong(i.path) && (i.status == Ready ==> Found(i.path, files))
  }

  /** What the reader asks of an entry and the current item: a ready entry's file name is not too long and does not end
      in a space, unless it is all spaces; a temporarily unavailable one has no current Wiki item, or one with a file
      under a name that is not too long. */
  predicate Readable(e: Entry, current: Option<Item>) {
    match e.state
    case StateUnavailable => true
    case StateReady =>
      e.source.typ == CocolaWiki && e.reference.Some? ==>
        var name := e.reference.value.filename;
        !TooLong(WikiFile(e.id, name)) && (Stripped(name) == "" || Stripped(name) == name)
    case StateTemporarilyUnavailable =>
      current.Some? && current.value.source.typ == CocolaWiki ==>
        current.value.path != NoPath && !TooLong(current.value.path)
  }

  /** The reader accepts a planned item whose file was staged, alone in its directory, exactly when its entry is
      readable. */
  lemma ReaderAcceptsPlanned(e: Entry, current: Option<Item>, files: map<Path, Content>)
    requires !InvalidEntry(e)
    requires var i := DecideSource(e, current).item;
             i.source.typ == CocolaWiki && i.path != NoPath && i.status == Ready ==>
               i.path in files && forall p | p in files && p.WikiFile? && p.id == e.id :: p == i.path
    ensures ReaderAccepts(DecideSource(e, current).item, files) <==> Readable(e, current)
  {
    hide TooLong, Stripped, T.IsSpace;
    var i := DecideSource(e, current).item;
    if e.state == StateReady && e.source.typ == CocolaWiki {
      assert i.path == WikiFile(e.id, e.reference.value.filename);
    }
  }

  /** A file name ending in a space, which sanitizing can leave behind, is staged under that name and looked for
      without the space. */
  lemma TrailingSpaceIsRejected(e: Entry, current: Option<Item>, name: string)
    requires e.state == StateReady && e.source.typ == CocolaWiki && !InvalidEntry(e)
    requires e.reference.value.filename == name + " " && name != "" && !T.IsSpace(name[|name| - 1])
    ensures var i := DecideSource(e, current).item;
            i.path == WikiFile(e.id, name + " ") && !ReaderAccepts(i, map[i.path := ""])
  {
    assert Stripped(name + " ") == name by {
      assert (name + " ")[..|name|] == name;
    }
  }

  lemma {:induction false} StripsTheEnd(p: string, s: string)
    requires p != "" && !T.IsSpace(p[|p| - 1])
    ensures Stripped(p + s) == p + Stripped(s)
  {
    hide T.IsSpace;
    if s != "" && T.IsSpace(s[|s| - 1]) {
      assert (p + s)[..|p + s| - 1] == p + s[..|s| - 1];
      StripsTheEnd(p, s[..|s| - 1]);
    } else if s == "" {
      assert p + s == p;
    }
  }

  /** Ids are 64 characters, so a Wiki file's name may have 435. */
  lemma LongNames(id: string, name: string)
    requires |id| == 64
    ensures TooLong(WikiFile(id, name)) <==> |Stripped(name)| > 435
  {
    StripsTheEnd("cocola-wiki/" + id + "/", name);
  }

  /** Unavailable twice in a row is enough to reach the rejected state. */
  lemma UnavailableTwiceIsRejected(e: Entry, files: map<Path, Content>)
    requires e.state == StateTemporarilyUnavailable && e.source.typ == CocolaWiki
    ensures var first := DecideSource(e, None).item;
            ReaderAccepts(first, files) && !ReaderAccepts(DecideSource(e, Some(first)).item, files)
  {
  }
}
