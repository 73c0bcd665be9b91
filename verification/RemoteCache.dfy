/** The cache of remote Knowledge documents in the sandbox: one file per source and one shared state file. Paths,
    the Feishu command line and the classification of its errors are not part of the model. */
module RemoteCache {
  import opened Prelude

  const TTL := 900
  const RETRY_BACKOFF := 60
  const MAX_CONTENT := 8 * 1024 * 1024

  datatype Status = Ready | Stale | TemporarilyUnavailable | Unavailable
                  | PermissionRequired | NotFound | ConnectorRequired

  /** A cached file. When it was fetched is known to the model only; the code relies on the state file. */
  datatype Document = Document(content: string, fetchedAt: real)

  datatype Entry = Entry(status: Status, checkedAt: int, fetchedAt: Option<int>)

  datatype Cache = Cache(files: map<string, Document>, state: map<string, Entry>)

  datatype Fetch = NoTool | TimedOut | Content(content: string, size: nat) | Refused(status: Status)

  /** One read: the source and its manifest status, the active sources, the clock at the code's four readings, whether
      the state file is unreadable, whether the deadline has passed, what a fetch would bring, and which writes fail. */
  datatype Call = Call(id: string, status: Status, active: set<string>, t1: real, t2: real, t3: real, t4: real,
                       unreadable: bool, late: bool, fetch: Fetch, fileWriteFails: bool, stateWriteFails: bool)

  datatype Reason = SourceUnavailable | RemoteUnavailable | TooLarge | ToolUnavailable | Denied(status: Status)

  /** A path with its stale flag, a KnowledgeError, or an I/O exception. */
  datatype Outcome = Path(doc: Document, stale: bool) | Error(reason: Reason) | IoError

  function Known(s: Cache, c: Call): map<string, Entry> {
    if c.unreadable then map[] else map id | id in s.state && id in c.active :: s.state[id]
  }

  function EntryFor(s: Cache, c: Call): Entry {
    if c.id in Known(s, c) then Known(s, c)[c.id] else Entry(Ready, 0, None)
  }

  /** An absent time reads as zero. */
  function FetchedAt(e: Entry): real {
    if e.fetchedAt.Some? then e.fetchedAt.value as real else 0.0
  }

  /** `_update_remote_state`: the whole entry is replaced, so a failure forgets when the file was fetched. */
  function Updated(s: Cache, c: Call, status: Status, fetchedAt: Option<int>): Cache {
    s.(state := Known(s, c)[c.id := Entry(status, c.t4.Floor, fetchedAt)])
  }

  function Available(s: Cache, c: Call): Outcome {
    if c.id in s.files then Path(s.files[c.id], true) else Error(RemoteUnavailable)
  }

  predicate IsDenial(status: Status) {
    status.PermissionRequired? || status.NotFound? || status.ConnectorRequired?
  }

  function AfterFetch(s: Cache, c: Call): (Cache, Outcome) {
    match c.fetch
    case NoTool => (s, Error(ToolUnavailable))
    case TimedOut =>
      if c.stateWriteFails then (s, IoError) else (Updated(s, c, TemporarilyUnavailable, None), Available(s, c))
    case Content(content, size) =>
      if size > MAX_CONTENT then
        var removed := s.(files := s.files - {c.id});
        if c.stateWriteFails then (removed, IoError) else (Updated(removed, c, Unavailable, None), Error(TooLarge))
      else if c.fileWriteFails then (s, IoError)
      else
        var doc := Document(content, c.t3);
        var stored := s.(files := s.files[c.id := doc]);
        if c.stateWriteFails then (stored, IoError)
        else (Updated(stored, c, Ready, Some(c.t3.Floor)), Path(doc, false))
    case Refused(status) =>
      if c.stateWriteFails then (s, IoError)
      else
        var after := Updated(s, c, status, None);
        if IsDenial(status) then (after.(files := s.files - {c.id}), Error(Denied(status)))
        else if c.id in s.files then (after, Path(s.files[c.id], true))
        else (after, Error(Denied(status)))
  }

  predicate ServesFresh(s: Cache, c: Call) {
    c.id in s.files && c.t1 - FetchedAt(EntryFor(s, c)) < TTL as real
  }

  predicate BacksOff(s: Cache, c: Call) {
    EntryFor(s, c).status.TemporarilyUnavailable? && c.id in s.files
    && c.t2 - EntryFor(s, c).checkedAt as real < RETRY_BACKOFF as real
  }

  function Step(s: Cache, c: Call): (Cache, Outcome) {
    if c.status.Unavailable? then (s, Error(SourceUnavailable))
    else if c.status.Stale? || c.status.TemporarilyUnavailable? then (s, Available(s, c))
    else if ServesFresh(s, c) then (s, Path(s.files[c.id], false))
    else if BacksOff(s, c) then (s, Path(s.files[c.id], true))
    else if c.late then (s, Available(s, c))
    else AfterFetch(s, c)
  }

  /** A read, or a swap of revisions that carries over the cached files of `kept`. */
  datatype Event = Read(call: Call) | Swap(kept: set<string>)

  function Happens(s: Cache, e: Event): Cache {
    match e
    case Read(c) => Step(s, c).0
    case Swap(kept) => s.(files := map id | id in s.files && id in kept :: s.files[id])
  }

  class RemoteDocuments {
    var cache: Cache

    constructor (cache: Cache)
      ensures this.cache == cache
    {
      this.cache := cache;
    }

    /** Another revision becomes current: the provisioner carried some files over and left others out. The state file
        lies outside the revisions. */
    method SwapRevision(kept: set<string>)
      modifies this
      ensures cache == Happens(old(cache), Swap(kept)) && cache.state == old(cache).state
      ensures forall id :: id in cache.files <==> id in old(cache).files && id in kept
      ensures forall id | id in cache.files :: cache.files[id] == old(cache).files[id]
    {
      cache := cache.(files := map id | id in cache.files && id in kept :: cache.files[id]);
    }

    method UpdateState(c: Call, status: Status, fetchedAt: Option<int>) returns (raised: bool)
      modifies this
      ensures raised == c.stateWriteFails
      ensures cache == if raised then old(cache) else Updated(old(cache), c, status, fetchedAt)
    {
      raised := c.stateWriteFails;
      if !raised {
        var value := Known(cache, c);
        cache := cache.(state := value[c.id := Entry(status, c.t4.Floor, fetchedAt)]);
      }
    }

    method RemoteDocument(c: Call) returns (outcome: Outcome)
      modifies this
      ensures (cache, outcome) == Step(old(cache), c)
    {
      var entry := EntryFor(cache, c);
      if c.status.Unavailable? {
        return Error(SourceUnavailable);
      }
      if c.status.Stale? || c.status.TemporarilyUnavailable? {
        return Available(cache, c);
      }
      if c.id in cache.files && c.t1 - FetchedAt(entry) < TTL as real {
        return Path(cache.files[c.id], false);
      }
      if entry.status.TemporarilyUnavailable? && c.id in cache.files
         && c.t2 - entry.checkedAt as real < RETRY_BACKOFF as real {
        return Path(cache.files[c.id], true);
      }
      if c.late {
        return Available(cache, c);
      }
      outcome := StoreFetched(c);
    }

    method StoreFetched(c: Call) returns (outcome: Outcome)
      modifies this
      ensures (cache, outcome) == AfterFetch(old(cache), c)
    {
      hide Known;
      var raised := false;
      match c.fetch {
        case NoTool =>
          outcome := Error(ToolUnavailable);
        case TimedOut =>
          raised := UpdateState(c, TemporarilyUnavailable, None);
          outcome := if raised then IoError else Available(cache, c);
        case Content(content, size) =>
          if size > MAX_CONTENT {
            cache := cache.(files := cache.files - {c.id});
            raised := UpdateState(c, Unavailable, None);
            outcome := if raised then IoError else Error(TooLarge);
          } else if c.fileWriteFails {
            outcome := IoError;
          } else {
            var doc := Document(content, c.t3);
            cache := cache.(files := cache.files[c.id := doc]);
            raised := UpdateState(c, Ready, Some(c.t3.Floor));
            outcome := if raised then IoError else Path(doc, false);
          }
        case Refused(status) =>
          raised := UpdateState(c, status, None);
          if raised {
            return IoError;
          }
          if IsDenial(status) {
            cache := cache.(files := cache.files - {c.id});
          }
          outcome := if c.id in cache.files then Path(cache.files[c.id], true) else Error(Denied(status));
      }
    }
  }

  // ---------------------------------------------------------------------------------------------
  // What a read does

  /** What the state file says of the source: nothing when it cannot be read, or when the source is not active. */
  function Recorded(s: Cache, c: Call): Option<Entry> {
    if !c.unreadable && c.id in s.state && c.id in c.active then Some(s.state[c.id]) else None
  }

  /** A fetch is made only for a source that is not unavailable, stale or temporarily unavailable, whose cached file, if
      any, was not fetched within 900 seconds nor failed to be fetched within 60, and with time left. Otherwise nothing
      changes: the cached file is returned, not stale only within the 900 seconds, or there is an error. */
  lemma WithoutAFetch(s: Cache, c: Call)
    ensures var (after, outcome) := Step(s, c);
            var recorded, cached := Recorded(s, c), c.id in s.files;
            var fetched := if recorded.Some? && recorded.value.fetchedAt.Some? then recorded.value.fetchedAt.value
                           else 0;
            var withheld := c.status.Stale? || c.status.TemporarilyUnavailable?;
            var recent := cached && c.t1 - fetched as real < 900.0;
            var failed := cached && recorded.Some? && recorded.value.status.TemporarilyUnavailable?
                          && c.t2 - recorded.value.checkedAt as real < 60.0;
            && (c.status.Unavailable? ==> (after, outcome) == (s, Error(SourceUnavailable)))
            && (withheld ==>
                  (after, outcome) == (s, if cached then Path(s.files[c.id], true) else Error(RemoteUnavailable)))
            && (!c.status.Unavailable? && !withheld ==>
                  && (recent ==> (after, outcome) == (s, Path(s.files[c.id], false)))
                  && (!recent && failed ==> (after, outcome) == (s, Path(s.files[c.id], true)))
                  && (!recent && !failed && c.late ==>
                        (after, outcome) == (s, if cached then Path(s.files[c.id], true) else Error(RemoteUnavailable)))
                  && (!recent && !failed && !c.late ==> (after, outcome) == AfterFetch(s, c)))
  {
  }

  /** What the state file says after a write: the active sources it could read, and the new entry in full. */
  function Rewritten(s: Cache, c: Call, e: Entry): map<string, Entry> {
    (if c.unreadable then map[] else map id | id in s.state && id in c.active :: s.state[id])[c.id := e]
  }

  /** A fetch: content is stored and recorded with its time; too large content and a denial remove the file; any other
      failure keeps it and serves it as stale. When a write fails there is an I/O error, and what was written before it
      stays. */
  lemma AfterAFetch(s: Cache, c: Call)
    ensures var (after, outcome) := AfterFetch(s, c);
            var cached, now := c.id in s.files, c.t4.Floor;
            match c.fetch
            case NoTool => (after, outcome) == (s, Error(ToolUnavailable))
            case TimedOut =>
              if c.stateWriteFails then (after, outcome) == (s, IoError)
              else
                && after == Cache(s.files, Rewritten(s, c, Entry(TemporarilyUnavailable, now, None)))
                && outcome == if cached then Path(s.files[c.id], true) else Error(RemoteUnavailable)
            case Content(content, size) =>
              if size > 8388608 then
                && after.files == s.files - {c.id}
                && after.state == (if c.stateWriteFails then s.state
                                   else Rewritten(s, c, Entry(Unavailable, now, None)))
                && outcome == if c.stateWriteFails then IoError else Error(TooLarge)
              else if c.fileWriteFails then (after, outcome) == (s, IoError)
              else
                && after.files == s.files[c.id := Document(content, c.t3)]
                && after.state == (if c.stateWriteFails then s.state
                                   else Rewritten(s, c, Entry(Ready, now, Some(c.t3.Floor))))
                && outcome == if c.stateWriteFails then IoError else Path(Document(content, c.t3), false)
            case Refused(status) =>
              var denied := status.PermissionRequired? || status.NotFound? || status.ConnectorRequired?;
              if c.stateWriteFails then (after, outcome) == (s, IoError)
              else
                && after == Cache(if denied then s.files - {c.id} else s.files,
                                  Rewritten(s, c, Entry(status, now, None)))
                && outcome == if cached && !denied then Path(s.files[c.id], true) else Error(Denied(status))
  {
  }

  // ---------------------------------------------------------------------------------------------
  // Runs

  predicate InOrder(now: real, c: Call) {
    now <= c.t1 <= c.t2 <= c.t3 <= c.t4
  }

  /** The clock after the events, if it was `now` before. */
  function LastClock(now: real, events: seq<Event>): real {
    if events == [] then now
    else
      var n := |events| - 1;
      if events[n].Read? then events[n].call.t4 else LastClock(now, events[..n])
  }

  /** The clock does not go back, within a call or between calls, from `now` on. */
  predicate Clocked(now: real, events: seq<Event>) {
    events != [] ==>
      var n := |events| - 1;
      Clocked(now, events[..n]) && (events[n].Read? ==> InOrder(LastClock(now, events[..n]), events[n].call))
  }

  function After(s: Cache, events: seq<Event>): Cache {
    if events == [] then s else Happens(After(s, events[..|events| - 1]), events[|events| - 1])
  }

  function CacheBefore(s: Cache, events: seq<Event>, i: nat): Cache
    requires i < |events|
  {
    After(s, events[..i])
  }

  function OutcomeAt(s: Cache, events: seq<Event>, i: nat): Outcome
    requires i < |events| && events[i].Read?
  {
    Step(CacheBefore(s, events, i), events[i].call).1
  }

  /** The call fetches content and puts it in the cache. */
  predicate Stores(s: Cache, c: Call) {
    && (c.status.Ready? || IsDenial(c.status)) && !ServesFresh(s, c) && !BacksOff(s, c) && !c.late
    && c.fetch.Content? && c.fetch.size <= MAX_CONTENT && !c.fileWriteFails
  }

  /** No time is from the future, and a file is never older than the state says. */
  predicate SoundAt(s: Cache, now: real, id: string) {
    && (id in s.state ==> FetchedAt(s.state[id]) <= now)
    && (id in s.files ==> 0.0 <= s.files[id].fetchedAt <= now
                          && (id in s.state ==> FetchedAt(s.state[id]) <= s.files[id].fetchedAt))
  }

  lemma FetchKeepsSound(s: Cache, c: Call, now: real, id: string)
    requires SoundAt(s, now, id) && 0.0 <= now <= c.t3 <= c.t4
    ensures SoundAt(AfterFetch(s, c).0, c.t4, id)
  {
    assert c.t3.Floor as real <= c.t3;
  }

  lemma StepKeepsSound(s: Cache, c: Call, now: real, id: string)
    requires SoundAt(s, now, id) && 0.0 <= now && InOrder(now, c)
    ensures SoundAt(Step(s, c).0, c.t4, id)
    ensures id in Step(s, c).0.files ==>
              (id in s.files && Step(s, c).0.files[id] == s.files[id])
              || (c.id == id && Stores(s, c) && Step(s, c).0.files[id] == Document(c.fetch.content, c.t3))
  {
    FetchKeepsSound(s, c, now, id);
    FetchStores(s, c, id);
    hide AfterFetch;
  }

  lemma FetchStores(s: Cache, c: Call, id: string)
    ensures id in AfterFetch(s, c).0.files ==>
              (id in s.files && AfterFetch(s, c).0.files[id] == s.files[id])
              || (c.id == id && c.fetch.Content? && c.fetch.size <= MAX_CONTENT && !c.fileWriteFails
                  && AfterFetch(s, c).0.files[id] == Document(c.fetch.content, c.t3))
  {
  }

  lemma {:induction false} ClockedAt(now: real, events: seq<Event>, n: nat)
    requires 0.0 <= now && Clocked(now, events) && n <= |events|
    ensures Clocked(now, events[..n]) && 0.0 <= LastClock(now, events[..n])
    ensures n < |events| && events[n].Read? ==> InOrder(LastClock(now, events[..n]), events[n].call)
  {
    if n == |events| {
      assert events[..n] == events;
      if n > 0 {
        ClockedAt(now, events[..n - 1], n - 1);
        assert events[..n - 1][..n - 1] == events[..n - 1];
      }
    } else {
      var m := |events| - 1;
      ClockedAt(now, events[..m], n);
      assert events[..m][..n] == events[..n];
    }
  }

  /** The event fetched this document of the source and stored it. */
  predicate Source(s: Cache, events: seq<Event>, j: nat, id: string, doc: Document)
    requires j < |events|
  {
    && events[j].Read? && events[j].call.id == id && Stores(CacheBefore(s, events, j), events[j].call)
    && doc == Document(events[j].call.fetch.content, events[j].call.t3)
  }

  /** The document was there at the start, or an event before `n` stored it. */
  predicate Sourced(s: Cache, events: seq<Event>, n: nat, id: string, doc: Document)
    requires n <= |events|
  {
    (id in s.files && doc == s.files[id]) || exists j | 0 <= j < n :: Source(s, events, j, id, doc)
  }

  lemma SwapKeeps(s: Cache, kept: set<string>, now: real, id: string)
    requires SoundAt(s, now, id)
    ensures SoundAt(Happens(s, Swap(kept)), now, id)
    ensures id in Happens(s, Swap(kept)).files ==> id in s.files && Happens(s, Swap(kept)).files[id] == s.files[id]
  {
  }

  lemma {:induction false} FilesAreSourced(s: Cache, now: real, events: seq<Event>, n: nat, id: string)
    requires 0.0 <= now && SoundAt(s, now, id) && Clocked(now, events) && n <= |events|
    ensures SoundAt(After(s, events[..n]), LastClock(now, events[..n]), id)
    ensures id in After(s, events[..n]).files ==> Sourced(s, events, n, id, After(s, events[..n]).files[id])
  {
    if n > 0 {
      hide Step, Happens, Stores, SoundAt, Clocked;
      ClockedAt(now, events, n - 1);
      FilesAreSourced(s, now, events, n - 1, id);
      assert events[..n][..n - 1] == events[..n - 1];
      var before := After(s, events[..n - 1]);
      var after := Happens(before, events[n - 1]);
      EventKeeps(before, events[n - 1], LastClock(now, events[..n - 1]), id);
      if id in after.files {
        var doc := after.files[id];
        if id in before.files && doc == before.files[id] {
          if !(id in s.files && doc == s.files[id]) {
            var j :| 0 <= j < n - 1 && Source(s, events, j, id, doc);
            assert Source(s, events, j, id, doc);
          }
        } else {
          assert Source(s, events, n - 1, id, doc);
        }
      }
    } else {
      assert events[..0] == [];
    }
  }

  lemma EventKeeps(s: Cache, e: Event, now: real, id: string)
    requires SoundAt(s, now, id) && 0.0 <= now && (e.Read? ==> InOrder(now, e.call))
    ensures SoundAt(Happens(s, e), if e.Read? then e.call.t4 else now, id)
    ensures id in Happens(s, e).files ==>
              (id in s.files && Happens(s, e).files[id] == s.files[id])
              || (e.Read? && e.call.id == id && Stores(s, e.call)
                  && Happens(s, e).files[id] == Document(e.call.fetch.content, e.call.t3))
  {
    match e
    case Read(c) =>
      StepKeepsSound(s, c, now, id);
      hide Step, Stores, SoundAt;
    case Swap(kept) => SwapKeeps(s, kept, now, id);
  }

  lemma FreshIs(s: Cache, c: Call, now: real)
    requires SoundAt(s, now, c.id) && 0.0 <= now <= c.t1
    requires Step(s, c).1.Path? && !Step(s, c).1.stale
    ensures (Stores(s, c) && Step(s, c).1.doc == Document(c.fetch.content, c.t3))
            || (c.id in s.files && Step(s, c).1.doc == s.files[c.id] && c.t1 - s.files[c.id].fetchedAt < TTL as real)
  {
  }

  /** Over every run of reads and revision swaps, from any cache whose state claims no file to be newer than it is: a
      document returned as not stale was fetched and stored by this very call, or less than 900 seconds ago; and what is
      returned either was in the cache at the start or is what a successful fetch of that source brought. */
  lemma NotStaleIsRecent(s: Cache, now: real, events: seq<Event>, i: nat)
    requires 0.0 <= now && Clocked(now, events) && i < |events| && events[i].Read?
    requires SoundAt(s, now, events[i].call.id)
    requires OutcomeAt(s, events, i).Path? && !OutcomeAt(s, events, i).stale
    ensures var c, doc := events[i].call, OutcomeAt(s, events, i).doc;
            || Source(s, events, i, c.id, doc)
            || (c.t1 - doc.fetchedAt < TTL as real && Sourced(s, events, i, c.id, doc))
  {
    hide Step, Stores, Clocked, SoundAt, Sourced;
    ClockedAt(now, events, i);
    FilesAreSourced(s, now, events, i, events[i].call.id);
    FreshIs(After(s, events[..i]), events[i].call, LastClock(now, events[..i]));
  }

  /** What was fetched is served again, unchanged and without a fetch, for 900 seconds of the recorded time. */
  lemma StoredIsServed(s: Cache, c: Call, d: Call)
    requires Stores(s, c) && !c.stateWriteFails && d.id == c.id && d.id in d.active && !d.unreadable && d.status.Ready?
    requires d.t1 - c.t3.Floor as real < TTL as real
    ensures Step(s, c).1 == Path(Document(c.fetch.content, c.t3), false)
    ensures Step(Step(s, c).0, d) == (Step(s, c).0, Path(Document(c.fetch.content, c.t3), false))
  {
  }

  /** The source says the bot may not read it, cannot be found, has no connector, or is too large. */
  predicate Revoked(o: Outcome) {
    o.Error? && (o.reason.TooLarge? || (o.reason.Denied? && IsDenial(o.reason.status)))
  }

  lemma RevokedRemoves(s: Cache, c: Call)
    requires Revoked(Step(s, c).1)
    ensures c.id !in Step(s, c).0.files
  {
  }

  /** The event fetches this source and stores it. */
  predicate Refetches(s: Cache, e: Event, id: string) {
    e.Read? && e.call.id == id && Stores(s, e.call)
  }

  lemma NothingWithoutAFile(s: Cache, e: Event, id: string)
    requires id !in s.files && !Refetches(s, e, id)
    ensures id !in Happens(s, e).files
    ensures e.Read? && e.call.id == id ==> !Step(s, e.call).1.Path?
  {
  }

  lemma {:induction false} StaysRevoked(s: Cache, events: seq<Event>, i: nat, j: nat)
    requires i < j <= |events| && events[i].Read? && Revoked(OutcomeAt(s, events, i))
    requires forall k | i < k < j :: !Refetches(CacheBefore(s, events, k), events[k], events[i].call.id)
    ensures events[i].call.id !in After(s, events[..j]).files
  {
    hide Step, Stores, Refetches, Revoked;
    assert events[..j][..j - 1] == events[..j - 1];
    if j == i + 1 {
      RevokedRemoves(After(s, events[..i]), events[i].call);
    } else {
      StaysRevoked(s, events, i, j - 1);
      assert !Refetches(CacheBefore(s, events, j - 1), events[j - 1], events[i].call.id);
      NothingWithoutAFile(After(s, events[..j - 1]), events[j - 1], events[i].call.id);
    }
  }

  /** Over every run, from any cache: after such an outcome no content is returned for that source, stale or not,
      before a later call has fetched it again. */
  lemma NoContentAfterRevocation(s: Cache, events: seq<Event>, i: nat, j: nat)
    requires i < j < |events| && events[i].Read? && events[j].Read? && events[j].call.id == events[i].call.id
    requires Revoked(OutcomeAt(s, events, i))
    requires forall k | i < k <= j :: !Refetches(CacheBefore(s, events, k), events[k], events[i].call.id)
    ensures !OutcomeAt(s, events, j).Path?
  {
    hide Step, Stores, Refetches, Revoked;
    StaysRevoked(s, events, i, j);
    assert !Refetches(CacheBefore(s, events, j), events[j], events[i].call.id);
    NothingWithoutAFile(After(s, events[..j]), events[j], events[j].call.id);
  }

  /** A denied source keeps its content exactly when the state file cannot be written, because that comes before the
      removal; the caller then sees an I/O error. A too large one is removed first. */
  lemma DenialNeedsTheStateWrite(s: Cache, c: Call)
    requires c.status.Ready? && c.id in s.files && !ServesFresh(s, c) && !BacksOff(s, c) && !c.late
    requires c.fetch.Refused? && IsDenial(c.fetch.status)
    ensures c.id in Step(s, c).0.files <==> c.stateWriteFails
    ensures Step(s, c).1.IoError? <==> c.stateWriteFails
  {
  }

  /** Then a later read of that source that cannot fetch, being late, returns the denied content. */
  lemma DeniedContentIsReturned(s: Cache, c: Call, d: Call)
    requires c.status.Ready? && c.id in s.files && !ServesFresh(s, c) && !BacksOff(s, c) && !c.late
    requires c.fetch.Refused? && IsDenial(c.fetch.status)
    requires d.id == c.id && d.late && (d.status.Ready? || d.status.Stale? || d.status.TemporarilyUnavailable?)
    ensures Step(Step(s, c).0, d).1.Path? <==> c.stateWriteFails
    ensures c.stateWriteFails ==> Step(Step(s, c).0, d).1.doc == s.files[c.id]
  {
  }

  /** Such a run: an hour after the fetch the source is denied, and the next read returns the content as stale. */
  method ServesDeniedContent() returns (first: Outcome, second: Outcome)
    ensures first == IoError && second == Path(Document("secret", 0.0), true)
  {
    var cached := Cache(map["a" := Document("secret", 0.0)], map["a" := Entry(Ready, 0, Some(0))]);
    var denied := Call("a", Ready, {"a"}, 3600.0, 3600.0, 3600.0, 3600.0, false, false, Refused(PermissionRequired),
                       false, true);
    var documents := new RemoteDocuments(cached);
    first := documents.RemoteDocument(denied);
    second := documents.RemoteDocument(denied.(late := true));
  }
}
