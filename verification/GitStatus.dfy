/** Parsing the output of Git's porcelain v2 status with NUL-terminated records. Text is decoded characters. */
module GitStatus {
  import opened Prelude
  import opened Text

  const NUL := '\U{0000}'

  datatype Area = Both | Staged | Working | Untracked

  datatype Change = Change(path: string, oldPath: string, status: string, area: Area)

  /** What one record says, before its status is read; a renamed entry takes the next record as its old path. */
  datatype Meaning = Nothing | Head(branch: string) | Entry(xy: string, path: string, renamed: bool)

  const HEAD := "# branch.head "

  /** An entry of `fields` space-separated fields, of which the last, the path, may hold spaces itself. */
  function EntryOf(text: string, limit: nat, renamed: bool): Meaning
    requires limit > 1
  {
    var fields := SplitAtMost(text, ' ', limit);
    if |fields| < limit + 1 then Nothing else Entry(fields[1], fields[limit], renamed)
  }

  function MeaningOf(text: string): Meaning {
    if HEAD <= text then Head(text[|HEAD|..])
    else if "#" <= text || "!" <= text then Nothing
    else if "1 " <= text then EntryOf(text, 8, false)
    else if "2 " <= text then EntryOf(text, 9, true)
    else if "u " <= text then EntryOf(text, 10, false)
    else if "? " <= text then Entry("??", text[2..], false)
    else Nothing
  }

  predicate IsSet(c: char) {
    c != '.' && c != '?'
  }

  /** Both status characters are read, so a shorter status raises. */
  function AreaOf(xy: string): Option<Area> {
    if |xy| < 2 then None
    else Some(if IsSet(xy[0]) && IsSet(xy[1]) then Both
              else if IsSet(xy[0]) then Staged
              else if IsSet(xy[1]) then Working
              else Untracked)
  }

  datatype Status = Status(branch: string, changes: seq<Change>, truncated: bool)

  /** The records from here on, given the branch and the changes so far; `Err` is the index error. */
  function ParseFrom(records: seq<string>, branch: string, changes: seq<Change>): Result<(string, seq<Change>), string>
    decreases |records|
  {
    if records == [] then Ok((branch, changes))
    else
      match MeaningOf(records[0])
      case Nothing => ParseFrom(records[1..], branch, changes)
      case Head(b) => ParseFrom(records[1..], b, changes)
      case Entry(xy, path, renamed) =>
        if AreaOf(xy).None? then Err("index out of range")
        else if renamed && |records| > 1 then
          ParseFrom(records[2..], branch, changes + [Change(path, records[1], xy, AreaOf(xy).value)])
        else ParseFrom(records[1..], branch, changes + [Change(path, "", xy, AreaOf(xy).value)])
  }

  function Cut(parsed: (string, seq<Change>), maxPaths: nat): Status {
    var (branch, changes) := parsed;
    if |changes| > maxPaths then Status(branch, changes[..maxPaths], true) else Status(branch, changes, false)
  }

  method ParsePorcelainV2(raw: string, defaultBranch: string, maxPaths: nat) returns (r: Result<Status, string>)
    ensures var parsed := ParseFrom(Split(raw, NUL), defaultBranch, []);
            r == if parsed.Ok? then Ok(Cut(parsed.value, maxPaths)) else Err(parsed.error)
  {
    var records := Split(raw, NUL);
    var changes: seq<Change> := [];
    var index := 0;
    var branch := defaultBranch;
    while index < |records|
      invariant index <= |records|
      invariant ParseFrom(records[index..], branch, changes) == ParseFrom(records, defaultBranch, [])
      decreases |records| - index
    {
      hide MeaningOf, AreaOf;
      var record := records[index];
      ghost var rest := records[index..];
      assert rest[0] == record && rest[1..] == records[index + 1..];
      index := index + 1;
      match MeaningOf(record) {
        case Nothing =>
        case Head(b) =>
          branch := b;
        case Entry(xy, path, renamed) =>
          var oldPath := "";
          if AreaOf(xy).None? {
            return Err("index out of range");
          }
          if renamed && index < |records| {
            assert rest[1] == records[index] && rest[2..] == records[index + 1..];
            oldPath := records[index];
            index := index + 1;
          }
          changes := changes + [Change(path, oldPath, xy, AreaOf(xy).value)];
      }
    }
    assert records[index..] == [];
    return Ok(Cut((branch, changes), maxPaths));
  }

  // ---------------------------------------------------------------------------------------------
  // Printing, as Git documents the format

  /** `mid` are the mode and object fields between status and path. */
  datatype Item = BranchHead(branch: string) | OtherHeader(text: string) | Ignored(path: string)
                | Ordinary(xy: string, mid: seq<string>, path: string)
                | Renamed(xy: string, mid: seq<string>, path: string, oldPath: string)
                | Unmerged(xy: string, mid: seq<string>, path: string)
                | NewFile(path: string)

  predicate IsField(s: string) {
    ' ' !in s && NUL !in s
  }

  /** Status and middle fields have no spaces; paths and headers only lack NUL, which Git guarantees. */
  predicate WellFormed(item: Item) {
    match item
    case BranchHead(b) => NUL !in b
    case OtherHeader(text) => NUL !in text && !(HEAD <= "#" + text)
    case Ignored(path) => NUL !in path
    case Ordinary(xy, mid, path) => |xy| == 2 && IsField(xy) && NUL !in path && |mid| == 6 && AllFields(mid)
    case Renamed(xy, mid, path, was) =>
      |xy| == 2 && IsField(xy) && NUL !in path && NUL !in was && |mid| == 7 && AllFields(mid)
    case Unmerged(xy, mid, path) => |xy| == 2 && IsField(xy) && NUL !in path && |mid| == 8 && AllFields(mid)
    case NewFile(path) => NUL !in path
  }

  predicate AllFields(fields: seq<string>) {
    forall i | 0 <= i < |fields| :: IsField(fields[i])
  }

  function Records(item: Item): seq<string> {
    match item
    case BranchHead(b) => [HEAD + b]
    case OtherHeader(text) => ["#" + text]
    case Ignored(path) => ["! " + path]
    case Ordinary(xy, mid, path) => [Join(["1", xy] + mid + [path], ' ')]
    case Renamed(xy, mid, path, was) => [Join(["2", xy] + mid + [path], ' '), was]
    case Unmerged(xy, mid, path) => [Join(["u", xy] + mid + [path], ' ')]
    case NewFile(path) => ["? " + path]
  }

  function AllRecords(items: seq<Item>): seq<string> {
    if items == [] then [] else Records(items[0]) + AllRecords(items[1..])
  }

  /** Every record is terminated by NUL. */
  function Terminated(records: seq<string>): string {
    if records == [] then "" else records[0] + ['\U{0000}'] + Terminated(records[1..])
  }

  function Printed(items: seq<Item>): string {
    Terminated(AllRecords(items))
  }

  // ---------------------------------------------------------------------------------------------
  // What should come back

  function ChangeOf(item: Item): Option<Change> {
    match item
    case Ordinary(xy, _, path) => Some(Change(path, "", xy, KnownArea(xy)))
    case Renamed(xy, _, path, was) => Some(Change(path, was, xy, KnownArea(xy)))
    case Unmerged(xy, _, path) => Some(Change(path, "", xy, KnownArea(xy)))
    case NewFile(path) => Some(Change(path, "", "??", Untracked))
    case _ => None
  }

  /** Staged when the first status character is set, working when the second is. */
  function KnownArea(xy: string): Area {
    var staged, working := |xy| > 0 && xy[0] !in {'.', '?'}, |xy| > 1 && xy[1] !in {'.', '?'};
    match (staged, working)
    case (true, true) => Both
    case (true, false) => Staged
    case (false, true) => Working
    case (false, false) => Untracked
  }

  function ChangesOf(items: seq<Item>): seq<Change> {
    if items == [] then []
    else (if ChangeOf(items[0]).Some? then [ChangeOf(items[0]).value] else []) + ChangesOf(items[1..])
  }

  function BranchOf(items: seq<Item>, default: string): string {
    if items == [] then default
    else BranchOf(items[1..], if items[0].BranchHead? then items[0].branch else default)
  }

  // ---------------------------------------------------------------------------------------------
  // Parsing inverts printing

  lemma EntryFields(kind: string, xy: string, mid: seq<string>, path: string)
    requires ' ' !in kind && IsField(xy) && AllFields(mid)
    ensures var fields := [kind, xy] + mid + [path];
            && |fields| == |mid| + 3 && fields[0] == kind && fields[1] == xy && fields[|mid| + 2] == path
            && forall i | 0 <= i < |fields| - 1 :: ' ' !in fields[i]
  {
    var fields := [kind, xy] + mid + [path];
    forall i | 2 <= i < |fields| - 1
      ensures ' ' !in fields[i]
    {
      assert fields[i] == mid[i - 2];
    }
  }

  lemma EntryParses(kind: string, xy: string, mid: seq<string>, path: string, renamed: bool)
    requires |kind| == 1 && kind[0] != ' ' && IsField(xy) && AllFields(mid)
    ensures EntryOf(Join([kind, xy] + mid + [path], ' '), |mid| + 2, renamed) == Entry(xy, path, renamed)
    ensures [kind[0], ' '] <= Join([kind, xy] + mid + [path], ' ')
  {
    hide IsField, AllFields, SplitAtMost, Join;
    EntryFields(kind, xy, mid, path);
    var fields := [kind, xy] + mid + [path];
    SplitAtMostJoin(fields, ' ');
    JoinStarts(fields, ' ');
    assert kind == [kind[0]];
  }

  /** The first record of an item means what it was printed for. */
  lemma FirstMeaning(item: Item)
    requires WellFormed(item)
    ensures MeaningOf(Records(item)[0])
            == if item.BranchHead? then Head(item.branch)
               else if ChangeOf(item).None? then Nothing
               else Entry(ChangeOf(item).value.status, ChangeOf(item).value.path, item.Renamed?)
  {
    hide EntryOf, Join, IsField, AllFields;
    var text := Records(item)[0];
    assert HEAD[0] == '#';
    match item
    case BranchHead(b) =>
    case OtherHeader(_) =>
    case Ignored(_) => assert text[0] == '!';
    case Ordinary(xy, mid, path) =>
      EntryParses("1", xy, mid, path, false);
      assert text[0] == '1';
    case Renamed(xy, mid, path, was) =>
      EntryParses("2", xy, mid, path, true);
      assert text[0] == '2';
    case Unmerged(xy, mid, path) =>
      EntryParses("u", xy, mid, path, false);
      assert text[0] == 'u';
    case NewFile(_) => assert text[0] == '?';
  }

  /** One item, whatever follows it: an old path is taken verbatim even when it looks like a record. */
  lemma ItemParses(item: Item, rest: seq<string>, branch: string, changes: seq<Change>)
    requires WellFormed(item)
    ensures ParseFrom(Records(item) + rest, branch, changes)
            == ParseFrom(rest, if item.BranchHead? then item.branch else branch,
                         if ChangeOf(item).Some? then changes + [ChangeOf(item).value] else changes)
  {
    hide MeaningOf, Join, IsField, AllFields, ParseFrom;
    var all := Records(item) + rest;
    assert all[|Records(item)|..] == rest;
    FirstMeaning(item);
    FirstRecord(all, branch, changes);
  }

  /** One unfolding of the parser. */
  lemma FirstRecord(records: seq<string>, branch: string, changes: seq<Change>)
    requires records != []
    ensures var m := MeaningOf(records[0]);
            && (m.Nothing? ==> ParseFrom(records, branch, changes) == ParseFrom(records[1..], branch, changes))
            && (m.Head? ==> ParseFrom(records, branch, changes) == ParseFrom(records[1..], m.branch, changes))
            && (m.Entry? && AreaOf(m.xy).None? ==> ParseFrom(records, branch, changes) == Err("index out of range"))
            && (m.Entry? && AreaOf(m.xy).Some? ==>
                  var takes := m.renamed && |records| > 1;
                  ParseFrom(records, branch, changes)
                  == ParseFrom(records[if takes then 2 else 1..], branch,
                               changes + [Change(m.path, if takes then records[1] else "", m.xy, AreaOf(m.xy).value)]))
  {
    hide MeaningOf, AreaOf;
  }

  lemma Regroup<T>(a: seq<T>, b: seq<T>, c: seq<T>)
    ensures a + b + c == a + (b + c)
  {
  }

  lemma {:induction false} ItemsParse(items: seq<Item>, rest: seq<string>, branch: string, changes: seq<Change>)
    requires forall i | 0 <= i < |items| :: WellFormed(items[i])
    ensures ParseFrom(AllRecords(items) + rest, branch, changes)
            == ParseFrom(rest, BranchOf(items, branch), changes + ChangesOf(items))
    decreases |items|
  {
    hide ParseFrom, WellFormed, Records, ChangeOf;
    if items == [] {
      assert AllRecords(items) + rest == rest && changes + ChangesOf(items) == changes;
    } else {
      var item := items[0];
      Regroup(Records(item), AllRecords(items[1..]), rest);
      ItemParses(item, AllRecords(items[1..]) + rest, branch, changes);
      var more := if ChangeOf(item).Some? then [ChangeOf(item).value] else [];
      Regroup(changes, more, ChangesOf(items[1..]));
      assert changes + [] == changes;
      ItemsParse(items[1..], rest, if item.BranchHead? then item.branch else branch, changes + more);
    }
  }

  lemma {:induction false} SplitTerminated(records: seq<string>)
    requires forall i | 0 <= i < |records| :: NUL !in records[i]
    ensures Split(Terminated(records), NUL) == records + [""]
  {
    TerminatedIsJoin(records);
    var all := records + [""];
    assert forall i | 0 <= i < |all| :: NUL !in all[i];
    SplitJoin(all, NUL);
  }

  lemma {:induction false} TerminatedIsJoin(records: seq<string>)
    ensures Terminated(records) == Join(records + [""], NUL)
  {
    if records != [] {
      assert (records + [""])[1..] == records[1..] + [""];
      TerminatedIsJoin(records[1..]);
    }
  }

  lemma JoinedHasNoNul(kind: string, xy: string, mid: seq<string>, path: string)
    requires NUL !in kind && IsField(xy) && AllFields(mid) && NUL !in path
    ensures NUL !in Join([kind, xy] + mid + [path], ' ')
  {
    var fields := [kind, xy] + mid + [path];
    forall i | 0 <= i < |fields|
      ensures NUL !in fields[i]
    {
      if 2 <= i < |fields| - 1 {
        assert fields[i] == mid[i - 2];
      }
    }
    JoinHas(fields, ' ', NUL);
  }

  lemma RecordsHaveNoNul(item: Item)
    requires WellFormed(item)
    ensures forall i | 0 <= i < |Records(item)| :: NUL !in Records(item)[i]
  {
    hide Join, IsField, AllFields;
    match item
    case Ordinary(xy, mid, path) => JoinedHasNoNul("1", xy, mid, path);
    case Renamed(xy, mid, path, _) => JoinedHasNoNul("2", xy, mid, path);
    case Unmerged(xy, mid, path) => JoinedHasNoNul("u", xy, mid, path);
    case _ =>
  }

  lemma {:induction false} NoNul(items: seq<Item>)
    requires forall i | 0 <= i < |items| :: WellFormed(items[i])
    ensures forall i | 0 <= i < |AllRecords(items)| :: NUL !in AllRecords(items)[i]
  {
    if items != [] {
      hide Records, WellFormed;
      RecordsHaveNoNul(items[0]);
      NoNul(items[1..]);
    }
  }

  /** Every list of headers and entries with NUL-free paths comes back in order, with the right path, old path, status
      and area, and the last branch head; cut to `maxPaths`, and marked exactly when something was cut. */
  lemma ParsingInvertsPrinting(items: seq<Item>, defaultBranch: string, maxPaths: nat)
    requires forall i | 0 <= i < |items| :: WellFormed(items[i])
    ensures var parsed := ParseFrom(Split(Printed(items), NUL), defaultBranch, []);
            && parsed == Ok((BranchOf(items, defaultBranch), ChangesOf(items)))
            && Cut(parsed.value, maxPaths)
               == Status(BranchOf(items, defaultBranch),
                         if |ChangesOf(items)| > maxPaths then ChangesOf(items)[..maxPaths] else ChangesOf(items),
                         |ChangesOf(items)| > maxPaths)
  {
    NoNul(items);
    SplitTerminated(AllRecords(items));
    hide WellFormed, Split;
    ItemsParse(items, [""], defaultBranch, []);
    assert [] + ChangesOf(items) == ChangesOf(items);
    FirstRecord([""], BranchOf(items, defaultBranch), ChangesOf(items));
  }

  // ---------------------------------------------------------------------------------------------
  // Records Git does not print

  /** Records that are not understood are skipped: those of another kind, and entries with too few fields. */
  lemma OthersAreSkipped(text: string)
    ensures !("# branch.head " <= text) && !("1 " <= text) && !("2 " <= text) && !("u " <= text) && !("? " <= text)
            ==> MeaningOf(text) == Nothing
    ensures "1 " <= text && |Split(text, ' ')| < 9 ==> MeaningOf(text) == Nothing
    ensures "2 " <= text && |Split(text, ' ')| < 10 ==> MeaningOf(text) == Nothing
    ensures "u " <= text && |Split(text, ' ')| < 11 ==> MeaningOf(text) == Nothing
  {
    hide Split, SplitAtMost;
    FieldsCounted(text, ' ', 8);
    FieldsCounted(text, ' ', 9);
    FieldsCounted(text, ' ', 10);
    assert "1 " <= text || "2 " <= text || "u " <= text ==> text[0] != '#' && text[0] != '!';
  }

  lemma SkippedRecord(records: seq<string>, branch: string, changes: seq<Change>)
    requires records != [] && MeaningOf(records[0]).Nothing?
    ensures ParseFrom(records, branch, changes) == ParseFrom(records[1..], branch, changes)
  {
    hide MeaningOf;
    FirstRecord(records, branch, changes);
  }

  /** An entry whose status has fewer than two characters, which Git never prints, raises instead of being skipped,
      whatever comes before and after it. */
  lemma ShortStatusRaises(items: seq<Item>, kind: string, xy: string, mid: seq<string>, path: string, rest: seq<string>,
                          branch: string)
    requires forall i | 0 <= i < |items| :: WellFormed(items[i])
    requires (kind == "1" && |mid| == 6) || (kind == "2" && |mid| == 7) || (kind == "u" && |mid| == 8)
    requires |xy| < 2 && IsField(xy) && AllFields(mid)
    ensures ParseFrom(AllRecords(items) + ([Join([kind, xy] + mid + [path], ' ')] + rest), branch, [])
            == Err("index out of range")
  {
    EntryParses(kind, xy, mid, path, kind == "2");
    var records := [Join([kind, xy] + mid + [path], ' ')] + rest;
    hide Join, IsField, AllFields, WellFormed, Records, EntryOf;
    assert [kind[0], ' '] <= records[0];
    KindIsRead(records[0], kind, |mid| + 2);
    ItemsParse(items, records, branch, []);
    FirstRecord(records, BranchOf(items, branch), [] + ChangesOf(items));
  }

  lemma KindIsRead(text: string, kind: string, limit: nat)
    requires (kind == "1" && limit == 8) || (kind == "2" && limit == 9) || (kind == "u" && limit == 10)
    requires [kind[0], ' '] <= text
    ensures MeaningOf(text) == EntryOf(text, limit, kind == "2")
  {
    hide EntryOf;
    assert text[0] == kind[0] && HEAD[0] == '#';
    assert kind == "1" ==> "1 " <= text;
    assert kind == "2" ==> "2 " <= text;
    assert kind == "u" ==> "u " <= text;
  }
}
