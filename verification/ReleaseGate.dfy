/** The release gate: parsing tags, and accepting a new tag against the existing ones. */
module ReleaseGate {
  import opened Prelude
  import opened SemVer
  import opened Text

  // ---------------------------------------------------------------------------------------------
  // Parsing

  predicate IsIdentChar(c: char) {
    IsDigit(c) || 'A' <= c <= 'Z' || 'a' <= c <= 'z' || c == '-'
  }

  predicate IsIdent(s: string) {
    s != "" && forall i | 0 <= i < |s| :: IsIdentChar(s[i])
  }

  predicate IsNumeral(s: string) {
    IsNumeric(s) && !LeadingZero(s)
  }

  /** `parse_version`: v, three numerals, and after a hyphen dot-separated identifiers; at most 128 characters, no
      leading zeros. The first hyphen ends the numerals, which contain none. */
  function Parse(tag: string): (v: Option<Version>)
    ensures v.Some? ==> ValidVersion(v.value)
  {
    if |tag| > 128 || tag == "" || tag[0] != 'v' then None
    else
      var body := tag[1..];
      var n := IndexOf(body, '-');
      var core := Split(body[..n], '.');
      if |core| != 3 || !IsNumeral(core[0]) || !IsNumeral(core[1]) || !IsNumeral(core[2]) then None
      else
        var c := Core(Value(core[0]), Value(core[1]), Value(core[2]));
        if n == |body| then Some(Version(c, None))
        else
          var ids := Split(body[n + 1..], '.');
          if (forall i | 0 <= i < |ids| :: IsIdent(ids[i])) && ValidIdents(ids) then Some(Version(c, Some(ids)))
          else None
  }

  lemma CoresDetermine(a: seq<string>, b: seq<string>)
    requires |a| == 3 && |b| == 3
    requires forall i | 0 <= i < 3 :: IsNumeral(a[i]) && IsNumeral(b[i]) && Value(a[i]) == Value(b[i])
    ensures a == b
  {
    ValueInjective(a[0], b[0]);
    ValueInjective(a[1], b[1]);
    ValueInjective(a[2], b[2]);
    assert a == [a[0], a[1], a[2]] && b == [b[0], b[1], b[2]];
  }

  function CoreFields(tag: string): seq<string>
    requires tag != ""
  {
    Split(tag[1..][..IndexOf(tag[1..], '-')], '.')
  }

  function Written(core: seq<string>, prerelease: Option<seq<string>>): string
    requires core != [] && (prerelease.Some? ==> prerelease.value != [])
  {
    ['v'] + Join(core, '.') + if prerelease.Some? then ['-'] + Join(prerelease.value, '.') else ""
  }

  /** The characters of an identifier: digits, letters and the hyphen. */
  predicate AllowedIn(id: string) {
    id != ""
    && forall j | 0 <= j < |id| ::
         '0' <= id[j] <= '9' || 'A' <= id[j] <= 'Z' || 'a' <= id[j] <= 'z' || id[j] == '-'
  }

  /** A tag that parses has at most 128 characters and is written from its own fields: three numerals, and identifiers
      of allowed characters. */
  lemma ParsedIsWritten(tag: string)
    requires Parse(tag).Some?
    ensures var v := Parse(tag).value;
            && |CoreFields(tag)| == 3 && (forall i | 0 <= i < 3 :: IsNumeral(CoreFields(tag)[i]))
            && v.core == Core(Value(CoreFields(tag)[0]), Value(CoreFields(tag)[1]), Value(CoreFields(tag)[2]))
            && (v.prerelease.Some? ==>
                  v.prerelease.value != [] && ValidIdents(v.prerelease.value)
                  && forall i | 0 <= i < |v.prerelease.value| :: AllowedIn(v.prerelease.value[i]))
            && tag == Written(CoreFields(tag), v.prerelease) && |tag| <= 128
  {
    hide Value, IsNumeral, Join, Split, ValidIdents, IsIdent, AllowedIn;
    var body := tag[1..];
    var n := IndexOf(body, '-');
    JoinSplit(body[..n], '.');
    if n < |body| {
      JoinSplit(body[n + 1..], '.');
      var ids := Split(body[n + 1..], '.');
      IdentsAreAllowed(ids);
      assert Parse(tag).value.prerelease == Some(ids) && forall i | 0 <= i < |ids| :: IsIdent(ids[i]);
      assert forall i | 0 <= i < |ids| :: AllowedIn(ids[i]);
    }
    Glue(tag, n);
  }

  lemma IdentsAreAllowed(ids: seq<string>)
    ensures forall i | 0 <= i < |ids| :: IsIdent(ids[i]) <==> AllowedIn(ids[i])
  {
  }

  lemma Glue(tag: string, n: nat)
    requires tag != "" && tag[0] == 'v' && n < |tag| && (n < |tag| - 1 ==> tag[1..][n] == '-')
    ensures tag == ['v'] + tag[1..][..n] + if n < |tag| - 1 then ['-'] + tag[1..][n + 1..] else ""
  {
  }

  /** Equal versions have equal tags: there is one way to write a version. */
  lemma OneTagPerVersion(a: string, b: string)
    requires Parse(a).Some? && Parse(a) == Parse(b)
    ensures a == b
  {
    hide Parse, Split, IsNumeral;
    ParsedIsWritten(a);
    ParsedIsWritten(b);
    CoresDetermine(CoreFields(a), CoreFields(b));
  }

  lemma FieldsAreClean(fields: seq<string>, c: char)
    requires forall i, j | 0 <= i < |fields| && 0 <= j < |fields[i]| :: fields[i][j] != c
    ensures forall i | 0 <= i < |fields| :: c !in fields[i]
  {
  }

  lemma ParsedFrom(tag: string, core: seq<string>, prerelease: Option<seq<string>>, n: nat)
    requires 0 < |tag| <= 128 && tag[0] == 'v' && n == IndexOf(tag[1..], '-')
    requires |core| == 3 && (forall i | 0 <= i < 3 :: IsNumeral(core[i])) && Split(tag[1..][..n], '.') == core
    requires prerelease.Some? <==> n < |tag| - 1
    requires prerelease.Some? ==> ValidIdents(prerelease.value) && Split(tag[1..][n + 1..], '.') == prerelease.value
                                  && forall i | 0 <= i < |prerelease.value| :: IsIdent(prerelease.value[i])
    ensures Parse(tag) == Some(Version(Core(Value(core[0]), Value(core[1]), Value(core[2])), prerelease))
  {
    hide Value, ValidIdents, Split, IndexOf, IsNumeral, IsIdent;
  }

  /** Parsing undoes writing: every three numerals and every list of identifiers, within the length limit, come back. */
  lemma EveryVersionParses(core: seq<string>, prerelease: Option<seq<string>>)
    requires |core| == 3 && forall i | 0 <= i < 3 :: IsNumeral(core[i])
    requires prerelease.Some? ==> prerelease.value != [] && ValidIdents(prerelease.value)
                                  && forall i | 0 <= i < |prerelease.value| :: AllowedIn(prerelease.value[i])
    requires |Written(core, prerelease)| <= 128
    ensures Parse(Written(core, prerelease))
            == Some(Version(Core(Value(core[0]), Value(core[1]), Value(core[2])), prerelease))
  {
    if prerelease.Some? {
      IdentsAreAllowed(prerelease.value);
    }
    hide Value, ValidIdents, Split, Join, Parse, AllowedIn;
    FieldsAreClean(core, '-');
    FieldsAreClean(core, '.');
    if prerelease.Some? {
      FieldsAreClean(prerelease.value, '.');
      SplitJoin(prerelease.value, '.');
    }
    hide IsNumeral, IsIdent;
    var tag := Written(core, prerelease);
    var rest := if prerelease.Some? then ['-'] + Join(prerelease.value, '.') else "";
    assert tag[1..] == Join(core, '.') + rest && IndexOf(rest, '-') == 0;
    JoinHas(core, '.', '-');
    IndexOfAppend(Join(core, '.'), rest, '-');
    SplitJoin(core, '.');
    var n := |Join(core, '.')|;
    assert tag[1..][..n] == Join(core, '.');
    assert prerelease.Some? ==> tag[1..][n + 1..] == Join(prerelease.value, '.');
    ParsedFrom(tag, core, prerelease, n);
  }

  // ---------------------------------------------------------------------------------------------
  // The gate

  function Strip(s: string): string {
    if s == "" then ""
    else if IsSpace(s[0]) then Strip(s[1..])
    else if IsSpace(s[|s| - 1]) then Strip(s[..|s| - 1])
    else s
  }

  /** Exactly the white space at both ends goes. */
  lemma {:induction false} StripTakesTheEnds(s: string) returns (i: nat, j: nat)
    ensures i <= j <= |s| && Strip(s) == s[i..j]
    ensures forall k | 0 <= k < |s| && (k < i || j <= k) :: IsSpace(s[k])
    ensures i < j ==> !IsSpace(s[i]) && !IsSpace(s[j - 1])
  {
    i, j := 0, |s|;
    if s != "" && IsSpace(s[0]) {
      i, j := StripTakesTheEnds(s[1..]);
      assert s[1..][i..j] == s[i + 1..j + 1];
      assert forall k | 1 <= k < |s| :: s[k] == s[1..][k - 1];
      i, j := i + 1, j + 1;
    } else if s != "" && IsSpace(s[|s| - 1]) {
      i, j := StripTakesTheEnds(s[..|s| - 1]);
    }
  }

  /** The existing tags that count: those that parse, other than the tag itself. */
  function Others(current: string, lines: seq<string>): seq<Version> {
    if lines == [] then []
    else
      var n := |lines| - 1;
      var before, tag := Others(current, lines[..n]), Strip(lines[n]);
      if tag == "" || tag == current || Parse(tag).None? then before else before + [Parse(tag).value]
  }

  /** A release must be above every release; a prerelease must be of a core above every release, and above every
      prerelease of the same core. */
  predicate Acceptable(v: Version, others: seq<Version>) {
    if v.prerelease.None? then
      forall i | 0 <= i < |others| && others[i].prerelease.None? :: Lower(others[i], v)
    else
      && (forall i | 0 <= i < |others| && others[i].prerelease.None? :: CoreLess(others[i].core, v.core))
      && (forall i | 0 <= i < |others| && others[i].prerelease.Some? && others[i].core == v.core :: Lower(others[i], v))
  }

  /** How a release relates to one before it. */
  predicate Follows(earlier: Version, later: Version) {
    && (earlier.prerelease.None? && later.prerelease.None? ==> Lower(earlier, later))
    && (earlier.prerelease.None? && later.prerelease.Some? ==> CoreLess(earlier.core, later.core))
    && (earlier.prerelease.Some? && later.prerelease.Some? && earlier.core == later.core ==> Lower(earlier, later))
  }

  /** The releases, or the prereleases of one core. */
  predicate Relevant(which: Option<Core>, v: Version) {
    match which
    case None => v.prerelease.None?
    case Some(core) => v.prerelease.Some? && v.core == core
  }

  /** A highest version among the relevant ones. */
  ghost predicate IsMax(versions: seq<Version>, which: Option<Core>, max: Option<Version>) {
    && (max.None? ==> forall i | 0 <= i < |versions| :: !Relevant(which, versions[i]))
    && (max.Some? ==> Relevant(which, max.value) && max.value in versions
                      && forall i | 0 <= i < |versions| && Relevant(which, versions[i]) ::
                           !Lower(max.value, versions[i]))
  }

  /** `max(..., default=None)` over a selection. */
  method MaxOf(versions: seq<Version>, which: Option<Core>) returns (max: Option<Version>)
    requires forall i | 0 <= i < |versions| :: ValidVersion(versions[i])
    ensures IsMax(versions, which, max)
  {
    max := None;
    for n := 0 to |versions|
      invariant IsMax(versions[..n], which, max)
    {
      var v := versions[n];
      ghost var before := max;
      assert versions[..n + 1] == versions[..n] + [v];
      if Relevant(which, v) {
        if max.None? {
          max := Some(v);
          PrecedenceIsTotal(v, v);
        } else {
          var higher := LessThan(max.value, v);
          if higher {
            max := Some(v);
          }
        }
      }
      MaxExtends(versions[..n], v, which, before, max);
    }
    assert versions[..|versions|] == versions;
  }

  lemma MaxExtends(versions: seq<Version>, v: Version, which: Option<Core>, before: Option<Version>,
                   max: Option<Version>)
    requires ValidVersion(v) && forall i | 0 <= i < |versions| :: ValidVersion(versions[i])
    requires IsMax(versions, which, before)
    requires max == (if Relevant(which, v) && (before.None? || Lower(before.value, v)) then Some(v) else before)
    ensures IsMax(versions + [v], which, max)
  {
    var all := versions + [v];
    hide Lower, PreLower;
    if max.Some? {
      if max == Some(v) && Relevant(which, v) {
        assert all[|versions|] == v;
        PrecedenceIsTotal(v, v);
      } else {
        assert max.value in versions;
      }
      forall i | 0 <= i < |all| && Relevant(which, all[i])
        ensures !Lower(max.value, all[i])
      {
        if i < |versions| && before.Some? && max != before {
          assert all[i] == versions[i];
          if Lower(v, versions[i]) {
            PrecedenceIsTransitive(before.value, v, versions[i]);
          }
        }
      }
    }
  }

  lemma {:induction false} OthersAre(current: string, lines: seq<string>, v: Version)
    ensures v in Others(current, lines) <==>
              exists k | 0 <= k < |lines| :: Strip(lines[k]) != current && Parse(Strip(lines[k])) == Some(v)
  {
    hide Parse, Strip;
    if lines != [] {
      var n := |lines| - 1;
      OthersAre(current, lines[..n], v);
      assert Strip(lines[n]) == "" ==> Parse(Strip(lines[n])).None? by { NoEmptyTag(); }
      if k :| 0 <= k < |lines| && Strip(lines[k]) != current && Parse(Strip(lines[k])) == Some(v) {
        assert k < n ==> lines[..n][k] == lines[k];
      }
    }
  }

  lemma NoEmptyTag()
    ensures Parse("").None?
  {
  }

  /** A tag is acceptable if and only if it follows every other tag that parses. */
  lemma AcceptableIff(tag: string, lines: seq<string>)
    requires Parse(tag).Some?
    ensures Acceptable(Parse(tag).value, Others(tag, lines)) <==>
              forall k | 0 <= k < |lines| && Strip(lines[k]) != tag && Parse(Strip(lines[k])).Some? ::
                Follows(Parse(Strip(lines[k])).value, Parse(tag).value)
  {
    hide Parse, Strip, Lower, CoreLess, Others;
    var others, v := Others(tag, lines), Parse(tag).value;
    assert Acceptable(v, others) <==> forall i | 0 <= i < |others| :: Follows(others[i], v);
    assert (forall i | 0 <= i < |others| :: Follows(others[i], v)) <==> (forall w | w in others :: Follows(w, v));
    forall w
      ensures w in others <==>
                exists k | 0 <= k < |lines| :: Strip(lines[k]) != tag && Parse(Strip(lines[k])) == Some(w)
    {
      OthersAre(tag, lines, w);
    }
  }

  lemma {:induction false} OthersAreValid(current: string, lines: seq<string>)
    ensures forall i | 0 <= i < |Others(current, lines)| :: ValidVersion(Others(current, lines)[i])
  {
    if lines != [] {
      OthersAreValid(current, lines[..|lines| - 1]);
    }
  }

  /** The gate accepts exactly the acceptable tags. */
  method ValidateReleaseTag(currentTag: string, lines: seq<string>) returns (r: Result<Version, string>)
    ensures r.Ok? <==>
              && Parse(currentTag).Some?
              && forall k | 0 <= k < |lines| && Strip(lines[k]) != currentTag && Parse(Strip(lines[k])).Some? ::
                   Follows(Parse(Strip(lines[k])).value, Parse(currentTag).value)
    ensures r.Ok? ==> Parse(currentTag) == Some(r.value)
  {
    if Parse(currentTag).None? {
      return Err("invalid release tag");
    }
    var current := Parse(currentTag).value;
    var existing: seq<Version> := [];
    for n := 0 to |lines|
      invariant existing == Others(currentTag, lines[..n])
    {
      assert lines[..n + 1][..n] == lines[..n];
      var tag := Strip(lines[n]);
      if tag != "" && tag != currentTag && Parse(tag).Some? {
        existing := existing + [Parse(tag).value];
      }
    }
    assert lines[..|lines|] == lines;
    OthersAreValid(currentTag, lines);
    AcceptableIff(currentTag, lines);
    var latestStable := MaxOf(existing, None);
    if latestStable.Some? {
      StableMaxDecides(current, existing, latestStable.value);
    }
    if current.prerelease.None? {
      if latestStable.Some? {
        var above := LessThan(latestStable.value, current);
        if !above {
          return Err("release must be newer than the latest stable release");
        }
      }
    } else {
      if latestStable.Some? && !CoreLess(latestStable.value.core, current.core) {
        return Err("prerelease must target a version newer than the latest stable release");
      }
      var latestPrerelease := MaxOf(existing, Some(current.core));
      if latestPrerelease.Some? {
        PrereleaseMaxDecides(current, existing, latestPrerelease.value);
        var above := LessThan(latestPrerelease.value, current);
        if !above {
          return Err("prerelease must be newer");
        }
      }
    }
    return Ok(current);
  }

  lemma StableMaxDecides(v: Version, others: seq<Version>, max: Version)
    requires ValidVersion(v) && forall i | 0 <= i < |others| :: ValidVersion(others[i])
    requires IsMax(others, None, Some(max))
    ensures v.prerelease.None? ==>
              (Lower(max, v) <==> forall i | 0 <= i < |others| && others[i].prerelease.None? :: Lower(others[i], v))
    ensures CoreLess(max.core, v.core) <==>
              forall i | 0 <= i < |others| && others[i].prerelease.None? :: CoreLess(others[i].core, v.core)
  {
    var k :| 0 <= k < |others| && others[k] == max;
  }

  lemma PrereleaseMaxDecides(v: Version, others: seq<Version>, max: Version)
    requires ValidVersion(v) && forall i | 0 <= i < |others| :: ValidVersion(others[i])
    requires IsMax(others, Some(v.core), Some(max))
    ensures Lower(max, v) <==>
              forall i | 0 <= i < |others| && others[i].prerelease.Some? && others[i].core == v.core ::
                Lower(others[i], v)
  {
    hide Lower;
    var k :| 0 <= k < |others| && others[k] == max;
    forall i | 0 <= i < |others| && others[i].prerelease.Some? && others[i].core == v.core && Lower(max, v)
      ensures Lower(others[i], v)
    {
      PrecedenceIsTotal(max, others[i]);
      if Lower(others[i], max) {
        PrecedenceIsTransitive(others[i], max, v);
      }
    }
  }

  // ---------------------------------------------------------------------------------------------
  // Over a run of releases

  /** Every tag is new when it is released, and is accepted against the history so far. */
  ghost predicate ReleaseRun(history: seq<string>, tags: seq<string>)
    decreases |tags|
  {
    tags != [] ==>
      && tags[0] !in history
      && Parse(tags[0]).Some? && Acceptable(Parse(tags[0]).value, Others(tags[0], history))
      && ReleaseRun(history + [tags[0]], tags[1..])
  }

  lemma {:induction false} StripKeeps(tag: string)
    requires Parse(tag).Some?
    ensures Strip(tag) == tag && tag != ""
  {
    var body := tag[1..];
    var n := IndexOf(body, '-');
    if n < |body| {
      LastOfSplit(body[n + 1..], '.');
    } else {
      assert body[..n] == body;
      LastOfSplit(body, '.');
    }
  }

  lemma {:induction false} LastOfSplit(s: string, sep: char)
    ensures var last := Split(s, sep)[|Split(s, sep)| - 1];
            last != "" ==> s != "" && last[|last| - 1] == s[|s| - 1]
  {
    if s != "" {
      LastOfSplit(s[1..], sep);
    }
  }

  lemma OthersHas(current: string, lines: seq<string>, k: nat)
    requires k < |lines| && Parse(lines[k]).Some? && lines[k] != current
    ensures Parse(lines[k]).value in Others(current, lines)
  {
    hide Parse, Strip, Others;
    StripKeeps(lines[k]);
    OthersAre(current, lines, Parse(lines[k]).value);
  }

  lemma AcceptedFollows(tag: string, history: seq<string>, k: nat)
    requires k < |history| && tag !in history && Parse(history[k]).Some? && Parse(tag).Some?
    requires Acceptable(Parse(tag).value, Others(tag, history))
    ensures Follows(Parse(history[k]).value, Parse(tag).value)
  {
    OthersHas(tag, history, k);
    var others := Others(tag, history);
    var i :| 0 <= i < |others| && others[i] == Parse(history[k]).value;
  }

  /** Over any run of accepted new tags, from any history: stable releases strictly increase, no prerelease appears at
      or below the core of an accepted stable release, and prereleases of one core strictly increase. */
  lemma {:induction false} ReleasesAdvance(history: seq<string>, tags: seq<string>, i: nat, j: nat)
    requires ReleaseRun(history, tags) && i < |history| + j && j < |tags|
    ensures Parse(tags[j]).Some?
    ensures var earlier := if i < |history| then history[i] else tags[i - |history|];
            Parse(earlier).Some? ==> Follows(Parse(earlier).value, Parse(tags[j]).value)
    decreases |tags|
  {
    hide Parse, Acceptable, Others, Follows;
    if j == 0 {
      if Parse(history[i]).Some? {
        AcceptedFollows(tags[0], history, i);
      }
    } else {
      ReleasesAdvance(history + [tags[0]], tags[1..], i, j - 1);
    }
  }
}
