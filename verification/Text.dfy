/** Splitting and joining of character strings. */
module Text {
  /** The characters that count as white space when a string is stripped. */
  predicate IsSpace(c: char) {
    || '\t' <= c <= '\r' || '\U{1C}' <= c <= ' ' || c == '\U{85}' || c == '\U{A0}' || c == '\U{1680}'
    || '\U{2000}' <= c <= '\U{200A}' || c == '\U{2028}' || c == '\U{2029}' || c == '\U{202F}'
    || c == '\U{205F}' || c == '\U{3000}'
  }

  /** The first place of a character, or the length. */
  function IndexOf(s: string, c: char): (n: nat)
    ensures n <= |s| && (forall i | 0 <= i < n :: s[i] != c) && (n < |s| ==> s[n] == c)
  {
    if s == "" || s[0] == c then 0 else 1 + IndexOf(s[1..], c)
  }

  /** The fields between separators; always at least one. */
  function Split(s: string, sep: char): (fields: seq<string>)
    ensures fields != []
  {
    if s == "" then [""]
    else
      var rest := Split(s[1..], sep);
      if s[0] == sep then [""] + rest else [[s[0]] + rest[0]] + rest[1..]
  }

  lemma {:induction false} SplitAtFirst(s: string, sep: char)
    ensures var n := IndexOf(s, sep);
            Split(s, sep) == if n == |s| then [s] else [s[..n]] + Split(s[n + 1..], sep)
  {
    if s != "" && s[0] != sep {
      SplitAtFirst(s[1..], sep);
      var n := IndexOf(s[1..], sep);
      assert s == [s[0]] + s[1..];
      if n < |s| - 1 {
        assert [s[0]] + s[1..][..n] == s[..n + 1] && s[1..][n + 1..] == s[n + 2..];
      }
    }
  }

  /** At most `limit` separators split, from the left. */
  function SplitAtMost(s: string, sep: char, limit: nat): (fields: seq<string>)
    ensures 1 <= |fields| <= limit + 1
  {
    var n := IndexOf(s, sep);
    if limit == 0 || n == |s| then [s] else [s[..n]] + SplitAtMost(s[n + 1..], sep, limit - 1)
  }

  lemma {:induction false} FieldsCounted(s: string, sep: char, limit: nat)
    ensures |SplitAtMost(s, sep, limit)| == if |Split(s, sep)| <= limit + 1 then |Split(s, sep)| else limit + 1
    decreases limit
  {
    SplitAtFirst(s, sep);
    hide Split, IndexOf;
    var n := IndexOf(s, sep);
    if limit > 0 && n < |s| {
      FieldsCounted(s[n + 1..], sep, limit - 1);
    }
  }

  function Join(fields: seq<string>, sep: char): string
    requires fields != []
  {
    if |fields| == 1 then fields[0] else fields[0] + [sep] + Join(fields[1..], sep)
  }

  lemma {:induction false} IndexOfAppend(a: string, b: string, c: char)
    ensures IndexOf(a + b, c) == if IndexOf(a, c) < |a| then IndexOf(a, c) else |a| + IndexOf(b, c)
  {
    if a == "" {
      assert a + b == b;
    } else if a[0] != c {
      assert (a + b)[1..] == a[1..] + b;
      IndexOfAppend(a[1..], b, c);
    }
  }

  lemma {:induction false} JoinSplit(s: string, sep: char)
    ensures Join(Split(s, sep), sep) == s
  {
    if s != "" {
      JoinSplit(s[1..], sep);
      var rest := Split(s[1..], sep);
      assert s == [s[0]] + s[1..];
      if s[0] == sep {
        assert ([""] + rest)[1..] == rest;
      } else {
        assert ([[s[0]] + rest[0]] + rest[1..])[1..] == rest[1..];
      }
    }
  }

  lemma {:induction false} SplitJoin(fields: seq<string>, sep: char)
    requires fields != [] && forall i | 0 <= i < |fields| :: sep !in fields[i]
    ensures Split(Join(fields, sep), sep) == fields
    decreases |fields|, |fields[0]|
  {
    var s := Join(fields, sep);
    if fields[0] != "" {
      var shorter := [fields[0][1..]] + fields[1..];
      assert fields[0] == [fields[0][0]] + fields[0][1..] && fields[0][0] in fields[0];
      assert s[1..] == Join(shorter, sep);
      SplitJoin(shorter, sep);
      assert [[s[0]] + shorter[0]] + shorter[1..] == fields;
    } else if |fields| > 1 {
      assert s[1..] == Join(fields[1..], sep);
      SplitJoin(fields[1..], sep);
      assert [""] + fields[1..] == fields;
    }
  }

  lemma Cut(a: string, sep: char, rest: string)
    ensures var s := a + [sep] + rest;
            s == a + ([sep] + rest) && |s| > |a| && s[..|a|] == a && s[|a| + 1..] == rest
  {
  }

  lemma SplitFirst(a: string, rest: string, sep: char, limit: nat)
    requires sep !in a && limit > 0
    ensures SplitAtMost(a + [sep] + rest, sep, limit) == [a] + SplitAtMost(rest, sep, limit - 1)
  {
    hide IndexOf;
    Cut(a, sep, rest);
    IndexOfAppend(a, [sep] + rest, sep);
    assert ([sep] + rest)[0] == sep;
    assert IndexOf(a, sep) == |a| && IndexOf([sep] + rest, sep) == 0;
  }

  lemma JoinStarts(fields: seq<string>, sep: char)
    requires |fields| > 1
    ensures Join(fields, sep) == fields[0] + [sep] + Join(fields[1..], sep)
  {
  }

  /** Only the last field may hold the separator. */
  lemma {:induction false} SplitAtMostJoin(fields: seq<string>, sep: char)
    requires fields != [] && forall i | 0 <= i < |fields| - 1 :: sep !in fields[i]
    ensures SplitAtMost(Join(fields, sep), sep, |fields| - 1) == fields
  {
    if |fields| > 1 {
      hide IndexOf, SplitAtMost, Join;
      JoinStarts(fields, sep);
      SplitFirst(fields[0], Join(fields[1..], sep), sep, |fields| - 1);
      SplitAtMostJoin(fields[1..], sep);
      assert fields == [fields[0]] + fields[1..];
    }
  }

  lemma {:induction false} JoinHas(fields: seq<string>, sep: char, c: char)
    requires fields != [] && c != sep && forall i | 0 <= i < |fields| :: c !in fields[i]
    ensures c !in Join(fields, sep)
  {
    if |fields| > 1 {
      JoinHas(fields[1..], sep, c);
    }
  }

  /** The last characters. */
  function Last(s: string, limit: nat): string {
    if |s| <= limit then s else s[|s| - limit..]
  }

  lemma DropPrefix(p: string, q: string, n: nat)
    requires n <= |q|
    ensures (p + q)[|p| + n..] == q[n..]
  {
  }

  lemma LastIs(p: string, q: string, limit: nat)
    requires |q| >= limit
    ensures Last(p + q, limit) == q[|q| - limit..]
  {
    DropPrefix(p, q, |q| - limit);
  }

  /** Keeping only the last characters early does not matter. */
  lemma LastAppend(a: string, b: string, limit: nat)
    ensures Last(Last(a, limit) + b, limit) == Last(a + b, limit)
  {
    if |a| > limit {
      hide Last;
      var k := |a| - limit;
      LastIs(a[..k], a[k..], limit);
      assert a[..k] + a[k..] == a && Last(a, limit) == a[k..];
      var kept := a[k..] + b;
      assert a + b == a[..k] + kept;
      LastIs(a[..k], kept, limit);
      LastIs("", kept, limit);
      assert "" + kept == kept;
    }
  }
}
