/** The conversation to native-session index, twice: a dictionary in memory and a table behind SQL statements. The
    connection pool, transactions and NULL columns are not part of the model. */
module SessionMap {
  import opened Prelude

  datatype Binding = Binding(runtimeSessionId: string, runtimeId: string, userId: string, sandboxId: string)

  datatype Op = Get(sessionId: string, userId: string, runtimeId: string)
              | GetBinding(sessionId: string, userId: string, runtimeId: string)
              | Put(sessionId: string, binding: Binding)
              | Delete(sessionId: string, userId: string, runtimeId: string)

  /** `Denied` is a PermissionError with its message. */
  datatype Outcome = Found(binding: Binding) | FoundId(runtimeSessionId: string) | Nothing | Denied(message: string)

  const OWNER_REQUIRED := Denied("session owner required")
  const RUNTIME_REQUIRED := Denied("session runtime required")
  const OWNER_MISMATCH := Denied("session owner mismatch")
  const RUNTIME_MISMATCH := Denied("session runtime mismatch")

  function IdOf(o: Outcome): Outcome {
    if o.Found? && o.binding.runtimeSessionId != "" then FoundId(o.binding.runtimeSessionId) else Nothing
  }

  // ---------------------------------------------------------------------------------------------
  // In memory

  function MemoryFind(d: map<string, Binding>, s: string, userId: string, runtimeId: string): Outcome {
    if userId == "" || s !in d || d[s].runtimeSessionId == "" || d[s].userId != userId
       || (runtimeId != "" && d[s].runtimeId != runtimeId) then Nothing
    else Found(d[s])
  }

  function MemoryStep(d: map<string, Binding>, op: Op): (map<string, Binding>, Outcome) {
    match op
    case Get(s, u, r) => (d, IdOf(MemoryFind(d, s, u, r)))
    case GetBinding(s, u, r) => (d, MemoryFind(d, s, u, r))
    case Put(s, b) =>
      if b.runtimeSessionId == "" then (d, Nothing)
      else if b.userId == "" then (d, OWNER_REQUIRED)
      else if b.runtimeId == "" then (d, RUNTIME_REQUIRED)
      else if s in d && d[s].userId != "" && d[s].userId != b.userId then (d, OWNER_MISMATCH)
      else if s in d && d[s].runtimeId != "" && d[s].runtimeId != b.runtimeId then (d, RUNTIME_MISMATCH)
      else (d[s := b], Nothing)
    case Delete(s, u, r) =>
      if u == "" || (s in d && (d[s].userId != u || (r != "" && d[s].runtimeId != r))) then (d, Nothing)
      else (d - {s}, Nothing)
  }

  class MemorySessionMap {
    var d: map<string, Binding>

    constructor ()
      ensures d == map[]
    {
      d := map[];
    }

    method GetBinding(s: string, userId: string, runtimeId: string) returns (outcome: Outcome)
      ensures outcome == MemoryStep(d, Op.GetBinding(s, userId, runtimeId)).1
    {
      outcome := Nothing;
      if userId != "" && s in d {
        var binding := d[s];
        if binding.runtimeSessionId != "" && binding.userId == userId
           && (runtimeId == "" || binding.runtimeId == runtimeId) {
          outcome := Found(binding);
        }
      }
    }

    method Get(s: string, userId: string, runtimeId: string) returns (outcome: Outcome)
      ensures outcome == MemoryStep(d, Op.Get(s, userId, runtimeId)).1
    {
      outcome := GetBinding(s, userId, runtimeId);
      outcome := IdOf(outcome);
    }

    method Put(s: string, b: Binding) returns (outcome: Outcome)
      modifies this
      ensures (d, outcome) == MemoryStep(old(d), Op.Put(s, b))
    {
      outcome := Nothing;
      if b.runtimeSessionId != "" {
        if b.userId == "" {
          return OWNER_REQUIRED;
        }
        if b.runtimeId == "" {
          return RUNTIME_REQUIRED;
        }
        if s in d && d[s].userId != "" && d[s].userId != b.userId {
          return OWNER_MISMATCH;
        }
        if s in d && d[s].runtimeId != "" && d[s].runtimeId != b.runtimeId {
          return RUNTIME_MISMATCH;
        }
        d := d[s := b];
      }
    }

    method Delete(s: string, userId: string, runtimeId: string)
      modifies this
      ensures d == MemoryStep(old(d), Op.Delete(s, userId, runtimeId)).0
    {
      if userId == "" {
        return;
      }
      if s in d && (d[s].userId != userId || (runtimeId != "" && d[s].runtimeId != runtimeId)) {
        return;
      }
      d := d - {s};
    }
  }

  // ---------------------------------------------------------------------------------------------
  // As a table

  datatype Row = Row(sessionId: string, binding: Binding)

  /** The WHERE clause of the read and delete statements; with no runtime given the owned form is used. */
  predicate Where(row: Row, s: string, userId: string, runtimeId: string) {
    row.sessionId == s && row.binding.userId == userId && (runtimeId == "" || row.binding.runtimeId == runtimeId)
  }

  function Select(table: seq<Row>, s: string, userId: string, runtimeId: string): seq<Row> {
    if table == [] then []
    else if Where(table[0], s, userId, runtimeId) then [table[0]] + Select(table[1..], s, userId, runtimeId)
    else Select(table[1..], s, userId, runtimeId)
  }

  function DeleteRows(table: seq<Row>, s: string, userId: string, runtimeId: string): seq<Row> {
    if table == [] then []
    else if Where(table[0], s, userId, runtimeId) then DeleteRows(table[1..], s, userId, runtimeId)
    else [table[0]] + DeleteRows(table[1..], s, userId, runtimeId)
  }

  /** INSERT ... ON CONFLICT (session_id) DO UPDATE ... WHERE same user and runtime RETURNING: the table and whether
      a row came back. */
  function Upsert(table: seq<Row>, row: Row): (seq<Row>, bool) {
    if table == [] then ([row], true)
    else if table[0].sessionId == row.sessionId then
      if table[0].binding.userId == row.binding.userId && table[0].binding.runtimeId == row.binding.runtimeId
      then ([row] + table[1..], true) else (table, false)
    else
      var (rest, returned) := Upsert(table[1..], row);
      ([table[0]] + rest, returned)
  }

  function SqlFind(table: seq<Row>, s: string, userId: string, runtimeId: string): Outcome {
    if userId == "" then Nothing
    else
      var rows := Select(table, s, userId, runtimeId);
      if rows == [] || rows[0].binding.runtimeSessionId == "" then Nothing else Found(rows[0].binding)
  }

  function SqlStep(table: seq<Row>, op: Op): (seq<Row>, Outcome) {
    match op
    case Get(s, u, r) => (table, IdOf(SqlFind(table, s, u, r)))
    case GetBinding(s, u, r) => (table, SqlFind(table, s, u, r))
    case Put(s, b) =>
      if b.runtimeSessionId == "" then (table, Nothing)
      else if b.userId == "" then (table, OWNER_REQUIRED)
      else if b.runtimeId == "" then (table, RUNTIME_REQUIRED)
      else
        var (after, returned) := Upsert(table, Row(s, b));
        (after, if returned then Nothing else OWNER_MISMATCH)
    case Delete(s, u, r) => (if u == "" then table else DeleteRows(table, s, u, r), Nothing)
  }

  class PostgresSessionMap {
    var table: seq<Row>

    constructor ()
      ensures table == []
    {
      table := [];
    }

    method GetBinding(s: string, userId: string, runtimeId: string) returns (outcome: Outcome)
      ensures outcome == SqlStep(table, Op.GetBinding(s, userId, runtimeId)).1
    {
      if userId == "" {
        return Nothing;
      }
      var rows := Select(table, s, userId, runtimeId);
      if rows == [] || rows[0].binding.runtimeSessionId == "" {
        return Nothing;
      }
      return Found(rows[0].binding);
    }

    method Get(s: string, userId: string, runtimeId: string) returns (outcome: Outcome)
      ensures outcome == SqlStep(table, Op.Get(s, userId, runtimeId)).1
    {
      outcome := GetBinding(s, userId, runtimeId);
      outcome := if outcome.Found? then FoundId(outcome.binding.runtimeSessionId) else Nothing;
    }

    method Put(s: string, b: Binding) returns (outcome: Outcome)
      modifies this
      ensures (table, outcome) == SqlStep(old(table), Op.Put(s, b))
    {
      if b.runtimeSessionId == "" {
        return Nothing;
      }
      if b.userId == "" {
        return OWNER_REQUIRED;
      }
      if b.runtimeId == "" {
        return RUNTIME_REQUIRED;
      }
      var (after, returned) := Upsert(table, Row(s, b));
      table := after;
      return if returned then Nothing else OWNER_MISMATCH;
    }

    method Delete(s: string, userId: string, runtimeId: string)
      modifies this
      ensures table == SqlStep(old(table), Op.Delete(s, userId, runtimeId)).0
    {
      if userId != "" {
        table := DeleteRows(table, s, userId, runtimeId);
      }
    }
  }

  // ---------------------------------------------------------------------------------------------
  // The two agree

  function Lookup(table: seq<Row>, s: string): Option<Binding> {
    if table == [] then None else if table[0].sessionId == s then Some(table[0].binding) else Lookup(table[1..], s)
  }

  /** The table's primary key. */
  predicate KeysUnique(table: seq<Row>) {
    table != [] ==> Lookup(table[1..], table[0].sessionId).None? && KeysUnique(table[1..])
  }

  predicate Named(b: Binding) {
    b.runtimeSessionId != "" && b.userId != "" && b.runtimeId != ""
  }

  /** One conversation is bound alike in both stores. */
  predicate SameAt(d: map<string, Binding>, table: seq<Row>, s: string) {
    match Lookup(table, s)
    case None => s !in d
    case Some(b) => s in d && d[s] == b && Named(b)
  }

  ghost predicate Same(d: map<string, Binding>, table: seq<Row>) {
    KeysUnique(table) && forall s: string :: SameAt(d, table, s)
  }

  lemma {:induction false} SelectIs(table: seq<Row>, s: string, userId: string, runtimeId: string)
    requires KeysUnique(table)
    ensures var b := Lookup(table, s);
            Select(table, s, userId, runtimeId)
            == if b.Some? && Where(Row(s, b.value), s, userId, runtimeId) then [Row(s, b.value)] else []
  {
    if table != [] {
      SelectIs(table[1..], s, userId, runtimeId);
    }
  }

  lemma {:induction false} DeleteIs(table: seq<Row>, s: string, userId: string, runtimeId: string, t: string)
    requires KeysUnique(table)
    ensures KeysUnique(DeleteRows(table, s, userId, runtimeId))
    ensures var b := Lookup(table, t);
            Lookup(DeleteRows(table, s, userId, runtimeId), t)
            == if b.Some? && Where(Row(t, b.value), s, userId, runtimeId) then None else b
  {
    if table != [] {
      DeleteIs(table[1..], s, userId, runtimeId, t);
      DeleteIs(table[1..], s, userId, runtimeId, table[0].sessionId);
    }
  }

  lemma {:induction false} UpsertIs(table: seq<Row>, row: Row, t: string)
    requires KeysUnique(table)
    ensures var (after, returned), before := Upsert(table, row), Lookup(table, row.sessionId);
            && KeysUnique(after)
            && (returned <==> before.None? || (before.value.userId == row.binding.userId
                                               && before.value.runtimeId == row.binding.runtimeId))
            && Lookup(after, t) == if returned && t == row.sessionId then Some(row.binding) else Lookup(table, t)
  {
    if table != [] {
      UpsertIs(table[1..], row, t);
      UpsertIs(table[1..], row, table[0].sessionId);
    }
  }

  /** A put over a binding of the same owner and another runtime. */
  predicate Conflicts(d: map<string, Binding>, op: Op) {
    op.Put? && Named(op.binding) && op.sessionId in d
    && d[op.sessionId].userId == op.binding.userId && d[op.sessionId].runtimeId != op.binding.runtimeId
  }

  lemma StepsAgreeAt(d: map<string, Binding>, table: seq<Row>, op: Op, t: string)
    requires KeysUnique(table) && SameAt(d, table, op.sessionId) && SameAt(d, table, t)
    ensures KeysUnique(SqlStep(table, op).0)
    ensures SameAt(MemoryStep(d, op).0, SqlStep(table, op).0, t)
    ensures SqlStep(table, op).1 == if Conflicts(d, op) then OWNER_MISMATCH else MemoryStep(d, op).1
    ensures Conflicts(d, op) ==> MemoryStep(d, op).1 == RUNTIME_MISMATCH
  {
    match op
    case Get(s, u, r) => SelectIs(table, s, u, r);
    case GetBinding(s, u, r) => SelectIs(table, s, u, r);
    case Put(s, b) => UpsertIs(table, Row(s, b), t);
    case Delete(s, u, r) => DeleteIs(table, s, u, r, t);
  }

  lemma StepsAgree(d: map<string, Binding>, table: seq<Row>, op: Op)
    requires Same(d, table)
    ensures Same(MemoryStep(d, op).0, SqlStep(table, op).0)
    ensures SqlStep(table, op).1 == if Conflicts(d, op) then OWNER_MISMATCH else MemoryStep(d, op).1
    ensures Conflicts(d, op) ==> MemoryStep(d, op).1 == RUNTIME_MISMATCH
  {
    hide SameAt, MemoryStep, SqlStep, Conflicts;
    StepsAgreeAt(d, table, op, op.sessionId);
    forall t: string
      ensures SameAt(MemoryStep(d, op).0, SqlStep(table, op).0, t)
    {
      StepsAgreeAt(d, table, op, t);
    }
  }

  function MemoryOutcomes(d: map<string, Binding>, ops: seq<Op>): seq<Outcome>
    decreases |ops|
  {
    if ops == [] then [] else [MemoryStep(d, ops[0]).1] + MemoryOutcomes(MemoryStep(d, ops[0]).0, ops[1..])
  }

  function SqlOutcomes(table: seq<Row>, ops: seq<Op>): seq<Outcome>
    decreases |ops|
  {
    if ops == [] then [] else [SqlStep(table, ops[0]).1] + SqlOutcomes(SqlStep(table, ops[0]).0, ops[1..])
  }

  /** What a get returns: the id of the binding found. And the messages of refused puts, in the order they are tried. */
  lemma AnswersAre(d: map<string, Binding>, s: string, userId: string, runtimeId: string, b: Binding)
    ensures var found := MemoryStep(d, Op.GetBinding(s, userId, runtimeId)).1;
            && (found == Nothing || (found.Found? && s in d && found.binding == d[s] && d[s].runtimeSessionId != ""))
            && MemoryStep(d, Op.Get(s, userId, runtimeId)).1
               == if found.Found? then FoundId(found.binding.runtimeSessionId) else Nothing
    ensures var (after, answer) := MemoryStep(d, Op.Put(s, b));
            && (b.runtimeSessionId == "" ==> answer == Nothing && after == d)
            && (b.runtimeSessionId != "" && b.userId == "" ==> answer == Denied("session owner required"))
            && (b.runtimeSessionId != "" && b.userId != "" && b.runtimeId == "" ==>
                  answer == Denied("session runtime required"))
            && (Named(b) && s in d && Named(d[s]) && d[s].userId != b.userId ==>
                  answer == Denied("session owner mismatch"))
            && (Named(b) && s in d && d[s].userId == b.userId
                && d[s].runtimeId != "" && d[s].runtimeId != b.runtimeId ==>
                  answer == Denied("session runtime mismatch"))
    ensures MemoryStep(d, Op.Delete(s, userId, runtimeId)).1 == Nothing
  {
  }

  function MemoryRun(d: map<string, Binding>, ops: seq<Op>): map<string, Binding>
    decreases |ops|
  {
    if ops == [] then d else MemoryRun(MemoryStep(d, ops[0]).0, ops[1..])
  }

  function SqlRun(table: seq<Row>, ops: seq<Op>): seq<Row>
    decreases |ops|
  {
    if ops == [] then table else SqlRun(SqlStep(table, ops[0]).0, ops[1..])
  }

  predicate ConflictAt(d: map<string, Binding>, ops: seq<Op>, i: nat)
    requires i < |ops|
  {
    Conflicts(MemoryRun(d, ops[..i]), ops[i])
  }

  /** What the table answers where the dictionary answers `o`. */
  function TableAnswer(conflict: bool, o: Outcome): Outcome {
    if conflict then OWNER_MISMATCH else o
  }

  lemma {:induction false} RunsAgree(d: map<string, Binding>, table: seq<Row>, ops: seq<Op>, i: nat)
    requires Same(d, table) && i < |ops|
    ensures |SqlOutcomes(table, ops)| == |MemoryOutcomes(d, ops)| == |ops|
    ensures SqlOutcomes(table, ops)[i] == TableAnswer(ConflictAt(d, ops, i), MemoryOutcomes(d, ops)[i])
    ensures ConflictAt(d, ops, i) ==> MemoryOutcomes(d, ops)[i] == RUNTIME_MISMATCH
    decreases |ops|
  {
    hide Same, MemoryStep, SqlStep, Conflicts;
    StepsAgree(d, table, ops[0]);
    OutcomesCounted(d, table, ops);
    assert ops[..0] == [];
    if i > 0 {
      RunsAgree(MemoryStep(d, ops[0]).0, SqlStep(table, ops[0]).0, ops[1..], i - 1);
      assert ops[..i][1..] == ops[1..][..i - 1];
    }
  }

  lemma {:induction false} OutcomesCounted(d: map<string, Binding>, table: seq<Row>, ops: seq<Op>)
    ensures |SqlOutcomes(table, ops)| == |MemoryOutcomes(d, ops)| == |ops|
    decreases |ops|
  {
    hide MemoryStep, SqlStep;
    if ops != [] {
      OutcomesCounted(MemoryStep(d, ops[0]).0, SqlStep(table, ops[0]).0, ops[1..]);
    }
  }

  /** Every sequence of operations by any users, from empty stores: both give the same answer to each operation, except
      to a put over a binding of the same owner and another runtime. Both refuse that one, the dictionary as a runtime
      mismatch and the table as an owner mismatch. So all answers are the same if and only if no such put is made. */
  lemma StoresAreEquivalent(ops: seq<Op>)
    ensures |SqlOutcomes([], ops)| == |MemoryOutcomes(map[], ops)| == |ops|
    ensures forall i | 0 <= i < |ops| ::
              && SqlOutcomes([], ops)[i] == TableAnswer(ConflictAt(map[], ops, i), MemoryOutcomes(map[], ops)[i])
              && (ConflictAt(map[], ops, i) ==> MemoryOutcomes(map[], ops)[i] == RUNTIME_MISMATCH)
    ensures SqlOutcomes([], ops) == MemoryOutcomes(map[], ops)
            <==> forall i | 0 <= i < |ops| :: !ConflictAt(map[], ops, i)
  {
    hide ConflictAt, MemoryOutcomes, SqlOutcomes;
    StartSame();
    OutcomesCounted(map[], [], ops);
    forall i | 0 <= i < |ops|
      ensures SqlOutcomes([], ops)[i] == TableAnswer(ConflictAt(map[], ops, i), MemoryOutcomes(map[], ops)[i])
      ensures ConflictAt(map[], ops, i) ==> MemoryOutcomes(map[], ops)[i] == RUNTIME_MISMATCH
    {
      RunsAgree(map[], [], ops, i);
    }
    if SqlOutcomes([], ops) == MemoryOutcomes(map[], ops) {
      forall i | 0 <= i < |ops|
        ensures !ConflictAt(map[], ops, i)
      {
        assert SqlOutcomes([], ops)[i] == MemoryOutcomes(map[], ops)[i];
      }
    }
  }

  lemma StartSame()
    ensures Same(map[], [])
  {
  }

  /** Two puts that tell the stores apart. */
  lemma RuntimeConflictTellsApart(id: string)
    requires id != ""
    ensures var ops := [Put("s", Binding(id, "r", "u", "")), Put("s", Binding(id, "q", "u", ""))];
            MemoryOutcomes(map[], ops) == [Nothing, RUNTIME_MISMATCH]
            && SqlOutcomes([], ops) == [Nothing, OWNER_MISMATCH]
  {
    var first, second := Put("s", Binding(id, "r", "u", "")), Put("s", Binding(id, "q", "u", ""));
    assert [first, second][1..] == [second] && [second][1..] == [];
    var d, table := MemoryStep(map[], first).0, SqlStep([], first).0;
    assert d == map["s" := first.binding] && table == [Row("s", first.binding)];
    assert MemoryOutcomes(d, [second]) == [RUNTIME_MISMATCH] + MemoryOutcomes(d, []) == [RUNTIME_MISMATCH];
    assert SqlOutcomes(table, [second]) == [OWNER_MISMATCH] + SqlOutcomes(table, []) == [OWNER_MISMATCH];
    assert MemoryOutcomes(map[], [first, second]) == [MemoryStep(map[], first).1] + MemoryOutcomes(d, [second]);
    assert SqlOutcomes([], [first, second]) == [SqlStep([], first).1] + SqlOutcomes(table, [second]);
  }

  // ---------------------------------------------------------------------------------------------
  // Ownership

  predicate AllNamed(d: map<string, Binding>) {
    forall s | s in d :: Named(d[s])
  }

  /** The only operations that can touch a binding: its owner replacing it, for its own runtime and with an id, or
      removing it. */
  predicate Replaces(op: Op, s: string, b: Binding) {
    op.Put? && op.sessionId == s && op.binding.userId == b.userId && op.binding.runtimeId == b.runtimeId
    && op.binding.runtimeSessionId != ""
  }

  predicate Removes(op: Op, s: string, b: Binding) {
    op.Delete? && op.sessionId == s && op.userId == b.userId && (op.runtimeId == "" || op.runtimeId == b.runtimeId)
  }

  lemma OnlyTheOwner(d: map<string, Binding>, op: Op, s: string)
    requires AllNamed(d) && s in d
    ensures AllNamed(MemoryStep(d, op).0)
    ensures var after := MemoryStep(d, op).0;
            && (s !in after <==> Removes(op, s, d[s]))
            && (s in after ==> after[s] == if Replaces(op, s, d[s]) then op.binding else d[s])
  {
  }

  /** A put is refused exactly without an owner or a runtime, or over another owner's or runtime's binding; once it
      went through, its owner finds the binding, with the runtime or without, and nobody else finds anything. */
  lemma PutIsFound(d: map<string, Binding>, s: string, b: Binding, userId: string, runtimeId: string)
    requires AllNamed(d) && b.runtimeSessionId != ""
    ensures var (after, outcome) := MemoryStep(d, Op.Put(s, b));
            && (outcome.Denied?
                <==> !Named(b) || (s in d && (d[s].userId != b.userId || d[s].runtimeId != b.runtimeId)))
            && (outcome.Denied? ==> after == d)
            && (!outcome.Denied? ==>
                  MemoryStep(after, Op.GetBinding(s, userId, runtimeId)).1
                  == if userId == b.userId && runtimeId in {"", b.runtimeId} then Found(b) else Nothing)
  {
  }

  /** What the owner of `b` put last, or `b`. */
  function OwnersLastPut(ops: seq<Op>, s: string, b: Binding): (last: Binding)
    ensures last.userId == b.userId && last.runtimeId == b.runtimeId
  {
    if ops == [] then b
    else
      var n := |ops| - 1;
      if Replaces(ops[n], s, b) then ops[n].binding else OwnersLastPut(ops[..n], s, b)
  }

  lemma {:induction false} RunSnoc(d: map<string, Binding>, ops: seq<Op>)
    requires ops != []
    ensures MemoryRun(d, ops) == MemoryStep(MemoryRun(d, ops[..|ops| - 1]), ops[|ops| - 1]).0
    decreases |ops|
  {
    hide MemoryStep;
    if |ops| > 1 {
      var next := MemoryStep(d, ops[0]).0;
      RunSnoc(next, ops[1..]);
      assert ops[1..][..|ops| - 2] == ops[..|ops| - 1][1..];
    } else {
      assert ops[..0] == [];
    }
  }

  /** Over any run: until its owner removes it, a binding keeps its owner and runtime, and is exactly what that owner
      put last for that runtime. */
  lemma {:induction false} BindingsKeepTheirOwner(d: map<string, Binding>, ops: seq<Op>, s: string)
    requires AllNamed(d) && s in d
    requires forall i | 0 <= i < |ops| :: !Removes(ops[i], s, d[s])
    ensures AllNamed(MemoryRun(d, ops)) && s in MemoryRun(d, ops)
    ensures MemoryRun(d, ops)[s] == OwnersLastPut(ops, s, d[s])
  {
    if ops != [] {
      hide MemoryStep;
      var n := |ops| - 1;
      BindingsKeepTheirOwner(d, ops[..n], s);
      RunSnoc(d, ops);
      OnlyTheOwner(MemoryRun(d, ops[..n]), ops[n], s);
    }
  }

  lemma {:induction false} RunsStaySame(d: map<string, Binding>, table: seq<Row>, ops: seq<Op>)
    requires Same(d, table)
    ensures Same(MemoryRun(d, ops), SqlRun(table, ops))
    decreases |ops|
  {
    if ops != [] {
      StepsAgree(d, table, ops[0]);
      RunsStaySame(MemoryStep(d, ops[0]).0, SqlStep(table, ops[0]).0, ops[1..]);
    }
  }

  /** The same for the table, after any history. */
  lemma RowsKeepTheirOwner(history: seq<Op>, ops: seq<Op>, s: string)
    requires Lookup(SqlRun([], history), s).Some?
    requires forall i | 0 <= i < |ops| :: !Removes(ops[i], s, Lookup(SqlRun([], history), s).value)
    ensures Lookup(SqlRun(SqlRun([], history), ops), s)
            == Some(OwnersLastPut(ops, s, Lookup(SqlRun([], history), s).value))
  {
    RunsStaySame(map[], [], history);
    var d, table := MemoryRun(map[], history), SqlRun([], history);
    RunsStaySame(d, table, ops);
    assert forall t | t in d :: SameAt(d, table, t);
    assert SameAt(d, table, s);
    BindingsKeepTheirOwner(d, ops, s);
    assert SameAt(MemoryRun(d, ops), SqlRun(table, ops), s);
  }
}
