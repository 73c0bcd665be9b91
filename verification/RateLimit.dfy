/** The gateway's token buckets over exact real time: one bucket, and the limiter that keeps one per key. */
module RateLimit {
  /** What a bucket remembers; its rate and capacity are fixed. */
  datatype Level = Level(tokens: real, updated: real)

  datatype Limits = Limits(rate: real, capacity: real)

  function Inflow(p: Limits, elapsed: real): real {
    elapsed * p.rate
  }

  lemma InflowIs(p: Limits, elapsed: real)
    ensures Inflow(p, elapsed) == elapsed * p.rate
  {
  }

  lemma InflowAdds(p: Limits, x: real, y: real)
    ensures Inflow(p, x) + Inflow(p, y) == Inflow(p, x + y)
  {
  }

  lemma InflowNonnegative(p: Limits, x: real)
    requires p.rate > 0.0 && x >= 0.0
    ensures Inflow(p, x) >= 0.0
  {
  }

  function Refill(p: Limits, b: Level, now: real): real {
    var filled := b.tokens + Inflow(p, now - b.updated);
    if filled < p.capacity then filled else p.capacity
  }

  function Ask(p: Limits, b: Level, now: real): (Level, bool) {
    var level := Refill(p, b, now);
    if level >= 1.0 then (Level(level - 1.0, now), true) else (Level(level, now), false)
  }

  function After(p: Limits, b: Level, times: seq<real>): Level
    decreases |times|
  {
    if times == [] then b else After(p, Ask(p, b, times[0]).0, times[1..])
  }

  function Decisions(p: Limits, b: Level, times: seq<real>): (d: seq<bool>)
    ensures |d| == |times|
    decreases |times|
  {
    if times == [] then [] else [Ask(p, b, times[0]).1] + Decisions(p, Ask(p, b, times[0]).0, times[1..])
  }

  function Granted(d: seq<bool>): nat {
    if d == [] then 0 else (if d[0] then 1 else 0) + Granted(d[1..])
  }

  ghost predicate InRange(p: Limits, b: Level) {
    p.rate > 0.0 && p.capacity >= 1.0 && 0.0 <= b.tokens <= p.capacity
  }

  ghost predicate Nondecreasing(times: seq<real>) {
    forall i, j | 0 <= i <= j < |times| :: times[i] <= times[j]
  }

  ghost predicate Follows(b: Level, times: seq<real>) {
    Nondecreasing(times) && (times != [] ==> b.updated <= times[0])
  }

  lemma AskStaysInRange(p: Limits, b: Level, now: real)
    requires InRange(p, b) && b.updated <= now
    ensures InRange(p, Ask(p, b, now).0)
  {
    InflowNonnegative(p, now - b.updated);
  }

  lemma {:induction false} StaysInRange(p: Limits, b: Level, times: seq<real>)
    requires InRange(p, b) && Follows(b, times)
    ensures InRange(p, After(p, b, times))
    decreases |times|
  {
    if times != [] {
      AskStaysInRange(p, b, times[0]);
      StaysInRange(p, Ask(p, b, times[0]).0, times[1..]);
    }
  }

  /** Grants are paid for by what the first refill leaves and what flows in afterwards. */
  lemma {:induction false} GrantsArePaid(p: Limits, b: Level, times: seq<real>)
    requires InRange(p, b) && Follows(b, times) && times != []
    ensures Granted(Decisions(p, b, times)) as real <= Refill(p, b, times[0]) + Inflow(p, times[|times| - 1] - times[0])
    decreases |times|
  {
    AskStaysInRange(p, b, times[0]);
    var (next, ok) := Ask(p, b, times[0]);
    var d := Decisions(p, b, times);
    assert d[1..] == Decisions(p, next, times[1..]);
    if |times| == 1 {
      assert Granted(d[1..]) == 0;
      InflowNonnegative(p, times[0] - b.updated);
      InflowNonnegative(p, 0.0);
    } else {
      var last := times[|times| - 1];
      GrantsArePaid(p, next, times[1..]);
      InflowAdds(p, times[1] - times[0], last - times[1]);
    }
  }

  lemma {:induction false} DecisionsSplit(p: Limits, b: Level, times: seq<real>, i: nat)
    requires i <= |times|
    ensures Decisions(p, b, times)[i..] == Decisions(p, After(p, b, times[..i]), times[i..])
    decreases |times|
  {
    if i > 0 {
      var next := Ask(p, b, times[0]).0;
      DecisionsSplit(p, next, times[1..], i - 1);
      assert times[..i][1..] == times[1..][..i - 1] && times[1..][i - 1..] == times[i..];
      assert Decisions(p, b, times)[i..] == Decisions(p, next, times[1..])[i - 1..];
    }
  }

  lemma {:induction false} DecisionsPrefix(p: Limits, b: Level, times: seq<real>, j: nat)
    requires j <= |times|
    ensures Decisions(p, b, times)[..j] == Decisions(p, b, times[..j])
    decreases |times|
  {
    if j > 0 {
      DecisionsPrefix(p, Ask(p, b, times[0]).0, times[1..], j - 1);
      assert times[..j][1..] == times[1..][..j - 1];
      assert Decisions(p, b, times)[..j] == [Decisions(p, b, times)[0]] + Decisions(p, b, times)[1..][..j - 1];
    }
  }

  /** Over any window of calls i..j: no more grants than the capacity plus what the window's length lets in. */
  lemma WindowBound(p: Limits, b: Level, times: seq<real>, i: nat, j: nat)
    requires InRange(p, b) && Follows(b, times) && i < j <= |times|
    ensures Granted(Decisions(p, b, times)[i..j]) as real <= p.capacity + Inflow(p, times[j - 1] - times[i])
  {
    var at := After(p, b, times[..i]);
    WindowIsARun(p, b, times, i, j);
    StaysInRange(p, b, times[..i]);
    LastUpdate(p, b, times[..i]);
    GrantsArePaid(p, at, times[i..j]);
  }

  lemma WindowIsARun(p: Limits, b: Level, times: seq<real>, i: nat, j: nat)
    requires i <= j <= |times|
    ensures Decisions(p, b, times)[i..j] == Decisions(p, After(p, b, times[..i]), times[i..j])
  {
    hide Decisions;
    DecisionsSplit(p, b, times, i);
    DecisionsPrefix(p, After(p, b, times[..i]), times[i..], j - i);
    assert times[i..][..j - i] == times[i..j];
    assert Decisions(p, b, times)[i..][..j - i] == Decisions(p, b, times)[i..j];
  }

  lemma {:induction false} LastUpdate(p: Limits, b: Level, times: seq<real>)
    ensures After(p, b, times).updated == if times == [] then b.updated else times[|times| - 1]
    decreases |times|
  {
    if times != [] {
      LastUpdate(p, Ask(p, b, times[0]).0, times[1..]);
    }
  }

  /** What a window of calls from `j` on leaves for call `i`: the capacity and what has flowed in since, less the
      grants. */
  function Room(p: Limits, times: seq<real>, d: seq<bool>, j: nat, i: nat): real
    requires j <= i < |times| == |d|
  {
    p.capacity + Inflow(p, times[i] - times[j]) - Granted(d[j..i]) as real
  }

  /** What the initial tokens and all calls before leave for call `i`. */
  function FirstRoom(p: Limits, b: Level, times: seq<real>, d: seq<bool>, i: nat): real
    requires i < |times| == |d|
  {
    b.tokens + Inflow(p, times[i] - b.updated) - Granted(d[..i]) as real
  }

  /** The level a call finds is the least room any window before it leaves. */
  lemma {:induction false} LevelIsTheLeastRoom(p: Limits, b: Level, times: seq<real>, i: nat)
    requires i < |times|
    ensures var d, level := Decisions(p, b, times), Refill(p, After(p, b, times[..i]), times[i]);
            && level <= FirstRoom(p, b, times, d, i)
            && (forall j | 0 <= j <= i :: level <= Room(p, times, d, j, i))
            && (level == FirstRoom(p, b, times, d, i) || exists j | 0 <= j <= i :: level == Room(p, times, d, j, i))
    decreases i
  {
    var d := Decisions(p, b, times);
    var level := Refill(p, After(p, b, times[..i]), times[i]);
    if i == 0 {
      assert times[..0] == [] && d[..0] == [] && d[0..0] == [];
      assert Inflow(p, times[0] - times[0]) == 0.0;
    } else {
      hide Inflow, Refill;
      var (next, ok) := Ask(p, b, times[0]);
      var e := Decisions(p, next, times[1..]);
      assert times[..i][1..] == times[1..][..i - 1] && times[..i][0] == times[0];
      LevelIsTheLeastRoom(p, next, times[1..], i - 1);
      forall j | 1 <= j <= i
        ensures Room(p, times, d, j, i) == Room(p, times[1..], e, j - 1, i - 1)
      {
        assert d[j..i] == e[j - 1..i - 1];
      }
      FirstCallLeaves(p, b, times, i);
      if level == FirstRoom(p, next, times[1..], e, i - 1) {
        assert level == FirstRoom(p, b, times, d, i) || level == Room(p, times, d, 0, i);
      } else {
        var j :| 0 <= j <= i - 1 && level == Room(p, times[1..], e, j, i - 1);
        assert level == Room(p, times, d, j + 1, i);
      }
    }
  }

  /** What is left after the first call is the lesser of what its window and the initial tokens leave. */
  lemma FirstCallLeaves(p: Limits, b: Level, times: seq<real>, i: nat)
    requires 0 < i < |times|
    ensures var d, next := Decisions(p, b, times), Ask(p, b, times[0]).0;
            var e := Decisions(p, next, times[1..]);
            var left, first, window :=
              FirstRoom(p, next, times[1..], e, i - 1), FirstRoom(p, b, times, d, i), Room(p, times, d, 0, i);
            left == if first < window then first else window
  {
    var d, next := Decisions(p, b, times), Ask(p, b, times[0]).0;
    var e := Decisions(p, next, times[1..]);
    assert d[..i] == [d[0]] + e[..i - 1] && d[0..i] == d[..i];
    assert ([d[0]] + e[..i - 1])[1..] == e[..i - 1];
    InflowAdds(p, times[0] - b.updated, times[i] - times[0]);
  }

  lemma DecisionIs(p: Limits, b: Level, times: seq<real>, i: nat)
    requires i < |times|
    ensures Decisions(p, b, times)[i] <==> Refill(p, After(p, b, times[..i]), times[i]) >= 1.0
  {
    DecisionsSplit(p, b, times, i);
    assert Decisions(p, b, times)[i] == Decisions(p, b, times)[i..][0] && times[i..][0] == times[i];
    hide Inflow, After, Granted, Refill;
  }

  /** The bucket exactly: a call is granted if and only if every window of calls up to it leaves room for one more, and
      so do the initial tokens. Nothing is refused that the limit allows. */
  lemma GrantedIff(p: Limits, b: Level, times: seq<real>, i: nat)
    requires i < |times|
    ensures var d := Decisions(p, b, times);
            d[i] <==> FirstRoom(p, b, times, d, i) >= 1.0 && forall j | 0 <= j <= i :: Room(p, times, d, j, i) >= 1.0
  {
    hide Room, FirstRoom, Decisions, After, Refill;
    DecisionIs(p, b, times, i);
    LevelIsTheLeastRoom(p, b, times, i);
  }

  /** A caller idle for 1/rate is granted. */
  lemma IdleCallerIsGranted(p: Limits, b: Level, now: real)
    requires InRange(p, b) && now - b.updated >= 1.0 / p.rate
    ensures Ask(p, b, now).1
  {
    var idle := now - b.updated;
    InflowNonnegative(p, idle - 1.0 / p.rate);
    InflowAdds(p, idle - 1.0 / p.rate, 1.0 / p.rate);
    assert Inflow(p, 1.0 / p.rate) == 1.0;
  }

  // ---------------------------------------------------------------------------------------------
  // One bucket per key

  datatype Call = Call(key: string, now: real)

  type Levels = map<string, Level>

  /** The bucket a call finds: the key's own, or a full one made on the spot. */
  function LevelFor(p: Limits, levels: Levels, c: Call): Level {
    if c.key in levels then levels[c.key] else Level(p.capacity, c.now)
  }

  function AskFor(p: Limits, levels: Levels, c: Call): (Levels, bool) {
    var (next, ok) := Ask(p, LevelFor(p, levels, c), c.now);
    (levels[c.key := next], ok)
  }

  function LimiterDecisions(p: Limits, levels: Levels, calls: seq<Call>): (d: seq<bool>)
    ensures |d| == |calls|
    decreases |calls|
  {
    if calls == [] then []
    else [AskFor(p, levels, calls[0]).1] + LimiterDecisions(p, AskFor(p, levels, calls[0]).0, calls[1..])
  }

  function TimesOf(calls: seq<Call>, key: string): seq<real> {
    if calls == [] then []
    else (if calls[0].key == key then [calls[0].now] else []) + TimesOf(calls[1..], key)
  }

  /** The decisions at the key's own calls. */
  function DecisionsAt(calls: seq<Call>, d: seq<bool>, key: string): seq<bool>
    requires |d| == |calls|
  {
    if calls == [] then []
    else (if calls[0].key == key then [d[0]] else []) + DecisionsAt(calls[1..], d[1..], key)
  }

  /** What the key's bucket is, or will be once its first call makes it. */
  function LoneLevel(p: Limits, levels: Levels, key: string, times: seq<real>): Level {
    if key in levels then levels[key] else Level(p.capacity, if times == [] then 0.0 else times[0])
  }

  /** Keys do not disturb each other: each key's decisions are those of a lone bucket run on its own calls. */
  lemma {:induction false} KeysAreIndependent(p: Limits, levels: Levels, calls: seq<Call>, key: string)
    ensures DecisionsAt(calls, LimiterDecisions(p, levels, calls), key)
         == Decisions(p, LoneLevel(p, levels, key, TimesOf(calls, key)), TimesOf(calls, key))
    decreases |calls|
  {
    if calls != [] {
      var c := calls[0];
      var next := AskFor(p, levels, c).0;
      var d := LimiterDecisions(p, levels, calls);
      KeysAreIndependent(p, next, calls[1..], key);
      assert d[1..] == LimiterDecisions(p, next, calls[1..]);
      if c.key == key {
        var times := TimesOf(calls, key);
        assert times[1..] == TimesOf(calls[1..], key);
        assert next[key] == Ask(p, LoneLevel(p, levels, key, times), times[0]).0;
      } else {
        assert TimesOf(calls, key) == TimesOf(calls[1..], key);
        assert DecisionsAt(calls, d, key) == DecisionsAt(calls[1..], d[1..], key);
        assert LoneLevel(p, next, key, TimesOf(calls, key)) == LoneLevel(p, levels, key, TimesOf(calls, key));
      }
    }
  }

  /** Both together: a fresh limiter grants a key, in any window of its own calls, no more than the window allows,
      whatever other keys do in between. */
  lemma KeyWindowBound(p: Limits, calls: seq<Call>, key: string, i: nat, j: nat)
    requires p.rate > 0.0 && p.capacity >= 1.0 && Nondecreasing(TimesOf(calls, key))
    requires i < j <= |TimesOf(calls, key)|
    ensures |DecisionsAt(calls, LimiterDecisions(p, map[], calls), key)| == |TimesOf(calls, key)|
    ensures var times := TimesOf(calls, key);
            Granted(DecisionsAt(calls, LimiterDecisions(p, map[], calls), key)[i..j]) as real
            <= p.capacity + (times[j - 1] - times[i]) * p.rate
  {
    hide TimesOf, DecisionsAt, LimiterDecisions, Decisions, Granted, Inflow;
    var times := TimesOf(calls, key);
    KeysAreIndependent(p, map[], calls, key);
    WindowBound(p, LoneLevel(p, map[], key, times), times, i, j);
    InflowIs(p, times[j - 1] - times[i]);
  }

  // ---------------------------------------------------------------------------------------------
  // The objects

  /** Truncation and rounding down differ only below zero, where the answer is 1 anyway. */
  function Burst(rate: real, burst: int): (capacity: int)
    ensures capacity >= 1 && (burst > 0 ==> capacity == burst)
    ensures burst <= 0 ==> capacity as real > rate - 0.001 && (capacity == 1 || capacity as real <= rate + 0.999)
  {
    if burst > 0 then burst else
      var ceiling := (rate + 0.999).Floor;
      if ceiling > 1 then ceiling else 1
  }

  class TokenBucket {
    const limits: Limits
    var tokens: real
    var updated: real

    function State(): Level
      reads this
    {
      Level(tokens, updated)
    }

    constructor (rate: real, burst: int, now: real)
      ensures limits == Limits(rate, (if burst > 1 then burst else 1) as real)
      ensures State() == Level(limits.capacity, now)
    {
      limits := Limits(rate, (if burst > 1 then burst else 1) as real);
      tokens := (if burst > 1 then burst else 1) as real;
      updated := now;
    }

    method Allow(now: real) returns (ok: bool)
      modifies this
      ensures (State(), ok) == Ask(limits, old(State()), now)
    {
      var filled := tokens + Inflow(limits, now - updated);
      tokens := if filled < limits.capacity then filled else limits.capacity;
      updated := now;
      if tokens >= 1.0 {
        tokens := tokens - 1.0;
        return true;
      }
      return false;
    }
  }

  class RateLimiter {
    const rate: real
    const burst: int
    var buckets: map<string, TokenBucket>

    ghost predicate Valid()
      reads this
    {
      && burst >= 1
      && (forall k | k in buckets :: buckets[k].limits == Limits(rate, burst as real))
      && (forall k, l | k in buckets && l in buckets && k != l :: buckets[k] != buckets[l])
    }

    ghost function Abstract(): Levels
      reads this, buckets.Values
    {
      map k | k in buckets :: buckets[k].State()
    }

    constructor (rate: real, burst: int)
      ensures Valid() && this.rate == rate && this.burst == Burst(rate, burst) && Abstract() == map[]
      ensures fresh(buckets.Values)
    {
      this.rate := rate;
      this.burst := Burst(rate, burst);
      buckets := map[];
    }

    /** Without a positive rate, as by default, everything is admitted. */
    method Allow(key: string, now: real) returns (ok: bool)
      requires Valid()
      modifies this, buckets.Values
      ensures Valid() && fresh(buckets.Values - old(buckets.Values))
      ensures rate <= 0.0 ==> ok && Abstract() == old(Abstract())
      ensures rate > 0.0 ==> (Abstract(), ok) == AskFor(Limits(rate, burst as real), old(Abstract()), Call(key, now))
    {
      if rate <= 0.0 {
        return true;
      }
      if key !in buckets {
        var bucket := new TokenBucket(rate, burst, now);
        buckets := buckets[key := bucket];
      }
      ghost var before := LevelFor(Limits(rate, burst as real), old(Abstract()), Call(key, now));
      ok := buckets[key].Allow(now);
      assert Abstract() == old(Abstract())[key := Ask(Limits(rate, burst as real), before, now).0];
    }
  }
}
