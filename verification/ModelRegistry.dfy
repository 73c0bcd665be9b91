/** The leased, hot-swapped model registry of the LLM gateway. A registry is reference counted, replaced by a
    refresh, retired while leases are out, and closed once by whoever ends up responsible for it. Acquire (with
    its refresh) and release are atomic under the refresh lock; closing happens later, outside it. */
module ModelRegistry {
  import opened Prelude

  /** Registry objects, by identity. Every successful build yields a new one. */
  type Registry = nat

  datatype Spec = NoRows | BuildFails | Builds(registry: Registry)

  datatype Snapshot = LoadFails | Loaded(fingerprint: string, spec: Spec)

  /** The source's fields, and what its clients and the clean-up owe: outstanding leases, registries handed out for
      closing, closes performed, and every registry ever built. */
  datatype State = State(fallback: Registry, ttl: int, cached: Option<Registry>, cachedAt: int, fingerprint: string,
                         refs: map<Registry, nat>, retired: set<Registry>,
                         leases: multiset<Registry>, pending: multiset<Registry>, closed: multiset<Registry>,
                         built: set<Registry>)

  function Count(refs: map<Registry, nat>, r: Registry): nat {
    if r in refs then refs[r] else 0
  }

  function Cached(s: State): Registry {
    if s.cached.Some? then s.cached.value else s.fallback
  }

  predicate NeedsRefresh(s: State, force: bool, now: int) {
    force || s.cached.None? || now - s.cachedAt >= s.ttl
  }

  /** `_refresh`: the new state, with a registry to be closed already put among the pending ones. */
  function Refreshed(s: State, now: int, load: Snapshot): State {
    if load.LoadFails? then s.(cached := Some(Cached(s)), cachedAt := now)
    else if s.cached.Some? && load.fingerprint == s.fingerprint then s.(cachedAt := now)
    else if load.spec.BuildFails? then s.(cached := Some(Cached(s)), cachedAt := now)
    else
      var next := if load.spec.Builds? then load.spec.registry else s.fallback;
      var swapped := s.(cached := Some(next), cachedAt := now, fingerprint := load.fingerprint,
                        built := if load.spec.Builds? then s.built + {next} else s.built);
      if s.cached.None? || s.cached.value == next || s.cached.value == s.fallback then swapped
      else if Count(s.refs, s.cached.value) == 0 then swapped.(pending := s.pending + multiset{s.cached.value})
      else swapped.(retired := s.retired + {s.cached.value})
  }

  function Acquired(s: State, force: bool, now: int, load: Snapshot): State {
    Leased(if NeedsRefresh(s, force, now) then Refreshed(s, now, load) else s)
  }

  function Leased(s: State): State {
    var r := Cached(s);
    s.(refs := s.refs[r := Count(s.refs, r) + 1], leases := s.leases + multiset{r})
  }

  function Released(s: State, r: Registry): State {
    var t := s.(leases := s.leases - multiset{r});
    if Count(s.refs, r) > 1 then t.(refs := s.refs[r := s.refs[r] - 1])
    else if r in s.retired then
      t.(refs := s.refs - {r}, retired := s.retired - {r}, pending := s.pending + multiset{r})
    else t.(refs := s.refs - {r})
  }

  function Closed(s: State, r: Registry): State {
    s.(pending := s.pending - multiset{r}, closed := s.closed + multiset{r})
  }

  datatype Step = Acquire(force: bool, now: int, load: Snapshot)
                | Release(registry: Registry)
                | Close(registry: Registry)

  /** Releases are matched with leases, closes with hand-outs, and builds give new objects. */
  predicate Enabled(s: State, e: Step) {
    match e
    case Acquire(_, _, load) => load.Loaded? && load.spec.Builds? ==> load.spec.registry !in s.built + {s.fallback}
    case Release(r) => r in s.leases
    case Close(r) => r in s.pending
  }

  function Apply(s: State, e: Step): State {
    match e
    case Acquire(force, now, load) => Acquired(s, force, now, load)
    case Release(r) => Released(s, r)
    case Close(r) => Closed(s, r)
  }

  function Initial(fallback: Registry, ttl: int): State {
    State(fallback, ttl, None, 0, "", map[], {}, multiset{}, multiset{}, multiset{}, {})
  }

  /** A run: the steps of all clients, interleaved in any order. */
  ghost predicate ValidRun(s: State, steps: seq<Step>)
    decreases |steps|
  {
    steps != [] ==> Enabled(s, steps[0]) && ValidRun(Apply(s, steps[0]), steps[1..])
  }

  function Run(s: State, steps: seq<Step>): State
    decreases |steps|
  {
    if steps == [] then s else Run(Apply(s, steps[0]), steps[1..])
  }

  /** One registry's share of the invariant. Its count is the number of its leases, and once built it has exactly
      one owner: it is cached, or retired with a lease out, or handed out for closing, or closed. */
  predicate InvAt(s: State, r: Registry) {
    var ended := s.pending[r] + s.closed[r];
    && Count(s.refs, r) == s.leases[r]
    && (r in s.refs ==> s.refs[r] > 0)
    && ended <= 1
    && (ended > 0 ==> r in s.built && s.leases[r] == 0 && s.cached != Some(r) && r !in s.retired)
    && (r in s.retired ==> r in s.built && s.leases[r] > 0 && s.cached != Some(r))
    && (s.cached == Some(r) || s.leases[r] > 0 ==> r in s.built || r == s.fallback)
    && (r in s.built ==> r != s.fallback && (s.cached == Some(r) || r in s.retired || ended == 1))
  }

  ghost predicate Inv(s: State) {
    forall r: Registry :: InvAt(s, r)
  }

  lemma RefreshKeepsAt(s: State, now: int, load: Snapshot, r: Registry)
    requires Enabled(s, Acquire(true, now, load)) && InvAt(s, r) && InvAt(s, Cached(s))
    ensures InvAt(Refreshed(s, now, load), r)
  {
  }

  lemma LeaseKeepsAt(s: State, r: Registry)
    requires InvAt(s, r) && s.cached.Some?
    ensures InvAt(Leased(s), r)
  {
  }

  lemma ReleaseKeepsAt(s: State, x: Registry, r: Registry)
    requires x in s.leases && InvAt(s, r)
    ensures InvAt(Released(s, x), r)
  {
  }

  lemma StepKeepsAt(s: State, e: Step, r: Registry)
    requires Enabled(s, e) && InvAt(s, r) && InvAt(s, Cached(s))
    ensures InvAt(Apply(s, e), r)
  {
    match e
    case Acquire(force, now, load) =>
      hide InvAt, Leased;
      if NeedsRefresh(s, force, now) {
        RefreshKeepsAt(s, now, load, r);
        LeaseKeepsAt(Refreshed(s, now, load), r);
      } else {
        LeaseKeepsAt(s, r);
      }
    case Release(x) =>
      ReleaseKeepsAt(s, x, r);
    case Close(_) =>
  }

  lemma StepKeepsInv(s: State, e: Step)
    requires Inv(s) && Enabled(s, e)
    ensures Inv(Apply(s, e))
  {
    hide InvAt;
    forall r: Registry
      ensures InvAt(Apply(s, e), r)
    {
      StepKeepsAt(s, e, r);
    }
  }

  /** What the invariant means to clients: a leased registry is neither closed nor about to be, none is closed
      twice, a retired one is leased, and with all leases back and all closes done the only unclosed registries are
      the cached one and the fallback. */
  predicate SafeAt(s: State, r: Registry) {
    && (s.leases[r] > 0 ==> s.closed[r] == 0 && s.pending[r] == 0)
    && s.closed[r] <= 1
    && (r in s.retired ==> s.leases[r] > 0)
    && (r in s.built && s.leases == multiset{} && s.pending == multiset{} ==> r == Cached(s) || s.closed[r] == 1)
    && (r == Cached(s) || r == s.fallback ==> s.closed[r] == 0)
  }

  ghost predicate Safe(s: State) {
    forall r: Registry :: SafeAt(s, r)
  }

  lemma InvIsSafe(s: State)
    requires Inv(s)
    ensures Safe(s)
  {
    forall r: Registry
      ensures SafeAt(s, r)
    {
      assert InvAt(s, r);
    }
  }

  lemma {:induction false} RunsKeepInv(s: State, steps: seq<Step>)
    requires Inv(s) && ValidRun(s, steps)
    ensures Inv(Run(s, steps))
    decreases |steps|
  {
    if steps != [] {
      StepKeepsInv(s, steps[0]);
      RunsKeepInv(Apply(s, steps[0]), steps[1..]);
    }
  }

  /** Over every interleaving of acquires, refreshes and matched releases, from a fresh source. */
  lemma EveryRunIsSafe(fallback: Registry, ttl: int, steps: seq<Step>)
    requires ValidRun(Initial(fallback, ttl), steps)
    ensures Safe(Run(Initial(fallback, ttl), steps))
  {
    RunsKeepInv(Initial(fallback, ttl), steps);
    InvIsSafe(Run(Initial(fallback, ttl), steps));
  }

  // ---------------------------------------------------------------------------------------------
  // Which registry is leased

  /** One acquire. No refresh is due within the time to live, and then nothing but the lease changes. A refresh that
      brings a new configuration takes it up: the registry built from it, or the fallback when there are no rows. Any
      other refresh, unchanged, failed to load or failed to build, goes on with the registry cached before, or with the
      fallback if there was none. */
  lemma AcquireLeases(s: State, force: bool, now: int, load: Snapshot)
    ensures var t := Apply(s, Acquire(force, now, load));
            var due := force || s.cached.None? || now - s.cachedAt >= s.ttl;
            var isNew := load.Loaded? && !load.spec.BuildFails?
                         && (s.cached.None? || load.fingerprint != s.fingerprint);
            && t.cached.Some? && t.leases == s.leases + multiset{t.cached.value}
            && t.fallback == s.fallback && t.ttl == s.ttl && t.closed == s.closed
            && t.cachedAt == (if due then now else s.cachedAt)
            && (!due ==> t.cached == s.cached && t.fingerprint == s.fingerprint && t.built == s.built)
            && (due && isNew ==>
                  && t.fingerprint == load.fingerprint
                  && t.cached.value == (if load.spec.Builds? then load.spec.registry else s.fallback)
                  && t.built == (if load.spec.Builds? then s.built + {load.spec.registry} else s.built))
            && (due && !isNew ==>
                  && t.fingerprint == s.fingerprint && t.built == s.built
                  && t.cached.value == (if s.cached.Some? then s.cached.value else s.fallback))
            && (due && load.Loaded? && !load.spec.BuildFails? ==> t.fingerprint == load.fingerprint)
  {
  }

  /** The step is an acquire whose refresh is due and brings a new configuration that can be built. */
  predicate TakesUp(s: State, e: Step) {
    && e.Acquire? && (e.force || s.cached.None? || e.now - s.cachedAt >= s.ttl)
    && e.load.Loaded? && !e.load.spec.BuildFails? && (s.cached.None? || e.load.fingerprint != s.fingerprint)
  }

  lemma TakenUp(s: State, e: Step)
    requires TakesUp(s, e)
    ensures Apply(s, e).fingerprint == e.load.fingerprint
    ensures Apply(s, e).cached == Some(if e.load.spec.Builds? then e.load.spec.registry else s.fallback)
  {
  }

  lemma OtherStepsKeepCached(s: State, e: Step)
    requires !TakesUp(s, e)
    ensures var t := Apply(s, e);
            && t.fingerprint == s.fingerprint && t.fallback == s.fallback
            && (t.cached == s.cached || (s.cached.None? && t.cached == Some(s.fallback)))
  {
  }

  lemma {:induction false} RunSnoc(s: State, steps: seq<Step>)
    requires steps != []
    ensures Run(s, steps) == Apply(Run(s, steps[..|steps| - 1]), steps[|steps| - 1])
    decreases |steps|
  {
    hide Apply;
    if |steps| > 1 {
      RunSnoc(Apply(s, steps[0]), steps[1..]);
      assert steps[1..][..|steps| - 2] == steps[..|steps| - 1][1..];
    } else {
      assert steps[..0] == [];
    }
  }

  lemma {:induction false} RunKeepsFallback(s: State, steps: seq<Step>)
    ensures Run(s, steps).fallback == s.fallback
    decreases |steps|
  {
    if steps != [] {
      RunKeepsFallback(Apply(s, steps[0]), steps[1..]);
    }
  }

  /** Over any run: the registry in use is the one of the last new configuration that was loaded and built, whatever was
      leased, returned, closed, reloaded unchanged or failed to load since. */
  lemma {:induction false} CachedIsTheLastTaken(s: State, steps: seq<Step>, i: nat)
    requires i < |steps| && TakesUp(Run(s, steps[..i]), steps[i])
    requires forall k | i < k < |steps| :: !TakesUp(Run(s, steps[..k]), steps[k])
    ensures Run(s, steps).fingerprint == steps[i].load.fingerprint
    ensures Run(s, steps).cached
            == Some(if steps[i].load.spec.Builds? then steps[i].load.spec.registry else s.fallback)
  {
    hide Apply, TakesUp, Run;
    var n := |steps| - 1;
    RunSnoc(s, steps);
    RunKeepsFallback(s, steps[..n]);
    if i == n {
      TakenUp(Run(s, steps[..n]), steps[n]);
    } else {
      assert steps[..n][..i] == steps[..i];
      forall k | i < k < n
        ensures !TakesUp(Run(s, steps[..n][..k]), steps[..n][k])
      {
        assert steps[..n][..k] == steps[..k];
      }
      CachedIsTheLastTaken(s, steps[..n], i);
      OtherStepsKeepCached(Run(s, steps[..n]), steps[n]);
    }
  }

  /** Until a configuration is taken up, the fallback serves. */
  lemma {:induction false} FallbackUntilTaken(s: State, steps: seq<Step>)
    requires forall k | 0 <= k < |steps| :: !TakesUp(Run(s, steps[..k]), steps[k])
    ensures Run(s, steps).fingerprint == s.fingerprint
    ensures Run(s, steps).cached == s.cached || (s.cached.None? && Run(s, steps).cached == Some(s.fallback))
  {
    if steps != [] {
      hide Apply, TakesUp;
      var n := |steps| - 1;
      RunSnoc(s, steps);
      RunKeepsFallback(s, steps[..n]);
      forall k | 0 <= k < n
        ensures !TakesUp(Run(s, steps[..n][..k]), steps[..n][k])
      {
        assert steps[..n][..k] == steps[..k];
      }
      FallbackUntilTaken(s, steps[..n]);
      OtherStepsKeepCached(Run(s, steps[..n]), steps[n]);
    }
  }

  function Releases(steps: seq<Step>, r: Registry): nat {
    if steps == [] then 0 else (if steps[0] == Release(r) then 1 else 0) + Releases(steps[1..], r)
  }

  /** A lease counts: through any steps of any clients, refreshes and returns of other leases of the same registry
      included, a registry stays leased, open and out of the closing queue while fewer leases have been returned than
      were out. */
  lemma {:induction false} LeaseKeepsOpen(s: State, steps: seq<Step>, r: Registry)
    requires Inv(s) && ValidRun(s, steps) && Releases(steps, r) < s.leases[r]
    ensures Run(s, steps).leases[r] >= s.leases[r] - Releases(steps, r) > 0
    ensures r !in Run(s, steps).closed && r !in Run(s, steps).pending
    decreases |steps|
  {
    assert InvAt(s, r);
    if steps != [] {
      StepKeepsInv(s, steps[0]);
      StepKeepsLeases(s, steps[0], r);
      hide Apply, Enabled;
      LeaseKeepsOpen(Apply(s, steps[0]), steps[1..], r);
    }
  }

  lemma StepKeepsLeases(s: State, e: Step, r: Registry)
    requires Enabled(s, e)
    ensures Apply(s, e).leases[r] >= s.leases[r] - if e == Release(r) then 1 else 0
  {
  }

  /** The source itself: its fields and its lock-protected methods. */
  class PostgresRegistrySource {
    const fallback: Registry
    const ttl: int
    var cached: Option<Registry>
    var cachedAt: int
    var fingerprint: string
    var references: map<Registry, nat>
    var retired: set<Registry>
    ghost var leases: multiset<Registry>
    ghost var pending: multiset<Registry>
    ghost var closed: multiset<Registry>
    ghost var built: set<Registry>

    ghost function Abstract(): State
      reads this
    {
      State(fallback, ttl, cached, cachedAt, fingerprint, references, retired, leases, pending, closed, built)
    }

    constructor (fallback: Registry, ttl: int)
      ensures Abstract() == Initial(fallback, ttl) && Inv(Abstract())
    {
      this.fallback, this.ttl := fallback, ttl;
      cached, cachedAt, fingerprint := None, 0, "";
      references, retired := map[], {};
      leases, pending, closed, built := multiset{}, multiset{}, multiset{}, {};
    }

    method Refresh(now: int, load: Snapshot) returns (closeAfterSwap: Option<Registry>)
      modifies this
      ensures Abstract() == Refreshed(old(Abstract()), now, load)
      ensures leases == old(leases)
      ensures pending == old(pending) + if closeAfterSwap.Some? then multiset{closeAfterSwap.value} else multiset{}
    {
      if load.LoadFails? {
        cached := Some(if cached.Some? then cached.value else fallback);
        cachedAt := now;
        return None;
      }
      if cached.Some? && load.fingerprint == fingerprint {
        cachedAt := now;
        return None;
      }
      if load.spec.BuildFails? {
        cached := Some(if cached.Some? then cached.value else fallback);
        cachedAt := now;
        return None;
      }
      var registry := if load.spec.NoRows? then fallback else load.spec.registry;
      if load.spec.Builds? {
        built := built + {registry};
      }
      var before := cached;
      cached := Some(registry);
      cachedAt := now;
      fingerprint := load.fingerprint;
      if before.None? || before.value == registry || before.value == fallback {
        return None;
      }
      if before.value !in references || references[before.value] == 0 {
        pending := pending + multiset{before.value};
        return before;
      }
      retired := retired + {before.value};
      return None;
    }

    /** The part under the lock; closing `closeAfterSwap` is a later step. */
    method AcquireLocked(force: bool, now: int, load: Snapshot)
      returns (registry: Registry, closeAfterSwap: Option<Registry>)
      requires Inv(Abstract()) && Enabled(Abstract(), Acquire(force, now, load))
      modifies this
      ensures Abstract() == Apply(old(Abstract()), Acquire(force, now, load)) && Inv(Abstract())
      ensures leases == old(leases) + multiset{registry} && registry !in closed && registry !in pending
      ensures cached == Some(registry)
      ensures pending == old(pending) + if closeAfterSwap.Some? then multiset{closeAfterSwap.value} else multiset{}
    {
      hide Refreshed, Enabled, Leased;
      StepKeepsInv(Abstract(), Acquire(force, now, load));
      AcquireLeases(Abstract(), force, now, load);
      closeAfterSwap := None;
      if force || cached.None? || now - cachedAt >= ttl {
        closeAfterSwap := Refresh(now, load);
      }
      registry := TakeLease();
      assert InvAt(Abstract(), registry);
    }

    /** The registry in use, with one more reference. */
    method TakeLease() returns (registry: Registry)
      modifies this
      ensures registry == Cached(old(Abstract())) && Abstract() == Leased(old(Abstract()))
      ensures leases == old(leases) + multiset{registry} && pending == old(pending)
    {
      registry := if cached.Some? then cached.value else fallback;
      references := references[registry := (if registry in references then references[registry] else 0) + 1];
      leases := leases + multiset{registry};
    }

    /** The part under the lock; closing the registry is a later step. */
    method ReleaseLocked(registry: Registry) returns (close: bool)
      requires Inv(Abstract()) && Enabled(Abstract(), Release(registry))
      modifies this
      ensures Abstract() == Apply(old(Abstract()), Release(registry)) && Inv(Abstract())
      ensures close <==> registry in old(retired) && old(leases)[registry] == 1
      ensures pending == old(pending) + if close then multiset{registry} else multiset{}
    {
      StepKeepsInv(Abstract(), Release(registry));
      assert InvAt(Abstract(), registry);
      close := false;
      var refs := if registry in references then references[registry] else 0;
      if refs <= 1 {
        references := references - {registry};
        if registry in retired {
          retired := retired - {registry};
          close := true;
        }
      } else {
        references := references[registry := refs - 1];
      }
      leases := leases - multiset{registry};
      if close {
        pending := pending + multiset{registry};
      }
    }

    /** The deferred close of a registry some acquire or release handed out. */
    ghost method CloseRegistry(registry: Registry)
      requires Inv(Abstract()) && Enabled(Abstract(), Close(registry))
      modifies this
      ensures Abstract() == Apply(old(Abstract()), Close(registry)) && Inv(Abstract())
    {
      StepKeepsInv(Abstract(), Close(registry));
      pending := pending - multiset{registry};
      closed := closed + multiset{registry};
    }

    /** A whole acquire: whatever the swap handed out is closed before the lease is used. The lease is of the newly
        loaded configuration when a refresh was due and brought one, and otherwise of the one in use, if any. */
    method AcquireRegistry(force: bool, now: int, load: Snapshot) returns (registry: Registry)
      requires Inv(Abstract()) && Enabled(Abstract(), Acquire(force, now, load))
      modifies this
      ensures Inv(Abstract()) && leases == old(leases) + multiset{registry}
      ensures registry !in closed && registry !in pending && cached == Some(registry)
      ensures var due := force || old(cached).None? || now - old(cachedAt) >= ttl;
              var isNew := load.Loaded? && !load.spec.BuildFails?
                           && (old(cached).None? || load.fingerprint != old(fingerprint));
              && cachedAt == (if due then now else old(cachedAt))
              && (if due && isNew then
                    registry == (if load.spec.Builds? then load.spec.registry else fallback)
                    && fingerprint == load.fingerprint
                  else
                    registry == (if old(cached).Some? then old(cached).value else fallback)
                    && fingerprint == old(fingerprint))
      ensures var locked := Apply(old(Abstract()), Acquire(force, now, load));
              Abstract() == locked.(pending := old(pending), closed := locked.closed + (locked.pending - old(pending)))
    {
      hide Apply, Enabled, InvAt;
      AcquireLeases(Abstract(), force, now, load);
      var closeAfterSwap;
      registry, closeAfterSwap := AcquireLocked(force, now, load);
      if closeAfterSwap.Some? {
        CloseHandedOut(closeAfterSwap.value, old(pending));
      }
      LeasedIsOpen(Abstract(), registry);
    }

    /** Close what was just handed out. */
    ghost method CloseHandedOut(registry: Registry, was: multiset<Registry>)
      requires Inv(Abstract()) && pending == was + multiset{registry}
      modifies this
      ensures Inv(Abstract())
      ensures Abstract() == old(Abstract()).(pending := was, closed := old(closed) + multiset{registry})
    {
      CloseRegistry(registry);
    }

    /** A whole release: the last lease of a retired registry closes it, once. */
    method ReleaseRegistry(registry: Registry)
      requires Inv(Abstract()) && Enabled(Abstract(), Release(registry))
      modifies this
      ensures Inv(Abstract()) && leases == old(leases) - multiset{registry} && pending == old(pending)
      ensures closed
              == old(closed) + if registry in old(retired) && old(leases)[registry] == 1 then multiset{registry}
                               else multiset{}
    {
      assert InvAt(Abstract(), registry);
      var close := ReleaseLocked(registry);
      if close {
        CloseHandedOut(registry, old(pending));
      }
    }
  }

  lemma LeasedIsOpen(s: State, r: Registry)
    requires Inv(s) && r in s.leases
    ensures r !in s.closed && r !in s.pending
  {
    assert InvAt(s, r);
  }
}
