/** No run sends a transaction before its lock is satisfied on the true chain, however stale the
    cached median and however far the backends lag. */
module LockSafety {
  import opened Prelude
  import opened ChainClock
  import opened ChainSource
  import opened Rows
  import opened Pool
  import opened PoolRuns

  ghost predicate AllSatisfied(es: seq<Emission>, chain: Chain)
    requires chain != []
  {
    forall i | 0 <= i < |es| :: SatisfiedOn(es[i].nlocktime, chain)
  }

  /** Everything the backends say during the step comes from a prefix of the chain. */
  ghost predicate HonestEvent(e: Event, chain: Chain) {
    match e
    case SchedulerTick(env) =>
      forall id: string :: HonestProbe(env.filterProbe(id), chain) && HonestProbe(env.sendProbe(id), chain)
    case UserBroadcast(_, _, p, _) => HonestProbe(p, chain)
    case HeightMonitor(_, p, _) => HonestProbe(p, chain)
    case HealthPolled(p, core) =>
      HonestProbe(p, chain) && (core.CoreUp? ==> core.height < |chain| && SeenMtp(Some(core.mtp), chain))
    case ClockRead(p) => HonestProbe(p, chain)
    case _ => true
  }

  /** The state after a step, and what it added to the record of emissions. */
  ghost predicate LockStep(s: State, t: State, chain: Chain)
    requires chain != []
  {
    HonestClock(t.clock, chain) && s.sent <= t.sent && AllSatisfied(t.sent[|s.sent|..], chain)
  }

  lemma {:induction false} FilterDueHonest(cfg: Setup, ids: seq<string>, snap: map<string, Row>, c: Clock, env: Env,
                                           chain: Chain)
    requires forall id | id in ids :: id in snap
    requires ValidChain(chain) && HonestClock(c, chain) && forall id: string :: HonestProbe(env.filterProbe(id), chain)
    ensures HonestClock(FilterDue(cfg, ids, snap, c, env).1, chain)
  {
    if ids != [] {
      CheckLockNeverEarly(cfg.backends, c, snap[ids[0]].nlocktime, env.filterProbe(ids[0]), chain);
      FilterDueHonest(cfg, ids[1..], snap, IsDue(cfg, snap[ids[0]], env.now, c, env.filterProbe(ids[0])).1, env, chain);
    }
  }

  lemma LockStepChain(s: State, t: State, u: State, chain: Chain)
    requires chain != [] && LockStep(s, t, chain) && LockStep(t, u, chain)
    ensures LockStep(s, u, chain)
  {
    var added, later := t.sent[|s.sent|..], u.sent[|t.sent|..];
    assert u.sent[|s.sent|..] == added + later;
  }

  lemma AfterCheckSafe(cfg: Setup, s: State, row: Row, lockOk: bool, reply: Reply, now: int, chain: Chain)
    requires chain != [] && HonestClock(s.clock, chain) && row.id in s.rows
    requires lockOk ==> SatisfiedOn(row.nlocktime, chain)
    ensures LockStep(s, AfterCheck(cfg, s, row, lockOk, reply, now), chain)
  {
  }

  lemma {:induction false} BatchLockSafe(cfg: Setup, due: seq<string>, snap: map<string, Row>, s: State,
                                         results: seq<(string, Reply)>, env: Env, chain: Chain)
    requires Keyed(snap) && snap.Keys == s.rows.Keys && forall id | id in due :: id in snap
    requires ValidChain(chain) && HonestClock(s.clock, chain) && HonestEvent(SchedulerTick(env), chain)
    ensures LockStep(s, Batch(cfg, due, snap, s, results, env).state, chain)
    decreases |due|
  {
    if due != [] && !s.safeMode && !Tampered(cfg.mac, snap[due[0]]) {
      var row := snap[due[0]];
      var (ok, c1) := CheckLock(cfg.backends, s.clock, row.nlocktime, env.sendProbe(row.id));
      CheckLockNeverEarly(cfg.backends, s.clock, row.nlocktime, env.sendProbe(row.id), chain);
      if ok.Some? {
        var s1 := s.(clock := c1);
        var reply := Handover(cfg.backends, c1.health, env.replies(row.id));
        var t := AfterCheck(cfg, s1, row, ok.value, reply, env.now);
        var results' := if ok.value then results + [(row.id, reply)] else results;
        AfterCheckSafe(cfg, s1, row, ok.value, reply, env.now, chain);
        BatchLockSafe(cfg, due[1..], snap, t, results', env, chain);
        LockStepChain(s1, t, Batch(cfg, due[1..], snap, t, results', env).state, chain);
      }
    }
  }

  lemma TickLockSafe(cfg: Setup, s: State, env: Env, chain: Chain)
    requires Keyed(s.rows)
    requires ValidChain(chain) && HonestClock(s.clock, chain) && HonestEvent(SchedulerTick(env), chain)
    ensures LockStep(s, Tick(cfg, s, env).state, chain)
  {
    if !s.safeMode && s.clock.health.ClockAvailable() {
      BeforeBatchKeyed(cfg, s, env);
      var mid := BeforeBatch(cfg, s, env);
      assert mid.sent == s.sent && mid.clock == s.clock;
      if !mid.safeMode {
        var ids := DueCandidates(env.order, mid.rows, cfg.network);
        FilterDueHonest(cfg, ids, mid.rows, mid.clock, env, chain);
        var (due, c1) := FilterDue(cfg, ids, mid.rows, mid.clock, env);
        BatchLockSafe(cfg, due, mid.rows, mid.(clock := c1), [], env, chain);
      }
    }
  }

  lemma OtherStepLockSafe(cfg: Setup, s: State, e: Event, chain: Chain)
    requires Keyed(s.rows) && ValidChain(chain) && HonestClock(s.clock, chain) && HonestEvent(e, chain)
    requires !e.SchedulerTick? && !e.UserBroadcast?
    ensures LockStep(s, Step(cfg, s, e), chain)
  {
  }

  lemma UserBroadcastLockSafe(cfg: Setup, s: State, id: string, now: int, p: Probe, replies: Replies, chain: Chain)
    requires Keyed(s.rows) && ValidChain(chain) && HonestClock(s.clock, chain) && HonestProbe(p, chain)
    ensures LockStep(s, BroadcastNow(cfg, s, id, now, p, replies), chain)
  {
    if id in s.rows {
      CheckLockNeverEarly(cfg.backends, s.clock, s.rows[id].nlocktime, p, chain);
    }
  }

  lemma StepLockSafe(cfg: Setup, s: State, e: Event, chain: Chain)
    requires Keyed(s.rows) && ValidChain(chain) && HonestClock(s.clock, chain) && HonestEvent(e, chain)
    ensures LockStep(s, Step(cfg, s, e), chain)
  {
    match e
    case SchedulerTick(env) => TickLockSafe(cfg, s, env, chain);
    case UserBroadcast(id, now, p, replies) => UserBroadcastLockSafe(cfg, s, id, now, p, replies, chain);
    case _ => OtherStepLockSafe(cfg, s, e, chain);
  }

  /** Chains of a run: valid, and only ever extended. */
  ghost predicate Growing(chains: seq<Chain>) {
    && (forall i | 0 <= i < |chains| :: ValidChain(chains[i]))
    && (forall i, j | 0 <= i <= j < |chains| :: chains[i] <= chains[j])
  }

  ghost predicate HonestRun(tr: seq<Event>, chains: seq<Chain>) {
    |chains| == |tr| && Growing(chains) && forall i | 0 <= i < |tr| :: HonestEvent(tr[i], chains[i])
  }

  lemma SatisfiedOnLonger(es: seq<Emission>, chain: Chain, longer: Chain)
    requires ValidChain(longer) && chain != [] && chain <= longer && AllSatisfied(es, chain)
    ensures AllSatisfied(es, longer)
  {
    forall i | 0 <= i < |es| ensures SatisfiedOn(es[i].nlocktime, longer) {
      SatisfiedStaysSatisfied(es[i].nlocktime, chain, longer);
    }
  }

  lemma OneMoreStep(s: State, t: State, chain: Chain)
    requires chain != [] && LockStep(s, t, chain) && AllSatisfied(s.sent, chain)
    ensures HonestClock(t.clock, chain) && AllSatisfied(t.sent, chain)
  {
    assert t.sent == s.sent + t.sent[|s.sent|..];
  }

  lemma ShorterRun(tr: seq<Event>, chains: seq<Chain>)
    requires HonestRun(tr, chains) && tr != []
    ensures HonestRun(tr[..|tr| - 1], chains[..|tr| - 1])
  {
  }

  lemma {:induction false} RunHonest(cfg: Setup, tr: seq<Event>, chains: seq<Chain>)
    requires HonestRun(tr, chains) && tr != []
    ensures var last := chains[|tr| - 1];
            HonestClock(After(cfg, tr).clock, last) && AllSatisfied(After(cfg, tr).sent, last)
    decreases |tr|
  {
    var n := |tr| - 1;
    var s, last := After(cfg, tr[..n]), chains[n];
    if n > 0 {
      ShorterRun(tr, chains);
      RunHonest(cfg, tr[..n], chains[..n]);
      assert chains[..n][n - 1] == chains[n - 1];
      HonestClockSurvivesGrowth(s.clock, chains[n - 1], last);
      SatisfiedOnLonger(s.sent, chains[n - 1], last);
    }
    StepLockSafe(cfg, s, tr[n], last);
    OneMoreStep(s, After(cfg, tr), last);
  }

  /** Main result: whatever the run, every emission of its last step is satisfied on the chain as
      it stands at that step. Applied to each prefix of a run it covers every emission. */
  lemma LockSafety(cfg: Setup, tr: seq<Event>, e: Event, chains: seq<Chain>)
    requires HonestRun(tr + [e], chains)
    ensures var s, t := After(cfg, tr), After(cfg, tr + [e]);
            s.sent <= t.sent && AllSatisfied(NewlySent(s, t), chains[|tr|])
    ensures AllSatisfied(After(cfg, tr + [e]).sent, chains[|tr|])
  {
    RunHonest(cfg, tr + [e], chains);
    assert (tr + [e])[..|tr|] == tr;
    var s, chain := After(cfg, tr), chains[|tr|];
    if tr != [] {
      assert HonestRun(tr, chains[..|tr|]) by {
        forall i | 0 <= i < |tr| ensures HonestEvent(tr[i], chains[i]) {
          assert (tr + [e])[i] == tr[i];
        }
      }
      RunHonest(cfg, tr, chains[..|tr|]);
      HonestClockSurvivesGrowth(s.clock, chains[|tr| - 1], chain);
    }
    assert (tr + [e])[|tr|] == e;
    StepLockSafe(cfg, s, e, chain);
  }

  /** What consensus asks of the next block, and the only two ways in which an emission can miss it: a time
      lock that equals the median, and the value 500,000,000. */
  lemma EmissionsAreFinal(cfg: Setup, tr: seq<Event>, e: Event, chains: seq<Chain>, k: nat)
    requires HonestRun(tr + [e], chains) && k < |After(cfg, tr + [e]).sent|
    ensures var n, chain := After(cfg, tr + [e]).sent[k].nlocktime, chains[|tr|];
            var height, mtp := |chain| - 1, MtpAt(chain, |chain| - 1);
            FinalForNextBlock(n, height, mtp) || n == LOCKTIME_THRESHOLD || n == mtp
  {
    LockSafety(cfg, tr, e, chains);
    var chain := chains[|tr|];
    LockPredicateVersusConsensus(After(cfg, tr + [e]).sent[k].nlocktime, |chain| - 1, MtpAt(chain, |chain| - 1));
  }

  // ----- The chain may grow while a batch is under way -----

  /** The rows a batch handles, in this order, and the chain at the moment each is handled. */
  ghost predicate GrowingBatch(due: seq<string>, start: Chain, at: string -> Chain, env: Env) {
    && (forall i | 0 <= i < |due| :: start <= at(due[i]) && ValidChain(at(due[i]))
                                     && HonestProbe(env.sendProbe(due[i]), at(due[i])))
    && (forall i, j | 0 <= i < j < |due| :: at(due[i]) <= at(due[j]))
  }

  ghost predicate SatisfiedWhenSent(es: seq<Emission>, at: string -> Chain) {
    forall k | 0 <= k < |es| :: ValidChain(at(es[k].id)) && SatisfiedOn(es[k].nlocktime, at(es[k].id))
  }

  lemma LaterBatch(due: seq<string>, start: Chain, at: string -> Chain, env: Env)
    requires due != [] && GrowingBatch(due, start, at, env)
    ensures GrowingBatch(due[1..], at(due[0]), at, env)
  {
    assert forall i | 0 <= i < |due| - 1 :: due[1..][i] == due[i + 1];
  }

  lemma SentAfterCheck(cfg: Setup, s: State, row: Row, lockOk: bool, reply: Reply, now: int, at: string -> Chain)
    requires row.id in s.rows && ValidChain(at(row.id)) && (lockOk ==> SatisfiedOn(row.nlocktime, at(row.id)))
    ensures var t := AfterCheck(cfg, s, row, lockOk, reply, now);
            t.clock == s.clock && s.sent <= t.sent && SatisfiedWhenSent(t.sent[|s.sent|..], at)
  {
  }

  lemma {:induction false} BatchLockSafeWhileGrowing(cfg: Setup, due: seq<string>, snap: map<string, Row>, s: State,
                                                     results: seq<(string, Reply)>, env: Env,
                                                     start: Chain, at: string -> Chain)
    requires Keyed(snap) && snap.Keys == s.rows.Keys && forall id | id in due :: id in snap
    requires ValidChain(start) && HonestClock(s.clock, start) && GrowingBatch(due, start, at, env)
    ensures var t := Batch(cfg, due, snap, s, results, env).state;
            s.sent <= t.sent && SatisfiedWhenSent(t.sent[|s.sent|..], at)
    decreases |due|
  {
    if due != [] && !s.safeMode && !Tampered(cfg.mac, snap[due[0]]) {
      var row := snap[due[0]];
      var chain, p := at(row.id), env.sendProbe(row.id);
      var (ok, c1) := CheckLock(cfg.backends, s.clock, row.nlocktime, p);
      HonestClockSurvivesGrowth(s.clock, start, chain);
      CheckLockNeverEarly(cfg.backends, s.clock, row.nlocktime, p, chain);
      if ok.Some? {
        var s1 := s.(clock := c1);
        var reply := Handover(cfg.backends, c1.health, env.replies(row.id));
        var t := AfterCheck(cfg, s1, row, ok.value, reply, env.now);
        var results' := if ok.value then results + [(row.id, reply)] else results;
        SentAfterCheck(cfg, s1, row, ok.value, reply, env.now, at);
        LaterBatch(due, start, at, env);
        BatchLockSafeWhileGrowing(cfg, due[1..], snap, t, results', env, chain, at);
        SentInTwoParts(s, t, Batch(cfg, due[1..], snap, t, results', env).state, at);
      }
    }
  }

  lemma SentInTwoParts(s: State, t: State, u: State, at: string -> Chain)
    requires s.sent <= t.sent <= u.sent
    requires SatisfiedWhenSent(t.sent[|s.sent|..], at) && SatisfiedWhenSent(u.sent[|t.sent|..], at)
    ensures SatisfiedWhenSent(u.sent[|s.sent|..], at)
  {
    assert u.sent[|s.sent|..] == t.sent[|s.sent|..] + u.sent[|t.sent|..];
  }

  /** The rows the tick's batch goes through. */
  function TickDue(cfg: Setup, s: State, env: Env): seq<string>
    requires Keyed(s.rows)
  {
    var mid := BeforeBatch(cfg, s, env);
    FilterDue(cfg, DueCandidates(env.order, mid.rows, cfg.network), mid.rows, mid.clock, env).0
  }

  /** Main result within a tick: though the chain grows between two rows, each row sent is satisfied on the
      chain as it stood when that row was sent. */
  lemma LockSafetyDuringATick(cfg: Setup, tr: seq<Event>, env: Env, chains: seq<Chain>, start: Chain,
                              at: string -> Chain)
    requires HonestRun(tr, chains) && ValidChain(start) && (tr != [] ==> chains[|tr| - 1] <= start)
    requires forall id: string :: HonestProbe(env.filterProbe(id), start)
    requires GrowingBatch(TickDue(cfg, After(cfg, tr), env), start, at, env)
    ensures var s := After(cfg, tr);
            SatisfiedWhenSent(NewlySent(s, Tick(cfg, s, env).state), at)
  {
    var s := After(cfg, tr);
    if tr != [] {
      RunHonest(cfg, tr, chains);
      HonestClockSurvivesGrowth(s.clock, chains[|tr| - 1], start);
    }
    if !s.safeMode && s.clock.health.ClockAvailable() {
      TickLockSafeWhileGrowing(cfg, s, env, start, at);
    }
  }

  lemma TickLockSafeWhileGrowing(cfg: Setup, s: State, env: Env, start: Chain, at: string -> Chain)
    requires Keyed(s.rows) && !s.safeMode && s.clock.health.ClockAvailable()
    requires ValidChain(start) && HonestClock(s.clock, start)
    requires forall id: string :: HonestProbe(env.filterProbe(id), start)
    requires GrowingBatch(TickDue(cfg, s, env), start, at, env)
    ensures var t := Tick(cfg, s, env).state;
            s.sent <= t.sent && SatisfiedWhenSent(t.sent[|s.sent|..], at)
  {
    BeforeBatchKeyed(cfg, s, env);
    var mid := BeforeBatch(cfg, s, env);
    assert mid.sent == s.sent && mid.clock == s.clock;
    if !mid.safeMode {
      var ids := DueCandidates(env.order, mid.rows, cfg.network);
      FilterDueHonest(cfg, ids, mid.rows, mid.clock, env, start);
      var (due, c1) := FilterDue(cfg, ids, mid.rows, mid.clock, env);
      BatchLockSafeWhileGrowing(cfg, due, mid.rows, mid.(clock := c1), [], env, start, at);
    }
  }
}
