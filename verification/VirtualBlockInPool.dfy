/** Where the Liana virtual block meets the pool: the lock checks of a tick write the height that arming and
    disarming look at. */
module VirtualBlockInPool {
  import opened Prelude
  import opened ChainSource
  import opened Rows
  import opened Pool
  import opened PoolRuns
  import VB = VirtualBlocks

  // ----- A tick, seen from the virtual block -----

  /** The indexer's answer to one lock check, as a step of the virtual block's world. */
  function CheckReads(b: Backends, c: Clock, n: nat, p: Probe): seq<VB.Event>
    requires p.indexerHeight.Some? ==> p.indexerHeight.value <= VB.U64_MAX
  {
    if 0 < n <= LOCKTIME_THRESHOLD && b.indexer && c.health.ShouldTryIndexer() && p.indexerHeight.Some?
    then [VB.HeightRead(p.indexerHeight.value)] else []
  }

  /** Heights are 64-bit numbers. */
  ghost predicate Heights64(probe: string -> Probe) {
    forall id :: probe(id).indexerHeight.Some? ==> probe(id).indexerHeight.value <= VB.U64_MAX
  }

  ghost function FilterReads(cfg: Setup, ids: seq<string>, snap: map<string, Row>, c: Clock, env: Env): seq<VB.Event>
    requires (forall id | id in ids :: id in snap) && Heights64(env.filterProbe)
  {
    if ids == [] then []
    else
      var row, p := snap[ids[0]], env.filterProbe(ids[0]);
      (if row.trigger == Some("price") && row.status == Pending then []
       else CheckReads(cfg.backends, c, row.nlocktime, p))
      + FilterReads(cfg, ids[1..], snap, IsDue(cfg, row, env.now, c, p).1, env)
  }

  ghost function BatchHeightReads(cfg: Setup, due: seq<string>, snap: map<string, Row>, s: State, env: Env)
    : seq<VB.Event>
    requires Keyed(snap) && snap.Keys == s.rows.Keys && forall id | id in due :: id in snap
    requires Heights64(env.sendProbe)
    decreases |due|
  {
    if due == [] || s.safeMode || Tampered(cfg.mac, snap[due[0]]) then []
    else
      var row, p := snap[due[0]], env.sendProbe(due[0]);
      var (ok, c1) := CheckLock(cfg.backends, s.clock, row.nlocktime, p);
      CheckReads(cfg.backends, s.clock, row.nlocktime, p)
      + if ok.None? then []
        else
          var reply := Handover(cfg.backends, c1.health, env.replies(row.id));
          BatchHeightReads(cfg, due[1..], snap, AfterCheck(cfg, s.(clock := c1), row, ok.value, reply, env.now), env)
  }

  /** Every height a tick reads from the indexer, in order. */
  ghost function TickReads(cfg: Setup, s: State, env: Env): seq<VB.Event>
    requires Keyed(s.rows) && Heights64(env.filterProbe) && Heights64(env.sendProbe)
  {
    if s.safeMode || !s.clock.health.ClockAvailable() || BeforeBatch(cfg, s, env).safeMode then []
    else
      BeforeBatchKeyed(cfg, s, env);
      var mid := BeforeBatch(cfg, s, env);
      var ids := DueCandidates(env.order, mid.rows, cfg.network);
      var (due, c1) := FilterDue(cfg, ids, mid.rows, mid.clock, env);
      FilterReads(cfg, ids, mid.rows, mid.clock, env)
      + BatchHeightReads(cfg, due, mid.rows, mid.(clock := c1), env)
  }

  /** The two models share the last known height. */
  ghost predicate SameHeight(w: VB.World, c: Clock) {
    w.height == c.health.height
  }

  /** `es` takes `w` to the world that differs in the height alone, which is that of `c`. */
  ghost predicate Reaches(w: VB.World, es: seq<VB.Event>, c: Clock) {
    && SameHeight(VB.After(w, es), c) && VB.After(w, es).cfg == w.cfg
    && VB.After(w, es).planned == w.planned && VB.After(w, es).rows == w.rows
  }

  lemma {:induction false} AfterAppend(w: VB.World, a: seq<VB.Event>, b: seq<VB.Event>)
    ensures VB.After(w, a + b) == VB.After(VB.After(w, a), b)
    decreases |a|
  {
    if a == [] {
      assert a + b == b;
    } else {
      assert (a + b)[1..] == a[1..] + b;
      AfterAppend(VB.Step(w, a[0]), a[1..], b);
    }
  }

  lemma ReachesChain(w: VB.World, a: seq<VB.Event>, b: seq<VB.Event>, c1: Clock, c2: Clock)
    requires Reaches(w, a, c1) && Reaches(VB.After(w, a), b, c2)
    ensures Reaches(w, a + b, c2)
  {
    AfterAppend(w, a, b);
  }

  lemma CheckReaches(w: VB.World, b: Backends, c: Clock, n: nat, p: Probe)
    requires SameHeight(w, c) && (p.indexerHeight.Some? ==> p.indexerHeight.value <= VB.U64_MAX)
    ensures Reaches(w, CheckReads(b, c, n, p), CheckLock(b, c, n, p).1)
  {
    var es := CheckReads(b, c, n, p);
    if es != [] {
      assert VB.After(w, es) == VB.After(VB.Step(w, es[0]), es[1..]) && es[1..] == [];
    }
  }

  lemma {:induction false} FilterReaches(w: VB.World, cfg: Setup, ids: seq<string>, snap: map<string, Row>, c: Clock,
                                         env: Env)
    requires (forall id | id in ids :: id in snap) && Heights64(env.filterProbe) && SameHeight(w, c)
    ensures Reaches(w, FilterReads(cfg, ids, snap, c, env), FilterDue(cfg, ids, snap, c, env).1)
    decreases |ids|
  {
    if ids != [] {
      var row, p := snap[ids[0]], env.filterProbe(ids[0]);
      var c1 := IsDue(cfg, row, env.now, c, p).1;
      var first := if row.trigger == Some("price") && row.status == Pending then []
                   else CheckReads(cfg.backends, c, row.nlocktime, p);
      CheckReaches(w, cfg.backends, c, row.nlocktime, p);
      assert Reaches(w, first, c1);
      FilterReaches(VB.After(w, first), cfg, ids[1..], snap, c1, env);
      ReachesChain(w, first, FilterReads(cfg, ids[1..], snap, c1, env), c1, FilterDue(cfg, ids, snap, c, env).1);
    }
  }

  lemma {:induction false} BatchReaches(w: VB.World, cfg: Setup, due: seq<string>, snap: map<string, Row>, s: State,
                                        results: seq<(string, Reply)>, env: Env)
    requires Keyed(snap) && snap.Keys == s.rows.Keys && forall id | id in due :: id in snap
    requires Heights64(env.sendProbe)
    requires SameHeight(w, s.clock)
    ensures Reaches(w, BatchHeightReads(cfg, due, snap, s, env), Batch(cfg, due, snap, s, results, env).state.clock)
    decreases |due|
  {
    if due != [] && !s.safeMode && !Tampered(cfg.mac, snap[due[0]]) {
      var row, p := snap[due[0]], env.sendProbe(due[0]);
      var (ok, c1) := CheckLock(cfg.backends, s.clock, row.nlocktime, p);
      var first := CheckReads(cfg.backends, s.clock, row.nlocktime, p);
      CheckReaches(w, cfg.backends, s.clock, row.nlocktime, p);
      if ok.Some? {
        var reply := Handover(cfg.backends, c1.health, env.replies(row.id));
        var t := AfterCheck(cfg, s.(clock := c1), row, ok.value, reply, env.now);
        var results' := if ok.value then results + [(row.id, reply)] else results;
        BatchReaches(VB.After(w, first), cfg, due[1..], snap, t, results', env);
        ReachesChain(w, first, BatchHeightReads(cfg, due[1..], snap, t, env), c1,
                     Batch(cfg, due[1..], snap, t, results', env).state.clock);
      } else {
        assert first + [] == first;
      }
    }
  }

  /** For the virtual block a tick is the sequence of the heights it reads: it arms, disarms and captures
      nothing, and leaves the height of the last of these reads. */
  lemma TickIsHeightReads(w: VB.World, cfg: Setup, s: State, env: Env)
    requires Keyed(s.rows) && Heights64(env.filterProbe) && Heights64(env.sendProbe) && SameHeight(w, s.clock)
    ensures Reaches(w, TickReads(cfg, s, env), Tick(cfg, s, env).state.clock)
  {
    if !s.safeMode && s.clock.health.ClockAvailable() {
      BeforeBatchKeyed(cfg, s, env);
      var mid := BeforeBatch(cfg, s, env);
      assert mid.clock == s.clock;
      if !mid.safeMode {
        var ids := DueCandidates(env.order, mid.rows, cfg.network);
        FilterReaches(w, cfg, ids, mid.rows, mid.clock, env);
        var (due, c1) := FilterDue(cfg, ids, mid.rows, mid.clock, env);
        var first := FilterReads(cfg, ids, mid.rows, mid.clock, env);
        BatchReaches(VB.After(w, first), cfg, due, mid.rows, mid.(clock := c1), [], env);
        ReachesChain(w, first, BatchHeightReads(cfg, due, mid.rows, mid.(clock := c1), env), c1,
                     Tick(cfg, s, env).state.clock);
      }
    }
  }

  ghost predicate OnlyReads(es: seq<VB.Event>) {
    forall i | 0 <= i < |es| :: es[i].HeightRead?
  }

  lemma {:induction false} FilterOnlyReads(cfg: Setup, ids: seq<string>, snap: map<string, Row>, c: Clock, env: Env)
    requires (forall id | id in ids :: id in snap) && Heights64(env.filterProbe)
    ensures OnlyReads(FilterReads(cfg, ids, snap, c, env))
  {
    if ids != [] {
      var c1 := IsDue(cfg, snap[ids[0]], env.now, c, env.filterProbe(ids[0])).1;
      FilterOnlyReads(cfg, ids[1..], snap, c1, env);
    }
  }

  lemma {:induction false} BatchOnlyReads(cfg: Setup, due: seq<string>, snap: map<string, Row>, s: State, env: Env)
    requires Keyed(snap) && snap.Keys == s.rows.Keys && forall id | id in due :: id in snap
    requires Heights64(env.sendProbe)
    ensures OnlyReads(BatchHeightReads(cfg, due, snap, s, env))
    decreases |due|
  {
    if due != [] && !s.safeMode && !Tampered(cfg.mac, snap[due[0]]) {
      var row, p := snap[due[0]], env.sendProbe(due[0]);
      var (ok, c1) := CheckLock(cfg.backends, s.clock, row.nlocktime, p);
      if ok.Some? {
        var reply := Handover(cfg.backends, c1.health, env.replies(row.id));
        BatchOnlyReads(cfg, due[1..], snap, AfterCheck(cfg, s.(clock := c1), row, ok.value, reply, env.now), env);
      }
    }
  }

  lemma TickOnlyReads(cfg: Setup, s: State, env: Env)
    requires Keyed(s.rows) && Heights64(env.filterProbe) && Heights64(env.sendProbe)
    ensures OnlyReads(TickReads(cfg, s, env))
  {
    if !s.safeMode && s.clock.health.ClockAvailable() {
      BeforeBatchKeyed(cfg, s, env);
      var mid := BeforeBatch(cfg, s, env);
      if !mid.safeMode {
        var ids := DueCandidates(env.order, mid.rows, cfg.network);
        FilterOnlyReads(cfg, ids, mid.rows, mid.clock, env);
        var (due, c1) := FilterDue(cfg, ids, mid.rows, mid.clock, env);
        BatchOnlyReads(cfg, due, mid.rows, mid.(clock := c1), env);
      }
    }
  }

  lemma {:induction false} ReadsKeepConfig(w: VB.World, es: seq<VB.Event>)
    requires OnlyReads(es)
    ensures VB.After(w, es).cfg == w.cfg
    decreases |es|
  {
    if es != [] {
      assert es[0].HeightRead? && forall i | 0 <= i < |es[1..]| :: es[1..][i] == es[i + 1];
      ReadsKeepConfig(VB.Step(w, es[0]), es[1..]);
    }
  }

  ghost predicate ReadsBelow(es: seq<VB.Event>, height: nat) {
    forall i | 0 <= i < |es| :: es[i].HeightRead? ==> es[i].h < height
  }

  lemma NoReadPastExactly(w: VB.World, es: seq<VB.Event>)
    requires OnlyReads(es)
    ensures VB.NeverReadsPast(w, es) <==> w.cfg.enabled ==> ReadsBelow(es, w.cfg.armedAt + 10)
  {
    forall i | 0 <= i < |es|
      ensures VB.ReadsPastWindow(VB.After(w, es[..i]), es[i]) <==> w.cfg.enabled && es[i].h >= w.cfg.armedAt + 10
    {
      assert OnlyReads(es[..i]);
      ReadsKeepConfig(w, es[..i]);
    }
  }

  /** A poll followed by a tick: the arming keeps its bound at every moment of the tick exactly if no height
      the tick reads is ten or more blocks past it; nothing in the tick disarms. */
  lemma TickAfterPollInWindow(w: VB.World, cfg: Setup, s: State, p: Probe, core: CoreStatus, env: Env)
    requires Keyed(s.rows) && Heights64(env.filterProbe) && Heights64(env.sendProbe)
    requires p.indexerHeight.Some? ==> p.indexerHeight.value <= VB.U64_MAX
    requires core.CoreUp? ==> core.height <= VB.U64_MAX
    ensures var s1 := HealthPoll(s, p, core);
            var w1 := VB.Step(w, VB.HealthPoll(s1.clock.health.height));
            var es := TickReads(cfg, s1, env);
            && Reaches(w1, es, Tick(cfg, s1, env).state.clock) && OnlyReads(es)
            && (VB.AlwaysInWindow(w1, es)
                <==> w1.cfg.enabled ==> ReadsBelow(es, w1.cfg.armedAt + 10))
  {
    var s1 := HealthPoll(s, p, core);
    var w1 := VB.Step(w, VB.HealthPoll(s1.clock.health.height));
    var es := TickReads(cfg, s1, env);
    TickIsHeightReads(w1, cfg, s1, env);
    TickOnlyReads(cfg, s1, env);
    VB.ArmedWindowHolds(w, s1.clock.health.height, es);
    NoReadPastExactly(w1, es);
  }
}
