/** The other direction of the safety results: while the backends answer steadily and accept, what is
    due does go out. A tick then broadcasts exactly the due rows, and each way of scheduling a row
    releases it exactly when its condition holds. */
module TickOutcome {
  import opened Prelude
  import opened ChainSource
  import opened Rows
  import opened Pool
  import opened BatchFacts
  import opened DaemonSteps
  import opened EmissionSafety

  /** The backend in use accepts what it is handed. */
  ghost predicate Accepts(b: Backends, r: Replies, o: Outside) {
    match o.server
    case ByIndexer => r.indexer.Accepted? || (b.core && r.core.Accepted?)
    case ByCore => b.core && r.core.Accepted?
  }

  ghost predicate SteadyReads(cfg: Setup, env: Env, o: Outside) {
    && (forall id :: SteadyProbe(cfg.backends, env.filterProbe(id), o))
    && (forall id :: SteadyProbe(cfg.backends, env.sendProbe(id), o))
  }

  ghost predicate SteadyEnv(cfg: Setup, env: Env, o: Outside) {
    SteadyReads(cfg, env, o) && forall id :: Accepts(cfg.backends, env.replies(id), o)
  }

  lemma SteadyHandover(b: Backends, c: Clock, p: Probe, r: Replies, o: Outside)
    requires SteadyClock(c, o) && SteadyProbe(b, p, o) && Accepts(b, r, o)
    ensures Handover(b, c.health, r).Accepted?
  {
  }

  predicate DueNow(r: Row, now: int, o: Outside) {
    !(r.trigger == Some("price") && r.status == Pending)
    && LockSatisfied(r.nlocktime, o.height, o.mtp) && ScheduleReached(r, now)
  }

  lemma {:induction false} FilterDueSteady(cfg: Setup, ids: seq<string>, snap: map<string, Row>, c: Clock, env: Env,
                                           o: Outside)
    requires (forall id | id in ids :: id in snap) && SteadyClock(c, o) && SteadyReads(cfg, env, o)
    ensures var r := FilterDue(cfg, ids, snap, c, env);
            SteadyClock(r.1, o) && forall id :: id in r.0 <==> id in ids && DueNow(snap[id], env.now, o)
  {
    if ids != [] {
      var p := env.filterProbe(ids[0]);
      CheckLockSteady(cfg.backends, c, snap[ids[0]].nlocktime, p, o);
      FilterDueSteady(cfg, ids[1..], snap, IsDue(cfg, snap[ids[0]], env.now, c, p).1, env, o);
    }
  }

  lemma {:induction false} ReadsSteady(cfg: Setup, due: seq<string>, snap: map<string, Row>, c: Clock, env: Env,
                                       o: Outside)
    requires (forall id | id in due :: id in snap) && SteadyClock(c, o) && SteadyReads(cfg, env, o)
    ensures var seen := Reads(cfg, due, snap, c, env);
            forall i | 0 <= i < |due| ::
              && seen[i].ok == Some(LockSatisfied(snap[due[i]].nlocktime, o.height, o.mtp))
              && SteadyClock(seen[i].clock, o)
  {
    if due != [] {
      CheckLockSteady(cfg.backends, c, snap[due[0]].nlocktime, env.sendProbe(due[0]), o);
      var c1 := CheckLock(cfg.backends, c, snap[due[0]].nlocktime, env.sendProbe(due[0])).1;
      ReadsSteady(cfg, due[1..], snap, c1, env, o);
    }
  }

  lemma DueMeetNoObstacle(cfg: Setup, due: seq<string>, snap: map<string, Row>, c: Clock, env: Env, o: Outside)
    requires (forall id | id in due :: id in snap && !Tampered(cfg.mac, snap[id]) && DueNow(snap[id], env.now, o))
    requires SteadyClock(c, o) && SteadyEnv(cfg, env, o)
    ensures NothingInTheWay(cfg, due, snap, c, env)
  {
    ReadsSteady(cfg, due, snap, c, env, o);
    var seen := Reads(cfg, due, snap, c, env);
    forall i | 0 <= i < |due|
      ensures !Tampered(cfg.mac, snap[due[i]]) && seen[i].ok == Some(true)
      ensures ReplyTo(cfg, due[i], seen[i], env).Accepted?
    {
      assert due[i] in due;
      SteadyHandover(cfg.backends, seen[i].clock, env.sendProbe(due[i]), env.replies(due[i]), o);
    }
  }

  /** The batch on rows that are all intact. */
  lemma BatchOutcome(cfg: Setup, s: State, env: Env, o: Outside, id: string)
    requires Keyed(s.rows) && Lists(env.order, s.rows) && AllIntact(cfg.mac, s) && id in s.rows
    requires SteadyClock(s.clock, o) && SteadyEnv(cfg, env, o)
    ensures var row, end := s.rows[id], BroadcastDue(cfg, s, env).state;
            && id in end.rows
            && (end.rows[id].status == Broadcast
                <==> row.status == Broadcast
                     || (row.status == Scheduled && row.network == cfg.network && DueNow(row, env.now, o)))
  {
    var candidates := DueCandidates(env.order, s.rows, cfg.network);
    var (due, c1) := FilterDue(cfg, candidates, s.rows, s.clock, env);
    SelectedDue(cfg, s, env);
    FilterDueSteady(cfg, candidates, s.rows, s.clock, env, o);
    CandidatesAre(env.order, s.rows, cfg.network, id);
    DueMeetNoObstacle(cfg, due, s.rows, c1, env, o);
    EveryDueRowEndsBroadcast(cfg, due, s.rows, s.(clock := c1), env);
    NothingStopsTheLoop(cfg, due, s.rows, c1, env);
    BatchRows(cfg, due, s.rows, s.(clock := c1), [], env);
    if id in due {
      var i :| 0 <= i < |due| && due[i] == id;
    }
  }

  lemma CandidatesAre(order: seq<string>, rows: map<string, Row>, network: string, id: string)
    requires Lists(order, rows) && id in rows
    ensures id in DueCandidates(order, rows, network) <==> rows[id].status == Scheduled && rows[id].network == network
  {
  }

  /** There is a chain clock, and losing the indexer would not take it away from Core. */
  ghost predicate CalmClock(c: Clock, o: Outside) {
    c.health.ClockAvailable() && SteadyClock(c, o) && (o.server.ByCore? ==> c.health.coreUp && !c.health.coreIbd)
  }

  ghost predicate Calm(cfg: Setup, s: State, env: Env, o: Outside) {
    && OverCoveredColumns(cfg.mac) && Keyed(s.rows) && Lists(env.order, s.rows) && AllIntact(cfg.mac, s)
    && CalmClock(s.clock, o) && SteadyEnv(cfg, env, o)
  }

  lemma BeforeBatchCalm(cfg: Setup, s: State, env: Env, o: Outside)
    requires Calm(cfg, s, env, o)
    ensures var mid := BeforeBatch(cfg, s, env);
            && Keyed(mid.rows) && mid.rows.Keys == s.rows.Keys && AllIntact(cfg.mac, mid) && mid.clock == s.clock
  {
    BeforeBatchKeyed(cfg, s, env);
    BeforeBatchEvolves(cfg, s, env);
    var mid := BeforeBatch(cfg, s, env);
    forall id | id in mid.rows ensures !Tampered(cfg.mac, mid.rows[id]) {
      assert Evolved(cfg.mac, s.rows[id], mid.rows[id]);
    }
  }

  /** A tick whose batch starts from intact rows, however they came to be intact. */
  lemma TickFromIntactBatch(cfg: Setup, s: State, env: Env, o: Outside, id: string)
    requires Keyed(s.rows) && Lists(env.order, s.rows) && !s.safeMode && id in s.rows
    requires CalmClock(s.clock, o) && SteadyEnv(cfg, env, o) && AllIntact(cfg.mac, BeforeBatch(cfg, s, env))
    ensures id in BeforeBatch(cfg, s, env).rows && id in Tick(cfg, s, env).state.rows
    ensures var row := BeforeBatch(cfg, s, env).rows[id];
            Tick(cfg, s, env).state.rows[id].status == Broadcast
            <==> row.status == Broadcast
                 || (row.status == Scheduled && row.network == cfg.network && DueNow(row, env.now, o))
  {
    BeforeBatchKeyed(cfg, s, env);
    var mid := BeforeBatch(cfg, s, env);
    assert mid.rows.Keys == s.rows.Keys && mid.clock == s.clock;
    BatchOutcome(cfg, mid, env, o, id);
  }

  /** The same from an intact pool. */
  lemma TickFromCalm(cfg: Setup, s: State, env: Env, o: Outside, id: string)
    requires Calm(cfg, s, env, o) && id in s.rows
    ensures id in BeforeBatch(cfg, s, env).rows && id in Tick(cfg, s, env).state.rows
    ensures var row := BeforeBatch(cfg, s, env).rows[id];
            Tick(cfg, s, env).state.rows[id].status == Broadcast
            <==> row.status == Broadcast
                 || (row.status == Scheduled && row.network == cfg.network && DueNow(row, env.now, o))
  {
    BeforeBatchCalm(cfg, s, env, o);
    TickFromIntactBatch(cfg, s, env, o, id);
  }

  lemma UnselectedRowStays(cfg: Setup, ids: seq<string>, s: State, now: int, id: string)
    requires (forall k | k in ids :: k in s.rows) && id in s.rows && id !in ids
    ensures id in MarkPendingDue(cfg, ids, s, now).rows && MarkPendingDue(cfg, ids, s, now).rows[id] == s.rows[id]
  {
  }

  lemma ScheduledRowPassesThrough(cfg: Setup, s: State, env: Env, id: string)
    requires id in s.rows
    requires s.rows[id].status == Scheduled || (s.rows[id].status == Pending && s.rows[id].scheduledTime.None?)
    ensures id in BeforeBatch(cfg, s, env).rows && BeforeBatch(cfg, s, env).rows[id] == s.rows[id]
  {
    var ids := PendingReached(env.order, s.rows, cfg.network, env.now);
    var s1 := MarkPendingDue(cfg, ids, s, env.now);
    assert id !in ids;
    UnselectedRowStays(cfg, ids, s, env.now, id);
    assert id !in FailedRows(env.order, s1.rows, cfg.network);
    assert id in RequeueFailures(cfg, env.order, s1, env.now).rows;
  }

  /** A row that is scheduled, or pending without a time, goes out exactly when it is scheduled and due. */
  lemma TickReleases(cfg: Setup, s: State, env: Env, o: Outside, id: string)
    requires Calm(cfg, s, env, o) && id in s.rows && s.rows[id].network == cfg.network
    requires s.rows[id].status == Scheduled || (s.rows[id].status == Pending && s.rows[id].scheduledTime.None?)
    ensures id in Tick(cfg, s, env).state.rows
    ensures Tick(cfg, s, env).state.rows[id].status == Broadcast
            <==> s.rows[id].status == Scheduled && DueNow(s.rows[id], env.now, o)
  {
    TickFromCalm(cfg, s, env, o, id);
    ScheduledRowPassesThrough(cfg, s, env, id);
  }

  lemma ReplacingARowStaysCalm(cfg: Setup, s: State, id: string, r: Row, env: Env, o: Outside)
    requires Calm(cfg, s, env, o) && id in s.rows && r.id == id && !Tampered(cfg.mac, r)
    ensures Calm(cfg, s.(rows := s.rows[id := r]), env, o)
  {
    assert s.rows[id := r].Keys == s.rows.Keys;
  }

  lemma ReplacingRowsStaysCalm(cfg: Setup, s: State, ids: seq<string>, f: Row -> Row, env: Env, o: Outside)
    requires Calm(cfg, s, env, o)
    requires forall r: Row :: f(r).id == r.id && (f(r) == r || !Tampered(cfg.mac, f(r)))
    ensures Calm(cfg, s.(rows := Updated(s.rows, ids, f)), env, o)
  {
    UpdatedIntact(cfg.mac, s.rows, ids, f);
    assert Updated(s.rows, ids, f).Keys == s.rows.Keys;
  }

  // ----- Each way of scheduling, end to end -----

  lemma ScheduleAtStaysCalm(cfg: Setup, s: State, id: string, at: int, now: int, env: Env, o: Outside)
    requires Calm(cfg, s, env, o) && id in s.rows && ScheduleAtAllowed(s.rows[id], at, now)
    ensures var s1 := ScheduleAt(cfg, s, id, at, now);
            && Calm(cfg, s1, env, o) && id in s1.rows
            && var r := s1.rows[id];
               && r.status == Scheduled && r.network == s.rows[id].network && r.nlocktime == s.rows[id].nlocktime
               && r.scheduledTime == Some(at) && (r.deferUntil.Some? ==> r.deferUntil == Some(at))
  {
    var row := s.rows[id];
    var r := RescheduledRow(cfg.mac, row, at, if IsReschedule(row) then Some(at) else None, now);
    MutatorsReseal(cfg.mac);
    ReplacingARowStaysCalm(cfg, s, id, r, env, o);
  }

  /** A row scheduled for a time goes out in a tick exactly from that time on, its lock being open. */
  lemma ScheduledForATime(cfg: Setup, s: State, id: string, at: int, now: int, env: Env, o: Outside)
    requires Calm(cfg, s, env, o) && id in s.rows && s.rows[id].network == cfg.network
    requires at > now && (s.rows[id].nlocktime > 500_000_000 ==> at >= s.rows[id].nlocktime * 1_000_000_000)
    requires LockSatisfied(s.rows[id].nlocktime, o.height, o.mtp)
    ensures var s1 := ScheduleAt(cfg, s, id, at, now);
            && Keyed(s1.rows) && id in Tick(cfg, s1, env).state.rows
            && (Tick(cfg, s1, env).state.rows[id].status == Broadcast <==> env.now >= at)
  {
    ScheduleAtStaysCalm(cfg, s, id, at, now, env, o);
    TickReleases(cfg, ScheduleAt(cfg, s, id, at, now), env, o, id);
  }

  lemma ScheduleByPriceStaysCalm(cfg: Setup, s: State, id: string, target: int, currency: string, condition: string,
                                 now: int, env: Env, o: Outside)
    requires Calm(cfg, s, env, o) && id in s.rows && PriceScheduleAllowed(s.rows[id], target, currency, condition)
    ensures var s1 := ScheduleByPrice(cfg, s, id, target, currency, condition, now);
            && Calm(cfg, s1, env, o)
            && var r := PriceScheduledRow(cfg.mac, s.rows[id], target, Lower(currency), Lower(condition), now);
               s1.rows == s.rows[id := r]
  {
    MutatorsReseal(cfg.mac);
    var r := PriceScheduledRow(cfg.mac, s.rows[id], target, Lower(currency), Lower(condition), now);
    ReplacingARowStaysCalm(cfg, s, id, r, env, o);
  }

  lemma PriceCheckStaysCalm(cfg: Setup, s: State, order: seq<string>, prices: map<string, int>, at: int, id: string,
                            env: Env, o: Outside)
    requires Calm(cfg, s, env, o) && Lists(order, s.rows) && id in s.rows
    requires s.rows[id].status == Pending && s.rows[id].trigger == Some("price") && s.rows[id].targetPrice.Some?
    requires s.rows[id].network == cfg.network
    ensures var s1 := PriceCheck(cfg, s, order, prices, at);
            Calm(cfg, s1, env, o) && id in s1.rows && s1.rows[id] == FiredRow(cfg.mac, prices, at)(s.rows[id])
  {
    MutatorsReseal(cfg.mac);
    ReplacingRowsStaysCalm(cfg, s, PriceWaiting(order, s.rows, cfg.network), FiredRow(cfg.mac, prices, at), env, o);
    assert id in PriceWaiting(order, s.rows, cfg.network);
  }

  lemma PriceRowAfterCheck(mac: RowMac, row: Row, target: int, currency: string, condition: string, now: int,
                           prices: map<string, int>, checkedAt: int, sentAt: int, o: Outside)
    requires row.nlocktime == 0 && checkedAt <= sentAt
    ensures var r := FiredRow(mac, prices, checkedAt)(PriceScheduledRow(mac, row, target, currency, condition, now));
            var met := currency in prices && PriceConditionMet(prices[currency], target, condition);
            && r.network == row.network
            && (if met then r.status == Scheduled && DueNow(r, sentAt, o)
                else r.status == Pending && r.scheduledTime.None?)
  {
  }

  lemma PriceAccepted(r: Row, target: int, currency: string, condition: string)
    requires target > 0 && Lower(currency) in {"eur", "usd"} && Lower(condition) in {"above", "below"}
    requires (r.status == Pending || r.status == Scheduled) && r.nlocktime == 0
    requires r.mode == Some("manual") || r.mode == Some("imported")
    ensures PriceScheduleAllowed(r, target, currency, condition)
  {
  }

  lemma PriceReached(prices: map<string, int>, currency: string, target: int, condition: string)
    requires currency in prices && condition in {"above", "below"}
    ensures PriceConditionMet(prices[currency], target, condition)
            <==> if condition == "below" then prices[currency] <= target else prices[currency] >= target
  {
  }

  /** A row waiting for a price goes out in the tick after a price check exactly if that check saw a price for
      its currency at or above the target, or at or below it, as the user asked. */
  lemma ScheduledForAPrice(cfg: Setup, s: State, id: string, target: int, currency: string, condition: string, now: int,
                           order: seq<string>, prices: map<string, int>, checkedAt: int, env: Env, o: Outside)
    requires Calm(cfg, s, env, o) && id in s.rows && s.rows[id].network == cfg.network && Lists(order, s.rows)
    requires target > 0 && Lower(currency) in {"eur", "usd"} && Lower(condition) in {"above", "below"}
    requires (s.rows[id].status == Pending || s.rows[id].status == Scheduled) && s.rows[id].nlocktime == 0
    requires (s.rows[id].mode == Some("manual") || s.rows[id].mode == Some("imported")) && checkedAt <= env.now
    ensures var s1 := ScheduleByPrice(cfg, s, id, target, currency, condition, now);
            var s2 := PriceCheck(cfg, s1, order, prices, checkedAt);
            && Keyed(s2.rows) && id in Tick(cfg, s2, env).state.rows
            && (Tick(cfg, s2, env).state.rows[id].status == Broadcast
                <==> Lower(currency) in prices
                     && if Lower(condition) == "below" then prices[Lower(currency)] <= target
                        else prices[Lower(currency)] >= target)
  {
    PriceAccepted(s.rows[id], target, currency, condition);
    PriceScheduleGoesOut(cfg, s, id, target, currency, condition, now, order, prices, checkedAt, env, o);
    if Lower(currency) in prices {
      PriceReached(prices, Lower(currency), target, Lower(condition));
    }
  }

  lemma PriceScheduleGoesOut(cfg: Setup, s: State, id: string, target: int, currency: string, condition: string,
                             now: int, order: seq<string>, prices: map<string, int>, checkedAt: int, env: Env,
                             o: Outside)
    requires Calm(cfg, s, env, o) && id in s.rows && s.rows[id].network == cfg.network && Lists(order, s.rows)
    requires PriceScheduleAllowed(s.rows[id], target, currency, condition) && checkedAt <= env.now
    ensures var s1 := ScheduleByPrice(cfg, s, id, target, currency, condition, now);
            var s2 := PriceCheck(cfg, s1, order, prices, checkedAt);
            && Keyed(s2.rows) && id in Tick(cfg, s2, env).state.rows
            && (Tick(cfg, s2, env).state.rows[id].status == Broadcast
                <==> Lower(currency) in prices && PriceConditionMet(prices[Lower(currency)], target, Lower(condition)))
  {
    var s1 := ScheduleByPrice(cfg, s, id, target, currency, condition, now);
    ScheduleByPriceStaysCalm(cfg, s, id, target, currency, condition, now, env, o);
    assert s1.rows.Keys == s.rows.Keys;
    PriceCheckStaysCalm(cfg, s1, order, prices, checkedAt, id, env, o);
    PriceRowAfterCheck(cfg.mac, s.rows[id], target, Lower(currency), Lower(condition), now,
                       prices, checkedAt, env.now, o);
    TickReleases(cfg, PriceCheck(cfg, s1, order, prices, checkedAt), env, o, id);
  }

  lemma MonitorStaysCalm(cfg: Setup, s: State, order: seq<string>, p: Probe, seenAt: int, id: string, env: Env,
                         o: Outside)
    requires Calm(cfg, s, env, o) && SteadyProbe(cfg.backends, p, o)
    requires id in s.rows && id in PendingByBlock(order, s.rows, cfg.network)
    ensures var s1 := BlockMonitor(cfg, s, order, p, seenAt);
            && Calm(cfg, s1, env, o) && id in s1.rows
            && s1.rows[id] == DueAtHeightRow(cfg.mac, o.height, seenAt)(s.rows[id])
  {
    MutatorsReseal(cfg.mac);
    var (height, c1) := ReadHeight(cfg.backends, s.clock, p);
    assert height == Some(o.height);
    ReplacingRowsStaysCalm(cfg, s.(clock := c1), PendingByBlock(order, s.rows, cfg.network),
                           DueAtHeightRow(cfg.mac, o.height, seenAt), env, o);
  }

  lemma BlockRowAfterMonitor(mac: RowMac, row: Row, seenAt: int, sentAt: int, o: Outside)
    requires row.status == Pending && 0 < row.nlocktime < LOCKTIME_THRESHOLD && row.trigger != Some("price")
    requires row.scheduledTime.None? && row.deferUntil.None? && seenAt <= sentAt
    ensures var r := DueAtHeightRow(mac, o.height, seenAt)(row);
            && r.network == row.network
            && (if row.nlocktime <= o.height then r.status == Scheduled && DueNow(r, sentAt, o)
                else r.status == Pending && r.scheduledTime.None?)
  {
  }

  /** A by_block row goes out in the tick after a pass of the height monitor exactly if the chain has
      reached its height. */
  lemma HeldForABlock(cfg: Setup, s: State, id: string, order: seq<string>, p: Probe, seenAt: int, env: Env, o: Outside)
    requires Calm(cfg, s, env, o) && Lists(order, s.rows) && SteadyProbe(cfg.backends, p, o)
    requires id in s.rows && s.rows[id].status == Pending && s.rows[id].mode == Some("by_block")
    requires s.rows[id].network == cfg.network && 0 < s.rows[id].nlocktime < 500_000_000
    requires s.rows[id].trigger != Some("price") && seenAt <= env.now
    requires s.rows[id].scheduledTime.None? && s.rows[id].deferUntil.None?
    ensures var s1 := BlockMonitor(cfg, s, order, p, seenAt);
            && Keyed(s1.rows) && id in Tick(cfg, s1, env).state.rows
            && (Tick(cfg, s1, env).state.rows[id].status == Broadcast <==> s.rows[id].nlocktime <= o.height)
  {
    PendingByBlockRow(order, s.rows, cfg.network, id);
    BlockRowAfterMonitor(cfg.mac, s.rows[id], seenAt, env.now, o);
    MonitorStaysCalm(cfg, s, order, p, seenAt, id, env, o);
    TickReleases(cfg, BlockMonitor(cfg, s, order, p, seenAt), env, o, id);
  }

  lemma PendingByBlockRow(order: seq<string>, rows: map<string, Row>, network: string, id: string)
    requires id in PendingByBlock(order, rows, network)
    ensures id in rows && rows[id].status == Pending && 0 < rows[id].nlocktime < LOCKTIME_THRESHOLD
    ensures rows[id].network == network
  {
  }

  /** A transaction received in the immediate mode goes out in the next tick exactly if its lock is open. */
  lemma ReceivedForImmediateSending(cfg: Setup, s: State, id: string, tx: NewTx, now: int, env: Env, o: Outside)
    requires OverCoveredColumns(cfg.mac) && Keyed(s.rows) && AllIntact(cfg.mac, s) && id !in s.rows
    requires CalmClock(s.clock, o) && SteadyEnv(cfg, env, o)
    requires Distinct(env.order) && forall k :: k in env.order <==> k in s.rows || k == id
    requires tx.mode == Some("immediate") && tx.network == cfg.network && now <= env.now
    ensures var s1 := Ingest(cfg, s, id, tx, now);
            && Keyed(s1.rows) && id in Tick(cfg, s1, env).state.rows
            && (Tick(cfg, s1, env).state.rows[id].status == Broadcast
                <==> LockSatisfied(tx.nlocktime.GetOr(0), o.height, o.mtp))
  {
    var s1 := Ingest(cfg, s, id, tx, now);
    ReceivedRow(cfg.mac, id, tx, now, env.now);
    MutatorsReseal(cfg.mac);
    assert s1.rows.Keys == s.rows.Keys + {id};
    assert Calm(cfg, s1, env, o);
    TickReleases(cfg, s1, env, o, id);
  }

  lemma ReceivedRow(mac: RowMac, id: string, tx: NewTx, now: int, sentAt: int)
    requires tx.mode == Some("immediate") && now <= sentAt
    ensures var r := MarkDueRow(mac, InsertedRow(mac, id, tx, now), now);
            && r.id == id && r.status == Scheduled && r.network == tx.network && r.trigger != Some("price")
            && r.nlocktime == tx.nlocktime.GetOr(0) && ScheduleReached(r, sentAt)
  {
  }

  /** A broadcast by the user sends a stored row exactly if it was not sent before and its lock is open. */
  lemma BroadcastOnDemand(cfg: Setup, s: State, id: string, now: int, p: Probe, replies: Replies, o: Outside)
    requires Keyed(s.rows) && AllIntact(cfg.mac, s) && id in s.rows
    requires SteadyClock(s.clock, o) && SteadyProbe(cfg.backends, p, o) && Accepts(cfg.backends, replies, o)
    ensures var row, t := s.rows[id], BroadcastNow(cfg, s, id, now, p, replies);
            var sends := !IsEmitted(row.status) && LockSatisfied(row.nlocktime, o.height, o.mtp);
            && t.sent == s.sent + (if sends then [Emission(id, row.nlocktime, now, true)] else [])
            && (!sends ==> t.rows == s.rows)
            && (sends ==> id in t.rows && t.rows == s.rows[id := t.rows[id]] && t.rows[id].status == Broadcast)
  {
    CheckLockSteady(cfg.backends, s.clock, s.rows[id].nlocktime, p, o);
    SteadyHandover(cfg.backends, CheckLock(cfg.backends, s.clock, s.rows[id].nlocktime, p).1, p, replies, o);
  }

  // ----- What one health poll decides for a tick after it -----

  /** The median of a poll that heard from Core is in the cache, and an indexer it did not hear from is
      left alone. */
  ghost predicate Polled(c: Clock, p: Probe, core: CoreStatus) {
    && core.CoreUp? && c.cache == Some(CachedMtp(p.at, core.mtp))
    && (p.indexerHeight.None? ==> !c.health.ShouldTryIndexer())
  }

  /** The lock as judged by that poll: a time by Core's median then, a height by Core if the indexer was
      silent. */
  predicate PolledLock(b: Backends, n: nat, p: Probe, core: CoreStatus, later: Probe)
    requires core.CoreUp?
  {
    if n > 500_000_000 then core.mtp >= n
    else n > 0 && p.indexerHeight.None? ==> b.core && later.coreHeight.Some? && later.coreHeight.value >= n
  }

  lemma PolledCheck(b: Backends, c: Clock, n: nat, p: Probe, core: CoreStatus, later: Probe)
    requires Polled(c, p, core) && later.at < p.at + 30_000
    ensures Polled(CheckLock(b, c, n, later).1, p, core)
    ensures CheckLock(b, c, n, later).0 == Some(true) ==> PolledLock(b, n, p, core, later)
    ensures n > LOCKTIME_THRESHOLD ==> CheckLock(b, c, n, later) == (Some(core.mtp >= n), c)
  {
  }

  lemma {:induction false} PolledFilter(cfg: Setup, ids: seq<string>, snap: map<string, Row>, c: Clock, env: Env,
                                        p: Probe, core: CoreStatus)
    requires (forall id | id in ids :: id in snap) && Polled(c, p, core)
    requires forall id :: env.filterProbe(id).at < p.at + 30_000
    ensures Polled(FilterDue(cfg, ids, snap, c, env).1, p, core)
  {
    if ids != [] {
      PolledCheck(cfg.backends, c, snap[ids[0]].nlocktime, p, core, env.filterProbe(ids[0]));
      PolledFilter(cfg, ids[1..], snap, IsDue(cfg, snap[ids[0]], env.now, c, env.filterProbe(ids[0])).1, env, p, core);
    }
  }

  /** What the loop adds to the record of emissions, judged by the poll. */
  ghost predicate SentByPoll(b: Backends, es: seq<Emission>, env: Env, p: Probe, core: CoreStatus)
    requires core.CoreUp?
  {
    forall k | 0 <= k < |es| :: PolledLock(b, es[k].nlocktime, p, core, env.sendProbe(es[k].id))
  }

  lemma SentByPollAppends(b: Backends, s: State, t: State, u: State, env: Env, p: Probe, core: CoreStatus)
    requires core.CoreUp? && s.sent <= t.sent <= u.sent
    requires SentByPoll(b, t.sent[|s.sent|..], env, p, core) && SentByPoll(b, u.sent[|t.sent|..], env, p, core)
    ensures SentByPoll(b, u.sent[|s.sent|..], env, p, core)
  {
    assert u.sent[|s.sent|..] == t.sent[|s.sent|..] + u.sent[|t.sent|..];
  }

  lemma PolledTurn(cfg: Setup, s: State, row: Row, ok: bool, reply: Reply, env: Env, p: Probe, core: CoreStatus)
    requires core.CoreUp? && row.id in s.rows
    requires ok ==> PolledLock(cfg.backends, row.nlocktime, p, core, env.sendProbe(row.id))
    ensures var t := AfterCheck(cfg, s, row, ok, reply, env.now);
            t.clock == s.clock && s.sent <= t.sent && SentByPoll(cfg.backends, t.sent[|s.sent|..], env, p, core)
  {
  }

  lemma {:induction false} PolledBatch(cfg: Setup, due: seq<string>, snap: map<string, Row>, s: State,
                                       results: seq<(string, Reply)>, env: Env, p: Probe, core: CoreStatus)
    requires Keyed(snap) && snap.Keys == s.rows.Keys && forall id | id in due :: id in snap
    requires Polled(s.clock, p, core) && forall id :: env.sendProbe(id).at < p.at + 30_000
    ensures var t := Batch(cfg, due, snap, s, results, env).state;
            Polled(t.clock, p, core) && s.sent <= t.sent
            && SentByPoll(cfg.backends, t.sent[|s.sent|..], env, p, core)
    decreases |due|
  {
    if due != [] && !s.safeMode && !Tampered(cfg.mac, snap[due[0]]) {
      var row := snap[due[0]];
      var (ok, c1) := CheckLock(cfg.backends, s.clock, row.nlocktime, env.sendProbe(row.id));
      PolledCheck(cfg.backends, s.clock, row.nlocktime, p, core, env.sendProbe(row.id));
      if ok.Some? {
        var s1, reply := s.(clock := c1), Handover(cfg.backends, c1.health, env.replies(row.id));
        var t := AfterCheck(cfg, s1, row, ok.value, reply, env.now);
        var results' := if ok.value then results + [(row.id, reply)] else results;
        PolledTurn(cfg, s1, row, ok.value, reply, env, p, core);
        PolledBatch(cfg, due[1..], snap, t, results', env, p, core);
        SentByPollAppends(cfg.backends, s1, t, Batch(cfg, due[1..], snap, t, results', env).state, env, p, core);
      }
    }
  }

  /** One health poll that heard from Core governs every read of a tick within 30 s of it, on any pool: a
      time-locked row goes out only if Core's median at the poll had reached its lock, and if the indexer did
      not answer the poll, a height-locked row only if Core itself reports its height. */
  lemma PollGovernsTheTick(cfg: Setup, s: State, p: Probe, core: CoreStatus, env: Env)
    requires Keyed(s.rows) && core.CoreUp?
    requires forall id :: env.filterProbe(id).at < p.at + 30_000 && env.sendProbe(id).at < p.at + 30_000
    ensures var s1 := HealthPoll(s, p, core);
            var t := Tick(cfg, s1, env).state;
            Polled(t.clock, p, core) && s.sent <= t.sent
            && SentByPoll(cfg.backends, t.sent[|s.sent|..], env, p, core)
  {
    var s1 := HealthPoll(s, p, core);
    if !s1.safeMode && s1.clock.health.ClockAvailable() {
      BeforeBatchKeyed(cfg, s1, env);
      var mid := BeforeBatch(cfg, s1, env);
      assert mid.sent == s.sent && mid.clock == s1.clock;
      if !mid.safeMode {
        var ids := DueCandidates(env.order, mid.rows, cfg.network);
        PolledFilter(cfg, ids, mid.rows, mid.clock, env, p, core);
        var (due, c1) := FilterDue(cfg, ids, mid.rows, mid.clock, env);
        PolledBatch(cfg, due, mid.rows, mid.(clock := c1), [], env, p, core);
      }
    }
  }
}
