/** From the arrival of a transaction to its sending: what each branch of the ingest plan means for the ticks
    that follow. */
module Arrivals {
  import opened Prelude
  import opened ChainSource
  import opened Rows
  import opened Pool
  import opened EmissionSafety
  import opened TickOutcome
  import opened RowOutcomes
  import opened CallOutcomes
  import VB = VirtualBlocks

  function ModeText(m: VB.Mode): string {
    match m
    case Immediate => "immediate"
    case Scheduled => "scheduled"
    case ByBlock => "by_block"
    case Manual => "manual"
  }

  /** What `handle_broadcast` imports for a planned transaction, under the configuration at its second lock. */
  function Arrived(vb: VB.Config, plan: VB.Plan, txHex: string, network: string): NewTx {
    var row := VB.RowOf(vb, plan);
    NewTx(txHex, network, row.nlocktime, Some(ModeText(row.mode)), row.at, Some(plan.source), None)
  }

  /** The two configurations an ingest reads, under its two locks, the last known height and the time it drew
      for a random delay. */
  datatype Setting = Setting(plan: VB.Config, finish: VB.Config, height: Option<VB.u64>, delayed: Option<int>)

  function PlanOf(source: string, nlocktime: nat, w: Setting, now: int): VB.Plan {
    var plan := VB.ResolveIngestPlan(source, nlocktime, w.plan, w.height, now, w.delayed);
    VB.Plan(source, nlocktime, plan.0, plan.1)
  }

  /** The pool after the arrival. */
  function Received(cfg: Setup, s: State, id: string, source: string, nlocktime: nat, w: Setting, txHex: string,
                    now: int): State
  {
    Ingest(cfg, s, id, Arrived(w.finish, PlanOf(source, nlocktime, w, now), txHex, cfg.network), now)
  }

  ghost predicate ListsWith(order: seq<string>, rows: map<string, Row>, id: string) {
    Distinct(order) && forall k :: k in order <==> k in rows || k == id
  }

  /** A new id, an intact pool, and a steady outside for the tick to come. */
  ghost predicate Ready(cfg: Setup, s: State, id: string, env: Env, o: Outside) {
    && OverCoveredColumns(cfg.mac) && Keyed(s.rows) && AllIntact(cfg.mac, s) && id !in s.rows
    && CalmClock(s.clock, o) && SteadyEnv(cfg, env, o) && ListsWith(env.order, s.rows, id)
  }

  /** A row that waits as it arrived. */
  ghost predicate Waiting(cfg: Setup, s: State, id: string, nlocktime: nat, mode: string, at: Option<int>) {
    && id in s.rows
    && var r := s.rows[id];
       && r.status == Pending && r.network == cfg.network && r.nlocktime == nlocktime && r.mode == Some(mode)
       && r.scheduledTime == at && r.deferUntil.None? && r.trigger == Some("datetime")
  }

  lemma ArrivesWaiting(cfg: Setup, s: State, id: string, tx: NewTx, now: int, env: Env, o: Outside)
    requires Ready(cfg, s, id, env, o) && tx.network == cfg.network && tx.mode.Some? && tx.mode != Some("immediate")
    ensures var s1 := Ingest(cfg, s, id, tx, now);
            Calm(cfg, s1, env, o) && Waiting(cfg, s1, id, tx.nlocktime.GetOr(0), tx.mode.value, tx.scheduledTime)
  {
    MutatorsReseal(cfg.mac);
    assert Ingest(cfg, s, id, tx, now).rows.Keys == s.rows.Keys + {id};
  }

  lemma ReceivedWaiting(cfg: Setup, s: State, id: string, source: string, nlocktime: nat, w: Setting, txHex: string,
                        now: int, env: Env, o: Outside)
    requires Ready(cfg, s, id, env, o) && PlanOf(source, nlocktime, w, now).mode != VB.Immediate
    ensures var s1, row := Received(cfg, s, id, source, nlocktime, w, txHex, now),
                           VB.RowOf(w.finish, PlanOf(source, nlocktime, w, now));
            Calm(cfg, s1, env, o) && Waiting(cfg, s1, id, row.nlocktime.GetOr(0), ModeText(row.mode), row.at)
  {
    ArrivesWaiting(cfg, s, id, Arrived(w.finish, PlanOf(source, nlocktime, w, now), txHex, cfg.network), now, env, o);
  }

  lemma WaitingRowIsNotFailed(cfg: Setup, s: State, env: Env, id: string, nlocktime: nat, mode: string, at: Option<int>)
    requires Waiting(cfg, s, id, nlocktime, mode, at)
    ensures !TriedAgain(cfg, s, env.order, id)
    ensures ComesDue(cfg, s, env, id) <==> TakenUp(s.rows[id], cfg.network, env.now)
    ensures TakenUp(s.rows[id], cfg.network, env.now)
            <==> mode in {"scheduled", "manual", "imported"} && at.Some? && at.value <= env.now
  {
  }

  /** One that waits for a time goes out exactly from then on, its lock being open. */
  lemma WaitingForATime(cfg: Setup, s: State, id: string, nlocktime: nat, at: int, env: Env, o: Outside)
    requires Calm(cfg, s, env, o) && Waiting(cfg, s, id, nlocktime, "scheduled", Some(at))
    ensures id in Tick(cfg, s, env).state.rows
    ensures Tick(cfg, s, env).state.rows[id].status == Broadcast
            <==> at <= env.now && LockSatisfied(nlocktime, o.height, o.mtp)
  {
    TickBroadcastsExactlyTheDue(cfg, s, env, o, id);
    WaitingRowIsNotFailed(cfg, s, env, id, nlocktime, "scheduled", Some(at));
  }

  /** One without a time is left alone by every tick. */
  lemma WaitingForTheUser(cfg: Setup, s: State, id: string, nlocktime: nat, mode: string, env: Env, o: Outside)
    requires Calm(cfg, s, env, o) && Waiting(cfg, s, id, nlocktime, mode, None)
    ensures id in Tick(cfg, s, env).state.rows && Tick(cfg, s, env).state.rows[id] == s.rows[id]
  {
    WaitingRowIsNotFailed(cfg, s, env, id, nlocktime, mode, None);
    TickLeavesTheRest(cfg, s, env, o, id);
  }

  // ----- The branches of the plan -----

  /** A time lock: the row goes out once the wall clock and the median have both reached it. */
  lemma TimeLockedArrival(cfg: Setup, s: State, id: string, source: string, nlocktime: nat, w: Setting, txHex: string,
                          now: int, env: Env, o: Outside)
    requires Ready(cfg, s, id, env, o) && source != "liana" && nlocktime > 500_000_000
    ensures var s1 := Received(cfg, s, id, source, nlocktime, w, txHex, now);
            && Keyed(s1.rows) && id in Tick(cfg, s1, env).state.rows
            && (Tick(cfg, s1, env).state.rows[id].status == Broadcast
                <==> nlocktime * 1_000_000_000 <= env.now && nlocktime <= o.mtp)
  {
    ReceivedWaiting(cfg, s, id, source, nlocktime, w, txHex, now, env, o);
    WaitingForATime(cfg, Received(cfg, s, id, source, nlocktime, w, txHex, now), id, nlocktime,
                    nlocktime * 1_000_000_000, env, o);
  }

  /** A block height that the chain, as far as known, has not reached: the row goes out after a pass of the
      height monitor that sees it reached. */
  lemma HeightLockedArrival(cfg: Setup, s: State, id: string, source: string, nlocktime: nat, w: Setting,
                            txHex: string, now: int, order: seq<string>, p: Probe, seenAt: int, env: Env, o: Outside)
    requires Ready(cfg, s, id, env, o) && source != "liana" && 0 < nlocktime < 500_000_000
    requires w.height.None? || w.height.value < nlocktime
    requires ListsWith(order, s.rows, id) && SteadyProbe(cfg.backends, p, o) && seenAt <= env.now
    ensures var s2 := BlockMonitor(cfg, Received(cfg, s, id, source, nlocktime, w, txHex, now), order, p, seenAt);
            && Keyed(s2.rows) && id in Tick(cfg, s2, env).state.rows
            && (Tick(cfg, s2, env).state.rows[id].status == Broadcast <==> nlocktime <= o.height)
  {
    ReceivedWaiting(cfg, s, id, source, nlocktime, w, txHex, now, env, o);
    HeldForABlock(cfg, Received(cfg, s, id, source, nlocktime, w, txHex, now), id, order, p, seenAt, env, o);
  }

  /** A transaction that may go out on arrival: its block height is reached, as far as known, or it has no usable
      lock, does not come from Sparrow without any, and the configured mode is the immediate one. It goes out in
      the next tick, unless its lock is exactly 500,000,000, which the plan takes for no lock and the pool for
      a height. */
  lemma ImmediateArrivalGoesOut(cfg: Setup, s: State, id: string, source: string, nlocktime: nat, w: Setting,
                                txHex: string, now: int, env: Env, o: Outside)
    requires Ready(cfg, s, id, env, o) && source != "liana" && now <= env.now
    requires w.height.Some? ==> w.height.value <= o.height
    requires if nlocktime == 0 || nlocktime == 500_000_000
             then w.plan.mode == VB.Immediate && !(source == "sparrow" && nlocktime == 0)
             else w.height.Some? && nlocktime <= w.height.value && nlocktime < 500_000_000
    ensures var s1 := Received(cfg, s, id, source, nlocktime, w, txHex, now);
            && Keyed(s1.rows) && id in Tick(cfg, s1, env).state.rows
            && (Tick(cfg, s1, env).state.rows[id].status == Broadcast
                <==> nlocktime != 500_000_000 || o.height >= 500_000_000)
  {
    var tx := Arrived(w.finish, PlanOf(source, nlocktime, w, now), txHex, cfg.network);
    ImmediatePlan(source, nlocktime, w, now);
    ArrivedImmediate(w.finish, PlanOf(source, nlocktime, w, now), txHex, cfg.network);
    ReceivedForImmediateSending(cfg, s, id, tx, now, env, o);
  }

  lemma ImmediatePlan(source: string, nlocktime: nat, w: Setting, now: int)
    requires source != "liana"
    requires if nlocktime == 0 || nlocktime == 500_000_000
             then w.plan.mode == VB.Immediate && !(source == "sparrow" && nlocktime == 0)
             else w.height.Some? && nlocktime <= w.height.value && nlocktime < 500_000_000
    ensures PlanOf(source, nlocktime, w, now).mode == VB.Immediate
  {
  }

  lemma ArrivedImmediate(vb: VB.Config, plan: VB.Plan, txHex: string, network: string)
    requires plan.mode == VB.Immediate
    ensures var tx := Arrived(vb, plan, txHex, network);
            tx.mode == Some("immediate") && tx.network == network && tx.nlocktime.GetOr(0) == plan.nlocktime
  {
  }

  /** No usable lock and a configured time, or a drawn delay where none is configured: the row goes out from
      that time on. */
  lemma ScheduledArrival(cfg: Setup, s: State, id: string, source: string, nlocktime: nat, w: Setting, txHex: string,
                         now: int, env: Env, o: Outside)
    requires Ready(cfg, s, id, env, o) && source != "liana" && (nlocktime == 0 || nlocktime == 500_000_000)
    requires w.plan.mode == VB.Scheduled && !(source == "sparrow" && nlocktime == 0)
    requires w.plan.fixedTime.Some? || w.delayed.Some?
    ensures var s1 := Received(cfg, s, id, source, nlocktime, w, txHex, now);
            var at := if w.plan.fixedTime.Some? then w.plan.fixedTime.value else w.delayed.value;
            && Keyed(s1.rows) && id in Tick(cfg, s1, env).state.rows
            && (Tick(cfg, s1, env).state.rows[id].status == Broadcast
                <==> at <= env.now && (nlocktime == 500_000_000 ==> o.height >= 500_000_000))
  {
    var at := if w.plan.fixedTime.Some? then w.plan.fixedTime.value else w.delayed.value;
    ReceivedWaiting(cfg, s, id, source, nlocktime, w, txHex, now, env, o);
    WaitingForATime(cfg, Received(cfg, s, id, source, nlocktime, w, txHex, now), id, nlocktime, at, env, o);
  }

  /** Left for the user to schedule: from Sparrow without a lock, from Liana with the virtual block disarmed, or
      without a usable lock in a configured mode that names no time. No tick touches such a row and no pass of
      the height monitor; and it takes a price to wait for, unless the configured mode is the by-block one. */
  lemma ArrivalLeftToTheUser(cfg: Setup, s: State, id: string, source: string, nlocktime: nat, w: Setting,
                             txHex: string, now: int, env: Env, o: Outside, order: seq<string>, p: Probe, seenAt: int)
    requires Ready(cfg, s, id, env, o) && ListsWith(order, s.rows, id)
    requires || (source == "sparrow" && nlocktime == 0)
             || (source == "liana" && !w.plan.enabled)
             || (source != "liana" && (nlocktime == 0 || nlocktime == 500_000_000)
                 && (w.plan.mode == VB.Manual || w.plan.mode == VB.ByBlock))
    ensures var s1 := Received(cfg, s, id, source, nlocktime, w, txHex, now);
            && Keyed(s1.rows) && id in s1.rows && s1.rows[id].status == Pending
            && id in Tick(cfg, s1, env).state.rows && Tick(cfg, s1, env).state.rows[id] == s1.rows[id]
            && id in BlockMonitor(cfg, s1, order, p, seenAt).rows
            && BlockMonitor(cfg, s1, order, p, seenAt).rows[id] == s1.rows[id]
            && (s1.rows[id].mode == Some("manual")
                <==> source == "liana" || (source == "sparrow" && nlocktime == 0) || w.plan.mode == VB.Manual)
  {
    ReceivedWaiting(cfg, s, id, source, nlocktime, w, txHex, now, env, o);
    var s1, row := Received(cfg, s, id, source, nlocktime, w, txHex, now),
                   VB.RowOf(w.finish, PlanOf(source, nlocktime, w, now));
    MonitorTakesExactly(cfg, s1, order, p, seenAt, id);
    WaitingForTheUser(cfg, s1, id, row.nlocktime.GetOr(0), ModeText(row.mode), env, o);
  }

  /** From Liana with the virtual block armed all along: whatever its own lock, the row goes out after a pass of
      the height monitor that sees the captured height reached. */
  lemma LianaArrival(cfg: Setup, s: State, id: string, nlocktime: nat, w: Setting, txHex: string, now: int,
                     order: seq<string>, p: Probe, seenAt: int, env: Env, o: Outside)
    requires Ready(cfg, s, id, env, o) && w.plan.enabled && w.finish.enabled && 0 < w.finish.target < 500_000_000
    requires ListsWith(order, s.rows, id) && SteadyProbe(cfg.backends, p, o) && seenAt <= env.now
    ensures var s2 := BlockMonitor(cfg, Received(cfg, s, id, "liana", nlocktime, w, txHex, now), order, p, seenAt);
            && Keyed(s2.rows) && id in Tick(cfg, s2, env).state.rows
            && (Tick(cfg, s2, env).state.rows[id].status == Broadcast <==> w.finish.target <= o.height)
  {
    ReceivedWaiting(cfg, s, id, "liana", nlocktime, w, txHex, now, env, o);
    HeldForABlock(cfg, Received(cfg, s, id, "liana", nlocktime, w, txHex, now), id, order, p, seenAt, env, o);
  }
}
