/** No tick sends a row before its latest schedule allows, over whole runs. */
module ScheduleSafety {
  import opened Prelude
  import opened ChainSource
  import opened Rows
  import opened Pool
  import opened PoolRuns
  import opened DaemonSteps

  /** The latest accepted schedule of a row, kept from the calls alone. */
  datatype Schedule =
    | AtTime(time: int)
    | PriceWait(target: int, currency: string, condition: string)
    | PriceSeen      // the condition has held at a price check since it was set

  type History = map<string, Schedule>

  predicate SeenBy(w: Schedule, prices: map<string, int>) {
    && w.PriceWait? && w.currency in prices
    && if w.condition == "below" then prices[w.currency] <= w.target else prices[w.currency] >= w.target
  }

  /** A drawn delay is stored beside an older deferral or price trigger, which then still decide. */
  predicate TakesDelay(r: Row) {
    r.deferUntil.None? && r.trigger == Some("datetime")
  }

  function Record(s: State, h: History, e: Event): History {
    match e
    case UserScheduleAt(id, at, now) =>
      if id in s.rows && ScheduleAtAllowed(s.rows[id], at, now) then h[id := AtTime(at)] else h
    case UserSchedulePrice(id, target, currency, condition, _) =>
      if id in s.rows && PriceScheduleAllowed(s.rows[id], target, currency, condition)
      then h[id := PriceWait(target, Lower(currency), Lower(condition))] else h
    case PriceMonitor(_, prices, _) =>
      map id | id in h :: if SeenBy(h[id], prices) then PriceSeen else h[id]
    case UserScheduleDelayed(id, at, _) =>
      if id !in s.rows then h
      else if TakesDelay(s.rows[id]) then h[id := AtTime(at)]
      else h - {id}
    case NewTransaction(id, _, _) => h - {id}
    case Imported(id, _, _) => h - {id}
    case UserRemove(id) => h - {id}
    case _ => h
  }

  function HistoryAfter(cfg: Setup, tr: seq<Event>): History {
    if tr == [] then map[]
    else Record(After(cfg, tr[..|tr| - 1]), HistoryAfter(cfg, tr[..|tr| - 1]), tr[|tr| - 1])
  }

  /** The columns that make the scheduler honour a schedule. */
  predicate Honours(r: Row, w: Schedule) {
    match w
    case AtTime(t) =>
      && r.status != Pending && r.trigger == Some("datetime") && r.scheduledTime == Some(t)
      && (r.deferUntil.None? || r.deferUntil == Some(t))
    case PriceWait(target, currency, condition) =>
      || IsEmitted(r.status)
      || (&& r.status == Pending && r.trigger == Some("price") && IsUserScheduledMode(r.mode)
          && r.scheduledTime.None? && r.targetPrice == Some(target)
          && r.priceCurrency == Some(currency) && r.priceCondition == Some(condition))
    case PriceSeen => true
  }

  ghost predicate AllHonoured(rows: map<string, Row>, h: History) {
    forall id | id in h && id in rows :: Honours(rows[id], h[id])
  }

  lemma EvolvedHonours(mac: RowMac, a: Row, b: Row, w: Schedule)
    requires Evolved(mac, a, b) && Honours(a, w)
    ensures Honours(b, w)
  {
  }

  lemma RowsEvolvedHonour(mac: RowMac, rows: map<string, Row>, rows': map<string, Row>, h: History)
    requires RowsEvolved(mac, rows, rows') && AllHonoured(rows, h)
    ensures AllHonoured(rows', h)
  {
    forall id | id in h && id in rows' ensures Honours(rows'[id], h[id]) {
      EvolvedHonours(mac, rows[id], rows'[id], h[id]);
    }
  }

  lemma PriceCheckHonours(cfg: Setup, s: State, h: History, order: seq<string>, prices: map<string, int>, now: int)
    requires AllHonoured(s.rows, h)
    ensures AllHonoured(PriceCheck(cfg, s, order, prices, now).rows, Record(s, h, PriceMonitor(order, prices, now)))
  {
    var ids := PriceWaiting(order, s.rows, cfg.network);
    var rows', h' := PriceCheck(cfg, s, order, prices, now).rows, Record(s, h, PriceMonitor(order, prices, now));
    forall id | id in h' && id in rows' ensures Honours(rows'[id], h'[id]) {
      assert Honours(s.rows[id], h[id]);
      if id in ids {
        assert s.rows[id].trigger == Some("price") && !IsEmitted(s.rows[id].status);
      }
    }
  }

  lemma ConfirmHonours(cfg: Setup, s: State, h: History, order: seq<string>, mined: string -> Option<nat>, now: int)
    requires AllHonoured(s.rows, h)
    ensures AllHonoured(Confirm(cfg, s, order, mined, now).rows, h)
  {
    var ids := BroadcastRows(order, s.rows, cfg.network);
    var rows' := Confirm(cfg, s, order, mined, now).rows;
    forall id | id in h && id in rows' ensures Honours(rows'[id], h[id]) {
      assert Honours(s.rows[id], h[id]);
      if id in ids {
        assert s.rows[id].status == Broadcast;
      }
    }
  }

  lemma StepHonours(cfg: Setup, s: State, h: History, e: Event)
    requires OverCoveredColumns(cfg.mac) && Keyed(s.rows) && WellFormed(e) && !e.OutOfBand?
    requires AllHonoured(s.rows, h)
    ensures AllHonoured(Step(cfg, s, e).rows, Record(s, h, e))
  {
    match e
    case SchedulerTick(env) =>
      TickEvolves(cfg, s, env);
      RowsEvolvedHonour(cfg.mac, s.rows, Tick(cfg, s, env).state.rows, h);
    case HeightMonitor(order, p, now) =>
      MonitorEvolves(cfg, s, order, p, now);
      RowsEvolvedHonour(cfg.mac, s.rows, BlockMonitor(cfg, s, order, p, now).rows, h);
    case PriceMonitor(order, prices, now) => PriceCheckHonours(cfg, s, h, order, prices, now);
    case ConfirmationCheck(order, mined, now) => ConfirmHonours(cfg, s, h, order, mined, now);
    case _ => UserStepHonours(cfg, s, h, e);
  }

  /** A call that rewrites one row, and at most its own entry of the history. */
  lemma OneRowHonours(rows: map<string, Row>, h: History, id: string, r: Row, h': History)
    requires AllHonoured(rows, h) && (id in h' ==> Honours(r, h'[id]))
    requires forall k | k in h' && k != id :: k in h && h'[k] == h[k]
    ensures AllHonoured(rows[id := r], h')
  {
    forall k | k in h' && k in rows[id := r] ensures Honours(rows[id := r][k], h'[k]) {
      if k != id {
        assert Honours(rows[k], h[k]);
      }
    }
  }

  lemma ScheduleCallHonours(cfg: Setup, s: State, h: History, e: Event)
    requires Keyed(s.rows) && AllHonoured(s.rows, h) && (e.UserScheduleAt? || e.UserSchedulePrice?)
    ensures AllHonoured(Step(cfg, s, e).rows, Record(s, h, e))
  {
    if Step(cfg, s, e).rows != s.rows {
      OneRowHonours(s.rows, h, e.id, Step(cfg, s, e).rows[e.id], Record(s, h, e));
    }
  }

  lemma RetryHonours(cfg: Setup, s: State, h: History, id: string, now: int)
    requires AllHonoured(s.rows, h)
    ensures AllHonoured(Retry(cfg, s, id, now).rows, h)
  {
    if id in s.rows && s.rows[id].status == Failed {
      assert id in h ==> Honours(s.rows[id], h[id]);
      OneRowHonours(s.rows, h, id, RequeuedRow(cfg.mac, s.rows[id], now), h);
    }
  }

  lemma ForgottenHonours(rows: map<string, Row>, rows': map<string, Row>, h: History, id: string)
    requires AllHonoured(rows, h) && forall k | k in rows' && k != id :: k in rows && rows'[k] == rows[k]
    ensures AllHonoured(rows', h - {id})
  {
    forall k | k in h - {id} && k in rows' ensures Honours(rows'[k], h[k]) {
      assert Honours(rows[k], h[k]);
    }
  }

  lemma DelayHonours(cfg: Setup, s: State, h: History, id: string, at: int, now: int)
    requires AllHonoured(s.rows, h)
    ensures AllHonoured(ScheduleDelayed(s, id, at, now).rows, Record(s, h, UserScheduleDelayed(id, at, now)))
  {
    if id in s.rows {
      OneRowHonours(s.rows, h, id, DelayedRow(s.rows[id], at, now), Record(s, h, UserScheduleDelayed(id, at, now)));
    }
  }

  lemma RestartHonours(cfg: Setup, s: State, h: History, pass: StartUpPass)
    requires AllHonoured(s.rows, h)
    ensures AllHonoured(Restart(cfg, s, pass).rows, h)
  {
    forall id | id in h && id in s.rows ensures Honours(StartedRow(cfg.mac, pass, s.rows[id]), h[id]) {
      assert Honours(s.rows[id], h[id]);
    }
  }

  lemma UserStepHonours(cfg: Setup, s: State, h: History, e: Event)
    requires Keyed(s.rows) && !e.OutOfBand? && AllHonoured(s.rows, h)
    requires !e.SchedulerTick? && !e.HeightMonitor? && !e.PriceMonitor? && !e.ConfirmationCheck?
    ensures AllHonoured(Step(cfg, s, e).rows, Record(s, h, e))
  {
    match e
    case UserScheduleAt(_, _, _) => ScheduleCallHonours(cfg, s, h, e);
    case UserSchedulePrice(_, _, _, _, _) => ScheduleCallHonours(cfg, s, h, e);
    case UserRetry(id, now) => RetryHonours(cfg, s, h, id, now);
    case UserScheduleDelayed(id, at, now) => DelayHonours(cfg, s, h, id, at, now);
    case Restarted(pass) => RestartHonours(cfg, s, h, pass);
    case Imported(id, tx, now) => ForgottenHonours(s.rows, Import(cfg, s, id, tx, now).rows, h, id);
    case NewTransaction(id, tx, now) => ForgottenHonours(s.rows, Ingest(cfg, s, id, tx, now).rows, h, id);
    case UserRemove(id) => ForgottenHonours(s.rows, s.rows - {id}, h, id);
    case UserBroadcast(id, now, p, replies) => UserBroadcastHonours(cfg, s, h, id, now, p, replies);
    case _ =>
  }

  lemma UserBroadcastHonours(cfg: Setup, s: State, h: History, id: string, now: int, p: Probe, replies: Replies)
    requires Keyed(s.rows) && AllHonoured(s.rows, h)
    ensures AllHonoured(BroadcastNow(cfg, s, id, now, p, replies).rows, h)
  {
    if BroadcastNow(cfg, s, id, now, p, replies).rows != s.rows {
      assert id in h ==> Honours(s.rows[id], h[id]);
      OneRowHonours(s.rows, h, id, BroadcastNow(cfg, s, id, now, p, replies).rows[id], h);
    }
  }

  lemma {:induction false} RunHonours(cfg: Setup, tr: seq<Event>)
    requires OverCoveredColumns(cfg.mac) && Undisturbed(tr)
    ensures AllHonoured(After(cfg, tr).rows, HistoryAfter(cfg, tr))
    decreases |tr|
  {
    if tr != [] {
      var n := |tr| - 1;
      RunHonours(cfg, tr[..n]);
      StepHonours(cfg, After(cfg, tr[..n]), HistoryAfter(cfg, tr[..n]), tr[n]);
    }
  }

  /** Nothing sent had a later scheduled time or an unseen price condition. */
  ghost predicate InSchedule(es: seq<Emission>, h: History) {
    forall k | 0 <= k < |es| && es[k].id in h ::
      match h[es[k].id]
      case AtTime(t) => t <= es[k].at
      case PriceWait(_, _, _) => false
      case PriceSeen => true
  }

  lemma DueRowsAreInSchedule(mid: State, t: State, es: seq<Emission>, now: int, h: History)
    requires TickSends(mid, t, es, now) && AllHonoured(mid.rows, h)
    ensures InSchedule(es, h)
  {
    forall k | 0 <= k < |es| && es[k].id in h
      ensures !h[es[k].id].PriceWait? && (h[es[k].id].AtTime? ==> h[es[k].id].time <= es[k].at)
    {
      assert Honours(mid.rows[es[k].id], h[es[k].id]);
    }
  }

  /** Main result: in every reachable state, whatever a tick sends had no later scheduled time
      and was not waiting for a price that no check has seen. */
  lemma ScheduleSafety(cfg: Setup, tr: seq<Event>, env: Env)
    requires OverCoveredColumns(cfg.mac) && Undisturbed(tr) && Distinct(env.order)
    ensures var s := After(cfg, tr);
            InSchedule(NewlySent(s, Tick(cfg, s, env).state), HistoryAfter(cfg, tr))
  {
    var s, h := After(cfg, tr), HistoryAfter(cfg, tr);
    var mid, t := BatchStart(cfg, s, env), Tick(cfg, s, env).state;
    RunHonours(cfg, tr);
    BatchStartEvolves(cfg, s, env);
    RowsEvolvedHonour(cfg.mac, s.rows, mid.rows, h);
    TickSendsDueRows(cfg, s, env);
    DueRowsAreInSchedule(mid, t, NewlySent(s, t), env.now, h);
  }
}
