/** Runs of the pool: any interleaving of loop bodies, user calls and writes behind the program's
    back, each as one atomic step. */
module PoolRuns {
  import opened Prelude
  import opened ChainSource
  import opened Rows
  import opened Pool

  datatype Event =
    | SchedulerTick(env: Env)
    | UserBroadcast(id: string, now: int, probe: Probe, replies: Replies)
    | HeightMonitor(order: seq<string>, probe: Probe, now: int)
    | PriceMonitor(order: seq<string>, prices: map<string, int>, now: int)
    | ConfirmationCheck(order: seq<string>, mined: string -> Option<nat>, now: int)
    | HealthPolled(probe: Probe, core: CoreStatus)
    | ClockRead(probe: Probe)        // a listing that may refill the MTP cache
    | UserScheduleAt(id: string, at: int, now: int)
    | UserSchedulePrice(id: string, target: int, currency: string, condition: string, now: int)
    | UserScheduleDelayed(id: string, at: int, now: int)
    | NewTransaction(id: string, tx: NewTx, now: int)
    | Imported(id: string, tx: NewTx, now: int)
    | UserRemove(id: string)
    | UserRetry(id: string, now: int)
    | Acknowledge
    | Restarted(pass: StartUpPass)   // the process ends and starts again on the same table
    | OutOfBand(id: string, row: Row)

  /** The id column is the primary key and is not rewritten in place. */
  function Overwritten(s: State, id: string, row: Row): State {
    if id in s.rows then s.(rows := s.rows[id := row.(id := id)]) else s
  }

  /** What is left after a restart: the table, migrated and its old rows upgraded, and what was sent. */
  function Restart(cfg: Setup, s: State, pass: StartUpPass): State {
    State(map id | id in s.rows :: StartedRow(cfg.mac, pass, s.rows[id]), false, [], Clock(UNPOLLED, None), s.sent)
  }

  /** The confirmation loop does nothing without a chain clock. */
  function ConfirmationPass(cfg: Setup, s: State, order: seq<string>, mined: string -> Option<nat>, now: int): State {
    if s.clock.health.ClockAvailable() then Confirm(cfg, s, order, mined, now) else s
  }

  function Step(cfg: Setup, s: State, e: Event): State
    requires Keyed(s.rows)
  {
    match e
    case SchedulerTick(env) => Tick(cfg, s, env).state
    case UserBroadcast(id, now, p, replies) => BroadcastNow(cfg, s, id, now, p, replies)
    case HeightMonitor(order, p, now) => BlockMonitor(cfg, s, order, p, now)
    case PriceMonitor(order, prices, now) => PriceCheck(cfg, s, order, prices, now)
    case ConfirmationCheck(order, mined, now) => ConfirmationPass(cfg, s, order, mined, now)
    case HealthPolled(p, core) => HealthPoll(s, p, core)
    case ClockRead(p) => s.(clock := ReadMtpCached(cfg.backends, s.clock, p).1)
    case UserScheduleAt(id, at, now) => ScheduleAt(cfg, s, id, at, now)
    case UserSchedulePrice(id, t, cur, cond, now) => ScheduleByPrice(cfg, s, id, t, cur, cond, now)
    case UserScheduleDelayed(id, at, now) => ScheduleDelayed(s, id, at, now)
    case Imported(id, tx, now) => Import(cfg, s, id, tx, now)
    case NewTransaction(id, tx, now) => Ingest(cfg, s, id, tx, now)
    case UserRemove(id) => s.(rows := s.rows - {id})
    case UserRetry(id, now) => Retry(cfg, s, id, now)
    case Acknowledge => ClearSafeMode(s)
    case Restarted(pass) => Restart(cfg, s, pass)
    case OutOfBand(id, row) => Overwritten(s, id, row)
  }

  lemma {:induction false} BatchKeeps(cfg: Setup, due: seq<string>, snap: map<string, Row>, s: State,
                                      results: seq<(string, Reply)>, env: Env)
    requires Keyed(snap) && Keyed(s.rows) && snap.Keys == s.rows.Keys && forall id | id in due :: id in snap
    ensures var end := Batch(cfg, due, snap, s, results, env).state;
            Keyed(end.rows) && end.rows.Keys == s.rows.Keys
    decreases |due|
  {
    if due != [] && !s.safeMode && !Tampered(cfg.mac, snap[due[0]]) {
      var row := snap[due[0]];
      var (ok, c1) := CheckLock(cfg.backends, s.clock, row.nlocktime, env.sendProbe(row.id));
      if ok.Some? {
        var reply := Handover(cfg.backends, c1.health, env.replies(row.id));
        BatchKeeps(cfg, due[1..], snap, AfterCheck(cfg, s.(clock := c1), row, ok.value, reply, env.now),
                   if ok.value then results + [(row.id, reply)] else results, env);
      }
    }
  }

  lemma TickKeyed(cfg: Setup, s: State, env: Env)
    requires Keyed(s.rows)
    ensures Keyed(Tick(cfg, s, env).state.rows)
  {
    if !s.safeMode && s.clock.health.ClockAvailable() {
      BeforeBatchKeyed(cfg, s, env);
      var mid := BeforeBatch(cfg, s, env);
      if !mid.safeMode {
        var (due, c1) := FilterDue(cfg, DueCandidates(env.order, mid.rows, cfg.network), mid.rows, mid.clock, env);
        BatchKeeps(cfg, due, mid.rows, mid.(clock := c1), [], env);
      }
    }
  }

  lemma UpdatedKeyed(rows: map<string, Row>, ids: seq<string>, f: Row -> Row)
    requires Keyed(rows) && forall r: Row :: f(r).id == r.id
    ensures Keyed(Updated(rows, ids, f))
  {
  }

  lemma PassKeyed(cfg: Setup, s: State, e: Event)
    requires Keyed(s.rows) && (e.HeightMonitor? || e.PriceMonitor? || e.ConfirmationCheck?)
    ensures Keyed(Step(cfg, s, e).rows)
  {
    match e
    case HeightMonitor(order, p, now) =>
      var height := ReadHeight(cfg.backends, s.clock, p).0;
      if height.Some? {
        UpdatedKeyed(s.rows, PendingByBlock(order, s.rows, cfg.network), DueAtHeightRow(cfg.mac, height.value, now));
      }
    case PriceMonitor(order, prices, now) =>
      UpdatedKeyed(s.rows, PriceWaiting(order, s.rows, cfg.network), FiredRow(cfg.mac, prices, now));
    case ConfirmationCheck(order, mined, now) =>
      UpdatedKeyed(s.rows, BroadcastRows(order, s.rows, cfg.network), MinedRow(cfg.mac, mined, now));
  }

  lemma RestartKeyed(cfg: Setup, s: State, pass: StartUpPass)
    requires Keyed(s.rows)
    ensures Keyed(Restart(cfg, s, pass).rows)
  {
    forall id | id in s.rows ensures StartedRow(cfg.mac, pass, s.rows[id]).id == id {
    }
  }

  lemma CallKeyed(cfg: Setup, s: State, e: Event)
    requires Keyed(s.rows) && !e.SchedulerTick? && !e.HeightMonitor? && !e.PriceMonitor? && !e.ConfirmationCheck?
    requires !e.Restarted?
    ensures Keyed(Step(cfg, s, e).rows)
  {
  }

  lemma StepKeyed(cfg: Setup, s: State, e: Event)
    requires Keyed(s.rows)
    ensures Keyed(Step(cfg, s, e).rows)
  {
    if e.SchedulerTick? {
      TickKeyed(cfg, s, e.env);
    } else if e.HeightMonitor? || e.PriceMonitor? || e.ConfirmationCheck? {
      PassKeyed(cfg, s, e);
    } else if e.Restarted? {
      RestartKeyed(cfg, s, e.pass);
    } else {
      CallKeyed(cfg, s, e);
    }
  }

  const START := State(map[], false, [], Clock(UNPOLLED, None), [])

  /** The state after a whole trace, from an empty pool. */
  function After(cfg: Setup, tr: seq<Event>): (s: State)
    ensures Keyed(s.rows)
  {
    if tr == [] then START
    else
      var s := After(cfg, tr[..|tr| - 1]);
      StepKeyed(cfg, s, tr[|tr| - 1]);
      Step(cfg, s, tr[|tr| - 1])
  }

  function NewlySent(before: State, after: State): seq<Emission> {
    if |before.sent| <= |after.sent| then after.sent[|before.sent|..] else []
  }
}
