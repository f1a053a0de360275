/** What a daemon step may do to a row, and to the set of rows already sent. */
module DaemonSteps {
  import opened Prelude
  import opened ChainSource
  import opened Rows
  import opened Pool
  import opened BatchFacts
  import opened PoolRuns

  // ----- How one row may change during a tick or a height pass -----

  /** pending -> scheduled -> broadcast or failed, failed -> scheduled, closed under repetition. */
  predicate DaemonMove(a: Status, b: Status) {
    a == b || (a in {Pending, Scheduled, Failed} && b in {Scheduled, Broadcast, Failed})
  }

  ghost predicate Evolved(mac: RowMac, a: Row, b: Row) {
    && DaemonMove(a.status, b.status)
    && a.mode == b.mode && a.nlocktime == b.nlocktime && a.network == b.network && a.trigger == b.trigger
    && a.targetPrice == b.targetPrice && a.priceCurrency == b.priceCurrency && a.priceCondition == b.priceCondition
    && (!Tampered(mac, a) ==> !Tampered(mac, b))
    && (a.status != Pending ==> b.scheduledTime == a.scheduledTime)
    && (b.deferUntil == a.deferUntil || (b.deferUntil.None? && b.status == Broadcast))
    && (a.status == Pending && a.trigger == Some("price") && a.mode != Some("by_block") ==> a == b)
  }

  ghost predicate RowsEvolved(mac: RowMac, rows: map<string, Row>, rows': map<string, Row>) {
    rows.Keys == rows'.Keys && forall id | id in rows :: Evolved(mac, rows[id], rows'[id])
  }

  lemma RowsEvolvedChain(mac: RowMac, a: map<string, Row>, b: map<string, Row>, c: map<string, Row>)
    requires RowsEvolved(mac, a, b) && RowsEvolved(mac, b, c)
    ensures RowsEvolved(mac, a, c)
  {
    forall id | id in a ensures Evolved(mac, a[id], c[id]) {
      assert Evolved(mac, a[id], b[id]) && Evolved(mac, b[id], c[id]);
    }
  }

  lemma UpdatedEvolves(mac: RowMac, rows: map<string, Row>, ids: seq<string>, f: Row -> Row)
    requires forall id | id in ids && id in rows :: Evolved(mac, rows[id], f(rows[id]))
    ensures RowsEvolved(mac, rows, Updated(rows, ids, f))
  {
  }

  lemma DueEvolves(mac: RowMac, r: Row, now: int)
    requires OverCoveredColumns(mac) && r.status == Pending
    requires r.trigger != Some("price") || r.mode == Some("by_block")
    ensures Evolved(mac, r, MarkDueRow(mac, r, now))
  {
    SealedReadsBack(mac, r.(status := Scheduled, scheduledTime := Some(now), updatedAt := now));
  }

  lemma RequeueEvolves(cfg: Setup, r: Row, now: int)
    requires OverCoveredColumns(cfg.mac) && r.status == Failed
    ensures Evolved(cfg.mac, r, RequeueRow(cfg, now)(r))
  {
    SealedReadsBack(cfg.mac, r.(status := Scheduled, errorMessage := None, updatedAt := now));
  }

  lemma BeforeBatchEvolves(cfg: Setup, s: State, env: Env)
    requires OverCoveredColumns(cfg.mac)
    ensures RowsEvolved(cfg.mac, s.rows, BeforeBatch(cfg, s, env).rows)
  {
    var ids := PendingReached(env.order, s.rows, cfg.network, env.now);
    var stop := FirstTampered(cfg.mac, ids, s.rows);
    var s1 := MarkPendingDue(cfg, ids, s, env.now);
    forall id | id in ids[..stop] && id in s.rows
      ensures Evolved(cfg.mac, s.rows[id], DueUnlessPriceRow(cfg.mac, env.now)(s.rows[id]))
    {
      assert id in ids;
      if s.rows[id].trigger != Some("price") { DueEvolves(cfg.mac, s.rows[id], env.now); }
    }
    UpdatedEvolves(cfg.mac, s.rows, ids[..stop], DueUnlessPriceRow(cfg.mac, env.now));
    var failed := FailedRows(env.order, s1.rows, cfg.network);
    forall id | id in failed && id in s1.rows
      ensures Evolved(cfg.mac, s1.rows[id], RequeueRow(cfg, env.now)(s1.rows[id]))
    {
      RequeueEvolves(cfg, s1.rows[id], env.now);
    }
    UpdatedEvolves(cfg.mac, s1.rows, failed, RequeueRow(cfg, env.now));
    RowsEvolvedChain(cfg.mac, s.rows, s1.rows, BeforeBatch(cfg, s, env).rows);
  }

  lemma RowAfterEvolves(cfg: Setup, row: Row, read: Read, env: Env)
    requires OverCoveredColumns(cfg.mac) && row.status == Scheduled
    ensures Evolved(cfg.mac, row, RowAfter(cfg, row, read, env))
  {
    var after := RowAfter(cfg, row, read, env);
    if read.ok == Some(true) {
      match ReplyTo(cfg, row.id, read, env)
      case Accepted(txid) =>
        SealedReadsBack(cfg.mac, row.(status := Broadcast, txid := Some(txid), broadcastAt := Some(env.now),
                                      updatedAt := env.now, missedAt := None, deferUntil := None));
      case Refused(msg) =>
        SealedReadsBack(cfg.mac, row.(status := Failed, errorMessage := Some(msg), updatedAt := env.now));
    } else {
      assert SameCoveredColumns(row, after);
    }
  }

  lemma BatchEvolves(cfg: Setup, due: seq<string>, s: State, env: Env)
    requires OverCoveredColumns(cfg.mac) && !s.safeMode
    requires Distinct(due) && Snapshot(s.rows, due, s.rows)
    requires forall i | 0 <= i < |due| :: s.rows[due[i]].status == Scheduled
    ensures RowsEvolved(cfg.mac, s.rows, Batch(cfg, due, s.rows, s, [], env).state.rows)
  {
    BatchRows(cfg, due, s.rows, s, [], env);
    var seen := Reads(cfg, due, s.rows, s.clock, env);
    var stop := Stop(cfg, due, s.rows, seen);
    var rows' := Batch(cfg, due, s.rows, s, [], env).state.rows;
    forall id | id in s.rows ensures Evolved(cfg.mac, s.rows[id], rows'[id]) {
      if id in due[..stop] {
        var i :| 0 <= i < stop && due[i] == id;
        RowAfterEvolves(cfg, s.rows[id], seen[i], env);
      }
    }
  }

  lemma TickEvolves(cfg: Setup, s: State, env: Env)
    requires OverCoveredColumns(cfg.mac) && Keyed(s.rows) && Distinct(env.order)
    ensures RowsEvolved(cfg.mac, s.rows, Tick(cfg, s, env).state.rows)
  {
    if !s.safeMode && s.clock.health.ClockAvailable() {
      BeforeBatchKeyed(cfg, s, env);
      BeforeBatchEvolves(cfg, s, env);
      var mid := BeforeBatch(cfg, s, env);
      if !mid.safeMode {
        SelectedDue(cfg, mid, env);
        var (due, c1) := FilterDue(cfg, DueCandidates(env.order, mid.rows, cfg.network), mid.rows, mid.clock, env);
        BatchEvolves(cfg, due, mid.(clock := c1), env);
        RowsEvolvedChain(cfg.mac, s.rows, mid.rows, Tick(cfg, s, env).state.rows);
      }
    }
  }

  lemma MonitorEvolves(cfg: Setup, s: State, order: seq<string>, p: Probe, now: int)
    requires OverCoveredColumns(cfg.mac)
    ensures RowsEvolved(cfg.mac, s.rows, BlockMonitor(cfg, s, order, p, now).rows)
  {
    var height := ReadHeight(cfg.backends, s.clock, p).0;
    if s.clock.health.ClockAvailable() && height.Some? {
      var ids, f := PendingByBlock(order, s.rows, cfg.network), DueAtHeightRow(cfg.mac, height.value, now);
      forall id | id in ids && id in s.rows ensures Evolved(cfg.mac, s.rows[id], f(s.rows[id])) {
        DueEvolves(cfg.mac, s.rows[id], now);
      }
      UpdatedEvolves(cfg.mac, s.rows, ids, f);
    }
  }

  // ----- Status moves of every daemon step -----

  predicate IsDaemonStep(e: Event) {
    e.SchedulerTick? || e.HeightMonitor? || e.PriceMonitor? || e.ConfirmationCheck? || e.HealthPolled?
  }

  /** The row orders an event carries list no row twice. */
  ghost predicate WellFormed(e: Event) {
    match e
    case SchedulerTick(env) => Distinct(env.order)
    case HeightMonitor(order, _, _) => Distinct(order)
    case PriceMonitor(order, _, _) => Distinct(order)
    case ConfirmationCheck(order, _, _) => Distinct(order)
    case _ => true
  }

  /** Nobody writes behind the program's back. */
  ghost predicate Undisturbed(tr: seq<Event>) {
    forall i | 0 <= i < |tr| :: WellFormed(tr[i]) && !tr[i].OutOfBand?
  }

  /** What each daemon may do to one row's status. */
  predicate StepMove(e: Event, a: Status, b: Status) {
    a == b ||
    match e
    case SchedulerTick(_) => DaemonMove(a, b)
    case HeightMonitor(_, _, _) => a == Pending && b == Scheduled
    case PriceMonitor(_, _, _) => a == Pending && b == Scheduled
    case ConfirmationCheck(_, _, _) => a == Broadcast && b == Confirmed
    case _ => false
  }

  lemma UpdatedMoves(e: Event, rows: map<string, Row>, ids: seq<string>, f: Row -> Row)
    requires forall id | id in ids && id in rows :: StepMove(e, rows[id].status, f(rows[id]).status)
    ensures forall id | id in rows :: StepMove(e, rows[id].status, Updated(rows, ids, f)[id].status)
  {
  }

  lemma MonitorMoves(cfg: Setup, s: State, e: Event)
    requires Keyed(s.rows) && e.HeightMonitor?
    ensures Step(cfg, s, e).rows.Keys == s.rows.Keys
    ensures forall id | id in s.rows :: StepMove(e, s.rows[id].status, Step(cfg, s, e).rows[id].status)
  {
    var height := ReadHeight(cfg.backends, s.clock, e.probe).0;
    if height.Some? {
      UpdatedMoves(e, s.rows, PendingByBlock(e.order, s.rows, cfg.network),
                   DueAtHeightRow(cfg.mac, height.value, e.now));
    }
  }

  lemma PassMoves(cfg: Setup, s: State, e: Event)
    requires Keyed(s.rows) && (e.HeightMonitor? || e.PriceMonitor? || e.ConfirmationCheck?)
    ensures Step(cfg, s, e).rows.Keys == s.rows.Keys
    ensures forall id | id in s.rows :: StepMove(e, s.rows[id].status, Step(cfg, s, e).rows[id].status)
  {
    match e
    case HeightMonitor(order, p, now) => MonitorMoves(cfg, s, e);
    case PriceMonitor(order, prices, now) =>
      UpdatedMoves(e, s.rows, PriceWaiting(order, s.rows, cfg.network), FiredRow(cfg.mac, prices, now));
    case ConfirmationCheck(order, mined, now) =>
      UpdatedMoves(e, s.rows, BroadcastRows(order, s.rows, cfg.network), MinedRow(cfg.mac, mined, now));
  }

  lemma DaemonStepMoves(cfg: Setup, s: State, e: Event)
    requires OverCoveredColumns(cfg.mac) && Keyed(s.rows) && WellFormed(e) && IsDaemonStep(e)
    ensures var t := Step(cfg, s, e);
            && t.rows.Keys == s.rows.Keys
            && forall id | id in s.rows :: StepMove(e, s.rows[id].status, t.rows[id].status)
  {
    if e.SchedulerTick? {
      TickMoves(cfg, s, e.env);
    } else if !e.HealthPolled? {
      PassMoves(cfg, s, e);
    }
  }

  lemma TickMoves(cfg: Setup, s: State, env: Env)
    requires OverCoveredColumns(cfg.mac) && Keyed(s.rows) && Distinct(env.order)
    ensures var t := Tick(cfg, s, env).state;
            t.rows.Keys == s.rows.Keys && forall id | id in s.rows :: DaemonMove(s.rows[id].status, t.rows[id].status)
  {
    TickEvolves(cfg, s, env);
    forall id | id in s.rows ensures DaemonMove(s.rows[id].status, Tick(cfg, s, env).state.rows[id].status) {
      assert Evolved(cfg.mac, s.rows[id], Tick(cfg, s, env).state.rows[id]);
    }
  }

  // ----- What a tick sends -----

  /** `e` is what the loop records for due row `i`. */
  ghost predicate EmittedFrom(cfg: Setup, due: seq<string>, seen: seq<Read>, env: Env, e: Emission, i: nat) {
    && i < |due| && i < |seen| && due[i] == e.id && e.at == env.now && !e.byUser
    && seen[i].ok == Some(true) && ReplyTo(cfg, due[i], seen[i], env).Accepted?
  }

  lemma {:induction false} EmissionsAreDue(cfg: Setup, due: seq<string>, snap: map<string, Row>, seen: seq<Read>,
                                           env: Env, k: nat) returns (i: nat)
    requires |due| <= |seen| && Keyed(snap) && forall i | 0 <= i < |due| :: due[i] in snap
    requires k < |Emissions(cfg, due, snap, seen, env)|
    ensures EmittedFrom(cfg, due, seen, env, Emissions(cfg, due, snap, seen, env)[k], i)
    decreases |due|
  {
    var first := Sent(cfg, snap[due[0]], seen[0], env);
    if k < |first| {
      i := 0;
    } else {
      i := EmissionsAreDue(cfg, due[1..], snap, seen[1..], env, k - |first|);
      assert due[1..][i] == due[i + 1] && seen[1..][i] == seen[i + 1];
      i := i + 1;
    }
  }

  lemma {:induction false} EmissionsDistinct(cfg: Setup, due: seq<string>, snap: map<string, Row>, seen: seq<Read>,
                                             env: Env, k: nat, l: nat)
    requires |due| <= |seen| && Keyed(snap) && Distinct(due) && forall i | 0 <= i < |due| :: due[i] in snap
    requires k < l < |Emissions(cfg, due, snap, seen, env)|
    ensures Emissions(cfg, due, snap, seen, env)[k].id != Emissions(cfg, due, snap, seen, env)[l].id
    decreases |due|
  {
    var first := Sent(cfg, snap[due[0]], seen[0], env);
    if k < |first| {
      var i := EmissionsAreDue(cfg, due[1..], snap, seen[1..], env, l - |first|);
    } else {
      EmissionsDistinct(cfg, due[1..], snap, seen[1..], env, k - |first|, l - |first|);
    }
  }

  /** Each emission of a tick is a distinct row that was scheduled, had reached its time when the
      batch began, and is marked as broadcast when the tick ends. */
  ghost predicate TickSends(mid: State, t: State, es: seq<Emission>, now: int) {
    && (forall k | 0 <= k < |es| ::
          && es[k].id in mid.rows && es[k].id in t.rows && es[k].at == now && !es[k].byUser
          && mid.rows[es[k].id].status == Scheduled && ScheduleReached(mid.rows[es[k].id], now)
          && t.rows[es[k].id].status == Broadcast && t.rows[es[k].id].txid.Some?)
    && (forall k, l | 0 <= k < l < |es| :: es[k].id != es[l].id)
  }

  lemma EmissionMarks(cfg: Setup, due: seq<string>, s: State, env: Env, k: nat)
    requires !s.safeMode && Distinct(due) && Snapshot(s.rows, due, s.rows)
    requires var seen := Reads(cfg, due, s.rows, s.clock, env);
             k < |Emissions(cfg, due[..Stop(cfg, due, s.rows, seen)], s.rows, seen, env)|
    ensures var seen := Reads(cfg, due, s.rows, s.clock, env);
            var e := Emissions(cfg, due[..Stop(cfg, due, s.rows, seen)], s.rows, seen, env)[k];
            var rows := Batch(cfg, due, s.rows, s, [], env).state.rows;
            && e.id in due && e.id in rows && e.at == env.now && !e.byUser
            && rows[e.id].status == Broadcast && rows[e.id].txid.Some?
  {
    BatchRows(cfg, due, s.rows, s, [], env);
    var seen := Reads(cfg, due, s.rows, s.clock, env);
    var sent := due[..Stop(cfg, due, s.rows, seen)];
    var i := EmissionsAreDue(cfg, sent, s.rows, seen, env, k);
    assert sent[i] == due[i];
  }

  lemma BatchSends(cfg: Setup, due: seq<string>, s: State, env: Env)
    requires !s.safeMode && Distinct(due) && Snapshot(s.rows, due, s.rows)
    requires forall i | 0 <= i < |due| ::
               s.rows[due[i]].status == Scheduled && ScheduleReached(s.rows[due[i]], env.now)
    ensures var t := Batch(cfg, due, s.rows, s, [], env).state;
            s.sent <= t.sent && TickSends(s, t, t.sent[|s.sent|..], env.now)
  {
    BatchSent(cfg, due, s.rows, s, [], env);
    var seen := Reads(cfg, due, s.rows, s.clock, env);
    var sent := due[..Stop(cfg, due, s.rows, seen)];
    var t := Batch(cfg, due, s.rows, s, [], env).state;
    var es := Emissions(cfg, sent, s.rows, seen, env);
    assert t.sent[|s.sent|..] == es;
    forall k | 0 <= k < |es|
      ensures es[k].id in due && es[k].id in t.rows && es[k].at == env.now && !es[k].byUser
      ensures t.rows[es[k].id].status == Broadcast && t.rows[es[k].id].txid.Some?
    {
      EmissionMarks(cfg, due, s, env, k);
    }
    forall k, l | 0 <= k < l < |es| ensures es[k].id != es[l].id {
      EmissionsDistinct(cfg, sent, s.rows, seen, env, k, l);
    }
  }

  /** The state whose rows a tick's batch reads. */
  function BatchStart(cfg: Setup, s: State, env: Env): State {
    if s.safeMode || !s.clock.health.ClockAvailable() then s else BeforeBatch(cfg, s, env)
  }

  lemma BatchStartEvolves(cfg: Setup, s: State, env: Env)
    requires OverCoveredColumns(cfg.mac)
    ensures RowsEvolved(cfg.mac, s.rows, BatchStart(cfg, s, env).rows)
  {
    BeforeBatchEvolves(cfg, s, env);
  }

  lemma TickSendsDueRows(cfg: Setup, s: State, env: Env)
    requires Keyed(s.rows) && Distinct(env.order)
    ensures var t := Tick(cfg, s, env).state;
            s.sent <= t.sent && TickSends(BatchStart(cfg, s, env), t, t.sent[|s.sent|..], env.now)
  {
    if !s.safeMode && s.clock.health.ClockAvailable() {
      BeforeBatchKeyed(cfg, s, env);
      var mid := BeforeBatch(cfg, s, env);
      assert mid.sent == s.sent;
      if !mid.safeMode {
        SelectedDue(cfg, mid, env);
        var (due, c1) := FilterDue(cfg, DueCandidates(env.order, mid.rows, cfg.network), mid.rows, mid.clock, env);
        BatchSends(cfg, due, mid.(clock := c1), env);
      }
    }
  }
}
