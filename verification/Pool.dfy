/** The pool's state and what each loop body or API call does to it, as functions.
    `PoolManager` (in PoolManager.dfy) is the imperative counterpart proved equal to them. */
module Pool {
  import opened Prelude
  import opened ChainSource
  import opened Rows

  const LIST_LIMIT := 1000
  const NANOS := 1_000_000_000

  /** What does not change during a run: the row MAC, which refusals are worth retrying, the
      configured backends and network. */
  datatype Setup = Setup(mac: RowMac, retriable: string -> bool, backends: Backends, network: string)

  /** One successful hand-over to the network, with the nLockTime column the row had then. */
  datatype Emission = Emission(id: string, nlocktime: nat, at: int, byUser: bool)

  datatype State = State(
    rows: map<string, Row>, safeMode: bool, tamperedIds: seq<string>, clock: Clock, sent: seq<Emission>)

  datatype Reply = Accepted(txid: string) | Refused(msg: string)
  datatype Replies = Replies(indexer: Reply, core: Reply)

  /** `is_retriable_broadcast_error`. */
  predicate IsRetriable(msg: string) {
    var m := Lower(msg);
    Contains(m, "non-final") || Contains(m, "non final") || Contains(m, "not final")
    || Contains(m, "locktime") || Contains(m, "too-long-mempool-chain")
  }

  // ----- Safe mode -----

  function EnterSafeMode(s: State, id: string): State {
    s.(safeMode := true, tamperedIds := if id in s.tamperedIds then s.tamperedIds else s.tamperedIds + [id])
  }

  function ClearSafeMode(s: State): State {
    s.(safeMode := false, tamperedIds := [])
  }

  // ----- Queries: filters over the table, in the order the database returns rows -----

  function Select(order: seq<string>, rows: map<string, Row>, p: Row -> bool): (ids: seq<string>)
    ensures forall i | 0 <= i < |ids| :: ids[i] in order && ids[i] in rows && p(rows[ids[i]])
    ensures Distinct(order) ==> Distinct(ids)
    ensures forall id | id in order && id in rows && p(rows[id]) :: id in ids
  {
    if order == [] then []
    else
      var rest := Select(order[1..], rows, p);
      if order[0] in rows && p(rows[order[0]]) then [order[0]] + rest else rest
  }

  function Limited(ids: seq<string>): seq<string> {
    if |ids| <= LIST_LIMIT then ids else ids[..LIST_LIMIT]
  }

  function DueCandidates(order: seq<string>, rows: map<string, Row>, network: string): seq<string> {
    Select(order, rows, (r: Row) => r.status == Scheduled && r.network == network)
  }

  function PendingReached(order: seq<string>, rows: map<string, Row>, network: string, now: int): seq<string> {
    Select(order, rows, (r: Row) =>
      r.status == Pending && r.network == network
      && (r.mode == Some("scheduled") || IsUserScheduledMode(r.mode))
      && r.scheduledTime.Some? && r.scheduledTime.value <= now)
  }

  function FailedRows(order: seq<string>, rows: map<string, Row>, network: string): seq<string> {
    Limited(Select(order, rows, (r: Row) => r.status == Failed && r.network == network))
  }

  function BroadcastRows(order: seq<string>, rows: map<string, Row>, network: string): seq<string> {
    Limited(Select(order, rows, (r: Row) => r.status == Broadcast && r.network == network))
  }

  function PriceWaiting(order: seq<string>, rows: map<string, Row>, network: string): seq<string> {
    Select(order, rows, (r: Row) =>
      (r.status == Pending || r.status == Scheduled) && r.trigger == Some("price")
      && r.targetPrice.Some? && r.network == network)
  }

  function PendingByBlock(order: seq<string>, rows: map<string, Row>, network: string): seq<string> {
    Select(order, rows, (r: Row) =>
      r.status == Pending && r.mode == Some("by_block") && 0 < r.nlocktime < LOCKTIME_THRESHOLD
      && r.network == network)
  }

  // ----- One tick of the scheduler -----

  /** What the environment answers during a tick: the wall clock, the row order, and per row the
      backends' state when the filter reads the clock, when the batch loop reads it again, and
      the replies to a broadcast. */
  datatype Env = Env(
    now: int, order: seq<string>,
    filterProbe: string -> Probe, sendProbe: string -> Probe, replies: string -> Replies)

  datatype TickEnd = TickEnd(state: State, results: Option<seq<(string, Reply)>>)

  /** The rows named in `ids` rewritten by `f`, all others as they were. */
  function Updated(rows: map<string, Row>, ids: seq<string>, f: Row -> Row): map<string, Row> {
    map id | id in rows :: if id in ids then f(rows[id]) else rows[id]
  }

  /** Index of the first row that fails its integrity check, or the length. */
  function FirstTampered(mac: RowMac, ids: seq<string>, rows: map<string, Row>): (n: nat)
    requires forall id | id in ids :: id in rows
    ensures n <= |ids| && forall i | 0 <= i < n :: !Tampered(mac, rows[ids[i]])
    ensures n < |ids| ==> Tampered(mac, rows[ids[n]])
  {
    if ids == [] || Tampered(mac, rows[ids[0]]) then 0 else 1 + FirstTampered(mac, ids[1..], rows)
  }

  function DueUnlessPriceRow(mac: RowMac, now: int): Row -> Row {
    (r: Row) => if r.trigger == Some("price") then r else MarkDueRow(mac, r, now)
  }

  function MarkPendingDue(cfg: Setup, ids: seq<string>, s: State, now: int): State
    requires forall id | id in ids :: id in s.rows
  {
    var stop := FirstTampered(cfg.mac, ids, s.rows);
    var s1 := s.(rows := Updated(s.rows, ids[..stop], DueUnlessPriceRow(cfg.mac, now)));
    if stop < |ids| then EnterSafeMode(s1, ids[stop]) else s1
  }

  predicate WorthRequeueing(cfg: Setup, r: Row) {
    var err := r.errorMessage.GetOr("");
    cfg.retriable(err) || (r.nlocktime > 0 && Contains(err, "Failed to broadcast"))
  }

  function RequeueRow(cfg: Setup, now: int): Row -> Row {
    (r: Row) => if WorthRequeueing(cfg, r) then RequeuedRow(cfg.mac, r, now) else r
  }

  function RequeueFailures(cfg: Setup, order: seq<string>, s: State, now: int): State {
    s.(rows := Updated(s.rows, FailedRows(order, s.rows, cfg.network), RequeueRow(cfg, now)))
  }

  predicate ScheduleReached(r: Row, now: int) {
    if r.deferUntil.Some? then now >= r.deferUntil.value
    else r.scheduledTime.Some? && r.scheduledTime.value <= now
  }

  /** `is_tx_due_for_broadcast(..).unwrap_or(false)`. */
  function IsDue(cfg: Setup, r: Row, now: int, c: Clock, p: Probe): (bool, Clock) {
    if r.trigger == Some("price") && r.status == Pending then (false, c)
    else
      var (ok, c1) := CheckLock(cfg.backends, c, r.nlocktime, p);
      (ok == Some(true) && ScheduleReached(r, now), c1)
  }

  function FilterDue(cfg: Setup, ids: seq<string>, snap: map<string, Row>, c: Clock, env: Env)
    : (r: (seq<string>, Clock))
    requires forall id | id in ids :: id in snap
    ensures forall i | 0 <= i < |r.0| :: r.0[i] in ids && ScheduleReached(snap[r.0[i]], env.now)
    ensures Distinct(ids) ==> Distinct(r.0)
  {
    if ids == [] then ([], c)
    else
      var (due, c1) := IsDue(cfg, snap[ids[0]], env.now, c, env.filterProbe(ids[0]));
      var (rest, c2) := FilterDue(cfg, ids[1..], snap, c1, env);
      (if due then [ids[0]] + rest else rest, c2)
  }

  /** `broadcast_transaction`: an indexer not known to be dead first, then Core. */
  function Handover(b: Backends, h: ChainHealth, r: Replies): Reply {
    if h.ShouldTryIndexer() && b.indexer && r.indexer.Accepted? then r.indexer
    else if b.core then r.core
    else if h.ShouldTryIndexer() && b.indexer then r.indexer
    else Refused("No broadcast backend available (neither Indexer nor RPC)")
  }

  function Deliver(cfg: Setup, s: State, row: Row, reply: Reply, now: int, byUser: bool): State
    requires row.id in s.rows
  {
    match reply
    case Accepted(txid) =>
      s.(rows := s.rows[row.id := MarkBroadcastRow(cfg.mac, s.rows[row.id], txid, now)],
         sent := s.sent + [Emission(row.id, row.nlocktime, now, byUser)])
    case Refused(msg) =>
      if cfg.retriable(msg) then s
      else s.(rows := s.rows[row.id := FailedRow(cfg.mac, s.rows[row.id], msg, now)])
  }

  function Missed(s: State, row: Row, now: int): State
    requires row.id in s.rows
  {
    if row.nlocktime > LOCKTIME_THRESHOLD && row.missedAt.None?
    then s.(rows := s.rows[row.id := MissedRow(s.rows[row.id], now, row.scheduledTime)]) else s
  }

  /** One due row of the batch whose lock could be read. */
  function AfterCheck(cfg: Setup, s: State, row: Row, lockOk: bool, reply: Reply, now: int): State
    requires row.id in s.rows
  {
    if lockOk then Deliver(cfg, s, row, reply, now, false) else Missed(s, row, now)
  }

  /** The loop of `broadcast_due_transactions` over the rows found due, read before the loop. */
  function Batch(cfg: Setup, due: seq<string>, snap: map<string, Row>, s: State,
                 results: seq<(string, Reply)>, env: Env): TickEnd
    requires Keyed(snap) && snap.Keys == s.rows.Keys && forall id | id in due :: id in snap
  {
    if due == [] || s.safeMode then TickEnd(s, Some(results))
    else
      var row := snap[due[0]];
      if Tampered(cfg.mac, row) then TickEnd(EnterSafeMode(s, row.id), Some(results))
      else
        var (ok, c1) := CheckLock(cfg.backends, s.clock, row.nlocktime, env.sendProbe(row.id));
        var s1 := s.(clock := c1);
        if ok.None? then TickEnd(s1, None)
        else
          var reply := Handover(cfg.backends, c1.health, env.replies(row.id));
          Batch(cfg, due[1..], snap, AfterCheck(cfg, s1, row, ok.value, reply, env.now),
                if ok.value then results + [(row.id, reply)] else results, env)
  }

  function BroadcastDue(cfg: Setup, s: State, env: Env): TickEnd
    requires Keyed(s.rows)
  {
    if s.safeMode then TickEnd(s, Some([]))
    else
      var (due, c1) := FilterDue(cfg, DueCandidates(env.order, s.rows, cfg.network), s.rows, s.clock, env);
      Batch(cfg, due, s.rows, s.(clock := c1), [], env)
  }

  /** Pending rows whose time has come, then the requeue: the state the batch starts from. */
  function BeforeBatch(cfg: Setup, s: State, env: Env): State {
    var s1 := MarkPendingDue(cfg, PendingReached(env.order, s.rows, cfg.network, env.now), s, env.now);
    RequeueFailures(cfg, env.order, s1, env.now)
  }

  lemma BeforeBatchKeyed(cfg: Setup, s: State, env: Env)
    requires Keyed(s.rows)
    ensures Keyed(BeforeBatch(cfg, s, env).rows)
  {
  }

  /** `run_scheduler_tick`; no results means the error "no chain data source available" or an
      unreadable clock in the middle of the batch. */
  function Tick(cfg: Setup, s: State, env: Env): TickEnd
    requires Keyed(s.rows)
  {
    if s.safeMode then TickEnd(s, Some([]))
    else if !s.clock.health.ClockAvailable() then TickEnd(s, None)
    else
      BeforeBatchKeyed(cfg, s, env);
      BroadcastDue(cfg, BeforeBatch(cfg, s, env), env)
  }

  // ----- Other loop bodies and calls -----

  function BroadcastNow(cfg: Setup, s: State, id: string, now: int, p: Probe, replies: Replies): State
    requires Keyed(s.rows)
  {
    if s.safeMode || id !in s.rows then s
    else
      var row := s.rows[id];
      if Tampered(cfg.mac, row) then EnterSafeMode(s, id)
      else if IsEmitted(row.status) then s
      else
        var (ok, c1) := CheckLock(cfg.backends, s.clock, row.nlocktime, p);
        var s1 := s.(clock := c1);
        if ok != Some(true) then s1
        else
          var reply := Handover(cfg.backends, c1.health, replies);
          if reply.Accepted? then Deliver(cfg, s1, row, reply, now, true) else s1
  }

  function DueAtHeightRow(mac: RowMac, height: nat, now: int): Row -> Row {
    (r: Row) => if height >= r.nlocktime then MarkDueRow(mac, r, now) else r
  }

  /** One pass of `run_block_height_monitor`. */
  function BlockMonitor(cfg: Setup, s: State, order: seq<string>, p: Probe, now: int): State {
    if !s.clock.health.ClockAvailable() then s
    else
      var (height, c1) := ReadHeight(cfg.backends, s.clock, p);
      var s1 := s.(clock := c1);
      if height.None? then s1
      else
        s1.(rows := Updated(s1.rows, PendingByBlock(order, s1.rows, cfg.network),
                            DueAtHeightRow(cfg.mac, height.value, now)))
  }

  predicate PriceConditionMet(current: int, target: int, condition: string) {
    if condition == "below" then current <= target else current >= target
  }

  predicate TriggerMet(r: Row, prices: map<string, int>) {
    var currency := r.priceCurrency.GetOr("usd");
    r.targetPrice.Some? && currency in prices
    && PriceConditionMet(prices[currency], r.targetPrice.value, r.priceCondition.GetOr("above"))
  }

  function FiredRow(mac: RowMac, prices: map<string, int>, now: int): Row -> Row {
    (r: Row) => if TriggerMet(r, prices) then MarkDueFromPriceRow(mac, r, now) else r
  }

  function PriceCheck(cfg: Setup, s: State, order: seq<string>, prices: map<string, int>, now: int): State {
    s.(rows := Updated(s.rows, PriceWaiting(order, s.rows, cfg.network), FiredRow(cfg.mac, prices, now)))
  }

  function MinedRow(mac: RowMac, mined: string -> Option<nat>, now: int): Row -> Row {
    (r: Row) =>
      if r.txid.Some? && mined(r.txid.value).Some?
      then ConfirmedRow(mac, r, mined(r.txid.value).value, now) else r
  }

  /** `check_confirmations` with Core: `mined` gives the height noted for a txid found in a block. */
  function Confirm(cfg: Setup, s: State, order: seq<string>, mined: string -> Option<nat>, now: int): State {
    s.(rows := Updated(s.rows, BroadcastRows(order, s.rows, cfg.network), MinedRow(cfg.mac, mined, now)))
  }

  /** One pass of `refresh_chain_health`. */
  function HealthPoll(s: State, p: Probe, core: CoreStatus): State {
    s.(clock := Clock(
      s.clock.health.Refreshed(p, core),
      if core.CoreUp? then Some(CachedMtp(p.at, core.mtp)) else s.clock.cache))
  }

  predicate ScheduleAtAllowed(r: Row, at: int, now: int) {
    at > now && (r.nlocktime > LOCKTIME_THRESHOLD ==> Max(at / NANOS, 0) >= r.nlocktime)
  }

  predicate IsReschedule(r: Row) {
    r.missedAt.Some? || r.deferUntil.Some? || r.scheduledTime.Some? || r.trigger == Some("price")
    || r.mode == Some("scheduled") || IsUserScheduledMode(r.mode)
  }

  function ScheduleAt(cfg: Setup, s: State, id: string, at: int, now: int): State {
    if id !in s.rows || !ScheduleAtAllowed(s.rows[id], at, now) then s
    else
      var row := s.rows[id];
      s.(rows := s.rows[id := RescheduledRow(cfg.mac, row, at, if IsReschedule(row) then Some(at) else None, now)])
  }

  predicate PriceScheduleAllowed(r: Row, target: int, currency: string, condition: string) {
    target > 0 && Lower(currency) in {"eur", "usd"} && Lower(condition) in {"above", "below"}
    && (r.status == Pending || r.status == Scheduled) && IsUserScheduledMode(r.mode) && r.nlocktime == 0
  }

  function ScheduleByPrice(cfg: Setup, s: State, id: string, target: int, currency: string, condition: string,
                           now: int): State
  {
    if id !in s.rows || !PriceScheduleAllowed(s.rows[id], target, currency, condition) then s
    else
      s.(rows := s.rows[id := PriceScheduledRow(cfg.mac, s.rows[id], target, Lower(currency), Lower(condition), now)])
  }

  /** `schedule_transaction`, with the time it draws. */
  function ScheduleDelayed(s: State, id: string, at: int, now: int): State {
    if id in s.rows then s.(rows := s.rows[id := DelayedRow(s.rows[id], at, now)]) else s
  }

  /** `import_transaction`, from the API or the command line. */
  function Import(cfg: Setup, s: State, id: string, tx: NewTx, now: int): State {
    s.(rows := s.rows[id := InsertedRow(cfg.mac, id, tx, now)])
  }

  /** The import of `handle_broadcast`, and for the immediate mode the `mark_as_due` that follows. */
  function Ingest(cfg: Setup, s: State, id: string, tx: NewTx, now: int): State {
    var row := InsertedRow(cfg.mac, id, tx, now);
    s.(rows := s.rows[id := if row.mode == Some("immediate") then MarkDueRow(cfg.mac, row, now) else row])
  }

  function Retry(cfg: Setup, s: State, id: string, now: int): State {
    if id !in s.rows || s.rows[id].status != Failed then s
    else s.(rows := s.rows[id := RequeuedRow(cfg.mac, s.rows[id], now)])
  }
}
