/** What becomes of a row when it is handed over, confirmed, tried again, acknowledged or called for, said in
    its columns. */
module CallOutcomes {
  import opened Prelude
  import opened ChainSource
  import opened Rows
  import opened Pool
  import opened BatchFacts
  import opened PoolRuns
  import opened DaemonSteps
  import opened EmissionSafety
  import opened TickOutcome
  import opened RowOutcomes

  // ----- Handed over by a tick -----

  /** Who has the last word on a hand-over: the indexer if it takes the transaction, else Core, else the
      indexer with its refusal. */
  function LastWord(b: Backends, r: Replies): Reply {
    if b.indexer && r.indexer.Accepted? then r.indexer else if b.core then r.core else r.indexer
  }

  /** The columns of a row on its way to the backends: taken up now, or freed of an old error. */
  ghost predicate Prepared(cfg: Setup, s: State, env: Env, id: string, r: Row)
    requires id in s.rows
  {
    var row := s.rows[id];
    var taken, again := TakenUp(row, cfg.network, env.now), TriedAgain(cfg, s, env.order, id);
    r == row.(status := Scheduled,
              scheduledTime := if taken then Some(env.now) else row.scheduledTime,
              errorMessage := if again then None else row.errorMessage,
              updatedAt := if taken || again then env.now else row.updatedAt,
              rowMac := r.rowMac)
  }

  /** What the reply makes of it. */
  ghost predicate Delivered(cfg: Setup, r: Row, reply: Reply, now: int, after: Row) {
    match reply
    case Accepted(txid) =>
      after == r.(status := Broadcast, txid := Some(txid), broadcastAt := Some(now), missedAt := None,
                  deferUntil := None, updatedAt := now, rowMac := after.rowMac)
    case Refused(msg) =>
      if cfg.retriable(msg) then after == r
      else after == r.(status := Failed, errorMessage := Some(msg), updatedAt := now, rowMac := after.rowMac)
  }

  lemma PreparedBeforeBatch(cfg: Setup, s: State, env: Env, o: Outside, id: string)
    requires Lists(env.order, s.rows) && AllIntact(cfg.mac, s) && id in s.rows && ComesDue(cfg, s, env, id)
    requires LockSatisfied(s.rows[id].nlocktime, o.height, o.mtp)
    ensures id in BeforeBatch(cfg, s, env).rows && Prepared(cfg, s, env, id, BeforeBatch(cfg, s, env).rows[id])
    ensures DueNow(BeforeBatch(cfg, s, env).rows[id], env.now, o)
    ensures BeforeBatch(cfg, s, env).rows[id].network == s.rows[id].network
  {
    RowBeforeBatch(cfg, s, env, id);
    DueFromMid(cfg, s, env, o, id, BeforeBatch(cfg, s, env).rows[id]);
  }

  lemma SteadyReply(b: Backends, c: Clock, p: Probe, r: Replies, o: Outside)
    requires SteadyClock(c, o) && SteadyProbe(b, p, o) && (o.server.ByCore? ==> !b.indexer)
    ensures Handover(b, c.health, r) == LastWord(b, r)
  {
  }

  lemma RowAfterDelivers(cfg: Setup, r: Row, read: Read, env: Env, reply: Reply)
    requires read.ok == Some(true) && ReplyTo(cfg, r.id, read, env) == reply
    ensures Delivered(cfg, r, reply, env.now, RowAfter(cfg, r, read, env))
  {
  }

  lemma IntactDueNeverStop(cfg: Setup, due: seq<string>, snap: map<string, Row>, seen: seq<Read>)
    requires |seen| == |due| && forall id | id in due :: id in snap
    requires forall i | 0 <= i < |due| :: !Tampered(cfg.mac, snap[due[i]]) && seen[i].ok.Some?
    ensures Stop(cfg, due, snap, seen) == |due| && due[..|due|] == due
  {
  }

  lemma LoopDelivers(cfg: Setup, due: seq<string>, s: State, env: Env, o: Outside, i: nat)
    requires Distinct(due) && Snapshot(s.rows, due, s.rows) && !s.safeMode && i < |due|
    requires forall j | 0 <= j < |due| :: !Tampered(cfg.mac, s.rows[due[j]]) && DueNow(s.rows[due[j]], env.now, o)
    requires SteadyClock(s.clock, o) && SteadyReads(cfg, env, o) && (o.server.ByCore? ==> !cfg.backends.indexer)
    ensures var end := Batch(cfg, due, s.rows, s, [], env).state;
            due[i] in end.rows
            && Delivered(cfg, s.rows[due[i]], LastWord(cfg.backends, env.replies(due[i])), env.now, end.rows[due[i]])
  {
    var seen := Reads(cfg, due, s.rows, s.clock, env);
    ReadsSteady(cfg, due, s.rows, s.clock, env, o);
    IntactDueNeverStop(cfg, due, s.rows, seen);
    BatchRows(cfg, due, s.rows, s, [], env);
    SteadyReply(cfg.backends, seen[i].clock, env.sendProbe(due[i]), env.replies(due[i]), o);
    RowAfterDelivers(cfg, s.rows[due[i]], seen[i], env, LastWord(cfg.backends, env.replies(due[i])));
  }

  lemma BatchDelivers(cfg: Setup, s: State, env: Env, o: Outside, id: string)
    requires Keyed(s.rows) && Lists(env.order, s.rows) && AllIntact(cfg.mac, s) && id in s.rows
    requires SteadyClock(s.clock, o) && SteadyReads(cfg, env, o) && (o.server.ByCore? ==> !cfg.backends.indexer)
    requires s.rows[id].status == Scheduled && s.rows[id].network == cfg.network && DueNow(s.rows[id], env.now, o)
    ensures var end := BroadcastDue(cfg, s, env).state;
            id in end.rows
            && Delivered(cfg, s.rows[id], LastWord(cfg.backends, env.replies(id)), env.now, end.rows[id])
  {
    var candidates := DueCandidates(env.order, s.rows, cfg.network);
    var (due, c1) := FilterDue(cfg, candidates, s.rows, s.clock, env);
    SelectedDue(cfg, s, env);
    FilterDueSteady(cfg, candidates, s.rows, s.clock, env, o);
    CandidatesAre(env.order, s.rows, cfg.network, id);
    assert forall j | 0 <= j < |due| :: due[j] in due;
    var i :| 0 <= i < |due| && due[i] == id;
    LoopDelivers(cfg, due, s.(clock := c1), env, o, i);
  }

  lemma BeforeBatchIntact(cfg: Setup, s: State, env: Env)
    requires OverCoveredColumns(cfg.mac) && Keyed(s.rows) && Lists(env.order, s.rows) && AllIntact(cfg.mac, s)
    ensures var mid := BeforeBatch(cfg, s, env);
            && Keyed(mid.rows) && mid.rows.Keys == s.rows.Keys && AllIntact(cfg.mac, mid) && mid.clock == s.clock
  {
    BeforeBatchKeyed(cfg, s, env);
    BeforeBatchEvolves(cfg, s, env);
    var mid := BeforeBatch(cfg, s, env);
    NoneTamperedPending(cfg, s, env);
    forall id | id in mid.rows ensures !Tampered(cfg.mac, mid.rows[id]) {
      assert Evolved(cfg.mac, s.rows[id], mid.rows[id]);
    }
  }

  /** A row that comes due with its lock open is handed over, whatever the backends answer to it and to the
      others: accepted, it is broadcast under the id given; refused for good, it has failed with the message;
      refused for now, it stays scheduled. No other column changes. */
  lemma TickDelivers(cfg: Setup, s: State, env: Env, o: Outside, id: string)
    requires OverCoveredColumns(cfg.mac) && Keyed(s.rows) && Lists(env.order, s.rows) && AllIntact(cfg.mac, s)
    requires CalmClock(s.clock, o) && SteadyReads(cfg, env, o) && (o.server.ByCore? ==> !cfg.backends.indexer)
    requires id in s.rows && s.rows[id].network == cfg.network && ComesDue(cfg, s, env, id)
    requires LockSatisfied(s.rows[id].nlocktime, o.height, o.mtp)
    ensures var t := Tick(cfg, s, env).state;
            id in t.rows
            && exists r: Row :: Prepared(cfg, s, env, id, r)
                                && Delivered(cfg, r, LastWord(cfg.backends, env.replies(id)), env.now, t.rows[id])
  {
    BeforeBatchIntact(cfg, s, env);
    PreparedBeforeBatch(cfg, s, env, o, id);
    BatchDelivers(cfg, BeforeBatch(cfg, s, env), env, o, id);
    assert Prepared(cfg, s, env, id, BeforeBatch(cfg, s, env).rows[id]);
  }

  /** What a refusal must say to count as one for now, in capital letters or small. */
  const FOR_NOW: set<string> := {"non-final", "non final", "not final", "locktime", "too-long-mempool-chain"}

  lemma RetriableExactly(msg: string)
    ensures IsRetriable(msg) <==> exists part | part in FOR_NOW :: Contains(Lower(msg), part)
  {
    if IsRetriable(msg) {
      assert exists part | part in FOR_NOW :: Contains(Lower(msg), part);
    }
  }

  // ----- Confirmed -----

  /** Fewer than 1000 broadcast rows of the network come before it. */
  ghost predicate AmongFirstBroadcast(order: seq<string>, rows: map<string, Row>, network: string, id: string) {
    exists i | 0 <= i < |order| ::
      order[i] == id && Ahead(order, rows, (r: Row) => r.status == Broadcast && r.network == network, i) < 1000
  }

  lemma BroadcastRowsExactly(order: seq<string>, rows: map<string, Row>, network: string, id: string)
    requires Lists(order, rows) && id in rows && rows[id].status == Broadcast && rows[id].network == network
    ensures id in BroadcastRows(order, rows, network) <==> AmongFirstBroadcast(order, rows, network, id)
  {
    var p := (r: Row) => r.status == Broadcast && r.network == network;
    var i :| 0 <= i < |order| && order[i] == id;
    LimitedExactly(order, rows, p, i);
    assert forall j | 0 <= j < |order| && order[j] == id :: j == i;
  }

  /** With a chain clock, a confirmation pass confirms exactly the rows sent on this network, as far as the
      query looks, that Core finds in a block; every other row stays as it was. */
  lemma ConfirmsExactlyTheMined(cfg: Setup, s: State, order: seq<string>, mined: string -> Option<nat>, now: int,
                                id: string)
    requires OverCoveredColumns(cfg.mac) && Lists(order, s.rows) && id in s.rows
    ensures var row, t := s.rows[id], ConfirmationPass(cfg, s, order, mined, now);
            var found := && s.clock.health.ClockAvailable() && row.status == Broadcast && row.network == cfg.network
                         && AmongFirstBroadcast(order, s.rows, cfg.network, id)
                         && row.txid.Some? && mined(row.txid.value).Some?;
            && id in t.rows
            && (found ==> && !Tampered(cfg.mac, t.rows[id])
                          && t.rows[id] == row.(status := Confirmed, blockHeight := mined(row.txid.value),
                                                confirmedAt := Some(now), updatedAt := now,
                                                rowMac := t.rows[id].rowMac))
            && (!found ==> t.rows[id] == row)
  {
    var row := s.rows[id];
    if row.status == Broadcast && row.network == cfg.network {
      BroadcastRowsExactly(order, s.rows, cfg.network, id);
    } else {
      assert id !in BroadcastRows(order, s.rows, cfg.network);
    }
    MutatorsReseal(cfg.mac);
  }

  lemma AfterDelivery(cfg: Setup, r: Row, reply: Reply, now: int, after: Row)
    requires Delivered(cfg, r, reply, now, after) && reply.Accepted?
    ensures after.status == Broadcast && after.txid == Some(reply.txid) && after.network == r.network
  {
  }

  /** From the hand-over to the block: a row that comes due and is accepted under an id, which Core later finds
      in a block, is confirmed with the height of that block. */
  lemma SentThenConfirmed(cfg: Setup, s: State, env: Env, o: Outside, id: string, order: seq<string>,
                          mined: string -> Option<nat>, now: int)
    requires OverCoveredColumns(cfg.mac) && Keyed(s.rows) && Lists(env.order, s.rows) && AllIntact(cfg.mac, s)
    requires CalmClock(s.clock, o) && SteadyReads(cfg, env, o) && (o.server.ByCore? ==> !cfg.backends.indexer)
    requires id in s.rows && s.rows[id].network == cfg.network && ComesDue(cfg, s, env, id)
    requires LockSatisfied(s.rows[id].nlocktime, o.height, o.mtp)
    requires LastWord(cfg.backends, env.replies(id)).Accepted?
    requires mined(LastWord(cfg.backends, env.replies(id)).txid).Some?
    requires var t := Tick(cfg, s, env).state;
             t.clock.health.ClockAvailable() && Lists(order, t.rows)
             && AmongFirstBroadcast(order, t.rows, cfg.network, id)
    ensures var u := ConfirmationPass(cfg, Tick(cfg, s, env).state, order, mined, now);
            id in u.rows && u.rows[id].status == Confirmed
            && u.rows[id].blockHeight == mined(LastWord(cfg.backends, env.replies(id)).txid)
  {
    var t, reply := Tick(cfg, s, env).state, LastWord(cfg.backends, env.replies(id));
    TickDelivers(cfg, s, env, o, id);
    var r :| Prepared(cfg, s, env, id, r) && Delivered(cfg, r, reply, env.now, t.rows[id]);
    AfterDelivery(cfg, r, reply, env.now, t.rows[id]);
    ConfirmsExactlyTheMined(cfg, t, order, mined, now, id);
  }

  // ----- Tried again, acknowledged, called for -----

  lemma RetriedRow(cfg: Setup, s: State, id: string, now: int)
    requires OverCoveredColumns(cfg.mac) && Keyed(s.rows) && id in s.rows && s.rows[id].status == Failed
    ensures var row, s1 := s.rows[id], Retry(cfg, s, id, now);
            && id in s1.rows && s1 == s.(rows := s1.rows) && s1.rows == s.rows[id := s1.rows[id]]
            && s1.rows[id] == row.(status := Scheduled, errorMessage := None, updatedAt := now,
                                   rowMac := s1.rows[id].rowMac)
            && !Tampered(cfg.mac, s1.rows[id])
  {
    MutatorsReseal(cfg.mac);
  }

  lemma ScheduledComesDue(cfg: Setup, s: State, env: Env, id: string)
    requires id in s.rows && s.rows[id].status == Scheduled
    ensures ComesDue(cfg, s, env, id) <==> TimeCome(s.rows[id], env.now)
  {
  }

  /** A retry by the user puts a failed row back in line: the next tick sends it exactly if its time has come
      and its lock is open. */
  lemma RetriedGoesOut(cfg: Setup, s: State, id: string, now: int, env: Env, o: Outside)
    requires Calm(cfg, s, env, o) && id in s.rows && s.rows[id].status == Failed && s.rows[id].network == cfg.network
    ensures var row, s1 := s.rows[id], Retry(cfg, s, id, now);
            && Keyed(s1.rows) && id in s1.rows && s1.rows[id].errorMessage.None?
            && id in Tick(cfg, s1, env).state.rows
            && (Tick(cfg, s1, env).state.rows[id].status == Broadcast
                <==> TimeCome(row, env.now) && LockSatisfied(row.nlocktime, o.height, o.mtp))
  {
    var s1 := Retry(cfg, s, id, now);
    RetriedRow(cfg, s, id, now);
    ReplacingARowStaysCalm(cfg, s, id, s1.rows[id], env, o);
    TickBroadcastsExactlyTheDue(cfg, s1, env, o, id);
    ScheduledComesDue(cfg, s1, env, id);
  }

  lemma ClearingChangesNoRow(cfg: Setup, s: State, env: Env, id: string)
    requires id in s.rows
    ensures ComesDue(cfg, ClearSafeMode(s), env, id) == ComesDue(cfg, s, env, id)
  {
    assert TriedAgain(cfg, ClearSafeMode(s), env.order, id) == TriedAgain(cfg, s, env.order, id);
  }

  /** The acknowledgement ends the halt: a tick before it sends nothing and changes nothing, the same tick after
      it sends exactly what is due. */
  lemma AcknowledgedSendsAgain(cfg: Setup, s: State, env: Env, o: Outside, id: string)
    requires s.safeMode && OverCoveredColumns(cfg.mac) && Keyed(s.rows) && Lists(env.order, s.rows)
    requires (forall k | k in s.rows :: !Tampered(cfg.mac, s.rows[k])) && CalmClock(s.clock, o)
    requires SteadyEnv(cfg, env, o) && id in s.rows
    ensures Tick(cfg, s, env).state == s
    ensures var s1 := ClearSafeMode(s);
            var row, t := s.rows[id], Tick(cfg, s1, env).state;
            && s1.tamperedIds == [] && id in t.rows
            && (t.rows[id].status == Broadcast
                <==> row.status == Broadcast
                     || (row.network == cfg.network && ComesDue(cfg, s, env, id)
                         && LockSatisfied(row.nlocktime, o.height, o.mtp)))
  {
    var s1 := ClearSafeMode(s);
    assert Calm(cfg, s1, env, o);
    TickBroadcastsExactlyTheDue(cfg, s1, env, o, id);
    ClearingChangesNoRow(cfg, s, env, id);
  }

  /** A broadcast that the user calls for is refused in safe mode, and for a tampered row it starts safe mode;
      in neither case is anything sent or any row changed. */
  lemma BroadcastRefusedUnsafe(cfg: Setup, s: State, id: string, now: int, p: Probe, replies: Replies)
    requires Keyed(s.rows) && id in s.rows && (s.safeMode || Tampered(cfg.mac, s.rows[id]))
    ensures var t := BroadcastNow(cfg, s, id, now, p, replies);
            && t.sent == s.sent && t.rows == s.rows && t.safeMode
            && (!s.safeMode ==> id in t.tamperedIds) && (s.safeMode ==> t == s)
  {
  }

  /** The columns of a row that such a broadcast sends. */
  lemma BroadcastOnDemandDelivers(cfg: Setup, s: State, id: string, now: int, p: Probe, replies: Replies, o: Outside)
    requires OverCoveredColumns(cfg.mac) && Keyed(s.rows) && AllIntact(cfg.mac, s) && id in s.rows
    requires SteadyClock(s.clock, o) && SteadyProbe(cfg.backends, p, o) && (o.server.ByCore? ==> !cfg.backends.indexer)
    requires s.rows[id].status != Broadcast && s.rows[id].status != Confirmed
    requires LockSatisfied(s.rows[id].nlocktime, o.height, o.mtp)
    ensures var t, reply := BroadcastNow(cfg, s, id, now, p, replies), LastWord(cfg.backends, replies);
            && id in t.rows
            && (reply.Accepted? ==> Delivered(cfg, s.rows[id], reply, now, t.rows[id])
                                    && t.sent == s.sent + [Emission(id, s.rows[id].nlocktime, now, true)])
            && (reply.Refused? ==> t.rows == s.rows && t.sent == s.sent)
  {
    CheckLockSteady(cfg.backends, s.clock, s.rows[id].nlocktime, p, o);
    SteadyReply(cfg.backends, CheckLock(cfg.backends, s.clock, s.rows[id].nlocktime, p).1, p, replies, o);
  }

  // ----- The two passes that make rows due -----

  /** A pass of the height monitor makes due exactly the pending by_block rows of this network with a block
      height the chain has reached. */
  lemma MonitorTakesExactly(cfg: Setup, s: State, order: seq<string>, p: Probe, now: int, id: string)
    requires Lists(order, s.rows) && id in s.rows && s.clock.health.ClockAvailable()
    ensures var row, t := s.rows[id], BlockMonitor(cfg, s, order, p, now);
            var height := ReadHeight(cfg.backends, s.clock, p).0;
            var reached := && height.Some? && row.status == Pending && row.mode == Some("by_block")
                           && row.network == cfg.network && 0 < row.nlocktime < 500_000_000
                           && row.nlocktime <= height.value;
            && id in t.rows
            && t.rows[id] == if reached then row.(status := Scheduled, scheduledTime := Some(now), updatedAt := now,
                                                  rowMac := t.rows[id].rowMac)
                             else row
  {
  }

  /** A price check makes due exactly the waiting rows of this network whose trigger is a price, once the price
      of their currency (the dollar if none is named) is on the side of the target they ask for (above, unless
      they say below); from then on they wait for their time like any other. */
  lemma PriceCheckTakesExactly(cfg: Setup, s: State, order: seq<string>, prices: map<string, int>, now: int, id: string)
    requires Lists(order, s.rows) && id in s.rows
    ensures var row, t := s.rows[id], PriceCheck(cfg, s, order, prices, now);
            var currency := if row.priceCurrency.Some? then row.priceCurrency.value else "usd";
            var met := && (row.status == Pending || row.status == Scheduled) && row.network == cfg.network
                       && row.trigger == Some("price") && row.targetPrice.Some? && currency in prices
                       && if row.priceCondition == Some("below") then prices[currency] <= row.targetPrice.value
                          else prices[currency] >= row.targetPrice.value;
            && id in t.rows
            && t.rows[id] == if met then row.(status := Scheduled, scheduledTime := Some(now),
                                              trigger := Some("datetime"), updatedAt := now,
                                              rowMac := t.rows[id].rowMac)
                             else row
  {
  }

  // ----- What a new schedule replaces -----

  /** The row has had a time, a deferral, a price or a miss, or is in one of the modes that wait for a time. */
  predicate ScheduledBefore(r: Row) {
    || r.scheduledTime.Some? || r.deferUntil.Some? || r.missedAt.Some? || r.trigger == Some("price")
    || r.mode in {Some("scheduled"), Some("manual"), Some("imported")}
  }

  /** An accepted time replaces whatever the row waited for before: a deferral, a price, an error. It is
      reached exactly from that time on, and no price check touches the row any more. */
  lemma NewTimeReplacesAll(cfg: Setup, s: State, id: string, at: int, now: int, order: seq<string>,
                           prices: map<string, int>, checkedAt: int)
    requires OverCoveredColumns(cfg.mac) && Keyed(s.rows) && Lists(order, s.rows) && id in s.rows
    requires at > now && (s.rows[id].nlocktime > 500_000_000 ==> at >= s.rows[id].nlocktime * 1_000_000_000)
    ensures var s1 := ScheduleAt(cfg, s, id, at, now);
            && id in s1.rows && s1 == s.(rows := s.rows[id := s1.rows[id]])
            && var r := s1.rows[id];
               && r.status == Scheduled && r.errorMessage.None? && !Tampered(cfg.mac, r)
               && (forall t: int :: TimeCome(r, t) <==> at <= t)
               && r.deferUntil == (if ScheduledBefore(s.rows[id]) then Some(at) else None)
               && r.targetPrice.None? && r.priceCurrency.None? && r.priceCondition.None?
               && r.txHex == s.rows[id].txHex && r.nlocktime == s.rows[id].nlocktime && r.mode == s.rows[id].mode
               && r.network == s.rows[id].network && r.txid == s.rows[id].txid
               && id in PriceCheck(cfg, s1, order, prices, checkedAt).rows
               && PriceCheck(cfg, s1, order, prices, checkedAt).rows[id] == r
  {
    MutatorsReseal(cfg.mac);
    var s1 := ScheduleAt(cfg, s, id, at, now);
    assert s1.rows.Keys == s.rows.Keys;
    PriceCheckTakesExactly(cfg, s1, order, prices, checkedAt, id);
  }

  /** A schedule that is not accepted changes nothing. */
  lemma RefusedScheduleChangesNothing(cfg: Setup, s: State, id: string, at: int, now: int)
    requires id in s.rows
    requires at <= now || (s.rows[id].nlocktime > 500_000_000 && at < s.rows[id].nlocktime * 1_000_000_000)
    ensures ScheduleAt(cfg, s, id, at, now) == s
  {
  }

  /** A price to wait for takes the row out of every tick until a check sees it. */
  lemma NewPriceHoldsTheRow(cfg: Setup, s: State, id: string, target: int, currency: string, condition: string,
                            now: int, env: Env, o: Outside)
    requires Calm(cfg, s, env, o) && id in s.rows
    requires target > 0 && Lower(currency) in {"eur", "usd"} && Lower(condition) in {"above", "below"}
    requires (s.rows[id].status == Pending || s.rows[id].status == Scheduled) && s.rows[id].nlocktime == 0
    requires s.rows[id].mode == Some("manual") || s.rows[id].mode == Some("imported")
    ensures var s1 := ScheduleByPrice(cfg, s, id, target, currency, condition, now);
            && Keyed(s1.rows) && id in s1.rows && id in Tick(cfg, s1, env).state.rows
            && var r := s1.rows[id];
               && r.status == Pending && r.scheduledTime.None? && r.deferUntil.None? && r.errorMessage.None?
               && r.targetPrice == Some(target) && r.priceCurrency == Some(Lower(currency))
               && r.priceCondition == Some(Lower(condition)) && r.trigger == Some("price")
               && Tick(cfg, s1, env).state.rows[id] == r
  {
    PriceAccepted(s.rows[id], target, currency, condition);
    ScheduleByPriceStaysCalm(cfg, s, id, target, currency, condition, now, env, o);
    TickLeavesTheRest(cfg, ScheduleByPrice(cfg, s, id, target, currency, condition, now), env, o, id);
  }

  /** A due row whose time lock turns out shut at the hand-over is not sent. The first such miss is dated and
      keeps the time the row was meant for; later ones change nothing more. */
  lemma MissIsRecordedOnce(cfg: Setup, r: Row, read: Read, env: Env, later: Env)
    requires read.ok == Some(false)
    ensures var once := RowAfter(cfg, r, read, env);
            && Sent(cfg, r, read, env) == [] && RowAfter(cfg, once, read, later) == once
            && (r.nlocktime > 500_000_000 && r.missedAt.None? ==>
                  once == r.(missedAt := Some(env.now), updatedAt := env.now,
                             originalScheduled := once.originalScheduled)
                  && once.originalScheduled
                     == if r.originalScheduled.Some? then r.originalScheduled else r.scheduledTime)
            && (r.nlocktime <= 500_000_000 || r.missedAt.Some? ==> once == r)
  {
  }
}
