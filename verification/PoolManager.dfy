/** `PoolManager`: the state updated in place, one method per loop body or API call, each proved
    equal to its function in module Pool. */
module PoolManagers {
  import opened Prelude
  import opened ChainSource
  import opened Rows
  import opened Pool

  lemma UpdatedOneMore(rows: map<string, Row>, ids: seq<string>, i: nat, f: Row -> Row)
    requires i < |ids| && Distinct(ids) && ids[i] in rows
    ensures var done := Updated(rows, ids[..i], f);
            && done[ids[i]] == rows[ids[i]]
            && Updated(rows, ids[..i + 1], f) == done[ids[i] := f(rows[ids[i]])]
  {
    assert ids[..i + 1] == ids[..i] + [ids[i]];
  }

  /** What one row of the batch leads to: the end of the batch, or the next row. */
  datatype Turn = Halt(results: Option<seq<(string, Reply)>>) | Next(sentSoFar: seq<(string, Reply)>)

  function OneDue(cfg: Setup, row: Row, s: State, results: seq<(string, Reply)>, env: Env): (State, Turn)
    requires row.id in s.rows
  {
    if s.safeMode then (s, Halt(Some(results)))
    else if Tampered(cfg.mac, row) then (Pool.EnterSafeMode(s, row.id), Halt(Some(results)))
    else
      var (ok, c1) := CheckLock(cfg.backends, s.clock, row.nlocktime, env.sendProbe(row.id));
      var s1 := s.(clock := c1);
      if ok.None? then (s1, Halt(None))
      else
        var reply := Handover(cfg.backends, c1.health, env.replies(row.id));
        (AfterCheck(cfg, s1, row, ok.value, reply, env.now),
         Next(if ok.value then results + [(row.id, reply)] else results))
  }

  lemma BatchTakesOne(cfg: Setup, due: seq<string>, snap: map<string, Row>, s: State,
                      results: seq<(string, Reply)>, env: Env)
    requires due != [] && Keyed(snap) && snap.Keys == s.rows.Keys && forall id | id in due :: id in snap
    ensures var (s1, turn) := OneDue(cfg, snap[due[0]], s, results, env);
            && s1.rows.Keys == s.rows.Keys
            && Batch(cfg, due, snap, s, results, env) == match turn
               case Halt(r) => TickEnd(s1, r)
               case Next(r) => Batch(cfg, due[1..], snap, s1, r, env)
  {
  }

  predicate WaitsForItsTime(rows: map<string, Row>, id: string) {
    id in rows && rows[id].id == id && (IsUserScheduledMode(rows[id].mode) || rows[id].mode == Some("scheduled"))
  }

  lemma StillWaits(rows: map<string, Row>, ids: seq<string>, i: nat, f: Row -> Row)
    requires i < |ids| && Distinct(ids) && WaitsForItsTime(rows, ids[i])
    ensures var done := Updated(rows, ids[..i], f);
            && WaitsForItsTime(done, ids[i]) && done[ids[i]] == rows[ids[i]]
            && Updated(rows, ids[..i + 1], f) == done[ids[i] := f(rows[ids[i]])]
            && ids[..i + 1] == ids[..i] + [ids[i]]
  {
    UpdatedOneMore(rows, ids, i, f);
  }

  ghost predicate NoneTampered(mac: RowMac, ids: seq<string>, rows: map<string, Row>) {
    forall id | id in ids :: id in rows && !Tampered(mac, rows[id])
  }

  lemma PendingPassStops(cfg: Setup, ids: seq<string>, s: State, i: nat, now: int)
    requires i < |ids| && forall id | id in ids :: id in s.rows
    requires NoneTampered(cfg.mac, ids[..i], s.rows) && Tampered(cfg.mac, s.rows[ids[i]])
    ensures MarkPendingDue(cfg, ids, s, now)
         == Pool.EnterSafeMode(s.(rows := Updated(s.rows, ids[..i], DueUnlessPriceRow(cfg.mac, now))), ids[i])
  {
    assert forall j | 0 <= j < i :: ids[j] in ids[..i];
    assert FirstTampered(cfg.mac, ids, s.rows) == i;
  }

  lemma PendingPassEnds(cfg: Setup, ids: seq<string>, s: State, now: int)
    requires NoneTampered(cfg.mac, ids, s.rows)
    ensures MarkPendingDue(cfg, ids, s, now) == s.(rows := Updated(s.rows, ids, DueUnlessPriceRow(cfg.mac, now)))
  {
    assert ids[..|ids|] == ids;
    assert FirstTampered(cfg.mac, ids, s.rows) == |ids|;
  }

  class PoolManager {
    const cfg: Setup
    var rows: map<string, Row>
    var safeMode: bool
    var tamperedIds: seq<string>
    var health: ChainHealth
    var mtpCache: Option<CachedMtp>
    ghost var sent: seq<Emission>   // what has been handed to the network so far

    ghost function View(): State
      reads this
    {
      State(rows, safeMode, tamperedIds, Clock(health, mtpCache), sent)
    }

    /** On the table as the database leaves it when it is opened. */
    constructor (mac: Mac, backends: Backends, network: string, table: map<string, Row>, ghost past: seq<Emission>)
      ensures cfg == Setup(RowMacOf(mac), IsRetriable, backends, network)
      ensures View() == State(table, false, [], Clock(UNPOLLED, None), past)
    {
      cfg := Setup(RowMacOf(mac), IsRetriable, backends, network);
      rows, safeMode, tamperedIds, health, mtpCache, sent := table, false, [], UNPOLLED, None, past;
    }

    // ----- Safe mode -----

    method EnterSafeMode(id: string)
      modifies this`safeMode, this`tamperedIds
      ensures View() == Pool.EnterSafeMode(old(View()), id)
    {
      safeMode := true;
      if id !in tamperedIds {
        tamperedIds := tamperedIds + [id];
      }
    }

    method ClearSafeMode()
      modifies this`safeMode, this`tamperedIds
      ensures View() == Pool.ClearSafeMode(old(View()))
    {
      safeMode := false;
      tamperedIds := [];
    }

    // ----- Chain clock -----

    method GetMedianTimePast(p: Probe) returns (mtp: Option<nat>)
      modifies this`health
      ensures (mtp, Clock(health, mtpCache)) == ReadMtp(cfg.backends, old(Clock(health, mtpCache)), p)
      ensures cfg.backends.core && p.coreMtp.Some? ==> mtp == p.coreMtp && health == old(health)
      ensures !(cfg.backends.core && p.coreMtp.Some?) ==>
                mtp == if cfg.backends.indexer && (old(health.indexerUp) || !old(health.polled)) then p.indexerMtp
                       else None
      ensures health != old(health) ==> mtp.None? && p.indexerMtp.None? && !health.ShouldTryIndexer()
    {
      if cfg.backends.core && p.coreMtp.Some? {
        return p.coreMtp;
      }
      if health.ShouldTryIndexer() && cfg.backends.indexer {
        if p.indexerMtp.Some? {
          return p.indexerMtp;
        }
        health := health.IndexerFailed();
      }
      return None;
    }

    method GetMedianTimePastCached(p: Probe) returns (mtp: Option<nat>)
      modifies this`health, this`mtpCache
      ensures (mtp, Clock(health, mtpCache)) == ReadMtpCached(cfg.backends, old(Clock(health, mtpCache)), p)
      ensures old(mtpCache).Some? && p.at - old(mtpCache).value.fetchedAt < 30_000 ==>
                mtp == Some(old(mtpCache).value.mtp) && health == old(health) && mtpCache == old(mtpCache)
      ensures mtp.Some? ==> mtpCache.Some? && mtpCache.value.mtp == mtp.value
                            && (mtpCache == old(mtpCache) || mtpCache.value.fetchedAt == p.at)
      ensures mtp.None? ==> mtpCache == old(mtpCache)
    {
      if mtpCache.Some? && p.at < mtpCache.value.fetchedAt + MTP_TTL {
        return Some(mtpCache.value.mtp);
      }
      mtp := GetMedianTimePast(p);
      if mtp.Some? {
        mtpCache := Some(CachedMtp(p.at, mtp.value));
      }
    }

    method CheckBlockHeight(p: Probe) returns (height: Option<nat>)
      modifies this`health
      ensures (height, Clock(health, mtpCache)) == ReadHeight(cfg.backends, old(Clock(health, mtpCache)), p)
      ensures var asked := cfg.backends.indexer && (old(health.indexerUp) || !old(health.polled));
              && (asked && p.indexerHeight.Some? ==>
                    height == p.indexerHeight == health.height && health.indexerUp && health.ClockAvailable())
              && (asked && p.indexerHeight.None? ==>
                    !health.ShouldTryIndexer() && (health.ClockAvailable() <==> health.coreUp && !health.coreIbd))
              && (!asked ==> health == old(health))
              && (!(asked && p.indexerHeight.Some?) ==> height == if cfg.backends.core then p.coreHeight else None)
    {
      if health.ShouldTryIndexer() && cfg.backends.indexer {
        if p.indexerHeight.Some? {
          health := health.IndexerAnswered(p.indexerHeight.value);
          return p.indexerHeight;
        }
        health := health.IndexerFailed();
      }
      if cfg.backends.core {
        return p.coreHeight;
      }
      return None;
    }

    method IsLocktimeSatisfied(nlocktime: nat, p: Probe) returns (ok: Option<bool>)
      modifies this`health, this`mtpCache
      ensures (ok, Clock(health, mtpCache)) == CheckLock(cfg.backends, old(Clock(health, mtpCache)), nlocktime, p)
    {
      if nlocktime == 0 {
        return Some(true);
      }
      if nlocktime > LOCKTIME_THRESHOLD {
        var mtp := GetMedianTimePastCached(p);
        return if mtp.None? then None else Some(mtp.value >= nlocktime);
      }
      var height := CheckBlockHeight(p);
      return Some(height.Some? && height.value >= nlocktime);
    }

    method RefreshChainHealth(p: Probe, core: CoreStatus)
      modifies this`health, this`mtpCache
      ensures View() == HealthPoll(old(View()), p, core)
      ensures health.ClockAvailable() <==> p.indexerHeight.Some? || (core.CoreUp? && !core.ibd)
      ensures health.ShouldTryIndexer() <==> p.indexerHeight.Some?
      ensures p.indexerHeight.Some? ==> health.height == p.indexerHeight
      ensures p.indexerHeight.None? ==> health.height == if core.CoreUp? then Some(core.height) else None
      ensures mtpCache == if core.CoreUp? then Some(CachedMtp(p.at, core.mtp)) else old(mtpCache)
    {
      var height, mtp := p.indexerHeight, health.mtp;
      var ibd := false;
      if core.CoreUp? {
        ibd := core.ibd;
        mtp := Some(core.mtp);
        if height.None? {
          height := Some(core.height);
        }
      }
      var source := DecideChainSource(p.indexerHeight.Some?, core.CoreUp?, ibd);
      health := ChainHealth(p.indexerHeight.Some?, core.CoreUp?, ibd, height, mtp, source, true);
      if core.CoreUp? {
        mtpCache := Some(CachedMtp(p.at, core.mtp));
      }
    }

    // ----- The scheduler tick -----

    method BroadcastTransaction(replies: Replies) returns (reply: Reply)
      ensures reply == Handover(cfg.backends, health, replies)
      ensures var asked := cfg.backends.indexer && (health.indexerUp || !health.polled);
              && (asked && replies.indexer.Accepted? ==> reply == replies.indexer)
              && (!(asked && replies.indexer.Accepted?) && cfg.backends.core ==> reply == replies.core)
              && (!cfg.backends.core && asked ==> reply == replies.indexer)
              && (!cfg.backends.core && !asked ==> reply.Refused?)
    {
      var indexerError: Option<Reply> := None;
      if health.ShouldTryIndexer() {
        if cfg.backends.indexer {
          if replies.indexer.Accepted? {
            return replies.indexer;
          }
          indexerError := Some(replies.indexer);
        }
      }
      if cfg.backends.core {
        return replies.core;
      }
      if indexerError.Some? {
        return indexerError.value;
      }
      return Refused("No broadcast backend available (neither Indexer nor RPC)");
    }

    /** One pending row whose time has come; a tampered one ends the pass. */
    method MarkDueUnlessPrice(id: string, now: int) returns (stopped: bool)
      requires WaitsForItsTime(rows, id) && !safeMode
      modifies this`rows, this`safeMode, this`tamperedIds
      ensures stopped <==> Tampered(cfg.mac, old(rows)[id])
      ensures View() == if stopped then Pool.EnterSafeMode(old(View()), id)
                        else old(View()).(rows := old(rows)[id := DueUnlessPriceRow(cfg.mac, now)(old(rows)[id])])
    {
      var tx := rows[id];
      assert rows[id := tx] == rows;
      if Tampered(cfg.mac, tx) {
        EnterSafeMode(tx.id);
        return true;
      }
      if !(IsUserScheduledMode(tx.mode) || tx.mode == Some("scheduled")) {
        return false;
      }
      if tx.trigger == Some("price") {
        return false;
      }
      rows := rows[id := MarkDueRow(cfg.mac, tx, now)];
      return false;
    }

    method MarkRowsDue(ids: seq<string>, now: int)
      requires Distinct(ids) && !safeMode
      requires forall id | id in ids :: id in rows && WaitsForItsTime(rows, id)
      modifies this`rows, this`safeMode, this`tamperedIds
      ensures View() == MarkPendingDue(cfg, ids, old(View()), now)
    {
      ghost var s, snap, f := View(), rows, DueUnlessPriceRow(cfg.mac, now);
      var i := 0;
      assert rows == Updated(snap, ids[..0], f);
      while i < |ids|
        invariant 0 <= i <= |ids| && View() == s.(rows := Updated(snap, ids[..i], f))
        invariant NoneTampered(cfg.mac, ids[..i], snap)
      {
        assert ids[i] in ids;
        StillWaits(snap, ids, i, f);
        var stopped := MarkDueUnlessPrice(ids[i], now);
        if stopped {
          PendingPassStops(cfg, ids, s, i, now);
          return;
        }
        i := i + 1;
      }
      assert ids[..i] == ids;
      PendingPassEnds(cfg, ids, s, now);
    }

    /** The pending loop of `run_scheduler_tick`. */
    method MarkPendingRowsDue(order: seq<string>, now: int)
      requires Keyed(rows) && Distinct(order) && !safeMode
      modifies this`rows, this`safeMode, this`tamperedIds
      ensures View() == MarkPendingDue(cfg, PendingReached(order, old(rows), cfg.network, now), old(View()), now)
    {
      var ids := PendingReached(order, rows, cfg.network, now);
      MarkRowsDue(ids, now);
    }

    method RequeueIfRetriable(id: string, now: int) returns (requeued: bool)
      requires id in rows
      modifies this`rows
      ensures rows == old(rows)[id := RequeueRow(cfg, now)(old(rows)[id])]
      ensures requeued <==> WorthRequeueing(cfg, old(rows)[id])
    {
      requeued := WorthRequeueing(cfg, rows[id]);
      if requeued {
        rows := rows[id := RequeuedRow(cfg.mac, rows[id], now)];
      } else {
        assert rows[id := rows[id]] == rows;
      }
    }

    method RequeueRows(failed: seq<string>, now: int) returns (count: nat)
      requires Distinct(failed) && forall id | id in failed :: id in rows
      modifies this`rows
      ensures rows == Updated(old(rows), failed, RequeueRow(cfg, now))
    {
      ghost var snap, f := rows, RequeueRow(cfg, now);
      count := 0;
      var i := 0;
      assert rows == Updated(snap, failed[..0], f);
      while i < |failed|
        invariant 0 <= i <= |failed| && rows == Updated(snap, failed[..i], f)
      {
        UpdatedOneMore(snap, failed, i, f);
        var requeued := RequeueIfRetriable(failed[i], now);
        if requeued {
          count := count + 1;
        }
        i := i + 1;
      }
      assert failed[..i] == failed;
    }

    method RequeueRetriableFailures(order: seq<string>, now: int) returns (count: nat)
      requires Distinct(order)
      modifies this`rows
      ensures View() == RequeueFailures(cfg, order, old(View()), now)
    {
      count := RequeueRows(FailedRows(order, rows, cfg.network), now);
    }

    /** `candidate_txs.filter(is_tx_due_for_broadcast)`. */
    method SelectDue(candidates: seq<string>, env: Env) returns (due: seq<string>)
      requires forall id | id in candidates :: id in rows
      modifies this`health, this`mtpCache
      ensures (due, Clock(health, mtpCache)) == FilterDue(cfg, candidates, rows, old(Clock(health, mtpCache)), env)
    {
      due := [];
      var i := 0;
      ghost var c0 := Clock(health, mtpCache);
      assert candidates[0..] == candidates;
      assert [] + FilterDue(cfg, candidates, rows, c0, env).0 == FilterDue(cfg, candidates, rows, c0, env).0;
      while i < |candidates|
        invariant 0 <= i <= |candidates|
        invariant var (rest, c) := FilterDue(cfg, candidates[i..], rows, Clock(health, mtpCache), env);
                  FilterDue(cfg, candidates, rows, c0, env) == (due + rest, c)
      {
        var tx := rows[candidates[i]];
        var isDue := IsTxDueForBroadcast(tx, env.now, env.filterProbe(candidates[i]));
        ghost var (rest, c) := FilterDue(cfg, candidates[i + 1..], rows, Clock(health, mtpCache), env);
        assert candidates[i..][1..] == candidates[i + 1..];
        if isDue {
          assert due + ([candidates[i]] + rest) == (due + [candidates[i]]) + rest;
          due := due + [candidates[i]];
        }
        i := i + 1;
      }
      assert due + [] == due;
    }

    method IsTxDueForBroadcast(tx: Row, now: int, p: Probe) returns (due: bool)
      modifies this`health, this`mtpCache
      ensures (due, Clock(health, mtpCache)) == IsDue(cfg, tx, now, old(Clock(health, mtpCache)), p)
      ensures due ==> CheckLock(cfg.backends, old(Clock(health, mtpCache)), tx.nlocktime, p).0 == Some(true)
    {
      if tx.trigger == Some("price") && tx.status == Pending {
        return false;
      }
      var ok := IsLocktimeSatisfied(tx.nlocktime, p);
      if ok.None? {
        return false;
      }
      if tx.deferUntil.Some? {
        if now < tx.deferUntil.value {
          return false;
        }
        return ok.value;
      }
      if tx.scheduledTime.Some? && tx.scheduledTime.value <= now {
        return ok.value;
      }
      return false;
    }

    method RecordMiss(tx: Row, now: int)
      requires tx.id in rows
      modifies this`rows
      ensures View() == Missed(old(View()), tx, now)
    {
      if tx.nlocktime > LOCKTIME_THRESHOLD {
        if tx.missedAt.None? {
          rows := rows[tx.id := MissedRow(rows[tx.id], now, tx.scheduledTime)];
        }
      }
    }

    method RecordReply(tx: Row, reply: Reply, now: int)
      requires tx.id in rows
      modifies this`rows, this`sent
      ensures View() == Deliver(cfg, old(View()), tx, reply, now, false)
    {
      match reply {
        case Accepted(txid) =>
          rows := rows[tx.id := MarkBroadcastRow(cfg.mac, rows[tx.id], txid, now)];
          sent := sent + [Emission(tx.id, tx.nlocktime, now, false)];
        case Refused(msg) =>
          if !cfg.retriable(msg) {
            rows := rows[tx.id := FailedRow(cfg.mac, rows[tx.id], msg, now)];
          }
      }
    }

    method HandleDue(tx: Row, results: seq<(string, Reply)>, env: Env) returns (turn: Turn)
      requires tx.id in rows
      modifies this
      ensures (View(), turn) == OneDue(cfg, tx, old(View()), results, env)
    {
      if safeMode {
        return Halt(Some(results));
      }
      if Tampered(cfg.mac, tx) {
        EnterSafeMode(tx.id);
        return Halt(Some(results));
      }
      var ok := IsLocktimeSatisfied(tx.nlocktime, env.sendProbe(tx.id));
      if ok.None? {
        return Halt(None);
      }
      if !ok.value {
        RecordMiss(tx, env.now);
        return Next(results);
      }
      var reply := BroadcastTransaction(env.replies(tx.id));
      RecordReply(tx, reply, env.now);
      return Next(results + [(tx.id, reply)]);
    }

    /** The loop of `broadcast_due_transactions`. */
    method SendBatch(due: seq<string>, env: Env) returns (results: Option<seq<(string, Reply)>>)
      requires Keyed(rows) && forall id | id in due :: id in rows
      modifies this
      ensures TickEnd(View(), results) == Batch(cfg, due, old(rows), old(View()), [], env)
    {
      var snap := rows;
      var sentResults: seq<(string, Reply)> := [];
      ghost var whole := Batch(cfg, due, snap, View(), [], env);
      var i := 0;
      assert due[0..] == due;
      while i < |due|
        invariant 0 <= i <= |due| && snap.Keys == rows.Keys
        invariant Batch(cfg, due[i..], snap, View(), sentResults, env) == whole
      {
        assert due[i..][0] == due[i] && due[i..][1..] == due[i + 1..];
        BatchTakesOne(cfg, due[i..], snap, View(), sentResults, env);
        var turn := HandleDue(snap[due[i]], sentResults, env);
        if turn.Halt? {
          return turn.results;
        }
        sentResults := turn.sentSoFar;
        i := i + 1;
      }
      return Some(sentResults);
    }

    method BroadcastDueTransactions(env: Env) returns (results: Option<seq<(string, Reply)>>)
      requires Keyed(rows) && Distinct(env.order)
      modifies this
      ensures TickEnd(View(), results) == BroadcastDue(cfg, old(View()), env)
    {
      if safeMode {
        return Some([]);
      }
      var due := SelectDue(DueCandidates(env.order, rows, cfg.network), env);
      results := SendBatch(due, env);
    }

    method RunSchedulerTick(env: Env) returns (results: Option<seq<(string, Reply)>>)
      requires Keyed(rows) && Distinct(env.order)
      modifies this
      ensures TickEnd(View(), results) == Tick(cfg, old(View()), env)
    {
      if safeMode {
        return Some([]);
      }
      if !health.ClockAvailable() {
        return None;
      }
      ghost var s := View();
      MarkPendingRowsDue(env.order, env.now);
      var requeued := RequeueRetriableFailures(env.order, env.now);
      BeforeBatchKeyed(cfg, s, env);
      assert View() == BeforeBatch(cfg, s, env);
      results := BroadcastDueTransactions(env);
    }

    // ----- Other loop bodies and calls -----

    method BroadcastNow(id: string, now: int, p: Probe, replies: Replies) returns (txid: Option<string>)
      requires Keyed(rows)
      modifies this
      ensures View() == Pool.BroadcastNow(cfg, old(View()), id, now, p, replies)
      ensures txid.Some? <==> |sent| == |old(sent)| + 1
    {
      if safeMode || id !in rows {
        return None;
      }
      var tx := rows[id];
      if Tampered(cfg.mac, tx) {
        EnterSafeMode(tx.id);
        return None;
      }
      if tx.status == Broadcast || tx.status == Confirmed {
        return None;
      }
      var ok := IsLocktimeSatisfied(tx.nlocktime, p);
      if ok != Some(true) {
        return None;
      }
      var reply := BroadcastTransaction(replies);
      if reply.Refused? {
        return None;
      }
      rows := rows[id := MarkBroadcastRow(cfg.mac, tx, reply.txid, now)];
      sent := sent + [Emission(id, tx.nlocktime, now, true)];
      return Some(reply.txid);
    }

    method MarkDueAtHeight(id: string, height: nat, now: int)
      requires id in rows
      modifies this`rows
      ensures rows == old(rows)[id := DueAtHeightRow(cfg.mac, height, now)(old(rows)[id])]
    {
      if height >= rows[id].nlocktime {
        rows := rows[id := MarkDueRow(cfg.mac, rows[id], now)];
      } else {
        assert rows[id := rows[id]] == rows;
      }
    }

    method MarkRowsAtHeight(ids: seq<string>, height: nat, now: int)
      requires Distinct(ids) && forall id | id in ids :: id in rows
      modifies this`rows
      ensures rows == Updated(old(rows), ids, DueAtHeightRow(cfg.mac, height, now))
    {
      ghost var snap, f := rows, DueAtHeightRow(cfg.mac, height, now);
      var i := 0;
      assert rows == Updated(snap, ids[..0], f);
      while i < |ids|
        invariant 0 <= i <= |ids| && rows == Updated(snap, ids[..i], f)
      {
        UpdatedOneMore(snap, ids, i, f);
        MarkDueAtHeight(ids[i], height, now);
        i := i + 1;
      }
      assert ids[..i] == ids;
    }

    /** One pass of `run_block_height_monitor`. */
    method MonitorBlockHeight(order: seq<string>, p: Probe, now: int)
      requires Distinct(order)
      modifies this`rows, this`health
      ensures View() == BlockMonitor(cfg, old(View()), order, p, now)
    {
      if !health.ClockAvailable() {
        return;
      }
      var height := CheckBlockHeight(p);
      if height.None? {
        return;
      }
      MarkRowsAtHeight(PendingByBlock(order, rows, cfg.network), height.value, now);
    }

    method FireIfMet(id: string, prices: map<string, int>, now: int) returns (fired: bool)
      requires id in rows
      modifies this`rows
      ensures rows == old(rows)[id := FiredRow(cfg.mac, prices, now)(old(rows)[id])]
      ensures fired <==> TriggerMet(old(rows)[id], prices)
    {
      fired := TriggerMet(rows[id], prices);
      if fired {
        rows := rows[id := MarkDueFromPriceRow(cfg.mac, rows[id], now)];
      } else {
        assert rows[id := rows[id]] == rows;
      }
    }

    method FireTriggers(ids: seq<string>, prices: map<string, int>, now: int) returns (triggered: nat)
      requires Distinct(ids) && forall id | id in ids :: id in rows
      modifies this`rows
      ensures rows == Updated(old(rows), ids, FiredRow(cfg.mac, prices, now))
    {
      ghost var snap, f := rows, FiredRow(cfg.mac, prices, now);
      triggered := 0;
      var i := 0;
      assert rows == Updated(snap, ids[..0], f);
      while i < |ids|
        invariant 0 <= i <= |ids| && rows == Updated(snap, ids[..i], f)
      {
        UpdatedOneMore(snap, ids, i, f);
        var fired := FireIfMet(ids[i], prices, now);
        if fired {
          triggered := triggered + 1;
        }
        i := i + 1;
      }
      assert ids[..i] == ids;
    }

    method CheckPriceTriggers(order: seq<string>, prices: map<string, int>, now: int) returns (triggered: nat)
      requires Distinct(order)
      modifies this`rows
      ensures View() == PriceCheck(cfg, old(View()), order, prices, now)
    {
      triggered := FireTriggers(PriceWaiting(order, rows, cfg.network), prices, now);
    }

    method ConfirmIfMined(id: string, mined: string -> Option<nat>, now: int)
      requires id in rows
      modifies this`rows
      ensures rows == old(rows)[id := MinedRow(cfg.mac, mined, now)(old(rows)[id])]
    {
      var txid := rows[id].txid;
      if txid.Some? && mined(txid.value).Some? {
        rows := rows[id := ConfirmedRow(cfg.mac, rows[id], mined(txid.value).value, now)];
      } else {
        assert rows[id := rows[id]] == rows;
      }
    }

    method CheckConfirmations(order: seq<string>, mined: string -> Option<nat>, now: int)
      requires Distinct(order)
      modifies this`rows
      ensures View() == Confirm(cfg, old(View()), order, mined, now)
    {
      var ids := BroadcastRows(order, rows, cfg.network);
      ghost var snap, f := rows, MinedRow(cfg.mac, mined, now);
      var i := 0;
      assert rows == Updated(snap, ids[..0], f);
      while i < |ids|
        invariant 0 <= i <= |ids| && rows == Updated(snap, ids[..i], f)
      {
        UpdatedOneMore(snap, ids, i, f);
        ConfirmIfMined(ids[i], mined, now);
        i := i + 1;
      }
      assert ids[..i] == ids;
    }

    method ScheduleAt(id: string, at: int, now: int) returns (accepted: bool)
      modifies this`rows
      ensures View() == Pool.ScheduleAt(cfg, old(View()), id, at, now)
      ensures accepted <==> id in old(rows) && at > now
                            && (old(rows)[id].nlocktime > 500_000_000 ==>
                                  at >= old(rows)[id].nlocktime * 1_000_000_000)
      ensures !accepted ==> rows == old(rows)
    {
      if id !in rows {
        return false;
      }
      var tx := rows[id];
      if at <= now {
        return false;
      }
      if tx.nlocktime > LOCKTIME_THRESHOLD && Max(at / NANOS, 0) < tx.nlocktime {
        return false;
      }
      rows := rows[id := RescheduledRow(cfg.mac, tx, at, if IsReschedule(tx) then Some(at) else None, now)];
      return true;
    }

    method ScheduleByPrice(id: string, target: int, currency: string, condition: string, now: int)
      returns (accepted: bool)
      modifies this`rows
      ensures View() == Pool.ScheduleByPrice(cfg, old(View()), id, target, currency, condition, now)
      ensures accepted <==> && id in old(rows) && target > 0 && Lower(currency) in {"eur", "usd"}
                            && Lower(condition) in {"above", "below"} && old(rows)[id].nlocktime == 0
                            && (old(rows)[id].status == Pending || old(rows)[id].status == Scheduled)
                            && (old(rows)[id].mode == Some("manual") || old(rows)[id].mode == Some("imported"))
      ensures !accepted ==> rows == old(rows)
    {
      if target <= 0 || Lower(currency) !in {"eur", "usd"} || Lower(condition) !in {"above", "below"} {
        return false;
      }
      if id !in rows {
        return false;
      }
      var tx := rows[id];
      if tx.status != Pending && tx.status != Scheduled {
        return false;
      }
      if !IsUserScheduledMode(tx.mode) || tx.nlocktime > 0 {
        return false;
      }
      rows := rows[id := PriceScheduledRow(cfg.mac, tx, target, Lower(currency), Lower(condition), now)];
      return true;
    }

    method ImportTransaction(id: string, tx: NewTx, now: int) returns (row: Row)
      modifies this`rows
      ensures View() == Import(cfg, old(View()), id, tx, now)
      ensures id in rows && row == rows[id]
    {
      row := InsertedRow(cfg.mac, id, tx, now);
      rows := rows[id := row];
    }

    /** A transaction received from a wallet; one in the immediate mode is marked due at once. */
    method RetainTransaction(id: string, tx: NewTx, now: int)
      modifies this`rows
      ensures View() == Ingest(cfg, old(View()), id, tx, now)
    {
      var row := ImportTransaction(id, tx, now);
      if row.mode == Some("immediate") {
        rows := rows[id := MarkDueRow(cfg.mac, row, now)];
      }
    }

    /** With the time it draws. */
    method ScheduleTransaction(id: string, at: int, now: int) returns (found: bool)
      modifies this`rows
      ensures View() == ScheduleDelayed(old(View()), id, at, now)
      ensures found <==> id in old(rows)
    {
      if id in rows {
        rows := rows[id := DelayedRow(rows[id], at, now)];
      }
      return id in rows;
    }

    method RetryFailedTransaction(id: string, now: int) returns (accepted: bool)
      modifies this`rows
      ensures View() == Retry(cfg, old(View()), id, now)
      ensures accepted <==> id in old(rows) && old(rows)[id].status == Failed
    {
      if id !in rows || rows[id].status != Failed {
        return false;
      }
      rows := rows[id := RequeuedRow(cfg.mac, rows[id], now)];
      return true;
    }
  }
}
