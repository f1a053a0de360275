/** What becomes of a row, said in the columns it has before and after: one scheduler tick on rows of every
    status, and the calls and passes that lead to it. */
module RowOutcomes {
  import opened Prelude
  import opened ChainSource
  import opened Rows
  import opened Pool
  import opened BatchFacts
  import opened DaemonSteps
  import opened EmissionSafety
  import opened TickOutcome
  import opened TamperTrail

  // ----- Which rows a tick takes up -----

  /** A pending row with a time that has come, of one of the three modes that wait for a time. */
  predicate TakenUp(r: Row, network: string, now: int) {
    && r.status == Pending && r.network == network
    && r.mode in {Some("scheduled"), Some("manual"), Some("imported")} && r.trigger != Some("price")
    && r.scheduledTime.Some? && r.scheduledTime.value <= now
  }

  /** How many of the first `i` rows of the order meet `p`. */
  function Ahead(order: seq<string>, rows: map<string, Row>, p: Row -> bool, i: nat): nat
    requires i <= |order|
  {
    if i == 0 then 0
    else (if order[0] in rows && p(rows[order[0]]) then 1 else 0) + Ahead(order[1..], rows, p, i - 1)
  }

  /** Fewer than 1000 failed rows of the network come before it, which is as far as the query looks. */
  ghost predicate AmongFirstFailed(order: seq<string>, rows: map<string, Row>, network: string, id: string) {
    exists i | 0 <= i < |order| ::
      order[i] == id && Ahead(order, rows, (r: Row) => r.status == Failed && r.network == network, i) < 1000
  }

  predicate WorthAnotherTry(cfg: Setup, r: Row) {
    var message := r.errorMessage.GetOr("");
    cfg.retriable(message) || (r.nlocktime > 0 && Contains(message, "Failed to broadcast"))
  }

  /** A failed row that is tried again. */
  ghost predicate TriedAgain(cfg: Setup, s: State, order: seq<string>, id: string) {
    && id in s.rows && s.rows[id].status == Failed && s.rows[id].network == cfg.network
    && AmongFirstFailed(order, s.rows, cfg.network, id) && WorthAnotherTry(cfg, s.rows[id])
  }

  /** A deferral, where there is one, decides alone. */
  predicate TimeCome(r: Row, now: int) {
    if r.deferUntil.Some? then r.deferUntil.value <= now
    else r.scheduledTime.Some? && r.scheduledTime.value <= now
  }

  lemma {:induction false} SelectRank(order: seq<string>, rows: map<string, Row>, p: Row -> bool, i: nat)
    requires i < |order| && order[i] in rows && p(rows[order[i]])
    ensures var n := Ahead(order, rows, p, i);
            n < |Select(order, rows, p)| && Select(order, rows, p)[n] == order[i]
  {
    if i > 0 {
      SelectRank(order[1..], rows, p, i - 1);
    }
  }

  lemma LimitedExactly(order: seq<string>, rows: map<string, Row>, p: Row -> bool, i: nat)
    requires Distinct(order) && i < |order| && order[i] in rows && p(rows[order[i]])
    ensures order[i] in Limited(Select(order, rows, p)) <==> Ahead(order, rows, p, i) < 1000
  {
    SelectRank(order, rows, p, i);
    var ids, n := Select(order, rows, p), Ahead(order, rows, p, i);
    assert forall m | 0 <= m < |ids| && m != n :: ids[m] != ids[n];
  }

  lemma FailedRowsExactly(order: seq<string>, rows: map<string, Row>, network: string, id: string)
    requires Lists(order, rows) && id in rows && rows[id].status == Failed && rows[id].network == network
    ensures id in FailedRows(order, rows, network) <==> AmongFirstFailed(order, rows, network, id)
  {
    var p := (r: Row) => r.status == Failed && r.network == network;
    var i :| 0 <= i < |order| && order[i] == id;
    LimitedExactly(order, rows, p, i);
    assert forall j | 0 <= j < |order| && order[j] == id :: j == i;
  }

  // ----- The row its batch starts from -----

  lemma PendingReachedExactly(order: seq<string>, rows: map<string, Row>, network: string, now: int, id: string)
    requires id in order && id in rows
    ensures TakenUp(rows[id], network, now)
            <==> id in PendingReached(order, rows, network, now) && rows[id].trigger != Some("price")
  {
  }

  lemma NoneTamperedPending(cfg: Setup, s: State, env: Env)
    requires AllIntact(cfg.mac, s)
    ensures var ids := PendingReached(env.order, s.rows, cfg.network, env.now);
            MarkPendingDue(cfg, ids, s, env.now)
            == s.(rows := Updated(s.rows, ids, DueUnlessPriceRow(cfg.mac, env.now)))
  {
    var ids := PendingReached(env.order, s.rows, cfg.network, env.now);
    forall i | 0 <= i < |ids| ensures !Tampered(cfg.mac, s.rows[ids[i]]) {
      assert ids[i] in ids;
    }
    assert FirstTampered(cfg.mac, ids, s.rows) == |ids| && ids[..|ids|] == ids;
  }

  lemma AfterPendingPass(cfg: Setup, s: State, env: Env, id: string)
    requires Lists(env.order, s.rows) && AllIntact(cfg.mac, s) && id in s.rows
    ensures var ids := PendingReached(env.order, s.rows, cfg.network, env.now);
            var s1 := MarkPendingDue(cfg, ids, s, env.now);
            && id in s1.rows
            && s1.rows[id] == if TakenUp(s.rows[id], cfg.network, env.now) then MarkDueRow(cfg.mac, s.rows[id], env.now)
                              else s.rows[id]
  {
    NoneTamperedPending(cfg, s, env);
    PendingReachedExactly(env.order, s.rows, cfg.network, env.now, id);
  }

  /** What the two passes before the batch make of one row. */
  lemma RowBeforeBatch(cfg: Setup, s: State, env: Env, id: string)
    requires Lists(env.order, s.rows) && AllIntact(cfg.mac, s) && id in s.rows
    ensures var row, mid := s.rows[id], BeforeBatch(cfg, s, env);
            && id in mid.rows
            && mid.rows[id] == if TakenUp(row, cfg.network, env.now) then MarkDueRow(cfg.mac, row, env.now)
                               else if TriedAgain(cfg, s, env.order, id) then RequeuedRow(cfg.mac, row, env.now)
                               else row
  {
    var ids := PendingReached(env.order, s.rows, cfg.network, env.now);
    var s1 := MarkPendingDue(cfg, ids, s, env.now);
    AfterPendingPass(cfg, s, env, id);
    PendingPassKeepsFailed(cfg, s, env);
    SelectionsAgree(env.order, s1.rows, s.rows, (r: Row) => r.status == Failed && r.network == cfg.network);
    if s.rows[id].status == Failed {
      if s.rows[id].network == cfg.network {
        FailedRowsExactly(env.order, s.rows, cfg.network, id);
      }
    } else {
      assert id !in FailedRows(env.order, s1.rows, cfg.network);
    }
  }

  // ----- A tick on one row -----

  /** The row goes out if its lock is open: it is due as it stands, taken up, or tried again. */
  ghost predicate ComesDue(cfg: Setup, s: State, env: Env, id: string)
    requires id in s.rows
  {
    var row := s.rows[id];
    || (row.status == Scheduled && TimeCome(row, env.now))
    || (TakenUp(row, cfg.network, env.now) && (row.deferUntil.Some? ==> row.deferUntil.value <= env.now))
    || (TriedAgain(cfg, s, env.order, id) && TimeCome(row, env.now))
  }

  lemma DueFromMid(cfg: Setup, s: State, env: Env, o: Outside, id: string, r: Row)
    requires id in s.rows && (TakenUp(s.rows[id], cfg.network, env.now) ==> s.rows[id].status == Pending)
    requires r == if TakenUp(s.rows[id], cfg.network, env.now) then MarkDueRow(cfg.mac, s.rows[id], env.now)
                  else if TriedAgain(cfg, s, env.order, id) then RequeuedRow(cfg.mac, s.rows[id], env.now)
                  else s.rows[id]
    ensures r.network == s.rows[id].network && (r.status == Broadcast <==> s.rows[id].status == Broadcast)
    ensures r.status == Scheduled && DueNow(r, env.now, o)
            <==> ComesDue(cfg, s, env, id) && LockSatisfied(s.rows[id].nlocktime, o.height, o.mtp)
  {
  }

  /** While the backend in use answers steadily and accepts and rows are intact, a tick leaves a row broadcast
      exactly if it was, or it is a row of this network whose lock is open and that comes due. */
  lemma TickBroadcastsExactlyTheDue(cfg: Setup, s: State, env: Env, o: Outside, id: string)
    requires Calm(cfg, s, env, o) && id in s.rows
    ensures var row, t := s.rows[id], Tick(cfg, s, env).state;
            && id in t.rows
            && (t.rows[id].status == Broadcast
                <==> row.status == Broadcast
                     || (row.network == cfg.network && ComesDue(cfg, s, env, id)
                         && LockSatisfied(row.nlocktime, o.height, o.mtp)))
  {
    TickFromCalm(cfg, s, env, o, id);
    RowBeforeBatch(cfg, s, env, id);
    DueFromMid(cfg, s, env, o, id, BeforeBatch(cfg, s, env).rows[id]);
  }

  lemma BatchLeavesTheRest(cfg: Setup, s: State, env: Env, o: Outside, id: string)
    requires Keyed(s.rows) && Lists(env.order, s.rows) && !s.safeMode && id in s.rows
    requires SteadyClock(s.clock, o) && SteadyEnv(cfg, env, o)
    requires !(s.rows[id].status == Scheduled && DueNow(s.rows[id], env.now, o))
    ensures id in BroadcastDue(cfg, s, env).state.rows && BroadcastDue(cfg, s, env).state.rows[id] == s.rows[id]
  {
    var candidates := DueCandidates(env.order, s.rows, cfg.network);
    var (due, c1) := FilterDue(cfg, candidates, s.rows, s.clock, env);
    SelectedDue(cfg, s, env);
    FilterDueSteady(cfg, candidates, s.rows, s.clock, env, o);
    CandidatesAre(env.order, s.rows, cfg.network, id);
    BatchRows(cfg, due, s.rows, s.(clock := c1), [], env);
    var stop := Stop(cfg, due, s.rows, Reads(cfg, due, s.rows, c1, env));
    assert id !in due[..stop];
  }

  /** Every row that does not come due and is neither taken up nor tried again stays as it was. */
  lemma TickLeavesTheRest(cfg: Setup, s: State, env: Env, o: Outside, id: string)
    requires Calm(cfg, s, env, o) && id in s.rows
    requires !TakenUp(s.rows[id], cfg.network, env.now) && !TriedAgain(cfg, s, env.order, id)
    requires !(ComesDue(cfg, s, env, id) && LockSatisfied(s.rows[id].nlocktime, o.height, o.mtp))
    ensures id in Tick(cfg, s, env).state.rows && Tick(cfg, s, env).state.rows[id] == s.rows[id]
  {
    BeforeBatchCalm(cfg, s, env, o);
    RowBeforeBatch(cfg, s, env, id);
    DueFromMid(cfg, s, env, o, id, s.rows[id]);
    BatchLeavesTheRest(cfg, BeforeBatch(cfg, s, env), env, o, id);
  }

  /** A tampered row that a tick would take up: nothing is sent in that tick, and the pool is in safe mode with
      a tampered row on record. */
  lemma TamperedPendingMeansNoSend(cfg: Setup, s: State, env: Env, id: string)
    requires Keyed(s.rows) && !s.safeMode && s.clock.health.ClockAvailable() && id in env.order && id in s.rows
    requires TakenUp(s.rows[id].(trigger := None), cfg.network, env.now) && Tampered(cfg.mac, s.rows[id])
    ensures var end := Tick(cfg, s, env);
            && end.state.sent == s.sent && end.results == Some([]) && end.state.safeMode
            && exists k | k in end.state.tamperedIds :: k in s.rows && Tampered(cfg.mac, s.rows[k])
  {
    var ids := PendingReached(env.order, s.rows, cfg.network, env.now);
    var first := FirstTampered(cfg.mac, ids, s.rows);
    PendingHalts(cfg, s, env, id);
    assert ids[first] in Tick(cfg, s, env).state.tamperedIds;
  }
}
