/** A row that was written behind the program's back, followed through whole runs: it reads back tampered
    until some step writes it for reasons of its own, and reseals it. */
module TamperTrail {
  import opened Prelude
  import opened ChainSource
  import opened Rows
  import opened Pool
  import opened BatchFacts
  import opened PoolRuns
  import opened DaemonSteps
  import opened EmissionSafety
  import opened TickOutcome

  /** The event puts another row in the place of `id`, or none. */
  predicate Replaces(e: Event, id: string) {
    match e
    case NewTransaction(i, _, _) => i == id
    case Imported(i, _, _) => i == id
    case UserRemove(i) => i == id
    case _ => false
  }

  /** Or it names the row and writes it without sealing it. */
  predicate Overwrites(e: Event, id: string) {
    match e
    case UserScheduleDelayed(i, _, _) => i == id
    case OutOfBand(i, _) => i == id
    case _ => Replaces(e, id)
  }

  /** A start migrates the row. */
  predicate Migrates(s: State, e: Event, id: string) {
    e.Restarted? && id in s.rows && WaitsImmediate(s.rows[id])
  }

  /** The failed rows a tick takes up again before its batch. */
  predicate Requeues(cfg: Setup, s: State, env: Env, id: string) {
    && !s.safeMode && s.clock.health.ClockAvailable()
    && id in s.rows && id in FailedRows(env.order, s.rows, cfg.network) && WorthRequeueing(cfg, s.rows[id])
  }

  /** The step writes the row, by its own guards, none of which asks for the MAC. */
  predicate Reseals(cfg: Setup, s: State, e: Event, id: string) {
    && id in s.rows
    && var row := s.rows[id];
       match e
       case SchedulerTick(env) => Requeues(cfg, s, env, id)
       case HeightMonitor(order, p, _) =>
         var height := ReadHeight(cfg.backends, s.clock, p).0;
         s.clock.health.ClockAvailable() && id in PendingByBlock(order, s.rows, cfg.network)
         && height.Some? && height.value >= row.nlocktime
       case PriceMonitor(order, prices, _) => id in PriceWaiting(order, s.rows, cfg.network) && TriggerMet(row, prices)
       case ConfirmationCheck(order, mined, _) =>
         s.clock.health.ClockAvailable() && id in BroadcastRows(order, s.rows, cfg.network)
         && row.txid.Some? && mined(row.txid.value).Some?
       case UserScheduleAt(i, at, now) => i == id && ScheduleAtAllowed(row, at, now)
       case UserSchedulePrice(i, target, currency, condition, _) =>
         i == id && PriceScheduleAllowed(row, target, currency, condition)
       case UserRetry(i, _) => i == id && row.status == Failed
       case Restarted(pass) => pass.takes(Reclassified(row))
       case _ => false
  }

  // ----- The tick -----

  lemma {:induction false} SelectionsAgree(order: seq<string>, a: map<string, Row>, b: map<string, Row>, p: Row -> bool)
    requires a.Keys == b.Keys && forall id | id in a :: p(a[id]) == p(b[id])
    ensures Select(order, a, p) == Select(order, b, p)
  {
    if order != [] {
      SelectionsAgree(order[1..], a, b, p);
    }
  }

  lemma PendingPassKeepsFailed(cfg: Setup, s: State, env: Env)
    ensures var s1 := MarkPendingDue(cfg, PendingReached(env.order, s.rows, cfg.network, env.now), s, env.now);
            && s1.rows.Keys == s.rows.Keys
            && forall k | k in s.rows ::
                 && (s1.rows[k].status == Failed) == (s.rows[k].status == Failed)
                 && s1.rows[k].network == s.rows[k].network
  {
    var ids := PendingReached(env.order, s.rows, cfg.network, env.now);
    var stop := FirstTampered(cfg.mac, ids, s.rows);
    forall k | k in ids[..stop] ensures k in s.rows && s.rows[k].status == Pending {
      assert k in ids;
    }
  }

  /** The pending pass leaves a tampered row alone, and which rows are failed. */
  lemma PendingPassSkips(cfg: Setup, s: State, env: Env, id: string)
    requires id in s.rows && Tampered(cfg.mac, s.rows[id])
    ensures var s1 := MarkPendingDue(cfg, PendingReached(env.order, s.rows, cfg.network, env.now), s, env.now);
            && id in s1.rows && s1.rows[id] == s.rows[id]
            && FailedRows(env.order, s1.rows, cfg.network) == FailedRows(env.order, s.rows, cfg.network)
  {
    var ids := PendingReached(env.order, s.rows, cfg.network, env.now);
    var stop := FirstTampered(cfg.mac, ids, s.rows);
    var s1 := MarkPendingDue(cfg, ids, s, env.now);
    assert id !in ids[..stop];
    PendingPassKeepsFailed(cfg, s, env);
    SelectionsAgree(env.order, s1.rows, s.rows, (r: Row) => r.status == Failed && r.network == cfg.network);
  }

  lemma TamperedBeforeBatch(cfg: Setup, s: State, env: Env, id: string)
    requires !s.safeMode && s.clock.health.ClockAvailable()
    requires id in s.rows && Tampered(cfg.mac, s.rows[id])
    ensures var mid := BeforeBatch(cfg, s, env);
            && id in mid.rows
            && mid.rows[id]
               == if Requeues(cfg, s, env, id) then RequeuedRow(cfg.mac, s.rows[id], env.now) else s.rows[id]
  {
    PendingPassSkips(cfg, s, env, id);
  }

  /** The batch does not touch a row that is tampered when it starts, and keeps an intact one intact. */
  lemma BatchAndTampering(cfg: Setup, s: State, env: Env, id: string)
    requires OverCoveredColumns(cfg.mac) && Keyed(s.rows) && Distinct(env.order) && !s.safeMode && id in s.rows
    ensures var end := BroadcastDue(cfg, s, env).state;
            && id in end.rows
            && (if Tampered(cfg.mac, s.rows[id]) then end.rows[id] == s.rows[id] else !Tampered(cfg.mac, end.rows[id]))
  {
    SelectedDue(cfg, s, env);
    var (due, c1) := FilterDue(cfg, DueCandidates(env.order, s.rows, cfg.network), s.rows, s.clock, env);
    var end := BroadcastDue(cfg, s, env).state;
    if Tampered(cfg.mac, s.rows[id]) {
      BatchRows(cfg, due, s.rows, s.(clock := c1), [], env);
      var stop := Stop(cfg, due, s.rows, Reads(cfg, due, s.rows, c1, env));
      assert id !in due[..stop];
    } else {
      BatchEvolves(cfg, due, s.(clock := c1), env);
      assert Evolved(cfg.mac, s.rows[id], end.rows[id]);
    }
  }

  lemma TickAndTampering(cfg: Setup, s: State, env: Env, id: string)
    requires OverCoveredColumns(cfg.mac) && Keyed(s.rows) && Distinct(env.order)
    requires id in s.rows && Tampered(cfg.mac, s.rows[id])
    ensures var t := Tick(cfg, s, env).state;
            && id in t.rows
            && (if Requeues(cfg, s, env, id) then !Tampered(cfg.mac, t.rows[id]) else t.rows[id] == s.rows[id])
  {
    if !s.safeMode && s.clock.health.ClockAvailable() {
      BeforeBatchKeyed(cfg, s, env);
      TamperedBeforeBatch(cfg, s, env, id);
      MutatorsReseal(cfg.mac);
      var mid := BeforeBatch(cfg, s, env);
      if !mid.safeMode {
        BatchAndTampering(cfg, mid, env, id);
      }
    }
  }

  // ----- Any step -----

  lemma UpdatedRow(rows: map<string, Row>, ids: seq<string>, f: Row -> Row, id: string)
    requires id in rows
    ensures Updated(rows, ids, f)[id] == if id in ids then f(rows[id]) else rows[id]
  {
  }

  predicate IsPass(e: Event) {
    e.HeightMonitor? || e.PriceMonitor? || e.ConfirmationCheck?
  }

  /** The three passes rewrite the rows their queries select. */
  lemma PassAndTampering(cfg: Setup, s: State, e: Event, id: string)
    requires OverCoveredColumns(cfg.mac) && Keyed(s.rows) && IsPass(e) && id in s.rows
    ensures id in Step(cfg, s, e).rows
    ensures if Reseals(cfg, s, e, id) then !Tampered(cfg.mac, Step(cfg, s, e).rows[id])
            else Step(cfg, s, e).rows[id] == s.rows[id]
  {
    MutatorsReseal(cfg.mac);
    match e
    case HeightMonitor(order, p, now) =>
      var height := ReadHeight(cfg.backends, s.clock, p).0;
      if s.clock.health.ClockAvailable() && height.Some? {
        UpdatedRow(s.rows, PendingByBlock(order, s.rows, cfg.network), DueAtHeightRow(cfg.mac, height.value, now), id);
      }
    case PriceMonitor(order, prices, now) =>
      UpdatedRow(s.rows, PriceWaiting(order, s.rows, cfg.network), FiredRow(cfg.mac, prices, now), id);
    case ConfirmationCheck(order, mined, now) =>
      if s.clock.health.ClockAvailable() {
        UpdatedRow(s.rows, BroadcastRows(order, s.rows, cfg.network), MinedRow(cfg.mac, mined, now), id);
      }
  }

  lemma RestartAndTampering(cfg: Setup, s: State, pass: StartUpPass, id: string)
    requires OverCoveredColumns(cfg.mac) && id in s.rows && !WaitsImmediate(s.rows[id])
    ensures var t := Restart(cfg, s, pass);
            && id in t.rows
            && if pass.takes(s.rows[id]) then !Tampered(cfg.mac, t.rows[id]) else t.rows[id] == s.rows[id]
  {
    MutatorsReseal(cfg.mac);
  }

  /** A call of the user rewrites the row it names, if it is accepted. */
  lemma CallAndTampering(cfg: Setup, s: State, e: Event, id: string)
    requires OverCoveredColumns(cfg.mac) && Keyed(s.rows) && !Overwrites(e, id) && id in s.rows
    requires !IsPass(e) && !e.SchedulerTick? && !e.UserBroadcast? && !e.Restarted?
    ensures id in Step(cfg, s, e).rows
    ensures if Reseals(cfg, s, e, id) then !Tampered(cfg.mac, Step(cfg, s, e).rows[id])
            else Step(cfg, s, e).rows[id] == s.rows[id]
  {
    MutatorsReseal(cfg.mac);
  }

  lemma UserBroadcastAndTampering(cfg: Setup, s: State, i: string, now: int, p: Probe, replies: Replies, id: string)
    requires OverCoveredColumns(cfg.mac) && Keyed(s.rows) && id in s.rows
    ensures var t := BroadcastNow(cfg, s, i, now, p, replies);
            && id in t.rows
            && (if Tampered(cfg.mac, s.rows[id]) then t.rows[id] == s.rows[id] else !Tampered(cfg.mac, t.rows[id]))
  {
    MutatorsReseal(cfg.mac);
  }

  /** A tampered row is left exactly as it is or resealed, and resealed exactly under those guards. */
  lemma TamperedUntilResealed(cfg: Setup, s: State, e: Event, id: string)
    requires OverCoveredColumns(cfg.mac) && Keyed(s.rows) && WellFormed(e)
    requires !Overwrites(e, id) && !Migrates(s, e, id)
    requires id in s.rows && Tampered(cfg.mac, s.rows[id])
    ensures id in Step(cfg, s, e).rows
    ensures Tampered(cfg.mac, Step(cfg, s, e).rows[id]) <==> !Reseals(cfg, s, e, id)
    ensures !Reseals(cfg, s, e, id) ==> Step(cfg, s, e).rows[id] == s.rows[id]
  {
    if e.SchedulerTick? {
      TickAndTampering(cfg, s, e.env, id);
    } else if e.UserBroadcast? {
      UserBroadcastAndTampering(cfg, s, e.id, e.now, e.probe, e.replies, id);
    } else if e.Restarted? {
      RestartAndTampering(cfg, s, e.pass, id);
    } else if IsPass(e) {
      PassAndTampering(cfg, s, e, id);
    } else {
      CallAndTampering(cfg, s, e, id);
    }
  }

  lemma IntactStays(cfg: Setup, s: State, e: Event, id: string)
    requires OverCoveredColumns(cfg.mac) && Keyed(s.rows) && WellFormed(e)
    requires !Overwrites(e, id) && !Migrates(s, e, id)
    requires id in s.rows && !Tampered(cfg.mac, s.rows[id])
    ensures id in Step(cfg, s, e).rows && !Tampered(cfg.mac, Step(cfg, s, e).rows[id])
  {
    if e.SchedulerTick? {
      TickEvolves(cfg, s, e.env);
      assert Evolved(cfg.mac, s.rows[id], Tick(cfg, s, e.env).state.rows[id]);
    } else if e.UserBroadcast? {
      UserBroadcastAndTampering(cfg, s, e.id, e.now, e.probe, e.replies, id);
    } else if e.Restarted? {
      RestartAndTampering(cfg, s, e.pass, id);
    } else if IsPass(e) {
      PassAndTampering(cfg, s, e, id);
    } else {
      CallAndTampering(cfg, s, e, id);
    }
  }

  /** No step changes a row's mode, apart from that migration. */
  lemma ModeStays(cfg: Setup, s: State, e: Event, id: string)
    requires OverCoveredColumns(cfg.mac) && Keyed(s.rows) && WellFormed(e)
    requires !Overwrites(e, id) && !Migrates(s, e, id) && id in s.rows
    ensures id in Step(cfg, s, e).rows && Step(cfg, s, e).rows[id].mode == s.rows[id].mode
  {
    if e.SchedulerTick? {
      TickEvolves(cfg, s, e.env);
      assert Evolved(cfg.mac, s.rows[id], Tick(cfg, s, e.env).state.rows[id]);
    } else if IsPass(e) {
      PassAndTampering(cfg, s, e, id);
      PassKeepsMode(cfg, s, e, id);
    }
  }

  lemma PassKeepsMode(cfg: Setup, s: State, e: Event, id: string)
    requires Keyed(s.rows) && IsPass(e) && id in s.rows && id in Step(cfg, s, e).rows
    ensures Step(cfg, s, e).rows[id].mode == s.rows[id].mode
  {
  }

  // ----- Runs -----

  ghost predicate ResealedDuring(cfg: Setup, s: State, tr: seq<Event>, id: string)
    requires Keyed(s.rows)
    decreases |tr|
  {
    if tr == [] then false
    else
      StepKeyed(cfg, s, tr[0]);
      Reseals(cfg, s, tr[0], id) || ResealedDuring(cfg, Step(cfg, s, tr[0]), tr[1..], id)
  }

  ghost predicate LeavesInPlace(tr: seq<Event>, id: string) {
    forall i | 0 <= i < |tr| :: WellFormed(tr[i]) && !Overwrites(tr[i], id)
  }

  /** No start of the run migrates the row. */
  ghost predicate NotMigrated(r: Row, tr: seq<Event>) {
    r.mode == Some("immediate") ==> forall i | 0 <= i < |tr| :: !tr[i].Restarted?
  }

  lemma NotMigratedLater(r: Row, q: Row, tr: seq<Event>)
    requires tr != [] && NotMigrated(r, tr) && q.mode == r.mode
    ensures NotMigrated(q, tr[1..]) && !(tr[0].Restarted? && WaitsImmediate(r))
  {
    assert forall i | 0 <= i < |tr[1..]| :: tr[1..][i] == tr[i + 1];
  }

  lemma {:induction false} IntactThroughRun(cfg: Setup, s: State, tr: seq<Event>, id: string)
    requires OverCoveredColumns(cfg.mac) && Keyed(s.rows) && LeavesInPlace(tr, id)
    requires id in s.rows && NotMigrated(s.rows[id], tr) && !Tampered(cfg.mac, s.rows[id])
    ensures id in RunFrom(cfg, s, tr).rows && !Tampered(cfg.mac, RunFrom(cfg, s, tr).rows[id])
    decreases |tr|
  {
    if tr != [] {
      assert WellFormed(tr[0]) && !Overwrites(tr[0], id);
      assert forall i | 0 <= i < |tr[1..]| :: tr[1..][i] == tr[i + 1];
      StepKeyed(cfg, s, tr[0]);
      NotMigratedLater(s.rows[id], s.rows[id], tr);
      ModeStays(cfg, s, tr[0], id);
      NotMigratedLater(s.rows[id], Step(cfg, s, tr[0]).rows[id], tr);
      IntactStays(cfg, s, tr[0], id);
      IntactThroughRun(cfg, Step(cfg, s, tr[0]), tr[1..], id);
    }
  }

  /** Over any run: a tampered row that no start migrates still reads back tampered at the end exactly if no
      step resealed it, and is then byte for byte what it was. */
  lemma {:induction false} TamperedThroughRun(cfg: Setup, s: State, tr: seq<Event>, id: string)
    requires OverCoveredColumns(cfg.mac) && Keyed(s.rows) && LeavesInPlace(tr, id)
    requires id in s.rows && NotMigrated(s.rows[id], tr) && Tampered(cfg.mac, s.rows[id])
    ensures id in RunFrom(cfg, s, tr).rows
    ensures Tampered(cfg.mac, RunFrom(cfg, s, tr).rows[id]) <==> !ResealedDuring(cfg, s, tr, id)
    ensures !ResealedDuring(cfg, s, tr, id) ==> RunFrom(cfg, s, tr).rows[id] == s.rows[id]
    decreases |tr|
  {
    if tr != [] {
      assert WellFormed(tr[0]) && !Overwrites(tr[0], id);
      assert forall i | 0 <= i < |tr[1..]| :: tr[1..][i] == tr[i + 1];
      StepKeyed(cfg, s, tr[0]);
      NotMigratedLater(s.rows[id], s.rows[id], tr);
      ModeStays(cfg, s, tr[0], id);
      NotMigratedLater(s.rows[id], Step(cfg, s, tr[0]).rows[id], tr);
      TamperedUntilResealed(cfg, s, tr[0], id);
      var next := Step(cfg, s, tr[0]);
      if Reseals(cfg, s, tr[0], id) {
        IntactThroughRun(cfg, next, tr[1..], id);
      } else {
        TamperedThroughRun(cfg, next, tr[1..], id);
      }
    }
  }

  /** Main result: an out-of-band write that leaves the stored MAC alone, followed by any run that leaves
      the row in place, reads back tampered exactly if it changed a covered column and no step has resealed
      the row since. */
  lemma OutOfBandWriteThroughRun(mac: Mac, cfg: Setup, s: State, id: string, written: Row, tr: seq<Event>)
    requires CollisionFree(mac) && cfg.mac == RowMacOf(mac) && Keyed(s.rows) && LeavesInPlace(tr, id)
    requires id in s.rows && !Tampered(cfg.mac, s.rows[id])
    requires written.id == id && written.rowMac == s.rows[id].rowMac && CleanText(s.rows[id]) && CleanText(written)
    requires NotMigrated(written, tr)
    ensures var s1 := Step(cfg, s, OutOfBand(id, written));
            && Keyed(s1.rows) && id in RunFrom(cfg, s1, tr).rows
            && (Tampered(cfg.mac, RunFrom(cfg, s1, tr).rows[id])
                <==> !SameCoveredColumns(s.rows[id], written) && !ResealedDuring(cfg, s1, tr, id))
  {
    var s1 := Step(cfg, s, OutOfBand(id, written));
    RowMacReadsCoveredColumns(mac);
    OutOfBandWriteDetected(mac, s.rows[id], written);
    assert s1.rows[id] == written;
    if Tampered(cfg.mac, written) {
      TamperedThroughRun(cfg, s1, tr, id);
    } else {
      IntactThroughRun(cfg, s1, tr, id);
    }
  }

  // ----- What a tick can still send -----

  lemma LoopSendsIntactRows(cfg: Setup, due: seq<string>, s: State, env: Env, k: nat)
    requires Distinct(due) && Snapshot(s.rows, due, s.rows) && !s.safeMode
    requires |s.sent| <= k < |Batch(cfg, due, s.rows, s, [], env).state.sent|
    ensures var id := Batch(cfg, due, s.rows, s, [], env).state.sent[k].id;
            id in s.rows && !Tampered(cfg.mac, s.rows[id])
  {
    BatchSent(cfg, due, s.rows, s, [], env);
    var seen := Reads(cfg, due, s.rows, s.clock, env);
    var sent := due[..Stop(cfg, due, s.rows, seen)];
    var i := EmissionsAreDue(cfg, sent, s.rows, seen, env, k - |s.sent|);
    assert sent[i] == due[i];
  }

  lemma BatchSendsIntactRows(cfg: Setup, s: State, env: Env, k: nat)
    requires Keyed(s.rows) && Distinct(env.order) && !s.safeMode
    requires |s.sent| <= k < |BroadcastDue(cfg, s, env).state.sent|
    ensures var id := BroadcastDue(cfg, s, env).state.sent[k].id;
            id in s.rows && !Tampered(cfg.mac, s.rows[id])
  {
    SelectedDue(cfg, s, env);
    var (due, c1) := FilterDue(cfg, DueCandidates(env.order, s.rows, cfg.network), s.rows, s.clock, env);
    LoopSendsIntactRows(cfg, due, s.(clock := c1), env, k);
  }

  /** A row that is tampered when the tick starts goes out in it only if the tick requeued it. */
  lemma TamperedSentOnlyIfRequeued(cfg: Setup, s: State, env: Env, k: nat)
    requires Keyed(s.rows) && Distinct(env.order)
    requires var t := Tick(cfg, s, env).state;
             |s.sent| <= k < |t.sent| && t.sent[k].id in s.rows && Tampered(cfg.mac, s.rows[t.sent[k].id])
    ensures Requeues(cfg, s, env, Tick(cfg, s, env).state.sent[k].id)
  {
    BeforeBatchKeyed(cfg, s, env);
    TamperedBeforeBatch(cfg, s, env, Tick(cfg, s, env).state.sent[k].id);
    BatchSendsIntactRows(cfg, BeforeBatch(cfg, s, env), env, k);
  }

  /** The only tampered rows are failed ones that this tick takes up again. */
  ghost predicate OnlyRequeuedTampered(cfg: Setup, s: State, env: Env) {
    && !s.safeMode && s.tamperedIds == []
    && forall id | id in s.rows && Tampered(cfg.mac, s.rows[id]) :: Requeues(cfg, s, env, id)
  }

  lemma RequeuedRowsAreIntact(cfg: Setup, s: State, env: Env)
    requires OverCoveredColumns(cfg.mac) && Keyed(s.rows) && OnlyRequeuedTampered(cfg, s, env)
    requires s.clock.health.ClockAvailable()
    ensures AllIntact(cfg.mac, BeforeBatch(cfg, s, env))
  {
    var ids, mid := PendingReached(env.order, s.rows, cfg.network, env.now), BeforeBatch(cfg, s, env);
    forall i | 0 <= i < |ids| ensures !Tampered(cfg.mac, s.rows[ids[i]]) {
      assert ids[i] in ids && s.rows[ids[i]].status == Pending;
    }
    assert FirstTampered(cfg.mac, ids, s.rows) == |ids|;
    BeforeBatchEvolves(cfg, s, env);
    MutatorsReseal(cfg.mac);
    forall id | id in mid.rows ensures !Tampered(cfg.mac, mid.rows[id]) {
      if Tampered(cfg.mac, s.rows[id]) {
        TamperedBeforeBatch(cfg, s, env, id);
      } else {
        assert Evolved(cfg.mac, s.rows[id], mid.rows[id]);
      }
    }
  }

  lemma RequeuedRowFacts(mac: RowMac, row: Row, now: int, o: Outside)
    requires OverCoveredColumns(mac)
    ensures var r := RequeuedRow(mac, row, now);
            && r.txHex == row.txHex && r.network == row.network && r.status == Scheduled && !Tampered(mac, r)
            && (DueNow(r, now, o) <==> LockSatisfied(row.nlocktime, o.height, o.mtp) && ScheduleReached(row, now))
  {
    SealedReadsBack(mac, row.(status := Scheduled, errorMessage := None, updatedAt := now));
  }

  lemma FailedRowsAreOurs(order: seq<string>, rows: map<string, Row>, network: string, id: string)
    requires id in FailedRows(order, rows, network)
    ensures id in rows && rows[id].network == network && rows[id].status == Failed
  {
  }

  /** And then, with steady accepting backends, it goes out exactly if its time has come and the lock it
      carries now is open; what goes out is the row as it was written. */
  lemma RequeuedTamperedRowGoesOut(cfg: Setup, s: State, env: Env, o: Outside, id: string)
    requires OverCoveredColumns(cfg.mac) && Keyed(s.rows) && Lists(env.order, s.rows)
    requires CalmClock(s.clock, o) && SteadyEnv(cfg, env, o) && OnlyRequeuedTampered(cfg, s, env)
    requires id in s.rows && Tampered(cfg.mac, s.rows[id])
    ensures var row, mid, t := s.rows[id], BeforeBatch(cfg, s, env), Tick(cfg, s, env).state;
            && id in mid.rows && mid.rows[id].txHex == row.txHex && !Tampered(cfg.mac, mid.rows[id])
            && id in t.rows
            && (t.rows[id].status == Broadcast
                <==> LockSatisfied(row.nlocktime, o.height, o.mtp) && ScheduleReached(row, env.now))
  {
    RequeuedRowsAreIntact(cfg, s, env);
    TamperedBeforeBatch(cfg, s, env, id);
    FailedRowsAreOurs(env.order, s.rows, cfg.network, id);
    RequeuedRowFacts(cfg.mac, s.rows[id], env.now, o);
    TickFromIntactBatch(cfg, s, env, o, id);
  }
}
