/** At most one emission per row, intact MACs and the global halt, over whole runs. */
module EmissionSafety {
  import opened Prelude
  import opened ChainSource
  import opened Rows
  import opened Pool
  import opened BatchFacts
  import opened PoolRuns
  import opened DaemonSteps

  // ----- At most once -----

  ghost predicate Emitted(s: State, id: string) {
    exists k | 0 <= k < |s.sent| :: s.sent[k].id == id
  }

  ghost predicate DistinctIds(es: seq<Emission>) {
    forall k, l | 0 <= k < l < |es| :: es[k].id != es[l].id
  }

  ghost predicate MarkedEmitted(es: seq<Emission>, rows: map<string, Row>) {
    forall k | 0 <= k < |es| && es[k].id in rows :: IsEmitted(rows[es[k].id].status)
  }

  ghost predicate SentOnce(s: State) {
    DistinctIds(s.sent) && MarkedEmitted(s.sent, s.rows)
  }

  lemma Appended(a: seq<Emission>, b: seq<Emission>, rows: map<string, Row>)
    requires DistinctIds(a) && DistinctIds(b) && MarkedEmitted(a, rows) && MarkedEmitted(b, rows)
    requires forall k, l | 0 <= k < |a| && 0 <= l < |b| :: a[k].id != b[l].id
    ensures DistinctIds(a + b) && MarkedEmitted(a + b, rows)
  {
  }

  /** Fresh ids for new rows, no reschedule of an emitted row, no write behind the program's back. */
  ghost predicate KeepsEmitted(s: State, e: Event) {
    match e
    case UserScheduleAt(id, _, _) => id in s.rows ==> !IsEmitted(s.rows[id].status)
    case UserScheduleDelayed(id, _, _) => id in s.rows ==> !IsEmitted(s.rows[id].status)
    case NewTransaction(id, _, _) => id !in s.rows && !Emitted(s, id)
    case Imported(id, _, _) => id !in s.rows && !Emitted(s, id)
    case OutOfBand(_, _) => false
    case _ => WellFormed(e)
  }

  lemma EvolvedKeepsSentOnce(mac: RowMac, s: State, t: State)
    requires SentOnce(s) && RowsEvolved(mac, s.rows, t.rows) && t.sent == s.sent
    ensures SentOnce(t)
  {
    forall k | 0 <= k < |t.sent| && t.sent[k].id in t.rows ensures IsEmitted(t.rows[t.sent[k].id].status) {
      assert Evolved(mac, s.rows[t.sent[k].id], t.rows[t.sent[k].id]);
    }
  }

  /** Rows that were scheduled when the batch began are not among those already sent. */
  lemma SentAndDueAreDisjoint(mac: RowMac, s: State, mid: State, t: State, es: seq<Emission>, now: int, k: nat, l: nat)
    requires SentOnce(s) && RowsEvolved(mac, s.rows, mid.rows) && TickSends(mid, t, es, now)
    requires k < |s.sent| && l < |es|
    ensures s.sent[k].id != es[l].id
  {
    if s.sent[k].id in s.rows {
      assert Evolved(mac, s.rows[s.sent[k].id], mid.rows[s.sent[k].id]);
    }
  }

  lemma NewEmissionsAreNew(mac: RowMac, s: State, mid: State, t: State, es: seq<Emission>, now: int)
    requires SentOnce(s) && RowsEvolved(mac, s.rows, mid.rows) && RowsEvolved(mac, s.rows, t.rows)
    requires t.sent == s.sent + es && TickSends(mid, t, es, now)
    ensures SentOnce(t)
  {
    EvolvedKeepsSentOnce(mac, s, t.(sent := s.sent));
    forall k, l | 0 <= k < |s.sent| && 0 <= l < |es| ensures s.sent[k].id != es[l].id {
      SentAndDueAreDisjoint(mac, s, mid, t, es, now, k, l);
    }
    Appended(s.sent, es, t.rows);
  }

  /** A tick as the rows it starts its batch from and the emissions it adds. */
  lemma TickParts(cfg: Setup, s: State, env: Env) returns (mid: State, es: seq<Emission>)
    requires OverCoveredColumns(cfg.mac) && Keyed(s.rows) && Distinct(env.order)
    ensures RowsEvolved(cfg.mac, s.rows, mid.rows) && RowsEvolved(cfg.mac, s.rows, Tick(cfg, s, env).state.rows)
    ensures Tick(cfg, s, env).state.sent == s.sent + es && TickSends(mid, Tick(cfg, s, env).state, es, env.now)
  {
    TickSendsDueRows(cfg, s, env);
    mid, es := BatchStart(cfg, s, env), Tick(cfg, s, env).state.sent[|s.sent|..];
    TickEvolves(cfg, s, env);
    BatchStartEvolves(cfg, s, env);
  }

  lemma TickSendsOnce(cfg: Setup, s: State, env: Env)
    requires OverCoveredColumns(cfg.mac) && Keyed(s.rows) && Distinct(env.order) && SentOnce(s)
    ensures SentOnce(Tick(cfg, s, env).state)
  {
    var mid, es := TickParts(cfg, s, env);
    NewEmissionsAreNew(cfg.mac, s, mid, Tick(cfg, s, env).state, es, env.now);
  }

  lemma ConfirmKeepsSentOnce(cfg: Setup, s: State, order: seq<string>, mined: string -> Option<nat>, now: int)
    requires SentOnce(s)
    ensures SentOnce(Confirm(cfg, s, order, mined, now))
  {
  }

  lemma PriceCheckKeepsSentOnce(cfg: Setup, s: State, order: seq<string>, prices: map<string, int>, now: int)
    requires SentOnce(s)
    ensures SentOnce(PriceCheck(cfg, s, order, prices, now))
  {
    var t := PriceCheck(cfg, s, order, prices, now);
    forall k | 0 <= k < |s.sent| && s.sent[k].id in s.rows ensures IsEmitted(t.rows[s.sent[k].id].status) {
      assert s.sent[k].id !in PriceWaiting(order, s.rows, cfg.network);
    }
  }

  lemma UserBroadcastKeepsSentOnce(cfg: Setup, s: State, id: string, now: int, p: Probe, replies: Replies)
    requires SentOnce(s) && Keyed(s.rows)
    ensures SentOnce(BroadcastNow(cfg, s, id, now, p, replies))
  {
    if id in s.rows && !IsEmitted(s.rows[id].status) {
      assert forall k | 0 <= k < |s.sent| :: s.sent[k].id != id;
    }
  }

  lemma UserStepSendsOnce(cfg: Setup, s: State, e: Event)
    requires Keyed(s.rows) && SentOnce(s) && KeepsEmitted(s, e)
    requires e.UserScheduleAt? || e.UserSchedulePrice? || e.UserScheduleDelayed? || e.NewTransaction? || e.Imported?
             || e.UserRemove? || e.UserRetry?
    ensures SentOnce(Step(cfg, s, e))
  {
    if e.NewTransaction? || e.Imported? {
      assert forall k | 0 <= k < |s.sent| :: s.sent[k].id != e.id;
    }
  }

  lemma RestartKeepsSentOnce(cfg: Setup, s: State, pass: StartUpPass)
    requires SentOnce(s)
    ensures SentOnce(Restart(cfg, s, pass))
  {
    var t := Restart(cfg, s, pass);
    forall k | 0 <= k < |t.sent| && t.sent[k].id in t.rows ensures IsEmitted(t.rows[t.sent[k].id].status) {
      assert t.rows[t.sent[k].id] == StartedRow(cfg.mac, pass, s.rows[s.sent[k].id]);
    }
  }

  lemma StepSendsOnce(cfg: Setup, s: State, e: Event)
    requires OverCoveredColumns(cfg.mac) && Keyed(s.rows) && SentOnce(s) && KeepsEmitted(s, e)
    ensures SentOnce(Step(cfg, s, e))
  {
    match e
    case SchedulerTick(env) => TickSendsOnce(cfg, s, env);
    case UserBroadcast(id, now, p, replies) => UserBroadcastKeepsSentOnce(cfg, s, id, now, p, replies);
    case HeightMonitor(order, p, now) =>
      MonitorEvolves(cfg, s, order, p, now);
      EvolvedKeepsSentOnce(cfg.mac, s, BlockMonitor(cfg, s, order, p, now));
    case PriceMonitor(order, prices, now) => PriceCheckKeepsSentOnce(cfg, s, order, prices, now);
    case ConfirmationCheck(order, mined, now) => ConfirmKeepsSentOnce(cfg, s, order, mined, now);
    case UserScheduleAt(_, _, _) => UserStepSendsOnce(cfg, s, e);
    case UserSchedulePrice(_, _, _, _, _) => UserStepSendsOnce(cfg, s, e);
    case UserScheduleDelayed(_, _, _) => UserStepSendsOnce(cfg, s, e);
    case NewTransaction(_, _, _) => UserStepSendsOnce(cfg, s, e);
    case Imported(_, _, _) => UserStepSendsOnce(cfg, s, e);
    case Restarted(pass) => RestartKeepsSentOnce(cfg, s, pass);
    case UserRemove(_) => UserStepSendsOnce(cfg, s, e);
    case UserRetry(_, _) => UserStepSendsOnce(cfg, s, e);
    case _ =>
  }

  ghost predicate KeepsEmittedRun(cfg: Setup, tr: seq<Event>) {
    forall i | 0 <= i < |tr| :: KeepsEmitted(After(cfg, tr[..i]), tr[i])
  }

  /** Main result: over any such run each row is handed to the network successfully at most once,
      by a tick or by the user. */
  lemma {:induction false} AtMostOnce(cfg: Setup, tr: seq<Event>)
    requires OverCoveredColumns(cfg.mac) && KeepsEmittedRun(cfg, tr)
    ensures SentOnce(After(cfg, tr))
    decreases |tr|
  {
    if tr != [] {
      var n := |tr| - 1;
      assert forall i | 0 <= i < n :: tr[..n][..i] == tr[..i];
      AtMostOnce(cfg, tr[..n]);
      StepSendsOnce(cfg, After(cfg, tr[..n]), tr[n]);
    }
  }

  // ----- Intact MACs: no false alarm -----

  ghost predicate AllIntact(mac: RowMac, s: State) {
    !s.safeMode && s.tamperedIds == [] && forall id | id in s.rows :: !Tampered(mac, s.rows[id])
  }

  lemma UpdatedIntact(mac: RowMac, rows: map<string, Row>, ids: seq<string>, f: Row -> Row)
    requires forall id | id in rows :: !Tampered(mac, rows[id])
    requires forall r: Row :: f(r) == r || !Tampered(mac, f(r))
    ensures forall id | id in rows :: !Tampered(mac, Updated(rows, ids, f)[id])
  {
  }

  lemma MutatorsReseal(mac: RowMac)
    requires OverCoveredColumns(mac)
    ensures forall r: Row :: !Tampered(mac, Sealed(mac, r))
  {
    forall r: Row ensures !Tampered(mac, Sealed(mac, r)) {
      SealedReadsBack(mac, r);
    }
  }

  lemma TickIntact(cfg: Setup, s: State, env: Env)
    requires OverCoveredColumns(cfg.mac) && Keyed(s.rows) && Distinct(env.order) && AllIntact(cfg.mac, s)
    ensures AllIntact(cfg.mac, Tick(cfg, s, env).state)
  {
    TickEvolves(cfg, s, env);
    if s.clock.health.ClockAvailable() {
      BeforeBatchKeyed(cfg, s, env);
      BeforeBatchEvolves(cfg, s, env);
      var mid := BeforeBatch(cfg, s, env);
      assert mid.rows.Keys == s.rows.Keys && !mid.safeMode && mid.tamperedIds == [];
      SelectedDue(cfg, mid, env);
      var (due, c1) := FilterDue(cfg, DueCandidates(env.order, mid.rows, cfg.network), mid.rows, mid.clock, env);
      BatchEnd(cfg, due, mid.rows, mid.(clock := c1), [], env);
      forall i | 0 <= i < |due| ensures !Tampered(cfg.mac, mid.rows[due[i]]) {
        assert Evolved(cfg.mac, s.rows[due[i]], mid.rows[due[i]]);
      }
    }
    var t := Tick(cfg, s, env).state;
    forall id | id in t.rows ensures !Tampered(cfg.mac, t.rows[id]) {
      assert Evolved(cfg.mac, s.rows[id], t.rows[id]);
    }
  }

  lemma PassIntact(cfg: Setup, s: State, e: Event)
    requires OverCoveredColumns(cfg.mac) && Keyed(s.rows) && AllIntact(cfg.mac, s)
    requires e.HeightMonitor? || e.PriceMonitor? || e.ConfirmationCheck?
    ensures AllIntact(cfg.mac, Step(cfg, s, e))
  {
    MutatorsReseal(cfg.mac);
    match e
    case HeightMonitor(order, p, now) =>
      var height := ReadHeight(cfg.backends, s.clock, p).0;
      if height.Some? {
        UpdatedIntact(cfg.mac, s.rows, PendingByBlock(order, s.rows, cfg.network),
                      DueAtHeightRow(cfg.mac, height.value, now));
      }
    case PriceMonitor(order, prices, now) =>
      UpdatedIntact(cfg.mac, s.rows, PriceWaiting(order, s.rows, cfg.network), FiredRow(cfg.mac, prices, now));
    case ConfirmationCheck(order, mined, now) =>
      UpdatedIntact(cfg.mac, s.rows, BroadcastRows(order, s.rows, cfg.network), MinedRow(cfg.mac, mined, now));
  }

  /** The two writers of the program that change covered columns of a sealed row and do not reseal it: a
      schedule with a drawn delay, and the data migration at a start for rows the following pass leaves. */
  predicate BreaksSeal(s: State, e: Event) {
    match e
    case UserScheduleDelayed(id, at, _) =>
      id in s.rows && !(s.rows[id].status == Scheduled && s.rows[id].scheduledTime == Some(at))
    case Restarted(pass) => exists id | id in s.rows :: MigratedOnly(pass, s.rows[id])
    case _ => false
  }

  predicate MigratedOnly(pass: StartUpPass, r: Row) {
    WaitsImmediate(r) && !pass.takes(Reclassified(r))
  }

  lemma RestartIntact(cfg: Setup, s: State, pass: StartUpPass)
    requires OverCoveredColumns(cfg.mac) && AllIntact(cfg.mac, s) && !BreaksSeal(s, Restarted(pass))
    ensures AllIntact(cfg.mac, Restart(cfg, s, pass))
  {
    MutatorsReseal(cfg.mac);
    forall id | id in s.rows ensures !Tampered(cfg.mac, StartedRow(cfg.mac, pass, s.rows[id])) {
      assert !MigratedOnly(pass, s.rows[id]);
    }
  }

  lemma SameScheduleStaysIntact(mac: RowMac, r: Row, at: int, now: int)
    requires OverCoveredColumns(mac) && !Tampered(mac, r) && r.status == Scheduled && r.scheduledTime == Some(at)
    ensures !Tampered(mac, DelayedRow(r, at, now))
  {
    assert SameCoveredColumns(r, DelayedRow(r, at, now));
  }

  lemma CallIntact(cfg: Setup, s: State, e: Event)
    requires OverCoveredColumns(cfg.mac) && Keyed(s.rows) && !e.OutOfBand? && AllIntact(cfg.mac, s)
    requires !e.SchedulerTick? && !e.HeightMonitor? && !e.PriceMonitor? && !e.ConfirmationCheck? && !e.Restarted?
    requires !BreaksSeal(s, e)
    ensures AllIntact(cfg.mac, Step(cfg, s, e))
  {
    if e.UserScheduleDelayed? {
      if e.id in s.rows { SameScheduleStaysIntact(cfg.mac, s.rows[e.id], e.at, e.now); }
    } else {
      MutatorsReseal(cfg.mac);
    }
  }

  lemma StepIntact(cfg: Setup, s: State, e: Event)
    requires OverCoveredColumns(cfg.mac) && Keyed(s.rows) && WellFormed(e) && !e.OutOfBand? && AllIntact(cfg.mac, s)
    requires !BreaksSeal(s, e)
    ensures AllIntact(cfg.mac, Step(cfg, s, e))
  {
    if e.SchedulerTick? {
      TickIntact(cfg, s, e.env);
    } else if e.HeightMonitor? || e.PriceMonitor? || e.ConfirmationCheck? {
      PassIntact(cfg, s, e);
    } else if e.Restarted? {
      RestartIntact(cfg, s, e.pass);
    } else {
      CallIntact(cfg, s, e);
    }
  }

  ghost predicate NoSealBroken(cfg: Setup, tr: seq<Event>) {
    forall i | 0 <= i < |tr| :: !BreaksSeal(After(cfg, tr[..i]), tr[i])
  }

  lemma QuietSoFar(cfg: Setup, tr: seq<Event>)
    requires tr != [] && Undisturbed(tr) && NoSealBroken(cfg, tr)
    ensures var n := |tr| - 1;
            && Undisturbed(tr[..n]) && NoSealBroken(cfg, tr[..n])
            && WellFormed(tr[n]) && !tr[n].OutOfBand? && !BreaksSeal(After(cfg, tr[..n]), tr[n])
  {
    assert forall i | 0 <= i < |tr| - 1 :: tr[..|tr| - 1][..i] == tr[..i];
  }

  /** Main result: as long as nobody writes behind its back and it breaks no seal itself, every row reads
      back untampered and the pool never enters safe mode, whatever the calls and the daemons do. */
  lemma {:induction false} NoFalseAlarm(cfg: Setup, tr: seq<Event>)
    requires OverCoveredColumns(cfg.mac) && Undisturbed(tr) && NoSealBroken(cfg, tr)
    ensures AllIntact(cfg.mac, After(cfg, tr))
    decreases |tr|
  {
    if tr != [] {
      var n := |tr| - 1;
      QuietSoFar(cfg, tr);
      NoFalseAlarm(cfg, tr[..n]);
      StepIntact(cfg, After(cfg, tr[..n]), tr[n]);
    }
  }

  // ----- The halt -----

  function RunFrom(cfg: Setup, s: State, tr: seq<Event>): State
    requires Keyed(s.rows)
    decreases |tr|
  {
    if tr == [] then s
    else
      StepKeyed(cfg, s, tr[0]);
      RunFrom(cfg, Step(cfg, s, tr[0]), tr[1..])
  }

  /** Once in safe mode nothing more is sent, by ticks or by the user, until an acknowledgement or a restart. */
  lemma {:induction false} SafeModeHalts(cfg: Setup, s: State, tr: seq<Event>)
    requires Keyed(s.rows) && s.safeMode && forall i | 0 <= i < |tr| :: !tr[i].Acknowledge? && !tr[i].Restarted?
    ensures RunFrom(cfg, s, tr).sent == s.sent && RunFrom(cfg, s, tr).safeMode
    decreases |tr|
  {
    if tr != [] {
      StepKeyed(cfg, s, tr[0]);
      assert !tr[0].Acknowledge? && !tr[0].Restarted?;
      SafeModeHalts(cfg, Step(cfg, s, tr[0]), tr[1..]);
    }
  }
}
