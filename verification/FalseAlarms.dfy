/** When the pool takes a row of its own for a tampered one, and what a start does to rows that are. */
module FalseAlarms {
  import opened Prelude
  import opened ChainSource
  import opened FieldCrypto
  import opened LegacyRows
  import opened Rows
  import opened Pool
  import opened BatchFacts
  import opened PoolRuns
  import opened DaemonSteps
  import opened EmissionSafety
  import opened TickOutcome
  import opened TamperTrail

  // ----- The MAC notices the two writers that do not reseal -----

  lemma MigrationChangesText(r: Row)
    requires WaitsImmediate(r)
    ensures RowMacInput(r) != RowMacInput(Reclassified(r))
  {
    var c, d := Covered(r), Covered(Reclassified(r));
    if RowMacInput(r) == RowMacInput(Reclassified(r)) {
      assert c[2] == "immediate" && d[2] == "imported";
      JoinDiffersIn(c, d, 2);
    }
  }

  lemma StatusTextInjective(a: Status, b: Status)
    requires StatusText(a) == StatusText(b)
    ensures a == b
  {
    assert StatusText(a)[0] == StatusText(b)[0];
    assert StatusText(a)[1] == StatusText(b)[1];
    assert |StatusText(a)| == |StatusText(b)|;
  }

  lemma DelayChangesText(r: Row, at: int, now: int)
    requires RowMacInput(r) == RowMacInput(DelayedRow(r, at, now))
    ensures r.status == Scheduled && r.scheduledTime == Some(at)
  {
    var c, d := Covered(r), Covered(DelayedRow(r, at, now));
    assert Join(c)[|r.id| + 1..] == Join(c[1..]) && Join(d)[|r.id| + 1..] == Join(d[1..]);
    StatusTextSeparatorFree(r.status);
    StatusTextSeparatorFree(Scheduled);
    SplitAtFirst(SEPARATOR, c[1], d[1], Join(c[1..][1..]), Join(d[1..][1..]));
    StatusTextInjective(r.status, Scheduled);
    JoinDiffersIn(c, d, 3);
    NumberTextInjective(r.scheduledTime, Some(at));
  }

  lemma BrokenSealIsNoticed(mac: Mac, cfg: Setup, s: State, e: Event)
    requires CollisionFree(mac) && cfg.mac == RowMacOf(mac) && Keyed(s.rows)
    requires AllIntact(cfg.mac, s) && BreaksSeal(s, e)
    ensures !AllIntact(cfg.mac, Step(cfg, s, e))
  {
    match e
    case UserScheduleDelayed(id, at, now) =>
      if RowMacInput(s.rows[id]) == RowMacInput(DelayedRow(s.rows[id], at, now)) {
        DelayChangesText(s.rows[id], at, now);
      }
      assert Tampered(cfg.mac, Step(cfg, s, e).rows[id]);
    case Restarted(pass) =>
      var id :| id in s.rows && MigratedOnly(pass, s.rows[id]);
      MigrationChangesText(s.rows[id]);
      assert Restart(cfg, s, pass).rows[id] == Reclassified(s.rows[id]);
      assert Tampered(cfg.mac, Restart(cfg, s, pass).rows[id]);
  }

  /** Every row reads back intact and the pool stays out of safe mode, at every moment of the run. */
  ghost predicate AlwaysIntact(cfg: Setup, tr: seq<Event>) {
    forall n | 0 <= n <= |tr| :: AllIntact(cfg.mac, After(cfg, tr[..n]))
  }

  lemma IntactSoFar(cfg: Setup, tr: seq<Event>, n: nat)
    requires OverCoveredColumns(cfg.mac) && Undisturbed(tr) && NoSealBroken(cfg, tr) && n <= |tr|
    ensures AllIntact(cfg.mac, After(cfg, tr[..n]))
  {
    assert forall i | 0 <= i < n :: tr[..n][..i] == tr[..i];
    NoFalseAlarm(cfg, tr[..n]);
  }

  lemma AfterOneMore(cfg: Setup, tr: seq<Event>, i: nat)
    requires i < |tr|
    ensures After(cfg, tr[..i + 1]) == Step(cfg, After(cfg, tr[..i]), tr[i])
  {
    assert tr[..i + 1][..i] == tr[..i];
  }

  /** Main result: in a run without outside writes every row reads back intact, and the pool stays out of safe
      mode, at every moment, exactly if no delay was drawn for a row it would change and no start migrated
      a row that the pass after it left. */
  lemma FalseAlarmsExactly(mac: Mac, cfg: Setup, tr: seq<Event>)
    requires CollisionFree(mac) && cfg.mac == RowMacOf(mac) && Undisturbed(tr)
    ensures AlwaysIntact(cfg, tr) <==> NoSealBroken(cfg, tr)
  {
    RowMacReadsCoveredColumns(mac);
    if NoSealBroken(cfg, tr) {
      forall n | 0 <= n <= |tr| ensures AllIntact(cfg.mac, After(cfg, tr[..n])) {
        IntactSoFar(cfg, tr, n);
      }
    } else {
      var i :| 0 <= i < |tr| && BreaksSeal(After(cfg, tr[..i]), tr[i]);
      AfterOneMore(cfg, tr, i);
      if AllIntact(cfg.mac, After(cfg, tr[..i])) {
        BrokenSealIsNoticed(mac, cfg, After(cfg, tr[..i]), tr[i]);
      }
      assert !AllIntact(cfg.mac, After(cfg, tr[..i])) || !AllIntact(cfg.mac, After(cfg, tr[..i + 1]));
    }
  }

  // ----- What a false alarm costs -----

  /** A transaction imported without a mode (as the command line does), with a time, and met by a restart
      before that time: the tick at its time finds it tampered, sends nothing and puts the pool in safe mode. */
  lemma ImportThenRestartHalts(mac: Mac, cfg: Setup, s: State, id: string, tx: NewTx, now: int, pass: StartUpPass,
                               p: Probe, core: CoreStatus, env: Env)
    requires CollisionFree(mac) && cfg.mac == RowMacOf(mac) && Keyed(s.rows)
    requires tx.mode.None? && tx.network == cfg.network && tx.scheduledTime.Some? && tx.scheduledTime.value <= env.now
    requires !pass.takes(Reclassified(InsertedRow(cfg.mac, id, tx, now))) && id in env.order
    requires p.indexerHeight.Some? || (core.CoreUp? && !core.ibd)
    ensures var s3 := HealthPoll(Restart(cfg, Import(cfg, s, id, tx, now), pass), p, core);
            && Keyed(s3.rows) && id in s3.rows && s3.rows[id].mode == Some("imported")
            && Tick(cfg, s3, env).state.safeMode && Tick(cfg, s3, env).state.sent == s.sent
  {
    var row := InsertedRow(cfg.mac, id, tx, now);
    var s1 := Import(cfg, s, id, tx, now);
    var s2 := Restart(cfg, s1, pass);
    var s3 := HealthPoll(s2, p, core);
    RestartKeyed(cfg, s1, pass);
    RowMacReadsCoveredColumns(mac);
    SealedReadsBack(cfg.mac, row.(rowMac := None));
    assert s1.rows[id] == row && s2.rows[id] == Reclassified(row);
    MigrationChangesText(row);
    assert Tampered(cfg.mac, s3.rows[id]);
    assert id in PendingReached(env.order, s3.rows, cfg.network, env.now);
    PendingHalts(cfg, s3, env, id);
  }

  /** Only row `id`, which is scheduled, reads back tampered. */
  ghost predicate OnlyTampered(cfg: Setup, s: State, id: string) {
    && !s.safeMode && id in s.rows && s.rows[id].status == Scheduled && Tampered(cfg.mac, s.rows[id])
    && forall k | k in s.rows && k != id :: !Tampered(cfg.mac, s.rows[k])
  }

  lemma BeforeBatchLeavesIt(cfg: Setup, s: State, env: Env, id: string)
    requires OverCoveredColumns(cfg.mac) && Keyed(s.rows) && OnlyTampered(cfg, s, id)
    ensures var mid := BeforeBatch(cfg, s, env);
            && OnlyTampered(cfg, mid, id) && mid.rows[id] == s.rows[id] && mid.rows.Keys == s.rows.Keys
            && mid.clock == s.clock
  {
    var ids, mid := PendingReached(env.order, s.rows, cfg.network, env.now), BeforeBatch(cfg, s, env);
    forall i | 0 <= i < |ids| ensures !Tampered(cfg.mac, s.rows[ids[i]]) {
      assert ids[i] in ids && s.rows[ids[i]].status == Pending;
    }
    assert FirstTampered(cfg.mac, ids, s.rows) == |ids|;
    BeforeBatchEvolves(cfg, s, env);
    ScheduledRowPassesThrough(cfg, s, env, id);
    forall k | k in mid.rows && k != id ensures !Tampered(cfg.mac, mid.rows[k]) {
      assert Evolved(cfg.mac, s.rows[k], mid.rows[k]);
    }
  }

  lemma StopsAtTheTampered(cfg: Setup, due: seq<string>, snap: map<string, Row>, seen: seq<Read>, id: string)
    requires |seen| == |due| && (forall k | k in due :: k in snap) && (forall i | 0 <= i < |due| :: seen[i].ok.Some?)
    requires forall k | k in due :: Tampered(cfg.mac, snap[k]) <==> k == id
    ensures var stop := Stop(cfg, due, snap, seen);
            && (stop < |due| <==> id in due) && (stop < |due| ==> Tampered(cfg.mac, snap[due[stop]]))
  {
    var stop := Stop(cfg, due, snap, seen);
    if id in due {
      var i :| 0 <= i < |due| && due[i] == id;
      assert stop <= i;
    }
  }

  lemma BatchStopsAtIt(cfg: Setup, s: State, env: Env, o: Outside, id: string)
    requires Keyed(s.rows) && Lists(env.order, s.rows) && OnlyTampered(cfg, s, id)
    requires SteadyClock(s.clock, o) && SteadyEnv(cfg, env, o)
    ensures BroadcastDue(cfg, s, env).state.safeMode
            <==> s.rows[id].network == cfg.network && DueNow(s.rows[id], env.now, o)
  {
    var candidates := DueCandidates(env.order, s.rows, cfg.network);
    var (due, c1) := FilterDue(cfg, candidates, s.rows, s.clock, env);
    SelectedDue(cfg, s, env);
    FilterDueSteady(cfg, candidates, s.rows, s.clock, env, o);
    CandidatesAre(env.order, s.rows, cfg.network, id);
    ReadsSteady(cfg, due, s.rows, c1, env, o);
    BatchMode(cfg, due, s.rows, s.(clock := c1), [], env);
    StopsAtTheTampered(cfg, due, s.rows, Reads(cfg, due, s.rows, c1, env), id);
  }

  /** A delay drawn for an intact row, the rest of the pool being in order and the backends steady and
      accepting: no tick sends the row, and a tick enters safe mode exactly if it finds the row due. */
  lemma DrawnDelayHalts(mac: Mac, cfg: Setup, s: State, id: string, at: int, now: int, env: Env, o: Outside)
    requires CollisionFree(mac) && cfg.mac == RowMacOf(mac) && Calm(cfg, s, env, o)
    requires id in s.rows && BreaksSeal(s, UserScheduleDelayed(id, at, now))
    ensures var s1 := ScheduleDelayed(s, id, at, now);
            && Keyed(s1.rows)
            && var t := Tick(cfg, s1, env).state;
               && (t.safeMode <==> s.rows[id].network == cfg.network && DueNow(s1.rows[id], env.now, o))
               && forall k | |s.sent| <= k < |t.sent| :: t.sent[k].id != id
  {
    var s1 := ScheduleDelayed(s, id, at, now);
    RowMacReadsCoveredColumns(mac);
    if RowMacInput(s.rows[id]) == RowMacInput(DelayedRow(s.rows[id], at, now)) {
      DelayChangesText(s.rows[id], at, now);
    }
    assert s1.rows.Keys == s.rows.Keys && OnlyTampered(cfg, s1, id);
    BeforeBatchKeyed(cfg, s1, env);
    BeforeBatchLeavesIt(cfg, s1, env, id);
    BatchStopsAtIt(cfg, BeforeBatch(cfg, s1, env), env, o, id);
    NeverSentByTick(cfg, s1, env, id);
  }

  lemma NeverSentByTick(cfg: Setup, s: State, env: Env, id: string)
    requires Keyed(s.rows) && Distinct(env.order) && OnlyTampered(cfg, s, id)
    ensures var t := Tick(cfg, s, env).state;
            forall k | |s.sent| <= k < |t.sent| :: t.sent[k].id != id
  {
    var t := Tick(cfg, s, env).state;
    forall k | |s.sent| <= k < |t.sent| ensures t.sent[k].id != id {
      if t.sent[k].id == id {
        TamperedSentOnlyIfRequeued(cfg, s, env, k);
        FailedRowsAreOurs(env.order, s.rows, cfg.network, id);
      }
    }
  }

  // ----- A start seals old rows without looking at their MAC -----

  /** The pass over old rows, as far as it gets: an error ends it early and is only logged. */
  function PassOf(c: Cipher, nonces: Nonces, reached: set<string>): StartUpPass {
    StartUpPass((r: Row) => r.id in reached && IsLegacy(r),
                (r: Row) => EncodedRow(c, nonces, r).txHex,
                (r: Row) => EncodedRow(c, nonces, r).dest,
                (r: Row) => EncodedRow(c, nonces, r).sourceLabel)
  }

  lemma PassUpgrades(mac: RowMac, c: Cipher, nonces: Nonces, reached: set<string>, r: Row)
    ensures var q := Reclassified(r);
            StartedRow(mac, PassOf(c, nonces, reached), r)
            == if q.id in reached && IsLegacy(q) then UpgradedRow(mac, c, nonces, q) else q
  {
  }

  function Migrated(rows: map<string, Row>): map<string, Row> {
    map id | id in rows :: Reclassified(rows[id])
  }

  /** A pass that reaches every row makes of each what `EncryptLegacyRows` makes of the migrated table. */
  lemma CompletePassUpgrades(mac: RowMac, c: Cipher, nonces: Nonces, rows: map<string, Row>, id: string)
    requires id in rows && rows[id].id == id
    ensures StartedRow(mac, PassOf(c, nonces, rows.Keys), rows[id]) == Upgraded(mac, c, nonces, Migrated(rows))[id]
  {
    PassUpgrades(mac, c, nonces, rows.Keys, rows[id]);
  }

  /** A tampered row that no migration touches stops reading back tampered at a start exactly if the pass
      reaches it and its transaction is stored in plain text or it carries no MAC. A reader is shown the same
      row before and after, so what was written behind the program's back then counts as genuine. */
  lemma StartSealsTamperedOldRows(cfg: Setup, s: State, c: Cipher, nonces: Nonces, reached: set<string>, id: string)
    requires OverCoveredColumns(cfg.mac) && Opens(c) && Keyed(s.rows)
    requires id in s.rows && !WaitsImmediate(s.rows[id]) && Tampered(cfg.mac, s.rows[id])
    ensures var row, t := s.rows[id], Restart(cfg, s, PassOf(c, nonces, reached));
            && id in t.rows
            && (Tampered(cfg.mac, t.rows[id]) <==> !(id in reached && IsLegacy(row)))
            && Readable(c, t.rows[id]) == Readable(c, row).(rowMac := t.rows[id].rowMac)
  {
    var row := s.rows[id];
    PassUpgrades(cfg.mac, c, nonces, reached, row);
    UpgradePreservesMeaning(cfg.mac, c, nonces, map[id := row], id);
    assert Restart(cfg, s, PassOf(c, nonces, reached)).rows[id] == StartedRow(cfg.mac, PassOf(c, nonces, reached), row);
  }
}
