/** What one scheduler tick does, in closed form: the loop with its early exits against a
    row-by-row description. */
module BatchFacts {
  import opened Prelude
  import opened ChainSource
  import opened Rows
  import opened Pool

  // ----- The batch as a table of per-row outcomes -----

  datatype Read = Read(ok: Option<bool>, clock: Clock)

  /** What the loop would read for each due row if it never stopped. */
  function Reads(cfg: Setup, due: seq<string>, snap: map<string, Row>, c: Clock, env: Env): (r: seq<Read>)
    requires forall id | id in due :: id in snap
    ensures |r| == |due|
  {
    if due == [] then []
    else
      var (ok, c1) := CheckLock(cfg.backends, c, snap[due[0]].nlocktime, env.sendProbe(due[0]));
      [Read(ok, c1)] + Reads(cfg, due[1..], snap, c1, env)
  }

  /** The first due row that is tampered or whose lock cannot be read, or the length. */
  function Stop(cfg: Setup, due: seq<string>, snap: map<string, Row>, seen: seq<Read>): (n: nat)
    requires |seen| == |due| && forall id | id in due :: id in snap
    ensures n <= |due|
    ensures forall i | 0 <= i < n :: !Tampered(cfg.mac, snap[due[i]]) && seen[i].ok.Some?
    ensures n < |due| ==> Tampered(cfg.mac, snap[due[n]]) || seen[n].ok.None?
  {
    if due == [] || Tampered(cfg.mac, snap[due[0]]) || seen[0].ok.None? then 0
    else 1 + Stop(cfg, due[1..], snap, seen[1..])
  }

  function ReplyTo(cfg: Setup, id: string, read: Read, env: Env): Reply {
    Handover(cfg.backends, read.clock.health, env.replies(id))
  }

  function RowAfter(cfg: Setup, row: Row, read: Read, env: Env): Row {
    match read.ok
    case None => row
    case Some(false) =>
      if row.nlocktime > LOCKTIME_THRESHOLD && row.missedAt.None?
      then MissedRow(row, env.now, row.scheduledTime) else row
    case Some(true) =>
      match ReplyTo(cfg, row.id, read, env)
      case Accepted(txid) => MarkBroadcastRow(cfg.mac, row, txid, env.now)
      case Refused(msg) => if cfg.retriable(msg) then row else FailedRow(cfg.mac, row, msg, env.now)
  }

  function Outcome(cfg: Setup, s: State, row: Row, read: Read, env: Env): State
    requires read.ok.Some? && row.id in s.rows
  {
    AfterCheck(cfg, s.(clock := read.clock), row, read.ok.value, ReplyTo(cfg, row.id, read, env), env.now)
  }

  function Attempt(cfg: Setup, id: string, read: Read, env: Env): seq<(string, Reply)> {
    if read.ok == Some(true) then [(id, ReplyTo(cfg, id, read, env))] else []
  }

  function Sent(cfg: Setup, row: Row, read: Read, env: Env): seq<Emission> {
    if read.ok == Some(true) && ReplyTo(cfg, row.id, read, env).Accepted?
    then [Emission(row.id, row.nlocktime, env.now, false)] else []
  }

  /** The rows handed to a backend, with the replies. */
  function Attempts(cfg: Setup, due: seq<string>, seen: seq<Read>, env: Env): seq<(string, Reply)>
    requires |due| <= |seen|
  {
    if due == [] then [] else Attempt(cfg, due[0], seen[0], env) + Attempts(cfg, due[1..], seen[1..], env)
  }

  function Emissions(cfg: Setup, due: seq<string>, snap: map<string, Row>, seen: seq<Read>, env: Env): seq<Emission>
    requires |due| <= |seen| && forall id | id in due :: id in snap
  {
    if due == [] then []
    else Sent(cfg, snap[due[0]], seen[0], env) + Emissions(cfg, due[1..], snap, seen[1..], env)
  }

  ghost predicate Snapshot(snap: map<string, Row>, due: seq<string>, rows: map<string, Row>) {
    && Keyed(snap) && snap.Keys == rows.Keys
    && forall i | 0 <= i < |due| :: due[i] in snap && rows[due[i]] == snap[due[i]]
  }

  lemma SameRow(rows: map<string, Row>, id: string)
    requires id in rows
    ensures rows[id := rows[id]] == rows
  {
  }

  lemma OutcomeRows(cfg: Setup, s: State, row: Row, read: Read, env: Env)
    requires read.ok.Some? && row.id in s.rows && s.rows[row.id] == row
    ensures Outcome(cfg, s, row, read, env).rows == s.rows[row.id := RowAfter(cfg, row, read, env)]
  {
    SameRow(s.rows, row.id);
  }

  lemma OutcomeFacts(cfg: Setup, s: State, row: Row, read: Read, env: Env)
    requires read.ok.Some? && row.id in s.rows && s.rows[row.id] == row
    ensures var t := Outcome(cfg, s, row, read, env);
            && t.rows == s.rows[row.id := RowAfter(cfg, row, read, env)]
            && t.safeMode == s.safeMode && t.tamperedIds == s.tamperedIds && t.clock == read.clock
            && t.sent == s.sent + Sent(cfg, row, read, env)
  {
    OutcomeRows(cfg, s, row, read, env);
  }

  /** One turn of the loop that does not stop it. */
  lemma BatchTurn(cfg: Setup, due: seq<string>, snap: map<string, Row>, s: State,
                  results: seq<(string, Reply)>, env: Env)
    requires due != [] && Distinct(due) && Snapshot(snap, due, s.rows) && !s.safeMode
    requires Stop(cfg, due, snap, Reads(cfg, due, snap, s.clock, env)) > 0
    ensures var read := Reads(cfg, due, snap, s.clock, env)[0];
            var t := Outcome(cfg, s, snap[due[0]], read, env);
            && Snapshot(snap, due[1..], t.rows) && Distinct(due[1..]) && due[0] !in due[1..]
            && Batch(cfg, due, snap, s, results, env)
               == Batch(cfg, due[1..], snap, t, results + Attempt(cfg, due[0], read, env), env)
  {
    OutcomeFacts(cfg, s, snap[due[0]], Reads(cfg, due, snap, s.clock, env)[0], env);
    assert results + [] == results;
  }

  lemma TakeTail<T>(s: seq<T>, n: nat)
    requires 0 < n <= |s|
    ensures s[..n] == [s[0]] + s[1..][..n - 1] && s[..n][1..] == s[1..][..n - 1]
  {
  }

  lemma Regroup<T>(a: seq<T>, b: seq<T>, c: seq<T>)
    ensures a + b + c == a + (b + c)
  {
  }

  lemma AttemptsPeel(cfg: Setup, due: seq<string>, seen: seq<Read>, env: Env, n: nat)
    requires |due| == |seen| && 0 < n <= |due|
    ensures Attempts(cfg, due[..n], seen, env)
         == Attempt(cfg, due[0], seen[0], env) + Attempts(cfg, due[1..][..n - 1], seen[1..], env)
  {
    TakeTail(due, n);
  }

  lemma ResultsPeel(cfg: Setup, due: seq<string>, seen: seq<Read>, env: Env, n: nat, results: seq<(string, Reply)>)
    requires |due| == |seen| && n <= |due|
    ensures n > 0 ==> results + Attempts(cfg, due[..n], seen, env)
                      == results + Attempt(cfg, due[0], seen[0], env)
                         + Attempts(cfg, due[1..][..n - 1], seen[1..], env)
    ensures n == 0 ==> results + Attempts(cfg, due[..n], seen, env) == results
  {
    if n > 0 {
      AttemptsPeel(cfg, due, seen, env, n);
      Regroup(results, Attempt(cfg, due[0], seen[0], env), Attempts(cfg, due[1..][..n - 1], seen[1..], env));
    }
  }

  lemma EmissionsPeel(cfg: Setup, due: seq<string>, snap: map<string, Row>, seen: seq<Read>, env: Env, n: nat)
    requires |due| == |seen| && 0 < n <= |due| && forall id | id in due :: id in snap
    ensures Emissions(cfg, due[..n], snap, seen, env)
         == Sent(cfg, snap[due[0]], seen[0], env) + Emissions(cfg, due[1..][..n - 1], snap, seen[1..], env)
  {
    TakeTail(due, n);
  }

  lemma StopPeel(cfg: Setup, due: seq<string>, snap: map<string, Row>, c: Clock, env: Env)
    requires due != [] && forall id | id in due :: id in snap
    requires Stop(cfg, due, snap, Reads(cfg, due, snap, c, env)) > 0
    ensures var seen := Reads(cfg, due, snap, c, env);
            && seen[1..] == Reads(cfg, due[1..], snap, seen[0].clock, env)
            && Stop(cfg, due, snap, seen) == 1 + Stop(cfg, due[1..], snap, seen[1..])
  {
  }

  /** In safe mode exactly if the loop stopped at a tampered row, which is then on record. */
  ghost predicate ModeAt(cfg: Setup, due: seq<string>, snap: map<string, Row>, s: State, end: State, stop: nat)
    requires stop <= |due| && forall i | 0 <= i < |due| :: due[i] in snap
  {
    var hit := stop < |due| && Tampered(cfg.mac, snap[due[stop]]);
    end.safeMode == hit
    && end.tamperedIds == (if hit then EnterSafeMode(s, due[stop]).tamperedIds else s.tamperedIds)
  }

  lemma ModePeel(cfg: Setup, due: seq<string>, snap: map<string, Row>, s: State, t: State, end: State, stop: nat)
    requires 0 < stop <= |due| && (forall i | 0 <= i < |due| :: due[i] in snap) && t.tamperedIds == s.tamperedIds
    requires ModeAt(cfg, due[1..], snap, t, end, stop - 1)
    ensures ModeAt(cfg, due, snap, s, end, stop)
  {
    assert stop < |due| ==> due[1..][stop - 1] == due[stop];
  }

  lemma {:induction false} BatchMode(cfg: Setup, due: seq<string>, snap: map<string, Row>, s: State,
                                     results: seq<(string, Reply)>, env: Env)
    requires Distinct(due) && Snapshot(snap, due, s.rows) && !s.safeMode
    ensures ModeAt(cfg, due, snap, s, Batch(cfg, due, snap, s, results, env).state,
                   Stop(cfg, due, snap, Reads(cfg, due, snap, s.clock, env)))
    decreases |due|
  {
    var seen := Reads(cfg, due, snap, s.clock, env);
    if due != [] && Stop(cfg, due, snap, seen) > 0 {
      BatchTurn(cfg, due, snap, s, results, env);
      OutcomeFacts(cfg, s, snap[due[0]], seen[0], env);
      var t := Outcome(cfg, s, snap[due[0]], seen[0], env);
      BatchMode(cfg, due[1..], snap, t, results + Attempt(cfg, due[0], seen[0], env), env);
      StopPeel(cfg, due, snap, s.clock, env);
      ModePeel(cfg, due, snap, s, t, Batch(cfg, due, snap, s, results, env).state, Stop(cfg, due, snap, seen));
    }
  }

  lemma {:induction false} BatchResults(cfg: Setup, due: seq<string>, snap: map<string, Row>, s: State,
                                        results: seq<(string, Reply)>, env: Env)
    requires Distinct(due) && Snapshot(snap, due, s.rows) && !s.safeMode
    ensures var seen := Reads(cfg, due, snap, s.clock, env);
            var stop := Stop(cfg, due, snap, seen);
            Batch(cfg, due, snap, s, results, env).results
            == (if stop < |due| && !Tampered(cfg.mac, snap[due[stop]]) then None
                else Some(results + Attempts(cfg, due[..stop], seen, env)))
    decreases |due|
  {
    var seen := Reads(cfg, due, snap, s.clock, env);
    var stop := Stop(cfg, due, snap, seen);
    if due != [] && stop > 0 {
      var first := Attempt(cfg, due[0], seen[0], env);
      BatchTurn(cfg, due, snap, s, results, env);
      OutcomeFacts(cfg, s, snap[due[0]], seen[0], env);
      BatchResults(cfg, due[1..], snap, Outcome(cfg, s, snap[due[0]], seen[0], env), results + first, env);
      StopPeel(cfg, due, snap, s.clock, env);
    }
    ResultsPeel(cfg, due, seen, env, stop, results);
  }

  /** Where the loop stops, and in which mode it leaves the pool: it attempts exactly the due rows
      before the stop whose lock reads satisfied, and enters safe mode exactly when it stopped at
      a tampered row, whose id is then recorded. */
  lemma BatchEnd(cfg: Setup, due: seq<string>, snap: map<string, Row>, s: State,
                 results: seq<(string, Reply)>, env: Env)
    requires Distinct(due) && Snapshot(snap, due, s.rows) && !s.safeMode
    ensures var end := Batch(cfg, due, snap, s, results, env);
            var seen := Reads(cfg, due, snap, s.clock, env);
            var stop := Stop(cfg, due, snap, seen);
            var hit := stop < |due| && Tampered(cfg.mac, snap[due[stop]]);
            && end.state.safeMode == hit
            && end.state.tamperedIds == (if hit then EnterSafeMode(s, due[stop]).tamperedIds else s.tamperedIds)
            && end.results == (if stop < |due| && !hit then None
                               else Some(results + Attempts(cfg, due[..stop], seen, env)))
  {
    BatchMode(cfg, due, snap, s, results, env);
    BatchResults(cfg, due, snap, s, results, env);
  }

  /** Exactly the rows before the stop get their own outcome; every other row is left alone. */
  lemma {:induction false} BatchRows(cfg: Setup, due: seq<string>, snap: map<string, Row>, s: State,
                                     results: seq<(string, Reply)>, env: Env)
    requires Distinct(due) && Snapshot(snap, due, s.rows) && !s.safeMode
    ensures var end := Batch(cfg, due, snap, s, results, env);
            var seen := Reads(cfg, due, snap, s.clock, env);
            var stop := Stop(cfg, due, snap, seen);
            && end.state.rows.Keys == s.rows.Keys
            && (forall i | 0 <= i < stop :: end.state.rows[due[i]] == RowAfter(cfg, snap[due[i]], seen[i], env))
            && (forall id | id in s.rows && id !in due[..stop] :: end.state.rows[id] == s.rows[id])
    decreases |due|
  {
    var seen := Reads(cfg, due, snap, s.clock, env);
    var stop := Stop(cfg, due, snap, seen);
    var end := Batch(cfg, due, snap, s, results, env);
    if due != [] && stop > 0 {
      var t := Outcome(cfg, s, snap[due[0]], seen[0], env);
      BatchTurn(cfg, due, snap, s, results, env);
      OutcomeFacts(cfg, s, snap[due[0]], seen[0], env);
      BatchRows(cfg, due[1..], snap, t, results + Attempt(cfg, due[0], seen[0], env), env);
      StopPeel(cfg, due, snap, s.clock, env);
      TakeTail(due, stop);
      forall i | 0 <= i < stop
        ensures end.state.rows[due[i]] == RowAfter(cfg, snap[due[i]], seen[i], env)
      {
        if i > 0 { assert due[i] == due[1..][i - 1] && seen[i] == seen[1..][i - 1]; }
      }
    }
  }

  /** What reaches the network: the accepted attempts before the stop, in order. */
  lemma {:induction false} BatchSent(cfg: Setup, due: seq<string>, snap: map<string, Row>, s: State,
                                     results: seq<(string, Reply)>, env: Env)
    requires Distinct(due) && Snapshot(snap, due, s.rows) && !s.safeMode
    ensures var seen := Reads(cfg, due, snap, s.clock, env);
            Batch(cfg, due, snap, s, results, env).state.sent
            == s.sent + Emissions(cfg, due[..Stop(cfg, due, snap, seen)], snap, seen, env)
    decreases |due|
  {
    var seen := Reads(cfg, due, snap, s.clock, env);
    var stop := Stop(cfg, due, snap, seen);
    if due != [] && stop > 0 {
      var t := Outcome(cfg, s, snap[due[0]], seen[0], env);
      BatchTurn(cfg, due, snap, s, results, env);
      OutcomeFacts(cfg, s, snap[due[0]], seen[0], env);
      BatchSent(cfg, due[1..], snap, t, results + Attempt(cfg, due[0], seen[0], env), env);
      StopPeel(cfg, due, snap, s.clock, env);
      EmissionsPeel(cfg, due, snap, seen, env, stop);
      Regroup(s.sent, Sent(cfg, snap[due[0]], seen[0], env),
              Emissions(cfg, due[1..][..stop - 1], snap, seen[1..], env));
    } else {
      assert s.sent + Emissions(cfg, due[..stop], snap, seen, env) == s.sent;
    }
  }

  // ----- A whole tick -----

  lemma SelectedDue(cfg: Setup, s: State, env: Env)
    requires Keyed(s.rows) && Distinct(env.order)
    ensures var (due, c1) := FilterDue(cfg, DueCandidates(env.order, s.rows, cfg.network), s.rows, s.clock, env);
            && Distinct(due) && Snapshot(s.rows, due, s.rows)
            && forall i | 0 <= i < |due| :: s.rows[due[i]].status == Scheduled
                                            && ScheduleReached(s.rows[due[i]], env.now)
  {
  }

  /** A tampered row among the pending rows whose time has come: nothing is sent in that tick, and
      the pool is in safe mode with the first such row on record. */
  lemma PendingHalts(cfg: Setup, s: State, env: Env, id: string)
    requires Keyed(s.rows) && !s.safeMode && s.clock.health.ClockAvailable()
    requires id in PendingReached(env.order, s.rows, cfg.network, env.now) && Tampered(cfg.mac, s.rows[id])
    ensures var ids := PendingReached(env.order, s.rows, cfg.network, env.now);
            var first := FirstTampered(cfg.mac, ids, s.rows);
            var end := Tick(cfg, s, env);
            && end.state.sent == s.sent && end.results == Some([])
            && end.state.safeMode && first < |ids| && ids[first] in end.state.tamperedIds
  {
    var ids := PendingReached(env.order, s.rows, cfg.network, env.now);
    var i :| 0 <= i < |ids| && ids[i] == id;
    assert FirstTampered(cfg.mac, ids, s.rows) <= i;
  }

  lemma {:induction false} AllAccepted(cfg: Setup, due: seq<string>, snap: map<string, Row>, seen: seq<Read>, env: Env)
    requires |seen| == |due| && Keyed(snap) && forall i | 0 <= i < |due| :: due[i] in snap
    requires forall i | 0 <= i < |due| ::
               seen[i].ok == Some(true) && ReplyTo(cfg, due[i], seen[i], env).Accepted?
    ensures |Emissions(cfg, due, snap, seen, env)| == |due| == |Attempts(cfg, due, seen, env)|
    ensures forall i | 0 <= i < |due| :: Emissions(cfg, due, snap, seen, env)[i].id == due[i]
  {
    if due != [] {
      assert forall i | 0 <= i < |due| - 1 :: due[1..][i] == due[i + 1] && seen[1..][i] == seen[i + 1];
      AllAccepted(cfg, due[1..], snap, seen[1..], env);
      var tail := Emissions(cfg, due[1..], snap, seen[1..], env);
      assert forall i | 0 < i < |due| :: Emissions(cfg, due, snap, seen, env)[i] == tail[i - 1];
    }
  }

  /** Untampered rows, readable satisfied locks, a backend that accepts. */
  ghost predicate NothingInTheWay(cfg: Setup, due: seq<string>, snap: map<string, Row>, c: Clock, env: Env)
    requires forall id | id in due :: id in snap
  {
    var seen := Reads(cfg, due, snap, c, env);
    forall i | 0 <= i < |due| :: && !Tampered(cfg.mac, snap[due[i]]) && seen[i].ok == Some(true)
                                 && ReplyTo(cfg, due[i], seen[i], env).Accepted?
  }

  lemma NothingStopsTheLoop(cfg: Setup, due: seq<string>, snap: map<string, Row>, c: Clock, env: Env)
    requires forall id | id in due :: id in snap
    requires NothingInTheWay(cfg, due, snap, c, env)
    ensures Stop(cfg, due, snap, Reads(cfg, due, snap, c, env)) == |due| && due[..|due|] == due
  {
  }

  /** Then every due row ends as Broadcast. */
  lemma EveryDueRowEndsBroadcast(cfg: Setup, due: seq<string>, snap: map<string, Row>, s: State, env: Env)
    requires Distinct(due) && Snapshot(snap, due, s.rows) && !s.safeMode
    requires NothingInTheWay(cfg, due, snap, s.clock, env)
    ensures var rows := Batch(cfg, due, snap, s, [], env).state.rows;
            forall i | 0 <= i < |due| :: due[i] in rows && rows[due[i]].status == Broadcast
  {
    NothingStopsTheLoop(cfg, due, snap, s.clock, env);
    BatchRows(cfg, due, snap, s, [], env);
  }

  /** And goes out once, in the order of the query. */
  lemma EveryDueRowGoesOut(cfg: Setup, due: seq<string>, snap: map<string, Row>, s: State, env: Env)
    requires Distinct(due) && Snapshot(snap, due, s.rows) && !s.safeMode
    requires NothingInTheWay(cfg, due, snap, s.clock, env)
    ensures var end := Batch(cfg, due, snap, s, [], env);
            && |end.state.sent| == |s.sent| + |due|
            && (forall i | 0 <= i < |due| :: end.state.sent[|s.sent| + i].id == due[i])
            && end.results.Some? && |end.results.value| == |due|
  {
    NothingStopsTheLoop(cfg, due, snap, s.clock, env);
    AllAccepted(cfg, due, snap, Reads(cfg, due, snap, s.clock, env), env);
    BatchSent(cfg, due, snap, s, [], env);
    BatchEnd(cfg, due, snap, s, [], env);
  }
}
