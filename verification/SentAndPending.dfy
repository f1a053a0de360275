/** What is sent leaves the map of held transactions: every successful hand-over is followed by the removal of
    its transaction, which notifies the wallets it concerns (`mark_broadcast`). */
module SentAndPending {
  import opened Prelude
  import opened ChainSource
  import opened Rows
  import opened Pool
  import opened BatchFacts
  import opened DaemonSteps
  import PI = PendingIndex

  /** The removals that go with a list of emissions, in the same order; the row keeps the id under which the
      network took its transaction. */
  function Departures(rows: map<string, Row>, es: seq<Emission>): seq<PI.Change> {
    if es == [] then []
    else
      (if es[0].id in rows && rows[es[0].id].txid.Some? then [PI.Remove(rows[es[0].id].txid.value)] else [])
      + Departures(rows, es[1..])
  }

  /** The transactions that go. */
  ghost predicate Departs(rows: map<string, Row>, es: seq<Emission>, txid: string) {
    exists k | 0 <= k < |es| :: es[k].id in rows && rows[es[k].id].txid == Some(txid)
  }

  lemma DepartsCons(rows: map<string, Row>, es: seq<Emission>, txid: string)
    requires es != []
    ensures Departs(rows, es, txid)
            <==> (es[0].id in rows && rows[es[0].id].txid == Some(txid)) || Departs(rows, es[1..], txid)
  {
    if Departs(rows, es, txid) {
      var k :| 0 <= k < |es| && es[k].id in rows && rows[es[k].id].txid == Some(txid);
      assert k > 0 ==> es[k] == es[1..][k - 1];
    }
    if Departs(rows, es[1..], txid) {
      var k :| 0 <= k < |es[1..]| && es[1..][k].id in rows && rows[es[1..][k].id].txid == Some(txid);
      assert es[1..][k] == es[k + 1];
    }
  }

  /** The map after the removals: exactly the departing transactions are gone. */
  ghost predicate WithoutDeparted(pending: PI.Pending, after: PI.Pending, rows: map<string, Row>, es: seq<Emission>) {
    && (forall t :: t in after <==> t in pending && !Departs(rows, es, t))
    && (forall t | t in after :: after[t] == pending[t])
  }

  lemma {:induction false} DeparturesRemove(pending: PI.Pending, rows: map<string, Row>, es: seq<Emission>)
    ensures WithoutDeparted(pending, PI.ApplyAll(pending, Departures(rows, es)), rows, es)
    decreases |es|
  {
    if es != [] {
      var rest := Departures(rows, es[1..]);
      forall t ensures Departs(rows, es, t)
                       <==> (es[0].id in rows && rows[es[0].id].txid == Some(t)) || Departs(rows, es[1..], t)
      {
        DepartsCons(rows, es, t);
      }
      if es[0].id in rows && rows[es[0].id].txid.Some? {
        var gone := PI.Remove(rows[es[0].id].txid.value);
        assert Departures(rows, es)[0] == gone && Departures(rows, es)[1..] == rest;
        DeparturesRemove(PI.Apply(pending, gone), rows, es[1..]);
      } else {
        assert Departures(rows, es) == rest;
        DeparturesRemove(pending, rows, es[1..]);
      }
    }
  }

  /** A departing transaction is held and touches the scripthash. */
  ghost predicate Concerned(pending: PI.Pending, rows: map<string, Row>, es: seq<Emission>, sh: string) {
    exists t | t in pending :: sh in pending[t].scripthashes && Departs(rows, es, t)
  }

  lemma {:induction false} DeparturesNotify(pending: PI.Pending, rows: map<string, Row>, es: seq<Emission>, sh: string)
    ensures sh in PI.NotifiedAll(pending, Departures(rows, es)) <==> Concerned(pending, rows, es, sh)
    decreases |es|
  {
    if es != [] {
      var rest := Departures(rows, es[1..]);
      forall t ensures Departs(rows, es, t)
                       <==> (es[0].id in rows && rows[es[0].id].txid == Some(t)) || Departs(rows, es[1..], t)
      {
        DepartsCons(rows, es, t);
      }
      if es[0].id in rows && rows[es[0].id].txid.Some? {
        var txid := rows[es[0].id].txid.value;
        var next := PI.Apply(pending, PI.Remove(txid));
        assert Departures(rows, es)[0] == PI.Remove(txid) && Departures(rows, es)[1..] == rest;
        DeparturesNotify(next, rows, es[1..], sh);
        ConcernedWithout(pending, rows, es, sh, txid);
      } else {
        assert Departures(rows, es) == rest;
        DeparturesNotify(pending, rows, es[1..], sh);
      }
    }
  }

  lemma ConcernedWithout(pending: PI.Pending, rows: map<string, Row>, es: seq<Emission>, sh: string, txid: string)
    requires es != []
    requires forall t :: Departs(rows, es, t) <==> t == txid || Departs(rows, es[1..], t)
    ensures Concerned(pending, rows, es, sh)
            <==> (txid in pending && sh in pending[txid].scripthashes)
                 || Concerned(PI.Apply(pending, PI.Remove(txid)), rows, es[1..], sh)
  {
    var next := PI.Apply(pending, PI.Remove(txid));
    if Concerned(pending, rows, es, sh) {
      var t :| t in pending && sh in pending[t].scripthashes && Departs(rows, es, t);
      if t != txid {
        assert t in next && next[t] == pending[t];
      }
    }
    if Concerned(next, rows, es[1..], sh) {
      var t :| t in next && sh in next[t].scripthashes && Departs(rows, es[1..], t);
      assert t in pending && pending[t] == next[t];
    }
  }

  lemma AnswersChangeExactly(pending: PI.Pending, after: PI.Pending, rows: map<string, Row>, es: seq<Emission>,
                             sh: string)
    requires WithoutDeparted(pending, after, rows, es)
    ensures PI.Answer(pending, sh) != PI.Answer(after, sh) <==> Concerned(pending, rows, es, sh)
  {
    var a, b := PI.Answer(pending, sh), PI.Answer(after, sh);
    if Concerned(pending, rows, es, sh) {
      var t :| t in pending && sh in pending[t].scripthashes && Departs(rows, es, t);
      assert t in a && t !in b;
    } else {
      forall t ensures t in a <==> t in b {
        if t in a { assert t in pending && sh in pending[t].scripthashes && !Departs(rows, es, t); }
      }
      assert a == b;
    }
  }

  /** What a step's new emissions do to the held transactions, given that every row sent carries its id:
      all of them are gone, nothing else changes, and exactly the scripthashes whose answer changes are told. */
  ghost predicate Departed(s: State, t: State, pending: PI.Pending) {
    s.sent <= t.sent
    && var es := t.sent[|s.sent|..];
       var cs := Departures(t.rows, es);
       var after := PI.ApplyAll(pending, cs);
       && WithoutDeparted(pending, after, t.rows, es)
       && (forall k | 0 <= k < |es| :: es[k].id in t.rows && t.rows[es[k].id].txid.Some?
                                       && t.rows[es[k].id].txid.value !in after)
       && (forall sh :: PI.Answer(pending, sh) != PI.Answer(after, sh) <==> sh in PI.NotifiedAll(pending, cs))
  }

  lemma SentRowsDepart(s: State, t: State, pending: PI.Pending)
    requires s.sent <= t.sent
    requires forall k | |s.sent| <= k < |t.sent| :: t.sent[k].id in t.rows && t.rows[t.sent[k].id].txid.Some?
    ensures Departed(s, t, pending)
  {
    var es := t.sent[|s.sent|..];
    var cs := Departures(t.rows, es);
    var after := PI.ApplyAll(pending, cs);
    DeparturesRemove(pending, t.rows, es);
    forall k | 0 <= k < |es|
      ensures es[k].id in t.rows && t.rows[es[k].id].txid.Some? && t.rows[es[k].id].txid.value !in after
    {
      assert es[k] == t.sent[|s.sent| + k];
      assert Departs(t.rows, es, t.rows[es[k].id].txid.value);
    }
    forall sh ensures PI.Answer(pending, sh) != PI.Answer(after, sh) <==> sh in PI.NotifiedAll(pending, cs) {
      AnswersChangeExactly(pending, after, t.rows, es, sh);
      DeparturesNotify(pending, t.rows, es, sh);
    }
  }

  /** Main result for the scheduler: after a tick no transaction it sent is held any more, every wallet whose
      answer that changes is told, and no other wallet is. */
  lemma TickClearsPending(cfg: Setup, s: State, env: Env, pending: PI.Pending)
    requires Keyed(s.rows) && Distinct(env.order)
    ensures Departed(s, Tick(cfg, s, env).state, pending)
  {
    TickSendsDueRows(cfg, s, env);
    var t := Tick(cfg, s, env).state;
    var es := t.sent[|s.sent|..];
    forall k | |s.sent| <= k < |t.sent| ensures t.sent[k].id in t.rows && t.rows[t.sent[k].id].txid.Some? {
      assert t.sent[k] == es[k - |s.sent|];
    }
    SentRowsDepart(s, t, pending);
  }

  /** And the same for a broadcast by the user. */
  lemma UserBroadcastClearsPending(cfg: Setup, s: State, id: string, now: int, p: Probe, replies: Replies,
                                   pending: PI.Pending)
    requires Keyed(s.rows)
    ensures Departed(s, BroadcastNow(cfg, s, id, now, p, replies), pending)
  {
    SentRowsDepart(s, BroadcastNow(cfg, s, id, now, p, replies), pending);
  }

  // ----- The id kept in the row is the one the network answered -----

  lemma {:induction false} AttemptsComeFrom(cfg: Setup, due: seq<string>, seen: seq<Read>, env: Env, j: nat)
    returns (i: nat)
    requires |due| <= |seen| && j < |Attempts(cfg, due, seen, env)|
    ensures i < |due| && seen[i].ok == Some(true)
    ensures Attempts(cfg, due, seen, env)[j] == (due[i], ReplyTo(cfg, due[i], seen[i], env))
    decreases |due|
  {
    var first := Attempt(cfg, due[0], seen[0], env);
    if j < |first| {
      i := 0;
    } else {
      i := AttemptsComeFrom(cfg, due[1..], seen[1..], env, j - |first|);
      assert due[1..][i] == due[i + 1] && seen[1..][i] == seen[i + 1];
      i := i + 1;
    }
  }

  ghost predicate RecordsReplies(rows: map<string, Row>, results: seq<(string, Reply)>) {
    forall j | 0 <= j < |results| && results[j].1.Accepted? ::
      results[j].0 in rows && rows[results[j].0].txid == Some(results[j].1.txid)
  }

  lemma BatchRecordsReplies(cfg: Setup, due: seq<string>, s: State, env: Env)
    requires !s.safeMode && Distinct(due) && Snapshot(s.rows, due, s.rows)
    ensures var end := Batch(cfg, due, s.rows, s, [], env);
            end.results.Some? ==> RecordsReplies(end.state.rows, end.results.value)
  {
    var end := Batch(cfg, due, s.rows, s, [], env);
    var seen := Reads(cfg, due, s.rows, s.clock, env);
    var stop := Stop(cfg, due, s.rows, seen);
    BatchResults(cfg, due, s.rows, s, [], env);
    BatchRows(cfg, due, s.rows, s, [], env);
    if end.results.Some? {
      var rs := end.results.value;
      assert rs == Attempts(cfg, due[..stop], seen, env);
      forall j | 0 <= j < |rs| && rs[j].1.Accepted?
        ensures rs[j].0 in end.state.rows && end.state.rows[rs[j].0].txid == Some(rs[j].1.txid)
      {
        var i := AttemptsComeFrom(cfg, due[..stop], seen, env, j);
        assert due[..stop][i] == due[i];
        assert end.state.rows[due[i]] == RowAfter(cfg, s.rows[due[i]], seen[i], env);
      }
    }
  }

  /** Every hand-over that a tick reports as accepted is recorded in its row under the id the network gave. */
  lemma TickRecordsReplies(cfg: Setup, s: State, env: Env)
    requires Keyed(s.rows) && Distinct(env.order)
    ensures var end := Tick(cfg, s, env);
            end.results.Some? ==> RecordsReplies(end.state.rows, end.results.value)
  {
    if !s.safeMode && s.clock.health.ClockAvailable() {
      BeforeBatchKeyed(cfg, s, env);
      var mid := BeforeBatch(cfg, s, env);
      if !mid.safeMode {
        SelectedDue(cfg, mid, env);
        var (due, c1) := FilterDue(cfg, DueCandidates(env.order, mid.rows, cfg.network), mid.rows, mid.clock, env);
        BatchRecordsReplies(cfg, due, mid.(clock := c1), env);
      }
    }
  }
}
