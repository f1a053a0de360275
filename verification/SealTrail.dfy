/** What the MAC of a row says at the end of any run, whoever wrote the row in between: the daemons, the user,
    somebody behind the program's back, or the two writers of the program that do not reseal. */
module SealTrail {
  import opened Prelude
  import opened Rows
  import opened Pool
  import opened PoolRuns
  import opened DaemonSteps
  import opened EmissionSafety
  import opened TamperTrail

  /** After the step the version last sealed is the row as it stands: the step sealed it, or left intact
      what was intact. */
  predicate Seals(cfg: Setup, s: State, e: Event, id: string) {
    && id in s.rows
    && match e
       case Restarted(pass) => pass.takes(Reclassified(s.rows[id]))
       case OutOfBand(_, _) => false
       case UserScheduleDelayed(_, _, _) => false
       case _ => Reseals(cfg, s, e, id) || !Tampered(cfg.mac, s.rows[id])
  }

  /** The version of row `id` that the program sealed last in the run, `sealed` being the one at its start. */
  function LastSealed(cfg: Setup, s: State, tr: seq<Event>, id: string, sealed: Row): Row
    requires Keyed(s.rows)
    decreases |tr|
  {
    if tr == [] then sealed
    else
      StepKeyed(cfg, s, tr[0]);
      var t := Step(cfg, s, tr[0]);
      LastSealed(cfg, t, tr[1..], id, if Seals(cfg, s, tr[0], id) && id in t.rows then t.rows[id] else sealed)
  }

  /** Others may write the row as often as they like, but leave its stored MAC alone. */
  predicate LeavesMac(s: State, e: Event, id: string) {
    e.OutOfBand? && e.id == id && id in s.rows ==> e.row.rowMac == s.rows[id].rowMac
  }

  ghost predicate LeavesMacs(cfg: Setup, s: State, tr: seq<Event>, id: string)
    requires Keyed(s.rows)
    decreases |tr|
  {
    if tr == [] then true
    else
      StepKeyed(cfg, s, tr[0]);
      WellFormed(tr[0]) && !Replaces(tr[0], id) && LeavesMac(s, tr[0], id)
      && LeavesMacs(cfg, Step(cfg, s, tr[0]), tr[1..], id)
  }

  lemma UnsealedStep(cfg: Setup, s: State, e: Event, id: string, sealed: Row)
    requires OverCoveredColumns(cfg.mac) && id in s.rows && s.rows[id].rowMac == Some(cfg.mac(sealed))
    requires LeavesMac(s, e, id) && Keyed(s.rows) && (e.OutOfBand? || e.UserScheduleDelayed? || e.Restarted?)
    ensures var t := Step(cfg, s, e);
            id in t.rows && t.rows[id].rowMac == Some(cfg.mac(if Seals(cfg, s, e, id) then t.rows[id] else sealed))
  {
    MutatorsReseal(cfg.mac);
  }

  /** One step: the stored MAC is always that of the version last sealed. */
  lemma SealFollows(cfg: Setup, s: State, e: Event, id: string, sealed: Row)
    requires OverCoveredColumns(cfg.mac) && Keyed(s.rows) && WellFormed(e)
    requires !Replaces(e, id) && LeavesMac(s, e, id)
    requires id in s.rows && s.rows[id].rowMac == Some(cfg.mac(sealed))
    ensures var t := Step(cfg, s, e);
            id in t.rows && t.rows[id].rowMac == Some(cfg.mac(if Seals(cfg, s, e, id) then t.rows[id] else sealed))
  {
    if e.OutOfBand? || e.UserScheduleDelayed? || e.Restarted? {
      UnsealedStep(cfg, s, e, id, sealed);
    } else if Tampered(cfg.mac, s.rows[id]) {
      TamperedUntilResealed(cfg, s, e, id);
    } else {
      IntactStays(cfg, s, e, id);
    }
  }

  lemma {:induction false} MacIsOfLastSealed(cfg: Setup, s: State, tr: seq<Event>, id: string, sealed: Row)
    requires OverCoveredColumns(cfg.mac) && Keyed(s.rows) && LeavesMacs(cfg, s, tr, id)
    requires id in s.rows && s.rows[id].rowMac == Some(cfg.mac(sealed))
    ensures id in RunFrom(cfg, s, tr).rows
    ensures RunFrom(cfg, s, tr).rows[id].rowMac == Some(cfg.mac(LastSealed(cfg, s, tr, id, sealed)))
    decreases |tr|
  {
    if tr != [] {
      StepKeyed(cfg, s, tr[0]);
      SealFollows(cfg, s, tr[0], id, sealed);
      var t := Step(cfg, s, tr[0]);
      MacIsOfLastSealed(cfg, t, tr[1..], id, if Seals(cfg, s, tr[0], id) then t.rows[id] else sealed);
    }
  }

  /** Main result: at the end of any run in which the row stays in the table and nobody can forge a MAC, the
      row reads back tampered exactly if its covered columns differ from those it had when the program last
      sealed it. */
  lemma TamperedExactlyIfChangedSinceSealed(mac: Mac, cfg: Setup, s: State, tr: seq<Event>, id: string, sealed: Row)
    requires CollisionFree(mac) && cfg.mac == RowMacOf(mac) && Keyed(s.rows) && LeavesMacs(cfg, s, tr, id)
    requires id in s.rows && s.rows[id].rowMac == Some(cfg.mac(sealed))
    ensures id in RunFrom(cfg, s, tr).rows
    ensures var end, last := RunFrom(cfg, s, tr).rows[id], LastSealed(cfg, s, tr, id, sealed);
            && (Tampered(cfg.mac, end) <==> RowMacInput(end) != RowMacInput(last))
            && (CleanText(end) && CleanText(last) ==> (Tampered(cfg.mac, end) <==> !SameCoveredColumns(end, last)))
  {
    RowMacReadsCoveredColumns(mac);
    MacIsOfLastSealed(cfg, s, tr, id, sealed);
    var end, last := RunFrom(cfg, s, tr).rows[id], LastSealed(cfg, s, tr, id, sealed);
    if CleanText(end) && CleanText(last) {
      MacInputDeterminesColumns(end, last);
    }
  }
}
