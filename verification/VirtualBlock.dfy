/** Arming, capturing and disarming the Liana virtual block, and the ingest plan of a broadcast. An
    ingest reads the configuration twice, under two separate locks; every other step may come between. */
module VirtualBlocks {
  import opened Prelude
  import ChainSource
  import Pool
  import Rows

  const U64_MAX: nat := 0xFFFF_FFFF_FFFF_FFFF
  const MAX_VIRTUAL_BLOCK_GAP: nat := 100_000
  const TIMESTAMP_LOCK: nat := 500_000_000

  type u64 = n: nat | n <= U64_MAX

  datatype Mode = Immediate | Scheduled | ByBlock | Manual

  datatype Config = Config(enabled: bool, target: u64, armedAt: u64, mode: Mode, fixedTime: Option<int>)

  // ----- The plan for one transaction -----

  /** `delayed` is the current time plus the random delay. */
  function ResolveBroadcastPlan(cfg: Config, now: int, delayed: Option<int>): (Mode, Option<int>) {
    match cfg.mode
    case Immediate => (Immediate, Some(now))
    case Scheduled => (Scheduled, if cfg.fixedTime.Some? then cfg.fixedTime else delayed)
    case ByBlock => (ByBlock, None)
    case Manual => (Manual, None)
  }

  function ResolveIngestPlan(source: string, nlocktime: nat, cfg: Config, height: Option<u64>, now: int,
                             delayed: Option<int>): (Mode, Option<int>) {
    if source == "liana" then (if cfg.enabled then ByBlock else Manual, None)
    else if source == "sparrow" && nlocktime == 0 then (Manual, None)
    else if nlocktime > TIMESTAMP_LOCK then (Scheduled, Some(nlocktime * Pool.NANOS))
    else if 0 < nlocktime < TIMESTAMP_LOCK then
      if height.Some? && nlocktime <= height.value then (Immediate, Some(now)) else (ByBlock, None)
    else ResolveBroadcastPlan(cfg, now, delayed)
  }

  // ----- Steps -----

  datatype Plan = Plan(source: string, nlocktime: nat, mode: Mode, at: Option<int>)

  datatype Ingested = Ingested(nlocktime: Option<nat>, mode: Mode, at: Option<int>)

  datatype World = World(cfg: Config, height: Option<u64>, planned: map<nat, Plan>, rows: map<nat, Ingested>)

  datatype Event =
    | Settings(newTarget: Option<u64>, enable: Option<bool>)
    | PlanIngest(id: nat, source: string, nlocktime: nat, now: int, delayed: Option<int>)
    | FinishIngest(id: nat)
    | HealthPoll(seen: Option<u64>)
    | HeightRead(h: u64)   // `check_block_height` heard from the indexer: a tick, a lock check, a monitor pass

  predicate ValidVirtualHeight(target: nat, height: nat) {
    target != 0 && height < target <= height + MAX_VIRTUAL_BLOCK_GAP
  }

  /** `update_settings`: the target is stored first, and stays stored when arming is then refused. */
  function SettingsStep(cfg: Config, height: Option<u64>, newTarget: Option<u64>, enable: Option<bool>): Config {
    var edited := if newTarget.Some? then cfg.(target := newTarget.value) else cfg;
    if enable == Some(false) then edited.(enabled := false)
    else if enable == Some(true) && height.Some? && ValidVirtualHeight(edited.target, height.value)
    then edited.(enabled := true, armedAt := height.value)
    else edited
  }

  /** The second lock of an ingest: the height this transaction captures. */
  function Captured(cfg: Config, p: Plan): Option<u64> {
    if p.mode == ByBlock && p.source == "liana" && cfg.enabled then Some(cfg.target) else None
  }

  function CaptureStep(cfg: Config, p: Plan): Config {
    if Captured(cfg, p).Some? then cfg.(target := Min(cfg.target + 2, U64_MAX)) else cfg
  }

  function RowOf(cfg: Config, p: Plan): Ingested {
    var captured := Captured(cfg, p);
    Ingested(if captured.Some? then Some(captured.value) else if p.nlocktime > 0 then Some(p.nlocktime) else None,
             p.mode, p.at)
  }

  /** `maybe_disarm_virtual_block`. */
  function DisarmStep(cfg: Config, height: Option<u64>): Config {
    if height.Some? && cfg.enabled && height.value >= cfg.armedAt + 10 then cfg.(enabled := false) else cfg
  }

  function Step(w: World, e: Event): World {
    match e
    case Settings(newTarget, enable) => w.(cfg := SettingsStep(w.cfg, w.height, newTarget, enable))
    case PlanIngest(id, source, nlocktime, now, delayed) =>
      var plan := ResolveIngestPlan(source, nlocktime, w.cfg, w.height, now, delayed);
      w.(planned := w.planned[id := Plan(source, nlocktime, plan.0, plan.1)])
    case FinishIngest(id) =>
      if id !in w.planned then w
      else w.(cfg := CaptureStep(w.cfg, w.planned[id]), rows := w.rows[id := RowOf(w.cfg, w.planned[id])],
              planned := w.planned - {id})
    case HealthPoll(seen) => w.(height := seen, cfg := DisarmStep(w.cfg, seen))
    case HeightRead(h) => w.(height := Some(h))
  }

  function After(w: World, es: seq<Event>): World
    decreases |es|
  {
    if es == [] then w else After(Step(w, es[0]), es[1..])
  }

  predicate CapturesAt(w: World, e: Event) {
    e.FinishIngest? && e.id in w.planned && Captured(w.cfg, w.planned[e.id]).Some?
  }

  /** The heights captured along a run, in order. */
  function Captures(w: World, es: seq<Event>): seq<u64>
    decreases |es|
  {
    if es == [] then []
    else
      (if CapturesAt(w, es[0]) then [w.cfg.target] else [])
      + Captures(Step(w, es[0]), es[1..])
  }

  // ----- Captured heights -----

  predicate NoTargetEdits(es: seq<Event>) {
    forall i | 0 <= i < |es| && es[i].Settings? :: es[i].newTarget.None?
  }

  function Advanced(target: nat, k: nat): nat {
    Min(target + 2 * k, U64_MAX)
  }

  lemma FewerEdits(es: seq<Event>)
    requires es != [] && NoTargetEdits(es)
    ensures NoTargetEdits(es[1..])
  {
    assert forall i | 0 <= i < |es[1..]| :: es[1..][i] == es[i + 1];
  }

  lemma OneCapture(w: World, e: Event)
    requires NoTargetEdits([e])
    ensures Step(w, e).cfg.target == if CapturesAt(w, e) then Advanced(w.cfg.target, 1) else w.cfg.target
  {
    assert [e][0] == e;
  }

  lemma AdvancedShift(target: u64, next: u64, rest: seq<u64>)
    requires next == Advanced(target, 1) && forall k | 0 <= k < |rest| :: rest[k] == Advanced(next, k)
    ensures forall k | 0 <= k < |rest| + 1 :: ([target] + rest)[k] == Advanced(target, k)
    ensures Advanced(next, |rest|) == Advanced(target, |rest| + 1)
  {
  }

  /** However ingests, polls and re-arming interleave, the k-th capture gets the k-th height. */
  lemma {:induction false} CapturesAdvanceByTwo(w: World, es: seq<Event>)
    requires NoTargetEdits(es)
    ensures forall k | 0 <= k < |Captures(w, es)| :: Captures(w, es)[k] == Advanced(w.cfg.target, k)
    ensures After(w, es).cfg.target == Advanced(w.cfg.target, |Captures(w, es)|)
    decreases |es|
  {
    if es != [] {
      var next, rest := Step(w, es[0]), Captures(Step(w, es[0]), es[1..]);
      FewerEdits(es);
      CapturesAdvanceByTwo(next, es[1..]);
      assert NoTargetEdits([es[0]]);
      OneCapture(w, es[0]);
      if CapturesAt(w, es[0]) {
        assert Captures(w, es) == [w.cfg.target] + rest;
        AdvancedShift(w.cfg.target, next.cfg.target, rest);
      }
    }
  }

  ghost predicate PairwiseDistinct(s: seq<u64>) {
    forall i, j | 0 <= i < j < |s| :: s[i] != s[j]
  }

  /** After a successful arming at height A every capture lies above A and at most 100,000 + 2(k - 1)
      above it. The captures are pairwise distinct exactly as long as the height does not saturate. */
  lemma CapturesAfterArming(w: World, newTarget: Option<u64>, es: seq<Event>)
    requires w.height.Some? && NoTargetEdits(es)
    requires w.height.value < (if newTarget.Some? then newTarget.value else w.cfg.target) <= w.height.value + 100_000
    ensures var armed := Step(w, Settings(newTarget, Some(true)));
            var heights := Captures(armed, es);
            && armed.cfg.enabled && armed.cfg.armedAt == w.height.value
            && (forall k | 0 <= k < |heights| ::
                  armed.cfg.armedAt < heights[k] <= armed.cfg.armedAt + 100_000 + 2 * k)
            && (PairwiseDistinct(heights) <==> |heights| <= 1 || armed.cfg.target + 2 * (|heights| - 2) < U64_MAX)
  {
    var armed := Step(w, Settings(newTarget, Some(true)));
    var heights := Captures(armed, es);
    CapturesAdvanceByTwo(armed, es);
    var n := |heights|;
    if n > 1 {
      assert heights[n - 2] == Advanced(armed.cfg.target, n - 2) && heights[n - 1] == Advanced(armed.cfg.target, n - 1);
    }
  }

  /** Without the condition on later edits this fails: a refused or plain edit while armed moves the
      target anywhere, even to a height already passed. */
  lemma EditWhileArmedIsNotValidated(cfg: Config, height: u64, newTarget: u64, enable: Option<bool>)
    requires cfg.enabled && enable != Some(false)
    ensures var edited := SettingsStep(cfg, Some(height), Some(newTarget), enable);
            edited.enabled && edited.target == newTarget
            && (edited.armedAt == cfg.armedAt || ValidVirtualHeight(newTarget, height))
  {
  }

  /** The user's switch: off it disarms, whatever else the request says; on it arms at the known height exactly
      if the target lies above that and at most 100,000 above; without it a request leaves the arming as it is. */
  lemma SwitchExactly(w: World, newTarget: Option<u64>, enable: Option<bool>)
    ensures var cfg, target := Step(w, Settings(newTarget, enable)).cfg,
                               if newTarget.Some? then newTarget.value else w.cfg.target;
            var arms := enable == Some(true) && w.height.Some?
                        && w.height.value < target <= w.height.value + 100_000;
            && cfg.target == target && cfg.mode == w.cfg.mode && cfg.fixedTime == w.cfg.fixedTime
            && (cfg.enabled <==> if enable == Some(false) then false else w.cfg.enabled || arms)
            && cfg.armedAt == if arms then w.height.value else w.cfg.armedAt
  {
  }

  /** Over any run without the switch: the virtual block stays armed exactly until a poll knows a height ten
      blocks past the arming or more. */
  lemma {:induction false} ArmedUntilTenBlocksPast(w: World, es: seq<Event>)
    requires w.cfg.enabled && forall i | 0 <= i < |es| :: es[i].Settings? ==> es[i].enable.None?
    ensures After(w, es).cfg.enabled
            <==> forall i | 0 <= i < |es| && es[i].HealthPoll? && es[i].seen.Some? ::
                   es[i].seen.value < w.cfg.armedAt + 10
    ensures After(w, es).cfg.armedAt == w.cfg.armedAt
    decreases |es|
  {
    if es != [] {
      var next := Step(w, es[0]);
      assert forall i | 0 <= i < |es[1..]| :: es[1..][i] == es[i + 1];
      assert forall i | 0 < i < |es| :: es[i] == es[1..][i - 1];
      assert next.cfg.armedAt == w.cfg.armedAt;
      if next.cfg.enabled {
        ArmedUntilTenBlocksPast(next, es[1..]);
      } else {
        StaysDisarmed(next, es[1..]);
      }
    }
  }

  lemma {:induction false} StaysDisarmed(w: World, es: seq<Event>)
    requires !w.cfg.enabled && forall i | 0 <= i < |es| :: es[i].Settings? ==> es[i].enable.None?
    ensures !After(w, es).cfg.enabled && After(w, es).cfg.armedAt == w.cfg.armedAt
    decreases |es|
  {
    if es != [] {
      assert forall i | 0 <= i < |es[1..]| :: es[1..][i] == es[i + 1];
      StaysDisarmed(Step(w, es[0]), es[1..]);
    }
  }

  // ----- The armed window -----

  ghost predicate InWindow(w: World) {
    w.cfg.enabled && w.height.Some? ==> w.height.value < w.cfg.armedAt + 10
  }

  /** A height read between two polls writes the shared height without looking at the arming. */
  predicate ReadsPastWindow(w: World, e: Event) {
    e.HeightRead? && w.cfg.enabled && e.h >= w.cfg.armedAt + 10
  }

  lemma StepLeavesWindow(w: World, e: Event)
    requires InWindow(w)
    ensures InWindow(Step(w, e)) <==> !ReadsPastWindow(w, e)
  {
  }

  lemma AfterOneMore(w: World, es: seq<Event>, i: nat)
    requires i < |es|
    ensures After(w, es[..i + 1]) == Step(After(w, es[..i]), es[i])
    decreases i
  {
    if i == 0 {
      assert es[..1] == [es[0]] && es[..1][1..] == [];
    } else {
      AfterOneMore(Step(w, es[0]), es[1..], i - 1);
      assert es[..i + 1][1..] == es[1..][..i] && es[..i][1..] == es[1..][..i - 1];
    }
  }

  ghost predicate AlwaysInWindow(w: World, es: seq<Event>) {
    forall i | 0 <= i <= |es| :: InWindow(After(w, es[..i]))
  }

  ghost predicate NeverReadsPast(w: World, es: seq<Event>) {
    forall i | 0 <= i < |es| :: !ReadsPastWindow(After(w, es[..i]), es[i])
  }

  lemma {:induction false} InWindowSoFar(w: World, es: seq<Event>, i: nat)
    requires InWindow(w) && NeverReadsPast(w, es) && i <= |es|
    ensures InWindow(After(w, es[..i]))
  {
    if i > 0 {
      InWindowSoFar(w, es, i - 1);
      AfterOneMore(w, es, i - 1);
      assert !ReadsPastWindow(After(w, es[..i - 1]), es[i - 1]);
      StepLeavesWindow(After(w, es[..i - 1]), es[i - 1]);
    }
  }

  /** A poll brings any state into the window: the last known height is fewer than ten blocks past the
      arming. From there on, through any edits, ingests and further polls, it stays so at every point exactly
      if no height read while armed reached that distance. */
  lemma ArmedWindowHolds(w: World, seen: Option<u64>, es: seq<Event>)
    ensures var polled := Step(w, HealthPoll(seen));
            InWindow(polled) && (AlwaysInWindow(polled, es) <==> NeverReadsPast(polled, es))
  {
    var polled := Step(w, HealthPoll(seen));
    if NeverReadsPast(polled, es) {
      forall i | 0 <= i <= |es| ensures InWindow(After(polled, es[..i])) {
        InWindowSoFar(polled, es, i);
      }
    }
    if AlwaysInWindow(polled, es) {
      forall i | 0 <= i < |es| ensures !ReadsPastWindow(After(polled, es[..i]), es[i]) {
        AfterOneMore(polled, es, i);
        assert InWindow(After(polled, es[..i])) && InWindow(After(polled, es[..i + 1]));
        StepLeavesWindow(After(polled, es[..i]), es[i]);
      }
    }
  }

  /** Once a read has left the window, the block stays armed and out of the window until the next poll
      that knows such a height disarms it, an arming or a disarming by the user, or a lower read. */
  lemma OutsideUntilSettled(w: World, e: Event)
    requires w.cfg.enabled && !InWindow(w) && !e.Settings? && !e.HealthPoll? && !e.HeightRead?
    ensures Step(w, e).cfg.enabled && !InWindow(Step(w, e))
    ensures !Step(w, HealthPoll(w.height)).cfg.enabled
  {
  }

  // ----- Disarmed between the two locks -----

  /** Planned by_block while armed, finished under whatever configuration holds then: the row gets the
      captured height exactly if still armed; otherwise it keeps the transaction's own lock and, having
      none, is a by_block row that the block monitor never picks up. */
  lemma FinishedUnderOtherConfig(planCfg: Config, finishCfg: Config, nlocktime: nat, height: Option<u64>, now: int,
                                 delayed: Option<int>)
    requires planCfg.enabled
    ensures var plan := ResolveIngestPlan("liana", nlocktime, planCfg, height, now, delayed);
            var row := RowOf(finishCfg, Plan("liana", nlocktime, plan.0, plan.1));
            && row.mode == ByBlock
            && row.nlocktime == (if finishCfg.enabled then Some(finishCfg.target)
                                 else if nlocktime == 0 then None else Some(nlocktime))
  {
  }

  predicate Touches(e: Event, id: nat) {
    (e.PlanIngest? || e.FinishIngest?) && e.id == id
  }

  lemma {:induction false} PlanSurvives(w: World, es: seq<Event>, id: nat)
    requires id in w.planned && forall i | 0 <= i < |es| :: !Touches(es[i], id)
    ensures id in After(w, es).planned && After(w, es).planned[id] == w.planned[id]
    decreases |es|
  {
    if es != [] {
      assert !Touches(es[0], id);
      assert forall i | 0 <= i < |es[1..]| :: es[1..][i] == es[i + 1];
      PlanSurvives(Step(w, es[0]), es[1..], id);
    }
  }

  /** A Liana transaction planned while armed, with any events before it is finished: the row holds the
      height captured at its second lock if still armed then, and else its own lock; it is the captured
      height advanced past all captures in between, if the target was not edited. */
  lemma IngestAcrossARun(w: World, id: nat, nlocktime: nat, now: int, delayed: Option<int>, es: seq<Event>)
    requires w.cfg.enabled && forall i | 0 <= i < |es| :: !Touches(es[i], id)
    ensures var planned := Step(w, PlanIngest(id, "liana", nlocktime, now, delayed));
            var before, after := After(planned, es), Step(After(planned, es), FinishIngest(id));
            && id in after.rows && id !in after.planned && after.rows[id].mode == ByBlock
            && after.rows[id].nlocktime == (if before.cfg.enabled then Some(before.cfg.target)
                                            else if nlocktime == 0 then None else Some(nlocktime))
            && (before.cfg.enabled && NoTargetEdits(es) ==>
                  after.rows[id].nlocktime == Some(Advanced(w.cfg.target, |Captures(planned, es)|))
                  && after.cfg.target == Advanced(w.cfg.target, |Captures(planned, es)| + 1))
  {
    var planned := Step(w, PlanIngest(id, "liana", nlocktime, now, delayed));
    PlanSurvives(planned, es, id);
    FinishedUnderOtherConfig(w.cfg, After(planned, es).cfg, nlocktime, w.height, now, delayed);
    if NoTargetEdits(es) {
      CapturesAdvanceByTwo(planned, es);
    }
  }

  /** A freshly stored by_block row waits for the chain exactly when it has a block height to wait for. */
  lemma ByBlockRowsThatWait(mac: Rows.RowMac, id: string, tx: Rows.NewTx, order: seq<string>,
                            rows: map<string, Rows.Row>, now: int, network: string)
    requires tx.mode == Some("by_block") && tx.network == network
    requires id in order && id in rows && rows[id] == Rows.InsertedRow(mac, id, tx, now)
    ensures id in Pool.PendingByBlock(order, rows, network)
            <==> tx.nlocktime.Some? && 0 < tx.nlocktime.value < TIMESTAMP_LOCK
  {
    if id in Pool.PendingByBlock(order, rows, network) {
      assert rows[id].nlocktime == tx.nlocktime.GetOr(0);
    }
  }

  // ----- The configuration object -----

  class VirtualBlockSettings {
    var enabled: bool
    var target: u64
    var armedAt: u64
    const mode: Mode
    const fixedTime: Option<int>

    constructor (mode: Mode, fixedTime: Option<int>)
      ensures View() == Config(false, 0, 0, mode, fixedTime)
    {
      this.mode, this.fixedTime := mode, fixedTime;
      enabled, target, armedAt := false, 0, 0;
    }

    function View(): Config
      reads this
    {
      Config(enabled, target, armedAt, mode, fixedTime)
    }

    method UpdateSettings(height: Option<u64>, newTarget: Option<u64>, enable: Option<bool>) returns (accepted: bool)
      modifies this
      ensures View() == SettingsStep(old(View()), height, newTarget, enable)
      ensures accepted <==> enable == Some(true) ==> height.Some? && height.value < target <= height.value + 100_000
      ensures enable == Some(false) ==> !enabled
      ensures enable == Some(true) && accepted ==> enabled && height.Some? && armedAt == height.value
      ensures enable.None? || !accepted ==> enabled == old(enabled) && armedAt == old(armedAt)
    {
      if newTarget.Some? {
        target := newTarget.value;
      }
      if enable.Some? {
        if enable.value {
          if height.None? {
            return false;
          }
          if target == 0 || target <= height.value || target > height.value + MAX_VIRTUAL_BLOCK_GAP {
            return false;
          }
          armedAt := height.value;
          enabled := true;
        } else {
          enabled := false;
        }
      }
      return true;
    }

    /** The part of `handle_broadcast` under the second lock. */
    method CaptureTarget(p: Plan) returns (captured: Option<u64>)
      modifies this
      ensures captured == Captured(old(View()), p) && View() == CaptureStep(old(View()), p)
    {
      if p.mode == ByBlock && p.source == "liana" && enabled {
        captured := Some(target);
        target := if target + 2 > U64_MAX then U64_MAX else target + 2;
      } else {
        captured := None;
      }
    }

    method MaybeDisarm(height: Option<u64>)
      modifies this
      ensures View() == DisarmStep(old(View()), height)
      ensures enabled <==> old(enabled) && (height.None? || height.value < old(armedAt) + 10)
      ensures armedAt == old(armedAt) && target == old(target)
    {
      if height.None? {
        return;
      }
      if enabled && height.value >= armedAt + 10 {
        enabled := false;
      }
    }
  }
}
