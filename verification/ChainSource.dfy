/** Where height and median time past come from: `chain_health.rs`, the 30 s cache of the median,
    the two reads of `PoolManager`, and the lock predicate decided from them. */
module ChainSource {
  import opened Prelude
  import opened ChainClock

  const MTP_TTL: nat := 30_000          // milliseconds
  const LOCKTIME_THRESHOLD: nat := 500_000_000

  // ----- Health snapshot -----

  datatype Source = Indexer | BitcoinCore | NoSource

  function DecideChainSource(indexerUp: bool, coreUp: bool, coreIbd: bool): Source {
    if indexerUp then Indexer else if coreUp && !coreIbd then BitcoinCore else NoSource
  }

  datatype ChainHealth = ChainHealth(
    indexerUp: bool, coreUp: bool, coreIbd: bool,
    height: Option<nat>, mtp: Option<nat>, source: Source, polled: bool)
  {
    predicate ClockAvailable() { source != NoSource }

    predicate ShouldTryIndexer() { indexerUp || !polled }

    function Decided(): ChainHealth {
      this.(source := DecideChainSource(indexerUp, coreUp, coreIbd))
    }

    function IndexerFailed(): ChainHealth {
      this.(indexerUp := false, polled := true).Decided()
    }

    function IndexerAnswered(h: nat): ChainHealth {
      this.(indexerUp := true, polled := true, height := Some(h)).Decided()
    }

    function Refreshed(p: Probe, core: CoreStatus): ChainHealth {
      ChainHealth(
        p.indexerHeight.Some?, core.CoreUp?, core.CoreUp? && core.ibd,
        if p.indexerHeight.Some? then p.indexerHeight else if core.CoreUp? then Some(core.height) else None,
        if core.CoreUp? then Some(core.mtp) else mtp,
        source, true).Decided()
    }
  }

  const UNPOLLED := ChainHealth(false, false, false, None, None, NoSource, false)

  // ----- What the backends would answer at one moment -----

  /** None: not reachable, or the call failed. */
  datatype Probe = Probe(
    at: nat,
    indexerHeight: Option<nat>, indexerMtp: Option<nat>,
    coreHeight: Option<nat>, coreMtp: Option<nat>)

  datatype CoreStatus = CoreDown | CoreUp(height: nat, mtp: nat, ibd: bool)

  /** Which backends are configured at all. */
  datatype Backends = Backends(indexer: bool, core: bool)

  datatype CachedMtp = CachedMtp(fetchedAt: nat, mtp: nat)

  datatype Clock = Clock(health: ChainHealth, cache: Option<CachedMtp>)

  // ----- Reads -----

  /** `get_median_time_past`: Core first, then an indexer not known to be dead. */
  function ReadMtp(b: Backends, c: Clock, p: Probe): (Option<nat>, Clock) {
    if b.core && p.coreMtp.Some? then (p.coreMtp, c)
    else if c.health.ShouldTryIndexer() && b.indexer then
      if p.indexerMtp.Some? then (p.indexerMtp, c)
      else (None, c.(health := c.health.IndexerFailed()))
    else (None, c)
  }

  predicate Fresh(entry: CachedMtp, at: nat) {
    at < entry.fetchedAt + MTP_TTL
  }

  /** `get_median_time_past_cached`. */
  function ReadMtpCached(b: Backends, c: Clock, p: Probe): (Option<nat>, Clock) {
    if c.cache.Some? && Fresh(c.cache.value, p.at) then (Some(c.cache.value.mtp), c)
    else
      var (mtp, c1) := ReadMtp(b, c, p);
      if mtp.Some? then (mtp, c1.(cache := Some(CachedMtp(p.at, mtp.value)))) else (None, c1)
  }

  /** `check_block_height`: an indexer not known to be dead first, then Core. */
  function ReadHeight(b: Backends, c: Clock, p: Probe): (Option<nat>, Clock) {
    var core := if b.core then p.coreHeight else None;
    if c.health.ShouldTryIndexer() && b.indexer then
      if p.indexerHeight.Some? then
        (p.indexerHeight, c.(health := c.health.IndexerAnswered(p.indexerHeight.value)))
      else (core, c.(health := c.health.IndexerFailed()))
    else (core, c)
  }

  /** `is_locktime_satisfied`; None is the error "no backend could be read". */
  function CheckLock(b: Backends, c: Clock, nlocktime: nat, p: Probe): (Option<bool>, Clock) {
    if nlocktime == 0 then (Some(true), c)
    else if nlocktime > LOCKTIME_THRESHOLD then
      var (mtp, c1) := ReadMtpCached(b, c, p);
      (if mtp.None? then None else Some(mtp.value >= nlocktime), c1)
    else
      var (height, c1) := ReadHeight(b, c, p);
      (Some(height.Some? && height.value >= nlocktime), c1)
  }

  // ----- The same predicate on the true chain, and consensus -----

  predicate LockSatisfied(nlocktime: nat, height: nat, mtp: nat) {
    nlocktime == 0 || if nlocktime > LOCKTIME_THRESHOLD then mtp >= nlocktime else height >= nlocktime
  }

  /** Finality of a transaction in the next block: heights below the threshold, times from it on,
      both compared strictly. */
  predicate FinalForNextBlock(nlocktime: nat, height: nat, mtp: nat) {
    nlocktime == 0 || if nlocktime < 500_000_000 then nlocktime < height + 1 else nlocktime < mtp
  }

  lemma LockPredicateVersusConsensus(n: nat, height: nat, mtp: nat)
    ensures n != LOCKTIME_THRESHOLD ==>
              (LockSatisfied(n, height, mtp) != FinalForNextBlock(n, height, mtp)
               <==> n > LOCKTIME_THRESHOLD && n == mtp)
    ensures n == LOCKTIME_THRESHOLD ==>
              (LockSatisfied(n, height, mtp) <==> height >= n)
              && (FinalForNextBlock(n, height, mtp) <==> mtp > n)
    ensures FinalForNextBlock(n, height, mtp) && n != LOCKTIME_THRESHOLD ==> LockSatisfied(n, height, mtp)
  {
  }

  ghost predicate SatisfiedOn(nlocktime: nat, chain: Chain)
    requires chain != []
  {
    LockSatisfied(nlocktime, |chain| - 1, MtpAt(chain, |chain| - 1))
  }

  lemma SatisfiedStaysSatisfied(nlocktime: nat, chain: Chain, longer: Chain)
    requires ValidChain(longer) && chain != [] && chain <= longer
    requires SatisfiedOn(nlocktime, chain)
    ensures SatisfiedOn(nlocktime, longer)
  {
    MtpOfExtension(chain, longer, |chain| - 1);
    MtpMonotone(longer, |chain| - 1, |longer| - 1);
  }

  // ----- Honest backends: each answers from some prefix of the chain -----

  ghost predicate SeenHeight(h: Option<nat>, chain: Chain) {
    h.Some? ==> h.value < |chain|
  }

  ghost predicate SeenMtp(m: Option<nat>, chain: Chain) {
    m.Some? ==> exists tip | 0 <= tip < |chain| :: m.value == MtpAt(chain, tip)
  }

  ghost predicate HonestProbe(p: Probe, chain: Chain) {
    && SeenHeight(p.indexerHeight, chain) && SeenHeight(p.coreHeight, chain)
    && SeenMtp(p.indexerMtp, chain) && SeenMtp(p.coreMtp, chain)
  }

  ghost predicate HonestClock(c: Clock, chain: Chain) {
    c.cache.Some? ==> SeenMtp(Some(c.cache.value.mtp), chain)
  }

  lemma SeenMtpIsNoLater(m: nat, chain: Chain)
    requires ValidChain(chain) && SeenMtp(Some(m), chain)
    ensures m <= MtpAt(chain, |chain| - 1)
  {
    var tip :| 0 <= tip < |chain| && m == MtpAt(chain, tip);
    MtpMonotone(chain, tip, |chain| - 1);
  }

  lemma HonestClockSurvivesGrowth(c: Clock, chain: Chain, longer: Chain)
    requires HonestClock(c, chain) && chain <= longer
    ensures HonestClock(c, longer)
  {
    if c.cache.Some? {
      var tip :| 0 <= tip < |chain| && c.cache.value.mtp == MtpAt(chain, tip);
      MtpOfExtension(chain, longer, tip);
    }
  }

  /** A stale or lagging clock can delay, never fire early. */
  lemma CheckLockNeverEarly(b: Backends, c: Clock, n: nat, p: Probe, chain: Chain)
    requires ValidChain(chain) && HonestClock(c, chain) && HonestProbe(p, chain)
    ensures CheckLock(b, c, n, p).0 == Some(true) ==> SatisfiedOn(n, chain)
    ensures HonestClock(CheckLock(b, c, n, p).1, chain)
  {
    if n > LOCKTIME_THRESHOLD {
      var m := ReadMtpCached(b, c, p).0;
      if m.Some? {
        SeenMtpIsNoLater(m.value, chain);
      }
    }
  }

  // ----- A steady outside: the backend in use keeps answering, and the answers agree -----

  /** Which backend carries the program; the other may be missing, down, or in agreement. */
  datatype Server = ByIndexer | ByCore

  /** What is reported from the moment `since` on. */
  datatype Outside = Outside(height: nat, mtp: nat, server: Server, since: nat)

  ghost predicate SteadyClock(c: Clock, o: Outside) {
    && (o.server.ByIndexer? ==> c.health.ShouldTryIndexer())
    && (c.cache.Some? ==> c.cache.value.mtp == o.mtp || c.cache.value.fetchedAt + 30_000 <= o.since)
  }

  ghost predicate SteadyProbe(b: Backends, p: Probe, o: Outside) {
    && p.at >= o.since
    && (b.core && p.coreMtp.Some? ==> p.coreMtp == Some(o.mtp))
    && (b.indexer && p.indexerHeight.Some? ==> p.indexerHeight == Some(o.height))
    && match o.server
       case ByIndexer =>
         b.indexer && p.indexerHeight.Some? && (p.indexerMtp == Some(o.mtp) || (b.core && p.coreMtp.Some?))
       case ByCore => b.core && p.coreHeight == Some(o.height) && p.coreMtp.Some?
  }

  lemma CheckLockSteady(b: Backends, c: Clock, n: nat, p: Probe, o: Outside)
    requires SteadyClock(c, o) && SteadyProbe(b, p, o)
    ensures CheckLock(b, c, n, p).0 == Some(LockSatisfied(n, o.height, o.mtp))
    ensures SteadyClock(CheckLock(b, c, n, p).1, o)
  {
  }

  /** The delay ends: once the backend in use stands at the tip and older cache entries have run out, the
      answer is exact in both directions, with an indexer, with Core, or with both. */
  lemma CheckLockExactWhenFresh(b: Backends, c: Clock, n: nat, p: Probe, chain: Chain, o: Outside)
    requires chain != [] && o.height == |chain| - 1 && o.mtp == MtpAt(chain, |chain| - 1)
    requires SteadyClock(c, o) && SteadyProbe(b, p, o)
    ensures CheckLock(b, c, n, p).0 == Some(SatisfiedOn(n, chain))
  {
    CheckLockSteady(b, c, n, p, o);
  }

  /** A time lock that could be checked leaves the median in the cache, newly read unless it was fresh. Until
      30 s after it was read every further read finds it there and changes nothing, whatever the backends would
      say; a read at the same moment is one of these. */
  lemma SecondReadIsFree(b: Backends, c: Clock, n: nat, p: Probe, later: Probe)
    requires n > 500_000_000 && CheckLock(b, c, n, p).0.Some?
    ensures var c1 := CheckLock(b, c, n, p).1;
            && c1.cache.Some? && p.at < c1.cache.value.fetchedAt + 30_000
            && CheckLock(b, c, n, p).0 == Some(c1.cache.value.mtp >= n)
            && (c.cache.None? || p.at >= c.cache.value.fetchedAt + 30_000 ==> c1.cache.value.fetchedAt == p.at)
            && (later.at < c1.cache.value.fetchedAt + 30_000 ==>
                  ReadMtpCached(b, c1, later) == (Some(c1.cache.value.mtp), c1))
  {
  }
}
