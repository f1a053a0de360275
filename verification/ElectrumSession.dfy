/** Header requests of wallet sessions: the shared tip cache, the wallet fingerprint, the virtual tip
    shown to Liana, and the pushes of new tips. A run serves any number of sessions; one line or one
    delivered tip is one step, and the configuration in force is an input of every step. A subscription
    answered from the cache starts a refresh in the background, whose answer comes in a later step. */
module ElectrumSession {
  import opened Prelude
  import opened VirtualHeaders

  datatype Tip = Tip(height: nat, hex: string)

  datatype VirtualBlock = VirtualBlock(enabled: bool, targetHeight: nat)

  datatype Session = Session(listener: string, sawServerVersion: bool, walletLabel: Option<string>,
                             subscribedHeaders: bool)

  datatype Request =
    | ServerVersion(name: Option<string>)
    | Handshake                          // server.banner, server.ping, server.features
    | HeadersSubscribe
    | BlockHeader(height: Option<nat>)   // None when the parameter is not a number
    | Broadcast
    | Other

  /** What the upstream indexer would answer if it were asked. */
  datatype Upstream = TipReply(tip: Tip) | Text(text: string) | Unreachable

  /** The ticket names the background refresh the call may start. */
  datatype Call = Call(request: Request, upstream: Upstream, ticket: nat)

  datatype Answer =
    | TipIs(tip: Tip)
    | HeaderIs(hex: string)
    | Forwarded(upstream: Upstream)
    | Unavailable
    | Pushed(tip: Tip)

  // ----- Fingerprint -----

  const LIANA: string := "liana"
  const SPARROW: string := "sparrow"

  predicate IsLianaName(name: string) {
    Contains(Lower(name), LIANA)
  }

  function CapturedOne(s: Session, r: Request): Session {
    match r
    case ServerVersion(name) =>
      s.(sawServerVersion := true,
         walletLabel := if name.Some? && name.value != "" then name else s.walletLabel)
    case _ => s
  }

  function Captured(s: Session, calls: seq<Call>): Session
    decreases |calls|
  {
    if calls == [] then s else Captured(CapturedOne(s, calls[0].request), calls[1..])
  }

  function EffectiveSource(s: Session): string {
    if s.listener == SPARROW && ((s.walletLabel.Some? && IsLianaName(s.walletLabel.value)) || !s.sawServerVersion)
    then LIANA else s.listener
  }

  predicate ServedAsLiana(s: Session) {
    EffectiveSource(s) == LIANA
  }

  // ----- Tips -----

  function VirtualTip(vb: VirtualBlock, liana: bool): Option<nat> {
    if liana && vb.enabled && vb.targetHeight > 0 then Some(vb.targetHeight) else None
  }

  predicate Usable(t: Tip) {
    t.height != 0 && t.hex != ""
  }

  /** State shared by all sessions: the cached real tip, every tip announced to them so far, and the
      background refreshes still waiting for an answer. */
  datatype Shared = Shared(cached: Option<Tip>, announced: seq<Tip>, outstanding: set<nat>)

  /** `cache_chain_tip`: announces only a change of height. */
  function CacheTip(m: Shared, t: Tip): Shared {
    if !Usable(t) then m
    else m.(cached := Some(t),
            announced := if m.cached.Some? && m.cached.value.height == t.height then m.announced
                         else m.announced + [t])
  }

  /** `spawn_chain_tip_refresh`. */
  function SpawnRefresh(m: Shared, ticket: nat): Shared {
    m.(outstanding := m.outstanding + {ticket})
  }

  /** The answer to a refresh, if that refresh was started. */
  function LandRefresh(m: Shared, ticket: nat, up: Upstream): Shared {
    if ticket !in m.outstanding then m
    else
      var rest := m.(outstanding := m.outstanding - {ticket});
      if up.TipReply? then CacheTip(rest, up.tip) else rest
  }

  /** The tip shown to a session on a fabricated chain. */
  function FabricatedTip(c: Codec, below: Tip, virtualTip: nat): Option<Tip> {
    var upTo := Max(virtualTip, below.height + 1);
    match HexAt(c, below.height, below.hex, upTo)
    case Success(Some(hex)) => Some(Tip(upTo, hex))
    case _ => None
  }

  // ----- One request -----

  /** `handle_headers_subscribe`. */
  function Subscribe(c: Codec, m: Shared, virtualTip: Option<nat>, call: Call): (Shared, Answer) {
    var up := call.upstream;
    var fabricated :=
      if virtualTip.Some? && m.cached.Some? then FabricatedTip(c, m.cached.value, virtualTip.value) else None;
    if fabricated.Some? then (m, TipIs(fabricated.value))
    else if m.cached.Some? then (SpawnRefresh(m, call.ticket), TipIs(m.cached.value))
    else if up.TipReply? && Usable(up.tip) then (CacheTip(m, up.tip), Forwarded(up))
    else (m, Unavailable)
  }

  /** `serve_virtual_block_header`; None forwards the request. */
  function VirtualHeader(c: Codec, m: Shared, virtualTip: Option<nat>, height: Option<nat>): Option<string> {
    if height.Some? && virtualTip.Some? && height.value <= virtualTip.value && m.cached.Some?
    then
      match HexAt(c, m.cached.value.height, m.cached.value.hex, height.value)
      case Success(hex) => hex
      case Failure(_) => None
    else None
  }

  /** `handle_one_subrequest`, as far as header requests go. */
  function Dispatch(c: Codec, vb: VirtualBlock, m: Shared, s: Session, call: Call): (Shared, Session, seq<Answer>) {
    var virtualTip := VirtualTip(vb, ServedAsLiana(s));
    match call.request
    case HeadersSubscribe =>
      var r := Subscribe(c, m, virtualTip, call);
      (r.0, s.(subscribedHeaders := true), [r.1])
    case BlockHeader(height) =>
      var hex := VirtualHeader(c, m, virtualTip, height);
      (m, s, [if hex.Some? then HeaderIs(hex.value) else Forwarded(call.upstream)])
    case _ => (m, s, [])
  }

  function DispatchAll(c: Codec, vb: VirtualBlock, m: Shared, s: Session, calls: seq<Call>)
    : (Shared, Session, seq<Answer>)
    decreases |calls|
  {
    if calls == [] then (m, s, [])
    else
      var first := Dispatch(c, vb, m, s, calls[0]);
      var rest := DispatchAll(c, vb, first.0, first.1, calls[1..]);
      (rest.0, rest.1, first.2 + rest.2)
  }

  // ----- One line -----

  predicate IsHandshake(r: Request) {
    r.ServerVersion? || r.Handshake?
  }

  /** `process_client_line`, as far as header requests go. */
  function ServeLine(c: Codec, vb: VirtualBlock, m: Shared, s: Session, calls: seq<Call>)
    : (Shared, Session, seq<Answer>)
  {
    var known := Captured(s, calls);
    if forall k | 0 <= k < |calls| :: IsHandshake(calls[k].request) then (m, known, [])
    else if |calls| == 1 && calls[0].request.HeadersSubscribe? then
      var subscribed := known.(subscribedHeaders := true);
      if VirtualTip(vb, ServedAsLiana(known)).None? && m.cached.Some?
      then (SpawnRefresh(m, calls[0].ticket), subscribed, [TipIs(m.cached.value)])
      else DispatchAll(c, vb, m, subscribed, calls)
    else if exists k | 0 <= k < |calls| :: calls[k].request.Broadcast? then (m, known, [])
    else DispatchAll(c, vb, m, known, calls)
  }

  /** The push of one announced tip to one session. */
  function Push(c: Codec, vb: VirtualBlock, s: Session, t: Tip): seq<Answer> {
    if !s.subscribedHeaders then []
    else match VirtualTip(vb, ServedAsLiana(s))
      case None => [Pushed(t)]
      case Some(v) =>
        var fabricated := FabricatedTip(c, t, v);
        if fabricated.Some? then [Pushed(fabricated.value)] else []
  }

  // ----- Runs -----

  /** A session and how many of the announced tips it has taken from its channel. */
  datatype Peer = Peer(session: Session, received: nat)

  datatype World = World(shared: Shared, peers: map<nat, Peer>)

  datatype Event =
    | Connect(id: nat, listener: string)
    | Line(id: nat, calls: seq<Call>)
    | Receive(id: nat)            // the session takes the next announced tip
    | TipPolled(tip: Tip)         // the health poller heard of an upstream tip
    | RefreshLands(ticket: nat, upstream: Upstream)

  /** One step under the configuration `vb`; the answers go to the session named by the event. */
  function Step(c: Codec, vb: VirtualBlock, w: World, e: Event): (World, seq<Answer>) {
    match e
    case Connect(id, listener) =>
      (w.(peers := w.peers[id := Peer(Session(listener, false, None, false), |w.shared.announced|)]), [])
    case Line(id, calls) =>
      if id !in w.peers then (w, [])
      else
        var r := ServeLine(c, vb, w.shared, w.peers[id].session, calls);
        (World(r.0, w.peers[id := w.peers[id].(session := r.1)]), r.2)
    case Receive(id) =>
      if id !in w.peers || w.peers[id].received >= |w.shared.announced| then (w, [])
      else
        var p := w.peers[id];
        (w.(peers := w.peers[id := p.(received := p.received + 1)]),
         Push(c, vb, p.session, w.shared.announced[p.received]))
    case TipPolled(tip) => (w.(shared := CacheTip(w.shared, tip)), [])
    case RefreshLands(ticket, up) => (w.(shared := LandRefresh(w.shared, ticket, up)), [])
  }

  function After(c: Codec, vbs: seq<VirtualBlock>, w: World, es: seq<Event>): World
    requires |vbs| == |es|
    decreases |es|
  {
    if es == [] then w else After(c, vbs[1..], Step(c, vbs[0], w, es[0]).0, es[1..])
  }

  predicate Addresses(e: Event, id: nat) {
    (e.Connect? || e.Line? || e.Receive?) && e.id == id
  }

  /** Everything header-related that session `id` is sent. */
  function Sent(c: Codec, vbs: seq<VirtualBlock>, w: World, es: seq<Event>, id: nat): seq<Answer>
    requires |vbs| == |es|
    decreases |es|
  {
    if es == [] then []
    else
      var r := Step(c, vbs[0], w, es[0]);
      (if Addresses(es[0], id) then r.1 else []) + Sent(c, vbs[1..], r.0, es[1..], id)
  }

  /** The fast path for a lone subscription answers exactly as the dispatch path would have. */
  lemma InstantAnswerIsTheDispatchAnswer(c: Codec, vb: VirtualBlock, m: Shared, s: Session, call: Call)
    requires call.request.HeadersSubscribe?
    ensures ServeLine(c, vb, m, s, [call])
         == DispatchAll(c, vb, m, Captured(s, [call]).(subscribedHeaders := true), [call])
  {
    var subscribed := Captured(s, [call]).(subscribedHeaders := true);
    var first := Dispatch(c, vb, m, subscribed, call);
    assert [call][1..] == [];
    assert DispatchAll(c, vb, m, subscribed, [call]) == (first.0, first.1, first.2 + []);
    assert first.2 + [] == first.2;
  }

  // ----- Only upstream tips are shared -----

  function TipsOf(calls: seq<Call>): set<Tip> {
    set k | 0 <= k < |calls| && calls[k].upstream.TipReply? :: calls[k].upstream.tip
  }

  function UpstreamTips(es: seq<Event>): set<Tip> {
    if es == [] then {}
    else (match es[0]
          case Line(_, calls) => TipsOf(calls)
          case TipPolled(tip) => {tip}
          case RefreshLands(_, up) => if up.TipReply? then {up.tip} else {}
          case _ => {}) + UpstreamTips(es[1..])
  }

  ghost predicate HoldsOnly(m: Shared, tips: set<Tip>) {
    && (m.cached.Some? ==> m.cached.value in tips)
    && forall k | 0 <= k < |m.announced| :: m.announced[k] in tips
  }

  lemma TipsOfTail(calls: seq<Call>)
    requires calls != []
    ensures TipsOf(calls[1..]) <= TipsOf(calls) && TipsOf(calls[..1]) <= TipsOf(calls)
    ensures calls[0].upstream.TipReply? ==> calls[0].upstream.tip in TipsOf(calls)
  {
    forall t | t in TipsOf(calls[1..]) ensures t in TipsOf(calls) {
      var k :| 0 <= k < |calls[1..]| && calls[1..][k].upstream.TipReply? && calls[1..][k].upstream.tip == t;
      assert calls[k + 1].upstream.tip == t;
    }
  }

  lemma DispatchHolds(c: Codec, vb: VirtualBlock, m: Shared, s: Session, call: Call, tips: set<Tip>)
    requires HoldsOnly(m, tips) && (call.upstream.TipReply? ==> call.upstream.tip in tips)
    ensures HoldsOnly(Dispatch(c, vb, m, s, call).0, tips)
  {
  }

  lemma {:induction false} DispatchAllHolds(c: Codec, vb: VirtualBlock, m: Shared, s: Session, calls: seq<Call>,
                                            tips: set<Tip>)
    requires HoldsOnly(m, tips) && TipsOf(calls) <= tips
    ensures HoldsOnly(DispatchAll(c, vb, m, s, calls).0, tips)
    decreases |calls|
  {
    if calls != [] {
      var first := Dispatch(c, vb, m, s, calls[0]);
      TipsOfTail(calls);
      DispatchHolds(c, vb, m, s, calls[0], tips);
      DispatchAllHolds(c, vb, first.0, first.1, calls[1..], tips);
    }
  }

  lemma StepHolds(c: Codec, vb: VirtualBlock, w: World, e: Event, tips: set<Tip>)
    requires HoldsOnly(w.shared, tips) && UpstreamTips([e]) <= tips
    ensures HoldsOnly(Step(c, vb, w, e).0.shared, tips)
  {
    assert [e][0] == e && [e][1..] == [];
    if e.Line? && e.id in w.peers {
      var s := w.peers[e.id].session;
      DispatchAllHolds(c, vb, w.shared, Captured(s, e.calls), e.calls, tips);
      DispatchAllHolds(c, vb, w.shared, Captured(s, e.calls).(subscribedHeaders := true), e.calls, tips);
    }
  }

  lemma UpstreamTipsSplit(es: seq<Event>)
    requires es != []
    ensures UpstreamTips(es) == UpstreamTips([es[0]]) + UpstreamTips(es[1..])
  {
    assert [es[0]][0] == es[0] && [es[0]][1..] == [];
  }

  /** In every run the cache and the announcements hold upstream tips only, never a fabricated one. */
  lemma {:induction false} OnlyUpstreamTipsAreShared(c: Codec, vbs: seq<VirtualBlock>, w: World, es: seq<Event>,
                                                     tips: set<Tip>)
    requires |vbs| == |es| && HoldsOnly(w.shared, tips) && UpstreamTips(es) <= tips
    ensures HoldsOnly(After(c, vbs, w, es).shared, tips)
    decreases |es|
  {
    if es != [] {
      UpstreamTipsSplit(es);
      StepHolds(c, vbs[0], w, es[0], tips);
      OnlyUpstreamTipsAreShared(c, vbs[1..], Step(c, vbs[0], w, es[0]).0, es[1..], tips);
    }
  }

  // ----- Announcements -----

  /** The last announcement carries the cached height, and no two neighbours carry the same one. */
  ghost predicate Current(m: Shared) {
    && (m.cached.None? <==> m.announced == [])
    && (m.cached.Some? ==> m.announced[|m.announced| - 1].height == m.cached.value.height)
    && forall k | 0 < k < |m.announced| :: m.announced[k].height != m.announced[k - 1].height
  }

  lemma {:induction false} DispatchAllCurrent(c: Codec, vb: VirtualBlock, m: Shared, s: Session, calls: seq<Call>)
    requires Current(m)
    ensures Current(DispatchAll(c, vb, m, s, calls).0)
    decreases |calls|
  {
    if calls != [] {
      var first := Dispatch(c, vb, m, s, calls[0]);
      DispatchAllCurrent(c, vb, first.0, first.1, calls[1..]);
    }
  }

  /** In every run a session that has taken all announcements was told the height now cached. */
  lemma {:induction false} AnnouncementsStayCurrent(c: Codec, vbs: seq<VirtualBlock>, w: World, es: seq<Event>)
    requires |vbs| == |es| && Current(w.shared)
    ensures Current(After(c, vbs, w, es).shared)
    decreases |es|
  {
    if es != [] {
      var next := Step(c, vbs[0], w, es[0]).0;
      if es[0].Line? && es[0].id in w.peers {
        var s := w.peers[es[0].id].session;
        DispatchAllCurrent(c, vbs[0], w.shared, Captured(s, es[0].calls), es[0].calls);
        DispatchAllCurrent(c, vbs[0], w.shared, Captured(s, es[0].calls).(subscribedHeaders := true), es[0].calls);
      }
      assert Current(next.shared);
      AnnouncementsStayCurrent(c, vbs[1..], next, es[1..]);
    }
  }

  // ----- One chain for Liana -----

  /** For a fixed real tip below the virtual one, the subscribed tip and every `block.header` answer
      above the real tip are elements of one chain linked to the real tip. */
  lemma LianaSeesOneChain(c: Codec, vb: VirtualBlock, m: Shared, s: Session, k: nat, up: Upstream, ticket: nat)
    requires Faithful(c) && ServedAsLiana(s) && vb.enabled
    requires m.cached.Some? && c.decode(m.cached.value.hex).Some?
    requires m.cached.value.height < k <= vb.targetHeight
    ensures var t := m.cached.value;
            var headers := Fabricated(c, t.height, t.hex, vb.targetHeight).value;
            && LinkedFrom(c, t.height, c.decode(t.hex).value, headers)
            && |headers| == vb.targetHeight - t.height
            && Dispatch(c, vb, m, s, Call(HeadersSubscribe, up, ticket)).2
               == [TipIs(Tip(vb.targetHeight, headers[|headers| - 1].hex))]
            && Dispatch(c, vb, m, s, Call(BlockHeader(Some(k)), up, ticket)).2
               == [HeaderIs(headers[k - t.height - 1].hex)]
            && Push(c, vb, s.(subscribedHeaders := true), t)
               == [Pushed(Tip(vb.targetHeight, headers[|headers| - 1].hex))]
  {
    var t := m.cached.value;
    FabricatedIsLinked(c, t.height, t.hex, vb.targetHeight);
    ShorterIsPrefix(c, t.height, t.hex, k, vb.targetHeight);
    ShorterIsPrefix(c, t.height, t.hex, vb.targetHeight, vb.targetHeight);
  }

  /** Once the real chain has reached the virtual tip the shown tip keeps one block ahead of it, but a
      request for that very header is forwarded: it is answered locally exactly below the virtual tip. */
  lemma ShownTipIsServedBelowVirtualTip(c: Codec, vb: VirtualBlock, m: Shared, s: Session, up: Upstream, ticket: nat)
    requires ServedAsLiana(s) && vb.enabled && vb.targetHeight > 0
    requires m.cached.Some? && c.decode(m.cached.value.hex).Some?
    ensures var tipAnswer := Dispatch(c, vb, m, s, Call(HeadersSubscribe, up, ticket)).2;
            && |tipAnswer| == 1 && tipAnswer[0].TipIs?
            && var shown := tipAnswer[0].tip;
               && shown.height == (if m.cached.value.height < vb.targetHeight then vb.targetHeight
                                   else m.cached.value.height + 1)
               && Dispatch(c, vb, m, s, Call(BlockHeader(Some(shown.height)), up, ticket)).2
                  == (if m.cached.value.height < vb.targetHeight then [HeaderIs(shown.hex)] else [Forwarded(up)])
  {
  }

  // ----- Who is served as Liana, and what everybody else is served -----

  /** The request gives a client name. */
  predicate Names(r: Request) {
    r.ServerVersion? && r.name.Some? && r.name.value != ""
  }

  /** The last name given in the calls. */
  ghost predicate LastNamed(calls: seq<Call>, name: string) {
    exists k | 0 <= k < |calls| ::
      && Names(calls[k].request) && calls[k].request.name == Some(name)
      && forall j | k < j < |calls| :: !Names(calls[j].request)
  }

  lemma {:induction false} CapturedExactly(s: Session, calls: seq<Call>)
    ensures var r := Captured(s, calls);
            && r.listener == s.listener && r.subscribedHeaders == s.subscribedHeaders
            && (r.sawServerVersion
                <==> s.sawServerVersion || exists k | 0 <= k < |calls| :: calls[k].request.ServerVersion?)
            && (forall name | LastNamed(calls, name) :: r.walletLabel == Some(name))
            && ((forall k | 0 <= k < |calls| :: !Names(calls[k].request)) ==> r.walletLabel == s.walletLabel)
    decreases |calls|
  {
    if calls != [] {
      var rest := calls[1..];
      assert forall k | 0 <= k < |rest| :: rest[k] == calls[k + 1];
      assert forall k | 0 < k < |calls| :: calls[k] == rest[k - 1];
      CapturedExactly(CapturedOne(s, calls[0].request), rest);
      forall name | LastNamed(calls, name)
        ensures Captured(s, calls).walletLabel == Some(name)
      {
        var k :| 0 <= k < |calls| && Names(calls[k].request) && calls[k].request.name == Some(name)
                 && forall j | k < j < |calls| :: !Names(calls[j].request);
        if k > 0 {
          assert Names(rest[k - 1].request) && forall j | k - 1 < j < |rest| :: !Names(rest[j].request);
          assert LastNamed(rest, name);
        }
      }
    }
  }

  /** Which sessions are served as Liana, from all they have sent: those on the Liana port, and those on the
      Sparrow port that have not sent `server.version` or whose last name contains "liana" in any case. */
  lemma ServedAsLianaExactly(listener: string, calls: seq<Call>)
    ensures var s := Captured(Session(listener, false, None, false), calls);
            ServedAsLiana(s)
            <==> listener == "liana"
                 || (listener == "sparrow"
                     && ((forall k | 0 <= k < |calls| :: !calls[k].request.ServerVersion?)
                         || exists name :: LastNamed(calls, name) && Contains(Lower(name), "liana")))
  {
    CapturedExactly(Session(listener, false, None, false), calls);
    var s := Captured(Session(listener, false, None, false), calls);
    if exists k | 0 <= k < |calls| :: Names(calls[k].request) {
      var name := LastName(calls);
      assert s.walletLabel == Some(name);
      forall other | LastNamed(calls, other) ensures other == name {
        assert s.walletLabel == Some(other);
      }
    } else {
      assert forall name :: !LastNamed(calls, name);
    }
  }

  lemma LastName(calls: seq<Call>) returns (name: string)
    requires exists k | 0 <= k < |calls| :: Names(calls[k].request)
    ensures LastNamed(calls, name)
  {
    var k := |calls| - 1;
    while !Names(calls[k].request)
      invariant 0 <= k < |calls| && forall j | k < j < |calls| :: !Names(calls[j].request)
      invariant exists i | 0 <= i <= k :: Names(calls[i].request)
      decreases k
    {
      k := k - 1;
    }
    name := calls[k].request.name.value;
  }

  /** A tip without height or header is ignored; any other is cached, and announced if its height is not the
      one cached before. */
  lemma CachesExactly(m: Shared, t: Tip)
    ensures var m' := CacheTip(m, t);
            && m'.outstanding == m.outstanding
            && (t.height == 0 || t.hex == "" ==> m' == m)
            && (t.height != 0 && t.hex != "" ==>
                  && m'.cached == Some(t)
                  && m'.announced == m.announced
                                     + if m.cached.None? || m.cached.value.height != t.height then [t] else [])
  {
  }

  /** A session that is not served as Liana, or any with the virtual block off: a subscription is answered with
      the cached tip, behind which a refresh is started, and only without one from upstream; headers are
      forwarded; a subscribed session is pushed each announced tip as it is. */
  lemma RealAnswersExactly(c: Codec, vb: VirtualBlock, m: Shared, s: Session, up: Upstream, ticket: nat,
                           height: Option<nat>, t: Tip)
    requires !ServedAsLiana(s) || !vb.enabled || vb.targetHeight == 0
    ensures var (m1, s1, answers) := Dispatch(c, vb, m, s, Call(HeadersSubscribe, up, ticket));
            && s1 == s.(subscribedHeaders := true)
            && (m.cached.Some? ==> answers == [TipIs(m.cached.value)]
                                   && m1 == m.(outstanding := m.outstanding + {ticket}))
            && (m.cached.None? ==>
                  if up.TipReply? && up.tip.height != 0 && up.tip.hex != ""
                  then answers == [Forwarded(up)] && m1.cached == Some(up.tip) && m1.announced == m.announced + [up.tip]
                  else answers == [Unavailable] && m1 == m)
    ensures Dispatch(c, vb, m, s, Call(BlockHeader(height), up, ticket)) == (m, s, [Forwarded(up)])
    ensures Push(c, vb, s, t) == if s.subscribedHeaders then [Pushed(t)] else []
  {
  }

  /** For Liana too, headers outside the fabricated range come from upstream. */
  lemma RealHeadersAreForwarded(c: Codec, vb: VirtualBlock, m: Shared, s: Session, up: Upstream, ticket: nat, k: nat)
    requires m.cached.Some? && (k <= m.cached.value.height || k > vb.targetHeight)
    ensures Dispatch(c, vb, m, s, Call(BlockHeader(Some(k)), up, ticket)) == (m, s, [Forwarded(up)])
  {
  }

  // ----- The objects -----

  /** The tip cache and announcement channel of the pool manager. */
  class TipCache {
    var cached: Option<Tip>
    var announced: seq<Tip>
    var outstanding: set<nat>

    constructor ()
      ensures View() == Shared(None, [], {}) && Current(View())
    {
      cached, announced, outstanding := None, [], {};
    }

    function View(): Shared
      reads this
    {
      Shared(cached, announced, outstanding)
    }

    method CacheChainTip(t: Tip)
      modifies this
      ensures View() == CacheTip(old(View()), t)
      ensures old(Current(View())) ==> Current(View())
    {
      if t.height == 0 || t.hex == "" {
        return;
      }
      var changed := cached.None? || cached.value.height != t.height;
      cached := Some(t);
      if changed {
        announced := announced + [t];
      }
    }

    method StartRefresh(ticket: nat)
      modifies this`outstanding
      ensures View() == SpawnRefresh(old(View()), ticket)
    {
      outstanding := outstanding + {ticket};
    }

    /** `refresh_chain_tip_cache` in the background task. */
    method FinishRefresh(ticket: nat, up: Upstream)
      modifies this
      ensures View() == LandRefresh(old(View()), ticket, up)
      ensures old(Current(View())) ==> Current(View())
    {
      if ticket !in outstanding {
        return;
      }
      outstanding := outstanding - {ticket};
      if up.TipReply? {
        CacheChainTip(up.tip);
      }
    }
  }

  class WalletSession {
    const listener: string
    var sawServerVersion: bool
    var walletLabel: Option<string>
    var subscribedHeaders: bool

    constructor (listener: string)
      ensures View() == Session(listener, false, None, false)
    {
      this.listener := listener;
      sawServerVersion, walletLabel, subscribedHeaders := false, None, false;
    }

    function View(): Session
      reads this
    {
      Session(listener, sawServerVersion, walletLabel, subscribedHeaders)
    }

    method CaptureWalletFingerprint(calls: seq<Call>)
      modifies this
      ensures View() == Captured(old(View()), calls)
    {
      var i := 0;
      assert calls[0..] == calls;
      while i < |calls|
        invariant 0 <= i <= |calls|
        invariant Captured(View(), calls[i..]) == Captured(old(View()), calls)
      {
        assert calls[i..][0] == calls[i] && calls[i..][1..] == calls[i + 1..];
        match calls[i].request {
          case ServerVersion(name) =>
            sawServerVersion := true;
            if name.Some? && name.value != "" {
              walletLabel := name;
            }
          case _ =>
        }
        i := i + 1;
      }
    }

    method HandleHeadersSubscribe(c: Codec, vb: VirtualBlock, cache: TipCache, call: Call) returns (answer: Answer)
      modifies cache
      ensures (cache.View(), answer) == Subscribe(c, old(cache.View()), VirtualTip(vb, ServedAsLiana(View())), call)
      ensures old(Current(cache.View())) ==> Current(cache.View())
    {
      var virtualTip := VirtualTip(vb, ServedAsLiana(View()));
      if virtualTip.Some? && cache.cached.Some? {
        var t := cache.cached.value;
        var upTo := Max(virtualTip.value, t.height + 1);
        var hex := HeaderHexAt(c, t.height, t.hex, upTo);
        if hex.Success? && hex.value.Some? {
          return TipIs(Tip(upTo, hex.value.value));
        }
      }
      if cache.cached.Some? {
        cache.StartRefresh(call.ticket);
        return TipIs(cache.cached.value);
      }
      if call.upstream.TipReply? && Usable(call.upstream.tip) {
        cache.CacheChainTip(call.upstream.tip);
        return Forwarded(call.upstream);
      }
      return Unavailable;
    }

    method ServeVirtualBlockHeader(c: Codec, vb: VirtualBlock, cache: TipCache, height: Option<nat>)
      returns (hex: Option<string>)
      ensures hex == VirtualHeader(c, cache.View(), VirtualTip(vb, ServedAsLiana(View())), height)
    {
      var virtualTip := VirtualTip(vb, ServedAsLiana(View()));
      if height.None? || virtualTip.None? || height.value > virtualTip.value || cache.cached.None? {
        return None;
      }
      var r := HeaderHexAt(c, cache.cached.value.height, cache.cached.value.hex, height.value);
      match r {
        case Success(h) => return h;
        case Failure(_) => return None;
      }
    }

    method HandleOneSubrequest(c: Codec, vb: VirtualBlock, cache: TipCache, call: Call) returns (answers: seq<Answer>)
      modifies this, cache
      ensures (cache.View(), View(), answers) == Dispatch(c, vb, old(cache.View()), old(View()), call)
      ensures old(Current(cache.View())) ==> Current(cache.View())
    {
      match call.request {
        case HeadersSubscribe =>
          subscribedHeaders := true;
          var answer := HandleHeadersSubscribe(c, vb, cache, call);
          return [answer];
        case BlockHeader(height) =>
          var hex := ServeVirtualBlockHeader(c, vb, cache, height);
          return [if hex.Some? then HeaderIs(hex.value) else Forwarded(call.upstream)];
        case _ =>
          return [];
      }
    }

    method AnswerAll(c: Codec, vb: VirtualBlock, cache: TipCache, calls: seq<Call>) returns (answers: seq<Answer>)
      modifies this, cache
      ensures (cache.View(), View(), answers) == DispatchAll(c, vb, old(cache.View()), old(View()), calls)
      ensures old(Current(cache.View())) ==> Current(cache.View())
    {
      answers := [];
      var i := 0;
      ghost var all := DispatchAll(c, vb, cache.View(), View(), calls);
      assert calls[0..] == calls && [] + all.2 == all.2;
      while i < |calls|
        invariant 0 <= i <= |calls|
        invariant var rest := DispatchAll(c, vb, cache.View(), View(), calls[i..]);
                  rest.0 == all.0 && rest.1 == all.1 && answers + rest.2 == all.2
        invariant old(Current(cache.View())) ==> Current(cache.View())
      {
        assert calls[i..][0] == calls[i] && calls[i..][1..] == calls[i + 1..];
        ghost var before, rest := answers, DispatchAll(c, vb, cache.View(), View(), calls[i..]).2;
        var one := HandleOneSubrequest(c, vb, cache, calls[i]);
        answers := answers + one;
        assert before + rest == answers + DispatchAll(c, vb, cache.View(), View(), calls[i + 1..]).2;
        i := i + 1;
      }
      assert answers + [] == answers;
    }

    method ProcessClientLine(c: Codec, vb: VirtualBlock, cache: TipCache, calls: seq<Call>)
      returns (answers: seq<Answer>)
      modifies this, cache
      ensures (cache.View(), View(), answers) == ServeLine(c, vb, old(cache.View()), old(View()), calls)
      ensures old(Current(cache.View())) ==> Current(cache.View())
    {
      CaptureWalletFingerprint(calls);
      if forall k | 0 <= k < |calls| :: IsHandshake(calls[k].request) {
        return [];
      }
      if |calls| == 1 && calls[0].request.HeadersSubscribe? {
        subscribedHeaders := true;
        if VirtualTip(vb, ServedAsLiana(View())).None? && cache.cached.Some? {
          cache.StartRefresh(calls[0].ticket);
          return [TipIs(cache.cached.value)];
        }
        answers := AnswerAll(c, vb, cache, calls);
        return;
      }
      if exists k | 0 <= k < |calls| :: calls[k].request.Broadcast? {
        return [];
      }
      answers := AnswerAll(c, vb, cache, calls);
    }

    method PushTip(c: Codec, vb: VirtualBlock, t: Tip) returns (answers: seq<Answer>)
      ensures answers == Push(c, vb, View(), t)
    {
      if !subscribedHeaders {
        return [];
      }
      var virtualTip := VirtualTip(vb, ServedAsLiana(View()));
      if virtualTip.None? {
        return [Pushed(t)];
      }
      var upTo := Max(virtualTip.value, t.height + 1);
      var hex := HeaderHexAt(c, t.height, t.hex, upTo);
      if hex.Success? && hex.value.Some? {
        return [Pushed(Tip(upTo, hex.value.value))];
      }
      return [];
    }
  }
}
