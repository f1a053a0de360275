/** Whether the virtual-block setting, which is meant for Liana only, shows to anyone else. It decides
    whether a subscription served as Liana starts a background refresh of the shared tip cache; through
    that, and through nothing else, it can reach other sessions. */
module HeaderIsolation {
  import opened Prelude
  import opened VirtualHeaders
  import opened ElectrumSession

  // ----- What the setting can touch in one step -----

  /** Everything but the refreshes still waiting. */
  function Visible(m: Shared): Shared {
    m.(outstanding := {})
  }

  predicate SameShown(w: World, w': World) {
    Visible(w.shared) == Visible(w'.shared) && w.peers == w'.peers
  }

  predicate Armed(vb: VirtualBlock) {
    VirtualTip(vb, true).Some?
  }

  /** A subscription served as Liana that one setting answers from a fabricated chain and the other from
      the cache, starting a refresh. */
  predicate Contested(c: Codec, vb: VirtualBlock, vb': VirtualBlock, m: Shared, s: Session, call: Call) {
    && call.request.HeadersSubscribe? && ServedAsLiana(s)
    && m.cached.Some? && c.decode(m.cached.value.hex).Some?
    && Armed(vb) != Armed(vb')
  }

  function Tickets(calls: seq<Call>): set<nat> {
    set k | 0 <= k < |calls| :: calls[k].ticket
  }

  predicate DistinctTickets(calls: seq<Call>) {
    forall i, j | 0 <= i < j < |calls| :: calls[i].ticket != calls[j].ticket
  }

  function ContestedAll(c: Codec, vb: VirtualBlock, vb': VirtualBlock, m: Shared, s: Session, calls: seq<Call>)
    : set<nat>
    decreases |calls|
  {
    if calls == [] then {}
    else
      var r := Dispatch(c, vb, m, s, calls[0]);
      (if Contested(c, vb, vb', m, s, calls[0]) then {calls[0].ticket} else {})
      + ContestedAll(c, vb, vb', r.0, r.1, calls[1..])
  }

  /** The refreshes of one line that exactly one of the two settings starts. */
  function ContestedIn(c: Codec, vb: VirtualBlock, vb': VirtualBlock, m: Shared, s: Session, calls: seq<Call>)
    : set<nat>
  {
    if forall k | 0 <= k < |calls| :: IsHandshake(calls[k].request) then {}
    else if |calls| != 1 && exists k | 0 <= k < |calls| :: calls[k].request.Broadcast? then {}
    else ContestedAll(c, vb, vb', m, Captured(s, calls), calls)
  }

  /** Waiting in exactly one of the two. */
  predicate Differs(m: Shared, m': Shared, k: nat) {
    (k in m.outstanding) != (k in m'.outstanding)
  }

  lemma TicketsTail(calls: seq<Call>)
    requires calls != []
    ensures Tickets(calls) == {calls[0].ticket} + Tickets(calls[1..])
    ensures DistinctTickets(calls) ==> DistinctTickets(calls[1..]) && calls[0].ticket !in Tickets(calls[1..])
  {
    assert calls == [calls[0]] + calls[1..];
  }

  lemma DispatchSame(c: Codec, vb: VirtualBlock, vb': VirtualBlock, m: Shared, m': Shared, s: Session, call: Call)
    requires Visible(m) == Visible(m')
    ensures var r, r' := Dispatch(c, vb, m, s, call), Dispatch(c, vb', m', s, call);
            && Visible(r.0) == Visible(r'.0) && r.1 == r'.1 && ServedAsLiana(r.1) == ServedAsLiana(s)
            && (!ServedAsLiana(s) ==> r.2 == r'.2)
  {
  }

  lemma DispatchSpawns(c: Codec, vb: VirtualBlock, vb': VirtualBlock, m: Shared, m': Shared, s: Session, call: Call,
                       k: nat)
    requires Visible(m) == Visible(m')
    ensures var r, r' := Dispatch(c, vb, m, s, call), Dispatch(c, vb', m', s, call);
            && (k != call.ticket ==> (k in r.0.outstanding) == (k in m.outstanding)
                                     && (k in r'.0.outstanding) == (k in m'.outstanding))
            && (call.ticket !in m.outstanding && call.ticket !in m'.outstanding ==>
                  (Differs(r.0, r'.0, call.ticket) <==> Contested(c, vb, vb', m, s, call)))
  {
  }

  lemma {:induction false} DispatchAllSame(c: Codec, vb: VirtualBlock, vb': VirtualBlock, m: Shared, m': Shared,
                                           s: Session, calls: seq<Call>)
    requires Visible(m) == Visible(m')
    ensures var r, r' := DispatchAll(c, vb, m, s, calls), DispatchAll(c, vb', m', s, calls);
            && Visible(r.0) == Visible(r'.0) && r.1 == r'.1
            && (!ServedAsLiana(s) ==> r.2 == r'.2)
    decreases |calls|
  {
    if calls != [] {
      var first, first' := Dispatch(c, vb, m, s, calls[0]), Dispatch(c, vb', m', s, calls[0]);
      DispatchSame(c, vb, vb', m, m', s, calls[0]);
      DispatchAllSame(c, vb, vb', first.0, first'.0, first.1, calls[1..]);
    }
  }

  lemma {:induction false} DispatchAllSpawns(c: Codec, vb: VirtualBlock, vb': VirtualBlock, m: Shared, m': Shared,
                                             s: Session, calls: seq<Call>, k: nat)
    requires Visible(m) == Visible(m') && DistinctTickets(calls)
    requires Tickets(calls) !! m.outstanding && Tickets(calls) !! m'.outstanding
    ensures var r, r' := DispatchAll(c, vb, m, s, calls).0, DispatchAll(c, vb', m', s, calls).0;
            && (Differs(r, r', k) <==> Differs(m, m', k) || k in ContestedAll(c, vb, vb', m, s, calls))
            && r.outstanding <= m.outstanding + Tickets(calls) && r'.outstanding <= m'.outstanding + Tickets(calls)
    decreases |calls|
  {
    if calls != [] {
      var first, first' := Dispatch(c, vb, m, s, calls[0]), Dispatch(c, vb', m', s, calls[0]);
      TicketsTail(calls);
      DispatchSame(c, vb, vb', m, m', s, calls[0]);
      DispatchSpawns(c, vb, vb', m, m', s, calls[0], k);
      ContestedTickets(c, vb, vb', first.0, first.1, calls[1..]);
      DispatchAllSpawns(c, vb, vb', first.0, first'.0, first.1, calls[1..], k);
    }
  }

  lemma {:induction false} ContestedTickets(c: Codec, vb: VirtualBlock, vb': VirtualBlock, m: Shared, s: Session,
                                            calls: seq<Call>)
    ensures ContestedAll(c, vb, vb', m, s, calls) <= Tickets(calls)
    decreases |calls|
  {
    if calls != [] {
      var r := Dispatch(c, vb, m, s, calls[0]);
      TicketsTail(calls);
      ContestedTickets(c, vb, vb', r.0, r.1, calls[1..]);
    }
  }

  /** A line leaves the same to be seen under any two settings, and sends the same to a session not served
      as Liana. */
  lemma LineSame(c: Codec, vb: VirtualBlock, vb': VirtualBlock, m: Shared, m': Shared, s: Session, calls: seq<Call>)
    requires Visible(m) == Visible(m')
    ensures var r, r' := ServeLine(c, vb, m, s, calls), ServeLine(c, vb', m', s, calls);
            && Visible(r.0) == Visible(r'.0) && r.1 == r'.1
            && (!ServedAsLiana(Captured(s, calls)) ==> r.2 == r'.2)
  {
    var known := Captured(s, calls);
    var subscribed := known.(subscribedHeaders := true);
    DispatchAllSame(c, vb, vb', m, m', known, calls);
    DispatchAllSame(c, vb, vb', m, m', subscribed, calls);
    if |calls| == 1 && calls[0].request.HeadersSubscribe? {
      assert calls == [calls[0]];
      InstantAnswerIsTheDispatchAnswer(c, vb, m, s, calls[0]);
      InstantAnswerIsTheDispatchAnswer(c, vb', m', s, calls[0]);
    }
  }

  lemma LineSpawns(c: Codec, vb: VirtualBlock, vb': VirtualBlock, m: Shared, m': Shared, s: Session, calls: seq<Call>,
                   k: nat)
    requires Visible(m) == Visible(m') && DistinctTickets(calls)
    requires Tickets(calls) !! m.outstanding && Tickets(calls) !! m'.outstanding
    ensures var r, r' := ServeLine(c, vb, m, s, calls).0, ServeLine(c, vb', m', s, calls).0;
            && (Differs(r, r', k) <==> Differs(m, m', k) || k in ContestedIn(c, vb, vb', m, s, calls))
            && r.outstanding <= m.outstanding + Tickets(calls) && r'.outstanding <= m'.outstanding + Tickets(calls)
  {
    var known := Captured(s, calls);
    var subscribed := known.(subscribedHeaders := true);
    DispatchAllSpawns(c, vb, vb', m, m', known, calls, k);
    DispatchAllSpawns(c, vb, vb', m, m', subscribed, calls, k);
    if |calls| == 1 && calls[0].request.HeadersSubscribe? {
      assert calls == [calls[0]];
      InstantAnswerIsTheDispatchAnswer(c, vb, m, s, calls[0]);
      InstantAnswerIsTheDispatchAnswer(c, vb', m', s, calls[0]);
      LoneSubscription(c, vb, vb', m, known, calls[0]);
    }
  }

  lemma LoneSubscription(c: Codec, vb: VirtualBlock, vb': VirtualBlock, m: Shared, s: Session, call: Call)
    ensures ContestedAll(c, vb, vb', m, s, [call])
         == (if Contested(c, vb, vb', m, s, call) then {call.ticket} else {})
         == ContestedAll(c, vb, vb', m, s.(subscribedHeaders := true), [call])
  {
    assert [call][1..] == [];
  }

  // ----- Two runs -----

  /** The answer to a refresh says something the cache does not hold yet. */
  predicate Brings(m: Shared, up: Upstream) {
    up.TipReply? && Usable(up.tip) && m.cached != Some(up.tip)
  }

  /** The answer lands in exactly one of the runs, and changes something there. */
  predicate OneSided(w: World, w': World, e: Event) {
    e.RefreshLands? && Differs(w.shared, w'.shared, e.ticket) && Brings(w.shared, e.upstream)
  }

  lemma StepSame(c: Codec, vb: VirtualBlock, vb': VirtualBlock, w: World, w': World, e: Event)
    requires SameShown(w, w')
    ensures SameShown(Step(c, vb, w, e).0, Step(c, vb', w', e).0) <==> !OneSided(w, w', e)
  {
    if e.Line? && e.id in w.peers {
      LineSame(c, vb, vb', w.shared, w'.shared, w.peers[e.id].session, e.calls);
    }
  }

  /** The runs show the same at every point: cached tip, announcements, and what each session is known as
      and has received. */
  ghost predicate AlwaysSame(c: Codec, vbs: seq<VirtualBlock>, vbs': seq<VirtualBlock>, w: World, w': World,
                             es: seq<Event>)
    requires |vbs| == |vbs'| == |es|
    decreases |es|
  {
    SameShown(w, w') &&
    (es != [] ==>
       AlwaysSame(c, vbs[1..], vbs'[1..], Step(c, vbs[0], w, es[0]).0, Step(c, vbs'[0], w', es[0]).0, es[1..]))
  }

  /** Every call gets a ticket of its own. */
  predicate FreshTickets(es: seq<Event>, used: set<nat>)
    decreases |es|
  {
    es == [] ||
    (if es[0].Line?
     then DistinctTickets(es[0].calls) && Tickets(es[0].calls) !! used
          && FreshTickets(es[1..], used + Tickets(es[0].calls))
     else FreshTickets(es[1..], used))
  }

  /** The contested refreshes still waiting after one more event, as seen from the first run. */
  function Waiting(c: Codec, vb: VirtualBlock, vb': VirtualBlock, w: World, e: Event, contested: set<nat>): set<nat> {
    match e
    case Line(id, calls) =>
      if id in w.peers then contested + ContestedIn(c, vb, vb', w.shared, w.peers[id].session, calls) else contested
    case RefreshLands(ticket, _) => contested - {ticket}
    case _ => contested
  }

  /** No contested refresh brings anything: read off the first run and the two settings, without looking
      at the second run. */
  ghost predicate ContestsComeToNothing(c: Codec, vbs: seq<VirtualBlock>, vbs': seq<VirtualBlock>, w: World,
                                        es: seq<Event>, contested: set<nat>)
    requires |vbs| == |vbs'| == |es|
    decreases |es|
  {
    es == [] ||
    (&& !(es[0].RefreshLands? && es[0].ticket in contested && Brings(w.shared, es[0].upstream))
     && ContestsComeToNothing(c, vbs[1..], vbs'[1..], Step(c, vbs[0], w, es[0]).0, es[1..],
                              Waiting(c, vbs[0], vbs'[0], w, es[0], contested)))
  }

  /** The runs wait for different answers exactly in the contested refreshes. */
  ghost predicate Apart(w: World, w': World, contested: set<nat>, used: set<nat>) {
    && SameShown(w, w')
    && w.shared.outstanding <= used && w'.shared.outstanding <= used
    && forall k: nat :: Differs(w.shared, w'.shared, k) <==> k in contested
  }

  lemma StepApart(c: Codec, vb: VirtualBlock, vb': VirtualBlock, w: World, w': World, e: Event,
                  contested: set<nat>, used: set<nat>)
    requires Apart(w, w', contested, used) && !OneSided(w, w', e)
    requires e.Line? ==> DistinctTickets(e.calls) && Tickets(e.calls) !! used
    ensures Apart(Step(c, vb, w, e).0, Step(c, vb', w', e).0, Waiting(c, vb, vb', w, e, contested),
                  if e.Line? then used + Tickets(e.calls) else used)
  {
    var next, next' := Step(c, vb, w, e).0, Step(c, vb', w', e).0;
    StepSame(c, vb, vb', w, w', e);
    if e.Line? && e.id in w.peers {
      forall k: nat
        ensures Differs(next.shared, next'.shared, k) <==> k in Waiting(c, vb, vb', w, e, contested)
        ensures k in next.shared.outstanding + next'.shared.outstanding ==> k in used + Tickets(e.calls)
      {
        LineSpawns(c, vb, vb', w.shared, w'.shared, w.peers[e.id].session, e.calls, k);
      }
    }
  }

  /** Main result: two runs with the same events and any two histories of the setting show the same at every
      point exactly if no refresh that one setting starts and the other does not brings a tip the cache does
      not hold. */
  lemma {:induction false} SharedStateShowsSettingOnlyThroughContests(
      c: Codec, vbs: seq<VirtualBlock>, vbs': seq<VirtualBlock>, w: World, w': World, es: seq<Event>,
      contested: set<nat>, used: set<nat>)
    requires |vbs| == |vbs'| == |es| && Apart(w, w', contested, used) && FreshTickets(es, used)
    ensures AlwaysSame(c, vbs, vbs', w, w', es) <==> ContestsComeToNothing(c, vbs, vbs', w, es, contested)
    decreases |es|
  {
    if es != [] {
      var e := es[0];
      StepSame(c, vbs[0], vbs'[0], w, w', e);
      assert OneSided(w, w', e) <==> e.RefreshLands? && e.ticket in contested && Brings(w.shared, e.upstream);
      if !OneSided(w, w', e) {
        StepApart(c, vbs[0], vbs'[0], w, w', e, contested, used);
        SharedStateShowsSettingOnlyThroughContests(
          c, vbs[1..], vbs'[1..], Step(c, vbs[0], w, e).0, Step(c, vbs'[0], w', e).0, es[1..],
          Waiting(c, vbs[0], vbs'[0], w, e, contested), if e.Line? then used + Tickets(e.calls) else used);
      }
    }
  }

  // ----- A Sparrow session -----

  predicate NamesItself(calls: seq<Call>) {
    exists k | 0 <= k < |calls| :: calls[k].request.ServerVersion?
  }

  predicate NoLianaName(calls: seq<Call>) {
    forall k | 0 <= k < |calls| && calls[k].request.ServerVersion? ::
      calls[k].request.name.Some? ==> !IsLianaName(calls[k].request.name.value)
  }

  /** Session `id` connects on the Sparrow port, sends `server.version` no later than in its first
      line, and never under a Liana name. Other sessions do what they like. */
  predicate SparrowEvents(es: seq<Event>, id: nat, introduced: bool)
    decreases |es|
  {
    if es == [] then true
    else
      match es[0]
      case Connect(i, listener) =>
        if i == id then listener == SPARROW && SparrowEvents(es[1..], id, false)
        else SparrowEvents(es[1..], id, introduced)
      case Line(i, calls) =>
        if i == id then (introduced || NamesItself(calls)) && NoLianaName(calls) && SparrowEvents(es[1..], id, true)
        else SparrowEvents(es[1..], id, introduced)
      case _ => SparrowEvents(es[1..], id, introduced)
  }

  ghost predicate SparrowState(s: Session, introduced: bool) {
    && s.listener == SPARROW
    && s.sawServerVersion == introduced
    && (s.walletLabel.Some? ==> !IsLianaName(s.walletLabel.value))
    && (s.subscribedHeaders ==> introduced)
  }

  lemma {:induction false} CapturedSparrow(s: Session, calls: seq<Call>)
    requires s.listener == SPARROW && NoLianaName(calls)
    requires s.walletLabel.Some? ==> !IsLianaName(s.walletLabel.value)
    ensures var r := Captured(s, calls);
            && r.listener == SPARROW && r.subscribedHeaders == s.subscribedHeaders
            && (r.walletLabel.Some? ==> !IsLianaName(r.walletLabel.value))
            && (r.sawServerVersion <==> s.sawServerVersion || NamesItself(calls))
    decreases |calls|
  {
    if calls != [] {
      assert calls[0].request.ServerVersion? ==> NamesItself(calls);
      assert forall k | 0 <= k < |calls[1..]| :: calls[1..][k] == calls[k + 1];
      CapturedSparrow(CapturedOne(s, calls[0].request), calls[1..]);
      if NamesItself(calls) && !calls[0].request.ServerVersion? {
        var k :| 0 <= k < |calls| && calls[k].request.ServerVersion?;
        assert calls[1..][k - 1].request.ServerVersion?;
      }
    }
  }

  lemma {:induction false} DispatchAllSession(c: Codec, vb: VirtualBlock, m: Shared, s: Session, calls: seq<Call>)
    ensures var r := DispatchAll(c, vb, m, s, calls).1;
            r == s || r == s.(subscribedHeaders := true)
    decreases |calls|
  {
    if calls != [] {
      var first := Dispatch(c, vb, m, s, calls[0]);
      DispatchAllSession(c, vb, first.0, first.1, calls[1..]);
    }
  }

  lemma ServeLineSession(c: Codec, vb: VirtualBlock, m: Shared, s: Session, calls: seq<Call>)
    ensures var known, r := Captured(s, calls), ServeLine(c, vb, m, s, calls).1;
            r == known || r == known.(subscribedHeaders := true)
  {
    DispatchAllSession(c, vb, m, Captured(s, calls), calls);
    DispatchAllSession(c, vb, m, Captured(s, calls).(subscribedHeaders := true), calls);
  }

  lemma SparrowLine(c: Codec, vb: VirtualBlock, m: Shared, s: Session, calls: seq<Call>, introduced: bool)
    requires SparrowState(s, introduced) && (introduced || NamesItself(calls)) && NoLianaName(calls)
    ensures !ServedAsLiana(Captured(s, calls))
    ensures SparrowState(ServeLine(c, vb, m, s, calls).1, true)
  {
    CapturedSparrow(s, calls);
    ServeLineSession(c, vb, m, s, calls);
  }

  lemma SparrowStep(c: Codec, vb: VirtualBlock, vb': VirtualBlock, w: World, w': World, e: Event, id: nat,
                    introduced: bool)
    requires SameShown(w, w') && Addresses(e, id) && SparrowEvents([e], id, introduced)
    requires id in w.peers ==> SparrowState(w.peers[id].session, introduced)
    ensures Step(c, vb, w, e).1 == Step(c, vb', w', e).1
  {
    assert [e][0] == e;
    if e.Line? && id in w.peers {
      SparrowLine(c, vb, w.shared, w.peers[id].session, e.calls, introduced);
      LineSame(c, vb, vb', w.shared, w'.shared, w.peers[id].session, e.calls);
    }
  }

  function Introduced(e: Event, id: nat, introduced: bool): bool {
    if !Addresses(e, id) || e.Receive? then introduced else e.Line?
  }

  lemma SparrowStays(c: Codec, vb: VirtualBlock, w: World, e: Event, id: nat, introduced: bool)
    requires SparrowEvents([e], id, introduced) && (id in w.peers ==> SparrowState(w.peers[id].session, introduced))
    ensures var next := Step(c, vb, w, e).0;
            id in next.peers ==> SparrowState(next.peers[id].session, Introduced(e, id, introduced))
  {
    assert [e][0] == e;
    if e.Line? && e.id == id && id in w.peers {
      SparrowLine(c, vb, w.shared, w.peers[id].session, e.calls, introduced);
    }
  }

  lemma SparrowSplit(es: seq<Event>, id: nat, introduced: bool)
    requires es != [] && SparrowEvents(es, id, introduced)
    ensures SparrowEvents([es[0]], id, introduced) && SparrowEvents(es[1..], id, Introduced(es[0], id, introduced))
  {
    assert [es[0]][0] == es[0] && [es[0]][1..] == [];
  }

  lemma {:induction false} SparrowSeesWhatIsShown(c: Codec, vbs: seq<VirtualBlock>, vbs': seq<VirtualBlock>,
                                                  w: World, w': World, es: seq<Event>, id: nat, introduced: bool)
    requires |vbs| == |vbs'| == |es| && AlwaysSame(c, vbs, vbs', w, w', es)
    requires SparrowEvents(es, id, introduced) && (id in w.peers ==> SparrowState(w.peers[id].session, introduced))
    ensures Sent(c, vbs, w, es, id) == Sent(c, vbs', w', es, id)
    decreases |es|
  {
    if es != [] {
      SparrowSplit(es, id, introduced);
      if Addresses(es[0], id) {
        SparrowStep(c, vbs[0], vbs'[0], w, w', es[0], id, introduced);
      }
      SparrowStays(c, vbs[0], w, es[0], id, introduced);
      SparrowSeesWhatIsShown(c, vbs[1..], vbs'[1..], Step(c, vbs[0], w, es[0]).0, Step(c, vbs'[0], w', es[0]).0,
                             es[1..], id, Introduced(es[0], id, introduced));
    }
  }

  /** Main result: under that condition a Sparrow session is sent identical header answers and pushes in the
      two runs, whatever other sessions are connected. */
  lemma HeaderNonInterference(c: Codec, vbs: seq<VirtualBlock>, vbs': seq<VirtualBlock>, w: World, es: seq<Event>,
                              id: nat, introduced: bool)
    requires |vbs| == |vbs'| == |es|
    requires SparrowEvents(es, id, introduced) && (id in w.peers ==> SparrowState(w.peers[id].session, introduced))
    requires FreshTickets(es, w.shared.outstanding) && ContestsComeToNothing(c, vbs, vbs', w, es, {})
    ensures Sent(c, vbs, w, es, id) == Sent(c, vbs', w, es, id)
  {
    SharedStateShowsSettingOnlyThroughContests(c, vbs, vbs', w, w, es, {}, w.shared.outstanding);
    SparrowSeesWhatIsShown(c, vbs, vbs', w, w, es, id, introduced);
  }

  /** The condition for one subscription and the answer to the refresh it starts: the two settings leave the
      same to be seen exactly if the session is not served as Liana, or both or neither are armed, or the
      indexer stands at the cached tip. */
  lemma SubscriptionAndItsRefresh(c: Codec, vb: VirtualBlock, vb': VirtualBlock, w: World, id: nat, up: Upstream,
                                  ticket: nat, reply: Upstream)
    requires id in w.peers && ticket !in w.shared.outstanding
    requires w.shared.cached.Some? && c.decode(w.shared.cached.value.hex).Some?
    ensures var es := [Line(id, [Call(HeadersSubscribe, up, ticket)]), RefreshLands(ticket, reply)];
            SameShown(After(c, [vb, vb], w, es), After(c, [vb', vb'], w, es))
            <==> !ServedAsLiana(w.peers[id].session) || Armed(vb) == Armed(vb') || !Brings(w.shared, reply)
  {
    var call := Call(HeadersSubscribe, up, ticket);
    var line, landing := Line(id, [call]), RefreshLands(ticket, reply);
    var one, one' := Step(c, vb, w, line).0, Step(c, vb', w, line).0;
    var s := w.peers[id].session;
    TwoSteps(c, vb, w, line, landing);
    TwoSteps(c, vb', w, line, landing);
    CapturedAtSubscription(s, call);
    assert Tickets([call]) == {ticket} && DistinctTickets([call]);
    StepSame(c, vb, vb', w, w, line);
    LineSpawns(c, vb, vb', w.shared, w.shared, s, [call], ticket);
    LoneSubscription(c, vb, vb', w.shared, s, call);
    WarmSubscriptionShowsNothing(c, vb, w.shared, s, call);
    StepSame(c, vb, vb', one, one', landing);
  }

  lemma TwoSteps(c: Codec, vb: VirtualBlock, w: World, e: Event, f: Event)
    ensures After(c, [vb, vb], w, [e, f]) == Step(c, vb, Step(c, vb, w, e).0, f).0
  {
    var next := Step(c, vb, w, e).0;
    assert [e, f][1..] == [f] && [vb, vb][1..] == [vb] && [f][1..] == [] && [vb][1..] == [];
    assert After(c, [vb], next, [f]) == After(c, [], Step(c, vb, next, f).0, []);
  }

  lemma CapturedAtSubscription(s: Session, call: Call)
    requires call.request.HeadersSubscribe?
    ensures Captured(s, [call]) == s
  {
    assert [call][1..] == [];
  }

  lemma WarmSubscriptionShowsNothing(c: Codec, vb: VirtualBlock, m: Shared, s: Session, call: Call)
    requires call.request.HeadersSubscribe? && m.cached.Some?
    ensures Visible(ServeLine(c, vb, m, s, [call]).0) == Visible(m)
  {
    InstantAnswerIsTheDispatchAnswer(c, vb, m, s, call);
    assert [call][1..] == [];
  }

  /** The input that shows it: a Liana session subscribes while the indexer is a block ahead. Disarmed, a
      subscribed Sparrow session is pushed that block; armed, it is not. */
  lemma LianaSubscriptionShiftsAPush(c: Codec, w: World, liana: nat, sparrow: nat, up: Upstream, ticket: nat, now: Tip,
                                     target: nat)
    requires liana in w.peers && ServedAsLiana(w.peers[liana].session)
    requires sparrow in w.peers && sparrow != liana && !ServedAsLiana(w.peers[sparrow].session)
    requires w.peers[sparrow].session.subscribedHeaders && w.peers[sparrow].received == |w.shared.announced|
    requires w.shared.cached.Some? && c.decode(w.shared.cached.value.hex).Some? && ticket !in w.shared.outstanding
    requires Usable(now) && now.height != w.shared.cached.value.height && target > 0
    ensures var es := [Line(liana, [Call(HeadersSubscribe, up, ticket)]), RefreshLands(ticket, TipReply(now))];
            var off, on := VirtualBlock(false, target), VirtualBlock(true, target);
            && Step(c, off, After(c, [off, off], w, es), Receive(sparrow)).1 == [Pushed(now)]
            && Step(c, on, After(c, [on, on], w, es), Receive(sparrow)).1 == []
  {
    var call := Call(HeadersSubscribe, up, ticket);
    var off, on := VirtualBlock(false, target), VirtualBlock(true, target);
    TwoSteps(c, off, w, Line(liana, [call]), RefreshLands(ticket, TipReply(now)));
    TwoSteps(c, on, w, Line(liana, [call]), RefreshLands(ticket, TipReply(now)));
    CapturedAtSubscription(w.peers[liana].session, call);
    InstantAnswerIsTheDispatchAnswer(c, on, w.shared, w.peers[liana].session, call);
    assert [call][1..] == [];
  }

  // ----- What holds under any settings -----

  ghost predicate RealAnswer(a: Answer, tips: set<Tip>) {
    match a
    case TipIs(t) => t in tips
    case Pushed(t) => t in tips
    case HeaderIs(_) => false
    case _ => true
  }

  ghost predicate RealAnswers(answers: seq<Answer>, tips: set<Tip>) {
    forall i | 0 <= i < |answers| :: RealAnswer(answers[i], tips)
  }

  lemma {:induction false} DispatchAllReal(c: Codec, vb: VirtualBlock, m: Shared, s: Session, calls: seq<Call>,
                                           tips: set<Tip>)
    requires HoldsOnly(m, tips) && TipsOf(calls) <= tips && !ServedAsLiana(s)
    ensures RealAnswers(DispatchAll(c, vb, m, s, calls).2, tips)
    decreases |calls|
  {
    if calls != [] {
      var first := Dispatch(c, vb, m, s, calls[0]);
      TipsOfTail(calls);
      DispatchHolds(c, vb, m, s, calls[0], tips);
      DispatchAllReal(c, vb, first.0, first.1, calls[1..], tips);
    }
  }

  lemma SparrowLineReal(c: Codec, vb: VirtualBlock, m: Shared, s: Session, calls: seq<Call>, introduced: bool,
                        tips: set<Tip>)
    requires SparrowState(s, introduced) && (introduced || NamesItself(calls)) && NoLianaName(calls)
    requires HoldsOnly(m, tips) && TipsOf(calls) <= tips
    ensures RealAnswers(ServeLine(c, vb, m, s, calls).2, tips)
  {
    var known := Captured(s, calls);
    SparrowLine(c, vb, m, s, calls, introduced);
    DispatchAllReal(c, vb, m, known, calls, tips);
    DispatchAllReal(c, vb, m, known.(subscribedHeaders := true), calls, tips);
  }

  /** Whatever the settings and the other sessions do, a Sparrow session is shown upstream tips only, and no
      fabricated header. */
  lemma {:induction false} SparrowIsShownRealTips(c: Codec, vbs: seq<VirtualBlock>, w: World, es: seq<Event>, id: nat,
                                                  introduced: bool, tips: set<Tip>)
    requires |vbs| == |es| && HoldsOnly(w.shared, tips) && UpstreamTips(es) <= tips
    requires SparrowEvents(es, id, introduced) && (id in w.peers ==> SparrowState(w.peers[id].session, introduced))
    ensures RealAnswers(Sent(c, vbs, w, es, id), tips)
    decreases |es|
  {
    if es != [] {
      SparrowSplit(es, id, introduced);
      SparrowStays(c, vbs[0], w, es[0], id, introduced);
      UpstreamTipsSplit(es);
      StepHolds(c, vbs[0], w, es[0], tips);
      if es[0].Line? && es[0].id == id && id in w.peers {
        SparrowLineReal(c, vbs[0], w.shared, w.peers[id].session, es[0].calls, introduced, tips);
      }
      SparrowIsShownRealTips(c, vbs[1..], Step(c, vbs[0], w, es[0]).0, es[1..], id,
                             Introduced(es[0], id, introduced), tips);
    }
  }

  /** With a decodable tip in the cache, the answer to a subscription
      and a push ignore the configuration exactly for the sessions that are not served as Liana. */
  lemma OnlyLianaSeesTheVirtualTip(c: Codec, m: Shared, s: Session, up: Upstream, ticket: nat)
    requires m.cached.Some? && c.decode(m.cached.value.hex).Some?
    ensures (forall vb, vb' :: ServeLine(c, vb, m, s, [Call(HeadersSubscribe, up, ticket)]).2
                            == ServeLine(c, vb', m, s, [Call(HeadersSubscribe, up, ticket)]).2)
            <==> !ServedAsLiana(s)
    ensures s.subscribedHeaders ==>
              ((forall vb, vb' :: Push(c, vb, s, m.cached.value) == Push(c, vb', s, m.cached.value))
               <==> !ServedAsLiana(s))
  {
    var calls := [Call(HeadersSubscribe, up, ticket)];
    var off, on := VirtualBlock(false, 0), VirtualBlock(true, m.cached.value.height + 1);
    assert Captured(s, calls) == s by {
      assert calls[1..] == [];
    }
    var subscribed := s.(subscribedHeaders := true);
    assert DispatchAll(c, on, m, subscribed, calls).2 == Dispatch(c, on, m, subscribed, calls[0]).2 by {
      assert calls[1..] == [];
    }
    if ServedAsLiana(s) {
      assert ServedAsLiana(subscribed);
      assert ServeLine(c, on, m, s, calls).2 != ServeLine(c, off, m, s, calls).2;
      assert s.subscribedHeaders ==> Push(c, on, s, m.cached.value) != Push(c, off, s, m.cached.value);
    } else {
      forall vb, vb' ensures ServeLine(c, vb, m, s, calls).2 == ServeLine(c, vb', m, s, calls).2 {
        LineSame(c, vb, vb', m, m, s, calls);
      }
    }
  }
}
