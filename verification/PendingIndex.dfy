/** The map of held transactions in `PoolManager`: store, merge and remove with notifications, the
    lookups per scripthash, and two-phase scripthash extraction. */
module PendingIndex {
  import opened Prelude

  datatype Output = Output(index: nat, value: nat, scripthash: string)

  datatype PendingTx = PendingTx(txHex: string, scripthashes: seq<string>, outputs: seq<Output>)

  type Pending = map<string, PendingTx>

  // ----- Merging scripthashes -----

  /** Appends what is not there yet, in order. */
  function Merged(base: seq<string>, extra: seq<string>): seq<string>
    decreases |extra|
  {
    if extra == [] then base
    else Merged(if extra[0] in base then base else base + [extra[0]], extra[1..])
  }

  function Added(base: seq<string>, extra: seq<string>): seq<string>
    decreases |extra|
  {
    if extra == [] then []
    else if extra[0] in base then Added(base, extra[1..])
    else [extra[0]] + Added(base + [extra[0]], extra[1..])
  }

  function Elements(s: seq<string>): set<string> {
    set x | x in s
  }

  lemma NoElements(s: seq<string>)
    ensures Elements(s) == {} <==> s == []
  {
    if s != [] {
      assert s[0] in Elements(s);
    }
  }

  lemma ElementsCons(x: string, s: seq<string>)
    ensures Elements([x] + s) == {x} + Elements(s)
  {
    assert forall y | y in s :: y in [x] + s;
  }

  lemma {:induction false} MergedFacts(base: seq<string>, extra: seq<string>)
    ensures Elements(Merged(base, extra)) == Elements(base) + Elements(extra)
    ensures Elements(Added(base, extra)) == Elements(extra) - Elements(base)
    ensures Distinct(base) ==> Distinct(Merged(base, extra))
    decreases |extra|
  {
    if extra != [] {
      var base' := if extra[0] in base then base else base + [extra[0]];
      MergedFacts(base', extra[1..]);
      ElementsCons(extra[0], extra[1..]);
      assert extra == [extra[0]] + extra[1..];
      assert Elements(base') == Elements(base) + {extra[0]};
      if extra[0] !in base {
        ElementsCons(extra[0], Added(base', extra[1..]));
      }
    }
  }

  lemma {:induction false} MergedAppends(base: seq<string>, extra: seq<string>)
    ensures Merged(base, extra) == base + Added(base, extra)
    decreases |extra|
  {
    if extra != [] {
      var base' := if extra[0] in base then base else base + [extra[0]];
      MergedAppends(base', extra[1..]);
      if extra[0] !in base {
        assert base' + Added(base', extra[1..]) == base + ([extra[0]] + Added(base', extra[1..]));
      }
    }
  }

  lemma {:induction false} MergeNothingNew(base: seq<string>, extra: seq<string>)
    requires Elements(extra) <= Elements(base)
    ensures Merged(base, extra) == base
  {
    if extra != [] {
      assert extra[0] in Elements(extra) && extra[0] in Elements(base);
      forall x | x in Elements(extra[1..]) ensures x in Elements(base) { assert x in Elements(extra); }
      MergeNothingNew(base, extra[1..]);
    }
  }

  /** Merging twice changes nothing more, and the order of two merges only reorders the list. */
  lemma MergesAreIdempotentAndCommute(base: seq<string>, a: seq<string>, b: seq<string>)
    ensures Merged(Merged(base, a), a) == Merged(base, a)
    ensures Elements(Merged(Merged(base, a), b)) == Elements(Merged(Merged(base, b), a))
  {
    MergedFacts(base, a);
    MergedFacts(base, b);
    MergedFacts(Merged(base, a), b);
    MergedFacts(Merged(base, b), a);
    MergeNothingNew(Merged(base, a), a);
  }

  // ----- What a wallet is told about a scripthash -----

  predicate Touches(pending: Pending, txid: string, sh: string) {
    txid in pending && sh in pending[txid].scripthashes
  }

  /** `get_pending_txids_for_scripthash` as a set. */
  function Answer(pending: Pending, sh: string): set<string> {
    set txid | txid in pending && sh in pending[txid].scripthashes
  }

  // ----- Store, merge, remove -----

  datatype Change =
    | Store(txid: string, tx: PendingTx)
    | Merge(txid: string, extra: seq<string>)
    | Remove(txid: string)

  function Apply(pending: Pending, c: Change): Pending {
    match c
    case Store(txid, tx) => pending[txid := tx]
    case Merge(txid, extra) =>
      if txid in pending
      then pending[txid := pending[txid].(scripthashes := Merged(pending[txid].scripthashes, extra))]
      else pending
    case Remove(txid) => pending - {txid}
  }

  /** The notifications sent, in order. */
  function Notified(pending: Pending, c: Change): seq<string> {
    match c
    case Store(_, tx) => tx.scripthashes
    case Merge(txid, extra) => if txid in pending then Added(pending[txid].scripthashes, extra) else []
    case Remove(txid) => if txid in pending then pending[txid].scripthashes else []
  }

  /** A store of a new transaction, or one that keeps every scripthash already known. */
  predicate KeepsScripthashes(pending: Pending, c: Change) {
    c.Store? && c.txid in pending ==> Elements(pending[c.txid].scripthashes) <= Elements(c.tx.scripthashes)
  }

  ghost predicate AnswerChanges(pending: Pending, c: Change, sh: string) {
    Answer(pending, sh) != Answer(Apply(pending, c), sh)
  }

  lemma ChangeIsOneMembership(pending: Pending, c: Change, sh: string)
    ensures AnswerChanges(pending, c, sh)
            <==> (Touches(pending, c.txid, sh) != Touches(Apply(pending, c), c.txid, sh))
  {
    var a, b := Answer(pending, sh), Answer(Apply(pending, c), sh);
    assert c.txid in a <==> Touches(pending, c.txid, sh);
    assert c.txid in b <==> Touches(Apply(pending, c), c.txid, sh);
    assert forall t | t != c.txid :: t in a <==> t in b;
  }

  /** Whenever the answer for a scripthash changes, that scripthash is notified in the same step;
      merge and remove notify exactly those. For a store this holds exactly when no scripthash
      already known is dropped. */
  lemma EveryChangeIsNotified(pending: Pending, c: Change)
    ensures (forall sh :: AnswerChanges(pending, c, sh) ==> sh in Notified(pending, c))
            <==> KeepsScripthashes(pending, c)
    ensures !c.Store? || c.txid !in pending ==>
              forall sh :: AnswerChanges(pending, c, sh) <==> sh in Notified(pending, c)
  {
    if c.Merge? && c.txid in pending {
      var base := pending[c.txid].scripthashes;
      MergedFacts(base, c.extra);
      assert forall sh :: sh in Added(base, c.extra) <==> sh in Elements(Added(base, c.extra));
      assert forall sh :: sh in Merged(base, c.extra) <==> sh in Elements(Merged(base, c.extra));
    }
    forall sh ensures AnswerChanges(pending, c, sh)
                      <==> (Touches(pending, c.txid, sh) != Touches(Apply(pending, c), c.txid, sh))
    {
      ChangeIsOneMembership(pending, c, sh);
    }
    if c.Store? && c.txid in pending {
      var known, stored := pending[c.txid].scripthashes, c.tx.scripthashes;
      assert forall sh :: sh in known <==> sh in Elements(known);
      assert forall sh :: sh in stored <==> sh in Elements(stored);
      if !KeepsScripthashes(pending, c) {
        var sh :| sh in Elements(known) && sh !in Elements(stored);
        assert AnswerChanges(pending, c, sh) && sh !in Notified(pending, c);
      }
    }
  }

  function ApplyAll(pending: Pending, cs: seq<Change>): Pending
    decreases |cs|
  {
    if cs == [] then pending else ApplyAll(Apply(pending, cs[0]), cs[1..])
  }

  function NotifiedAll(pending: Pending, cs: seq<Change>): seq<string>
    decreases |cs|
  {
    if cs == [] then [] else Notified(pending, cs[0]) + NotifiedAll(Apply(pending, cs[0]), cs[1..])
  }

  ghost predicate KeepsScripthashesAll(pending: Pending, cs: seq<Change>)
    decreases |cs|
  {
    cs == [] || (KeepsScripthashes(pending, cs[0]) && KeepsScripthashesAll(Apply(pending, cs[0]), cs[1..]))
  }

  /** Over any run: a wallet whose answer differs at the end has been notified on the way. */
  lemma {:induction false} NoSilentChange(pending: Pending, cs: seq<Change>, sh: string)
    requires KeepsScripthashesAll(pending, cs)
    requires Answer(pending, sh) != Answer(ApplyAll(pending, cs), sh)
    ensures sh in NotifiedAll(pending, cs)
    decreases |cs|
  {
    EveryChangeIsNotified(pending, cs[0]);
    if !AnswerChanges(pending, cs[0], sh) {
      NoSilentChange(Apply(pending, cs[0]), cs[1..], sh);
    }
  }

  // ----- Values -----

  function Sum(s: seq<nat>): nat {
    if s == [] then 0 else s[0] + Sum(s[1..])
  }

  lemma {:induction false} SumAppend(a: seq<nat>, b: seq<nat>)
    ensures Sum(a + b) == Sum(a) + Sum(b)
  {
    if a == [] {
      assert a + b == b;
    } else {
      SumAppend(a[1..], b);
      assert (a + b)[1..] == a[1..] + b;
    }
  }

  datatype Utxo = Utxo(txid: string, index: nat, value: nat)

  function OutputsTo(txid: string, outputs: seq<Output>, sh: string): seq<Utxo> {
    if outputs == [] then []
    else
      (if outputs[0].scripthash == sh then [Utxo(txid, outputs[0].index, outputs[0].value)] else [])
      + OutputsTo(txid, outputs[1..], sh)
  }

  /** `get_pending_utxos_for_scripthash`, walking the map in the given order. */
  function UtxosFor(pending: Pending, order: seq<string>, sh: string): seq<Utxo>
    requires forall t | t in order :: t in pending
  {
    if order == [] then []
    else OutputsTo(order[0], pending[order[0]].outputs, sh) + UtxosFor(pending, order[1..], sh)
  }

  function ValueTo(outputs: seq<Output>, sh: string): nat {
    if outputs == [] then 0
    else (if outputs[0].scripthash == sh then outputs[0].value else 0) + ValueTo(outputs[1..], sh)
  }

  /** `get_pending_unconfirmed_value`. */
  function UnconfirmedFor(pending: Pending, order: seq<string>, sh: string): nat
    requires forall t | t in order :: t in pending
  {
    if order == [] then 0
    else ValueTo(pending[order[0]].outputs, sh) + UnconfirmedFor(pending, order[1..], sh)
  }

  function Values(utxos: seq<Utxo>): seq<nat> {
    seq(|utxos|, i requires 0 <= i < |utxos| => utxos[i].value)
  }

  lemma ValuesAppend(a: seq<Utxo>, b: seq<Utxo>)
    ensures Sum(Values(a + b)) == Sum(Values(a)) + Sum(Values(b))
  {
    assert Values(a + b) == Values(a) + Values(b);
    SumAppend(Values(a), Values(b));
  }

  lemma {:induction false} OutputsToValue(txid: string, outputs: seq<Output>, sh: string)
    ensures Sum(Values(OutputsTo(txid, outputs, sh))) == ValueTo(outputs, sh)
  {
    if outputs != [] {
      OutputsToValue(txid, outputs[1..], sh);
      var first: seq<Utxo> :=
        if outputs[0].scripthash == sh then [Utxo(txid, outputs[0].index, outputs[0].value)] else [];
      ValuesAppend(first, OutputsTo(txid, outputs[1..], sh));
      assert first != [] ==> Values(first) == [outputs[0].value] && [outputs[0].value][1..] == [];
    }
  }

  /** The unconfirmed balance of a scripthash is the summed value of its pending UTXOs. */
  lemma {:induction false} BalanceIsSumOfUtxos(pending: Pending, order: seq<string>, sh: string)
    requires forall t | t in order :: t in pending
    ensures UnconfirmedFor(pending, order, sh) == Sum(Values(UtxosFor(pending, order, sh)))
  {
    if order != [] {
      OutputsToValue(order[0], pending[order[0]].outputs, sh);
      BalanceIsSumOfUtxos(pending, order[1..], sh);
      ValuesAppend(OutputsTo(order[0], pending[order[0]].outputs, sh), UtxosFor(pending, order[1..], sh));
    }
  }

  lemma {:induction false} UnconfirmedAround(pending: Pending, order: seq<string>, sh: string, i: nat)
    requires i < |order| && forall t | t in order :: t in pending
    ensures UnconfirmedFor(pending, order, sh)
         == ValueTo(pending[order[i]].outputs, sh) + UnconfirmedFor(pending, order[..i] + order[i + 1..], sh)
  {
    var rest := order[..i] + order[i + 1..];
    if i == 0 {
      assert rest == order[1..];
    } else {
      UnconfirmedAround(pending, order[1..], sh, i - 1);
      assert rest[1..] == order[1..][..i - 1] + order[1..][i..];
    }
  }

  /** The balance does not depend on the order in which the map is walked. */
  lemma {:induction false} BalanceIgnoresOrder(pending: Pending, a: seq<string>, b: seq<string>, sh: string)
    requires Distinct(a) && Distinct(b) && Elements(a) == Elements(b) && forall t | t in a :: t in pending
    requires forall t | t in b :: t in pending
    ensures UnconfirmedFor(pending, a, sh) == UnconfirmedFor(pending, b, sh)
  {
    if a == [] {
      NoElements(a);
      NoElements(b);
    } else {
      assert a[0] in Elements(a);
      var i :| 0 <= i < |b| && b[i] == a[0];
      var rest := b[..i] + b[i + 1..];
      assert Elements(a[1..]) == Elements(a) - {a[0]} by {
        forall x | x in a[1..] ensures x != a[0] {}
      }
      assert Elements(rest) == Elements(b) - {b[i]};
      UnconfirmedAround(pending, b, sh, i);
      BalanceIgnoresOrder(pending, a[1..], rest, sh);
    }
  }

  // ----- Outpoints -----

  ghost predicate IndexesDistinct(outputs: seq<Output>) {
    forall i, j | 0 <= i < j < |outputs| :: outputs[i].index != outputs[j].index
  }

  /** Kept by every store of freshly decoded outputs, by merge and by remove. */
  ghost predicate OutpointsValid(pending: Pending) {
    forall t | t in pending :: IndexesDistinct(pending[t].outputs)
  }

  lemma ChangesKeepOutpoints(pending: Pending, c: Change)
    requires OutpointsValid(pending) && (c.Store? ==> IndexesDistinct(c.tx.outputs))
    ensures OutpointsValid(Apply(pending, c))
  {
  }

  ghost predicate OutpointsDistinct(utxos: seq<Utxo>) {
    forall i, j | 0 <= i < j < |utxos| ::
      utxos[i].txid != utxos[j].txid || utxos[i].index != utxos[j].index
  }

  lemma {:induction false} OutputsToFacts(txid: string, outputs: seq<Output>, sh: string)
    requires IndexesDistinct(outputs)
    ensures var us := OutputsTo(txid, outputs, sh);
            && OutpointsDistinct(us)
            && forall i | 0 <= i < |us| ::
                 us[i].txid == txid && exists j | 0 <= j < |outputs| :: outputs[j].index == us[i].index
  {
    if outputs != [] {
      OutputsToFacts(txid, outputs[1..], sh);
      var us, tail := OutputsTo(txid, outputs, sh), OutputsTo(txid, outputs[1..], sh);
      var d := |us| - |tail|;
      forall i | d <= i < |us|
        ensures us[i].txid == txid && exists j | 0 < j < |outputs| :: outputs[j].index == us[i].index
      {
        assert us[i] == tail[i - d];
        var j :| 0 <= j < |outputs| - 1 && outputs[1..][j].index == tail[i - d].index;
        assert outputs[j + 1].index == us[i].index;
      }
      forall i, j | 0 <= i < j < |us| ensures us[i].txid != us[j].txid || us[i].index != us[j].index {
        assert us[j] == tail[j - d];
        if i >= d { assert us[i] == tail[i - d]; }
      }
    }
  }

  lemma {:induction false} UtxosComeFrom(pending: Pending, order: seq<string>, sh: string, i: nat)
    requires (forall t | t in order :: t in pending) && OutpointsValid(pending)
    requires i < |UtxosFor(pending, order, sh)|
    ensures UtxosFor(pending, order, sh)[i].txid in order
  {
    var first := OutputsTo(order[0], pending[order[0]].outputs, sh);
    OutputsToFacts(order[0], pending[order[0]].outputs, sh);
    if i >= |first| {
      UtxosComeFrom(pending, order[1..], sh, i - |first|);
    }
  }

  /** No outpoint is offered twice. */
  lemma {:induction false} PendingOutpointsAreUnique(pending: Pending, order: seq<string>, sh: string)
    requires (forall t | t in order :: t in pending) && Distinct(order) && OutpointsValid(pending)
    ensures OutpointsDistinct(UtxosFor(pending, order, sh))
  {
    if order != [] {
      var us, tail := UtxosFor(pending, order, sh), UtxosFor(pending, order[1..], sh);
      var d := |us| - |tail|;
      OutputsToFacts(order[0], pending[order[0]].outputs, sh);
      PendingOutpointsAreUnique(pending, order[1..], sh);
      forall i, j | 0 <= i < j < |us| ensures us[i].txid != us[j].txid || us[i].index != us[j].index {
        if j >= d {
          UtxosComeFrom(pending, order[1..], sh, j - d);
          assert us[j] == tail[j - d];
          if i >= d { assert us[i] == tail[i - d]; }
        }
      }
    }
  }

  // ----- Injection into `listunspent` and `get_balance` -----

  predicate Listed(upstream: seq<Utxo>, u: Utxo) {
    exists i | 0 <= i < |upstream| :: upstream[i].txid == u.txid && upstream[i].index == u.index
  }

  function InjectUnspent(upstream: seq<Utxo>, pending: seq<Utxo>): seq<Utxo> {
    upstream + Unlisted(upstream, pending)
  }

  function Unlisted(upstream: seq<Utxo>, pending: seq<Utxo>): seq<Utxo> {
    if pending == [] then []
    else (if Listed(upstream, pending[0]) then [] else [pending[0]]) + Unlisted(upstream, pending[1..])
  }

  method InjectListUnspent(upstream: seq<Utxo>, pending: seq<Utxo>) returns (result: seq<Utxo>)
    ensures result == InjectUnspent(upstream, pending)
  {
    result := upstream;
    var i := 0;
    assert pending[0..] == pending;
    while i < |pending|
      invariant 0 <= i <= |pending|
      invariant result + Unlisted(upstream, pending[i..]) == InjectUnspent(upstream, pending)
    {
      assert pending[i..][1..] == pending[i + 1..];
      if !Listed(upstream, pending[i]) {
        assert result + ([pending[i]] + Unlisted(upstream, pending[i + 1..]))
            == (result + [pending[i]]) + Unlisted(upstream, pending[i + 1..]);
        result := result + [pending[i]];
      }
      i := i + 1;
    }
    assert result + [] == result;
  }

  ghost predicate NoneListed(upstream: seq<Utxo>, pending: seq<Utxo>) {
    forall i | 0 <= i < |pending| :: !Listed(upstream, pending[i])
  }

  lemma {:induction false} UnlistedAll(upstream: seq<Utxo>, pending: seq<Utxo>)
    requires NoneListed(upstream, pending)
    ensures Unlisted(upstream, pending) == pending
  {
    if pending != [] {
      UnlistedAll(upstream, pending[1..]);
    }
  }

  lemma CountCons<T>(x: T, s: seq<T>, y: T)
    ensures multiset([x] + s)[y] == multiset(s)[y] + (if x == y then 1 else 0)
  {
  }

  /** Upstream lists a coin with the same transaction and index, whatever value it gives. */
  ghost predicate HasOutpoint(upstream: seq<Utxo>, txid: string, index: nat) {
    exists u | u in upstream :: u.txid == txid && u.index == index
  }

  lemma ListedExactly(upstream: seq<Utxo>, u: Utxo)
    ensures Listed(upstream, u) <==> HasOutpoint(upstream, u.txid, u.index)
  {
    if HasOutpoint(upstream, u.txid, u.index) {
      var v :| v in upstream && v.txid == u.txid && v.index == u.index;
      var i :| 0 <= i < |upstream| && upstream[i] == v;
      assert Listed(upstream, u);
    }
  }

  lemma {:induction false} UnlistedCount(upstream: seq<Utxo>, pending: seq<Utxo>, u: Utxo)
    ensures multiset(Unlisted(upstream, pending))[u]
         == if HasOutpoint(upstream, u.txid, u.index) then 0 else multiset(pending)[u]
  {
    if pending != [] {
      UnlistedCount(upstream, pending[1..], u);
      ListedExactly(upstream, pending[0]);
      CountCons(pending[0], pending[1..], u);
      CountCons(pending[0], Unlisted(upstream, pending[1..]), u);
      assert [pending[0]] + pending[1..] == pending;
      if Listed(upstream, pending[0]) {
        assert Unlisted(upstream, pending) == Unlisted(upstream, pending[1..]);
      }
    }
  }

  /** Shown are the coins upstream lists, first and unchanged, and then exactly the pending ones whose outpoint
      it does not list: a coin upstream already knows is not offered a second time. */
  lemma ShownExactly(upstream: seq<Utxo>, pending: seq<Utxo>, u: Utxo)
    ensures upstream <= InjectUnspent(upstream, pending)
    ensures multiset(InjectUnspent(upstream, pending))[u]
         == multiset(upstream)[u] + (if HasOutpoint(upstream, u.txid, u.index) then 0 else multiset(pending)[u])
  {
    UnlistedCount(upstream, pending, u);
  }

  lemma {:induction false} OutputsToExactly(txid: string, outputs: seq<Output>, sh: string, u: Utxo)
    ensures u in OutputsTo(txid, outputs, sh)
            <==> u.txid == txid && Output(u.index, u.value, sh) in outputs
  {
    if outputs != [] {
      OutputsToExactly(txid, outputs[1..], sh, u);
      assert outputs == [outputs[0]] + outputs[1..];
    }
  }

  /** The pending coins of a scripthash are exactly the outputs to it of the held transactions. */
  lemma {:induction false} CoinsExactly(pending: Pending, order: seq<string>, sh: string, u: Utxo)
    requires forall t | t in order :: t in pending
    ensures u in UtxosFor(pending, order, sh)
            <==> u.txid in order && Output(u.index, u.value, sh) in pending[u.txid].outputs
  {
    if order != [] {
      CoinsExactly(pending, order[1..], sh, u);
      OutputsToExactly(order[0], pending[order[0]].outputs, sh, u);
      assert order == [order[0]] + order[1..];
    }
  }

  /** `inject_balance_unconfirmed` on the two numbers of a balance. */
  function InjectBalance(balance: (int, int), extra: nat): (int, int) {
    if extra == 0 then balance else (balance.0, balance.1 + extra)
  }

  /** The coins and the balance shown for a scripthash grow by the same amount when upstream lists
      none of the pending outpoints. */
  lemma UnspentAndBalanceAgree(pending: Pending, order: seq<string>, sh: string, upstream: seq<Utxo>,
                               balance: (int, int))
    requires forall t | t in order :: t in pending
    requires NoneListed(upstream, UtxosFor(pending, order, sh))
    ensures var shown := InjectUnspent(upstream, UtxosFor(pending, order, sh));
            var delta := UnconfirmedFor(pending, order, sh);
            && Sum(Values(shown)) == Sum(Values(upstream)) + delta
            && InjectBalance(balance, delta) == (balance.0, balance.1 + delta)
  {
    var us := UtxosFor(pending, order, sh);
    UnlistedAll(upstream, us);
    ValuesAppend(upstream, us);
    BalanceIsSumOfUtxos(pending, order, sh);
  }

  // ----- Nothing is counted twice or lost across scripthashes -----

  function TotalValue(outputs: seq<Output>): nat {
    if outputs == [] then 0 else outputs[0].value + TotalValue(outputs[1..])
  }

  function TotalHeld(pending: Pending, order: seq<string>): nat
    requires forall t | t in order :: t in pending
  {
    if order == [] then 0 else TotalValue(pending[order[0]].outputs) + TotalHeld(pending, order[1..])
  }

  function ValueOver(outputs: seq<Output>, shs: seq<string>): nat {
    if shs == [] then 0 else ValueTo(outputs, shs[0]) + ValueOver(outputs, shs[1..])
  }

  function UnconfirmedOver(pending: Pending, order: seq<string>, shs: seq<string>): nat
    requires forall t | t in order :: t in pending
  {
    if shs == [] then 0 else UnconfirmedFor(pending, order, shs[0]) + UnconfirmedOver(pending, order, shs[1..])
  }

  function Share(o: Output, shs: seq<string>): nat {
    if shs == [] then 0 else (if o.scripthash == shs[0] then o.value else 0) + Share(o, shs[1..])
  }

  lemma {:induction false} ShareIsWhole(o: Output, shs: seq<string>)
    requires Distinct(shs)
    ensures Share(o, shs) == if o.scripthash in shs then o.value else 0
  {
    if shs != [] {
      ShareIsWhole(o, shs[1..]);
    }
  }

  lemma {:induction false} ValueOverCons(outputs: seq<Output>, shs: seq<string>)
    requires outputs != []
    ensures ValueOver(outputs, shs) == Share(outputs[0], shs) + ValueOver(outputs[1..], shs)
  {
    if shs != [] {
      ValueOverCons(outputs, shs[1..]);
    }
  }

  lemma {:induction false} ValueOverNone(shs: seq<string>)
    ensures ValueOver([], shs) == 0
  {
    if shs != [] { ValueOverNone(shs[1..]); }
  }

  lemma {:induction false} ValueOverIsTotal(outputs: seq<Output>, shs: seq<string>)
    requires Distinct(shs) && forall i | 0 <= i < |outputs| :: outputs[i].scripthash in shs
    ensures ValueOver(outputs, shs) == TotalValue(outputs)
  {
    if outputs == [] {
      ValueOverNone(shs);
    } else {
      ValueOverCons(outputs, shs);
      ShareIsWhole(outputs[0], shs);
      ValueOverIsTotal(outputs[1..], shs);
    }
  }

  lemma {:induction false} UnconfirmedOverCons(pending: Pending, order: seq<string>, shs: seq<string>)
    requires order != [] && forall t | t in order :: t in pending
    ensures UnconfirmedOver(pending, order, shs)
         == ValueOver(pending[order[0]].outputs, shs) + UnconfirmedOver(pending, order[1..], shs)
  {
    if shs != [] {
      UnconfirmedOverCons(pending, order, shs[1..]);
    }
  }

  lemma {:induction false} UnconfirmedOverNone(pending: Pending, shs: seq<string>)
    ensures UnconfirmedOver(pending, [], shs) == 0
  {
    if shs != [] { UnconfirmedOverNone(pending, shs[1..]); }
  }

  /** Summed over all scripthashes the unconfirmed balances are exactly the output value held. */
  lemma {:induction false} BalancesAddUpToValueHeld(pending: Pending, order: seq<string>, shs: seq<string>)
    requires Distinct(shs) && forall t | t in order :: t in pending
    requires forall t, i | t in pending && 0 <= i < |pending[t].outputs| :: pending[t].outputs[i].scripthash in shs
    ensures UnconfirmedOver(pending, order, shs) == TotalHeld(pending, order)
  {
    if order == [] {
      UnconfirmedOverNone(pending, shs);
    } else {
      UnconfirmedOverCons(pending, order, shs);
      ValueOverIsTotal(pending[order[0]].outputs, shs);
      BalancesAddUpToValueHeld(pending, order[1..], shs);
    }
  }

  // ----- The map itself -----

  class PendingMap {
    var pending: Pending
    var notifications: seq<string>   // everything sent on the scripthash channel so far

    constructor ()
      ensures pending == map[] && notifications == []
    {
      pending, notifications := map[], [];
    }

    method Notify(shs: seq<string>)
      modifies this`notifications
      ensures notifications == old(notifications) + shs
    {
      var i := 0;
      while i < |shs|
        invariant 0 <= i <= |shs| && notifications == old(notifications) + shs[..i]
      {
        assert shs[..i + 1] == shs[..i] + [shs[i]];
        notifications := notifications + [shs[i]];
        i := i + 1;
      }
      assert shs[..i] == shs;
    }

    method StorePendingTx(txid: string, tx: PendingTx)
      modifies this
      ensures pending == Apply(old(pending), Store(txid, tx))
      ensures notifications == old(notifications) + Notified(old(pending), Store(txid, tx))
    {
      pending := pending[txid := tx];
      Notify(tx.scripthashes);
    }

    method MergePendingScripthashes(txid: string, extra: seq<string>)
      modifies this
      ensures pending == Apply(old(pending), Merge(txid, extra))
      ensures notifications == old(notifications) + Notified(old(pending), Merge(txid, extra))
    {
      if txid !in pending {
        return;
      }
      var info := pending[txid];
      var known := info.scripthashes;
      var added: seq<string> := [];
      var i := 0;
      assert extra[0..] == extra && [] + Added(known, extra) == Added(known, extra);
      while i < |extra|
        invariant 0 <= i <= |extra|
        invariant Merged(known, extra[i..]) == Merged(info.scripthashes, extra)
        invariant added + Added(known, extra[i..]) == Added(info.scripthashes, extra)
      {
        assert extra[i..][1..] == extra[i + 1..];
        if extra[i] !in known {
          assert added + ([extra[i]] + Added(known + [extra[i]], extra[i + 1..]))
              == (added + [extra[i]]) + Added(known + [extra[i]], extra[i + 1..]);
          known := known + [extra[i]];
          added := added + [extra[i]];
        }
        i := i + 1;
      }
      assert added + [] == added;
      pending := pending[txid := info.(scripthashes := known)];
      Notify(added);
    }

    method RemovePendingTx(txid: string) returns (removed: seq<string>)
      modifies this
      ensures pending == Apply(old(pending), Remove(txid))
      ensures notifications == old(notifications) + Notified(old(pending), Remove(txid))
      ensures removed == Notified(old(pending), Remove(txid))
    {
      if txid !in pending {
        return [];
      }
      removed := pending[txid].scripthashes;
      pending := pending - {txid};
      Notify(removed);
    }

    /** The map is walked in an order of its own. */
    method GetPendingTxidsForScripthash(order: seq<string>, sh: string) returns (txids: seq<string>)
      requires Lists(order, pending)
      ensures Distinct(txids) && Elements(txids) == Answer(pending, sh)
    {
      txids := [];
      var i := 0;
      while i < |order|
        invariant 0 <= i <= |order| && Distinct(txids)
        invariant forall t :: t in txids <==> t in order[..i] && Touches(pending, t, sh)
      {
        assert order[..i + 1] == order[..i] + [order[i]];
        assert order[i] !in order[..i];
        if sh in pending[order[i]].scripthashes {
          txids := txids + [order[i]];
        }
        i := i + 1;
      }
      assert order[..i] == order;
    }

    method OutputsOf(txid: string, sh: string) returns (utxos: seq<Utxo>)
      requires txid in pending
      ensures utxos == OutputsTo(txid, pending[txid].outputs, sh)
    {
      utxos := [];
      var outputs := pending[txid].outputs;
      ghost var all := OutputsTo(txid, outputs, sh);
      var j := 0;
      assert outputs[0..] == outputs && [] + all == all;
      while j < |outputs|
        invariant 0 <= j <= |outputs|
        invariant utxos + OutputsTo(txid, outputs[j..], sh) == all
      {
        assert outputs[j..][1..] == outputs[j + 1..];
        if outputs[j].scripthash == sh {
          var u := Utxo(txid, outputs[j].index, outputs[j].value);
          assert utxos + ([u] + OutputsTo(txid, outputs[j + 1..], sh))
              == (utxos + [u]) + OutputsTo(txid, outputs[j + 1..], sh);
          utxos := utxos + [u];
        }
        j := j + 1;
      }
      assert utxos + [] == utxos;
    }

    method GetPendingUtxosForScripthash(order: seq<string>, sh: string) returns (utxos: seq<Utxo>)
      requires Lists(order, pending)
      ensures utxos == UtxosFor(pending, order, sh)
    {
      utxos := [];
      var i := 0;
      ghost var all := UtxosFor(pending, order, sh);
      assert order[0..] == order && [] + all == all;
      while i < |order|
        invariant 0 <= i <= |order|
        invariant utxos + UtxosFor(pending, order[i..], sh) == all
      {
        var one := OutputsOf(order[i], sh);
        assert order[i..][1..] == order[i + 1..];
        assert utxos + (one + UtxosFor(pending, order[i + 1..], sh))
            == (utxos + one) + UtxosFor(pending, order[i + 1..], sh);
        utxos := utxos + one;
        i := i + 1;
      }
      assert utxos + [] == utxos;
    }

    method GetPendingUnconfirmedValue(order: seq<string>, sh: string) returns (total: nat)
      requires Lists(order, pending)
      ensures total == UnconfirmedFor(pending, order, sh)
    {
      total := 0;
      var i := 0;
      assert order[0..] == order;
      while i < |order|
        invariant 0 <= i <= |order|
        invariant total + UnconfirmedFor(pending, order[i..], sh) == UnconfirmedFor(pending, order, sh)
      {
        var outputs := pending[order[i]].outputs;
        ghost var before := total;
        assert order[i..][1..] == order[i + 1..];
        var j := 0;
        assert outputs[0..] == outputs;
        while j < |outputs|
          invariant 0 <= j <= |outputs|
          invariant total + ValueTo(outputs[j..], sh) == before + ValueTo(outputs, sh)
        {
          assert outputs[j..][1..] == outputs[j + 1..];
          if outputs[j].scripthash == sh {
            total := total + outputs[j].value;
          }
          j := j + 1;
        }
        i := i + 1;
      }
    }
  }

  // ----- Extraction in one pass and in two -----

  datatype OutPoint = OutPoint(txid: string, vout: nat)
  datatype DecodedTx = DecodedTx(inputs: seq<OutPoint>, outputScripthashes: seq<string>)

  /** Finds the transaction an input spends, in the pool or upstream. */
  type Resolver = string -> Option<DecodedTx>

  function SpentScripthash(o: OutPoint, resolve: Resolver): Option<string> {
    var prev := resolve(o.txid);
    if prev.Some? && o.vout < |prev.value.outputScripthashes|
    then Some(prev.value.outputScripthashes[o.vout]) else None
  }

  /** Scripthashes spent by the first `n` inputs, those looked at before the deadline. */
  function SpentBy(inputs: seq<OutPoint>, n: nat, resolve: Resolver): set<string>
    requires n <= |inputs|
  {
    set i | 0 <= i < n && SpentScripthash(inputs[i], resolve).Some? :: SpentScripthash(inputs[i], resolve).value
  }

  /** `extract_affected_scripthashes_timed_with_lookup`. */
  method ExtractAffected(tx: DecodedTx, n: nat, resolve: Resolver) returns (shs: set<string>)
    requires n <= |tx.inputs|
    ensures shs == Elements(tx.outputScripthashes) + SpentBy(tx.inputs, n, resolve)
  {
    shs := Elements(tx.outputScripthashes);
    var i := 0;
    while i < n
      invariant 0 <= i <= n
      invariant shs == Elements(tx.outputScripthashes) + SpentBy(tx.inputs, i, resolve)
    {
      var prev := resolve(tx.inputs[i].txid);
      if prev.Some? {
        if tx.inputs[i].vout < |prev.value.outputScripthashes| {
          shs := shs + {prev.value.outputScripthashes[tx.inputs[i].vout]};
        }
      }
      i := i + 1;
    }
  }

  /** `enrich_input_scripthashes`: what the inputs add to the outputs, each once. */
  method EnrichInputs(tx: DecodedTx, n: nat, resolve: Resolver) returns (inputShs: seq<string>)
    requires n <= |tx.inputs|
    ensures Distinct(inputShs)
    ensures Elements(inputShs) == SpentBy(tx.inputs, n, resolve) - Elements(tx.outputScripthashes)
  {
    var outputs := Elements(tx.outputScripthashes);
    inputShs := [];
    var i := 0;
    while i < n
      invariant 0 <= i <= n && Distinct(inputShs)
      invariant Elements(inputShs) == SpentBy(tx.inputs, i, resolve) - outputs
    {
      ghost var before := inputShs;
      var prev := resolve(tx.inputs[i].txid);
      if prev.Some? {
        if tx.inputs[i].vout < |prev.value.outputScripthashes| {
          var sh := prev.value.outputScripthashes[tx.inputs[i].vout];
          if sh !in outputs && sh !in inputShs {
            inputShs := inputShs + [sh];
            assert Elements(inputShs) == Elements(before) + {sh};
          }
          assert sh in inputShs ==> sh in Elements(inputShs);
        }
      }
      i := i + 1;
    }
  }

  /** Storing the outputs first and merging the enriched inputs later ends with exactly the set of
      the one-pass extraction, without duplicates, however the output set was listed. */
  lemma TwoPhaseEqualsOnePass(tx: DecodedTx, n: nat, resolve: Resolver, stored: seq<string>, enriched: seq<string>)
    requires n <= |tx.inputs|
    requires Distinct(stored) && Elements(stored) == Elements(tx.outputScripthashes)
    requires Elements(enriched) == SpentBy(tx.inputs, n, resolve) - Elements(tx.outputScripthashes)
    ensures Distinct(Merged(stored, enriched))
    ensures Elements(Merged(stored, enriched)) == Elements(tx.outputScripthashes) + SpentBy(tx.inputs, n, resolve)
  {
    MergedFacts(stored, enriched);
  }

  method TwoPhase(tx: DecodedTx, n: nat, resolve: Resolver, stored: seq<string>) returns (final: seq<string>)
    requires n <= |tx.inputs|
    requires Distinct(stored) && Elements(stored) == Elements(tx.outputScripthashes)
    ensures Distinct(final)
    ensures Elements(final) == Elements(tx.outputScripthashes) + SpentBy(tx.inputs, n, resolve)
  {
    var enriched := EnrichInputs(tx, n, resolve);
    TwoPhaseEqualsOnePass(tx, n, resolve, stored, enriched);
    final := Merged(stored, enriched);
  }
}
