/** Histories shown to wallets: injection of held transactions and the status text of
    `compute_status_hash`. */
module VirtualMempool {
  import opened Prelude

  /** An element of a `get_history` answer; a field may be absent. */
  datatype Item = Item(txHash: Option<string>, height: Option<int>)

  datatype Key = Key(height: int, txHash: string)

  function KeyOf(e: Item): Key {
    Key(e.height.GetOr(0), e.txHash.GetOr(""))
  }

  function Keys(history: seq<Item>): seq<Key> {
    seq(|history|, i requires 0 <= i < |history| => KeyOf(history[i]))
  }

  // ----- The order (height, tx_hash) -----

  predicate TextLe(a: string, b: string) {
    a == "" || (b != "" && (a[0] < b[0] || (a[0] == b[0] && TextLe(a[1..], b[1..]))))
  }

  predicate KeyLe(a: Key, b: Key) {
    a.height < b.height || (a.height == b.height && TextLe(a.txHash, b.txHash))
  }

  lemma {:induction false} TextLeTotal(a: string, b: string)
    ensures TextLe(a, b) || TextLe(b, a)
    ensures TextLe(a, b) && TextLe(b, a) ==> a == b
  {
    if a != "" && b != "" && a[0] == b[0] {
      TextLeTotal(a[1..], b[1..]);
      assert a == [a[0]] + a[1..] && b == [b[0]] + b[1..];
    }
  }

  lemma {:induction false} TextLeTransitive(a: string, b: string, c: string)
    requires TextLe(a, b) && TextLe(b, c)
    ensures TextLe(a, c)
  {
    if a != "" && a[0] == b[0] && b[0] == c[0] {
      TextLeTransitive(a[1..], b[1..], c[1..]);
    }
  }

  ghost predicate Ascending(ks: seq<Key>) {
    |ks| <= 1 || (KeyLe(ks[0], ks[1]) && Ascending(ks[1..]))
  }

  function InsertKey(k: Key, ks: seq<Key>): seq<Key> {
    if ks == [] || KeyLe(k, ks[0]) then [k] + ks else [ks[0]] + InsertKey(k, ks[1..])
  }

  function SortKeys(ks: seq<Key>): seq<Key> {
    if ks == [] then [] else InsertKey(ks[0], SortKeys(ks[1..]))
  }

  lemma {:induction false} InsertKeyElements(k: Key, ks: seq<Key>)
    ensures multiset(InsertKey(k, ks)) == multiset(ks) + multiset{k}
  {
    if ks != [] && !KeyLe(k, ks[0]) {
      InsertKeyElements(k, ks[1..]);
      assert ks == [ks[0]] + ks[1..];
    }
  }

  lemma {:induction false} InsertKeyAscending(k: Key, ks: seq<Key>)
    requires Ascending(ks)
    ensures Ascending(InsertKey(k, ks))
    ensures InsertKey(k, ks)[0] == k || (ks != [] && InsertKey(k, ks)[0] == ks[0])
  {
    if ks != [] && !KeyLe(k, ks[0]) {
      TextLeTotal(k.txHash, ks[0].txHash);
      InsertKeyAscending(k, ks[1..]);
      assert ([ks[0]] + InsertKey(k, ks[1..]))[1..] == InsertKey(k, ks[1..]);
    } else {
      assert ([k] + ks)[1..] == ks;
    }
  }

  lemma {:induction false} SortKeysFacts(ks: seq<Key>)
    ensures Ascending(SortKeys(ks)) && multiset(SortKeys(ks)) == multiset(ks)
  {
    if ks != [] {
      SortKeysFacts(ks[1..]);
      InsertKeyAscending(ks[0], SortKeys(ks[1..]));
      InsertKeyElements(ks[0], SortKeys(ks[1..]));
      assert SortKeys(ks) == InsertKey(ks[0], SortKeys(ks[1..]));
      assert multiset([ks[0]] + ks[1..]) == multiset(ks) by {
        assert ks == [ks[0]] + ks[1..];
      }
    }
  }

  lemma {:induction false} HeadIsLeast(ks: seq<Key>, k: Key)
    requires Ascending(ks) && k in ks
    ensures KeyLe(ks[0], k)
  {
    if k == ks[0] {
      TextLeTotal(k.txHash, k.txHash);
    } else {
      assert k in ks[1..];
      HeadIsLeast(ks[1..], k);
      if ks[0].height == ks[1].height == k.height {
        TextLeTransitive(ks[0].txHash, ks[1].txHash, k.txHash);
      }
    }
  }

  lemma HeadAndRest<T>(s: seq<T>)
    requires s != []
    ensures s == [s[0]] + s[1..] && multiset(s) == multiset{s[0]} + multiset(s[1..]) && s[0] in multiset(s)
  {
    assert s == [s[0]] + s[1..];
  }

  /** There is one ascending arrangement of a multiset of keys. */
  lemma {:induction false} AscendingIsUnique(a: seq<Key>, b: seq<Key>)
    requires Ascending(a) && Ascending(b) && multiset(a) == multiset(b)
    ensures a == b
  {
    assert |multiset(a)| == |a| && |multiset(b)| == |b|;
    if a != [] {
      HeadAndRest(a);
      HeadAndRest(b);
      assert a[0] in b && b[0] in a;
      HeadIsLeast(a, b[0]);
      HeadIsLeast(b, a[0]);
      TextLeTotal(a[0].txHash, b[0].txHash);
      assert a[0] == b[0];
      assert multiset(a[1..]) == multiset(a) - multiset{a[0]};
      assert multiset(b[1..]) == multiset(b) - multiset{b[0]};
      AscendingIsUnique(a[1..], b[1..]);
    }
  }

  // ----- The text that is hashed -----

  function Entry(k: Key): string {
    k.txHash + [':'] + (IntText(k.height) + [':'])
  }

  function Render(ks: seq<Key>): string {
    if ks == [] then "" else Entry(ks[0]) + Render(ks[1..])
  }

  /** None is the null status of an empty history. */
  function StatusText(history: seq<Item>): Option<string> {
    if history == [] then None else Some(Render(SortKeys(Keys(history))))
  }

  lemma RenderOne(status: string, ks: seq<Key>, i: nat)
    requires i < |ks|
    ensures status + Render(ks[i..]) == (status + Entry(ks[i])) + Render(ks[i + 1..])
  {
    assert ks[i..][0] == ks[i] && ks[i..][1..] == ks[i + 1..];
    assert Render(ks[i..]) == Entry(ks[i]) + Render(ks[i + 1..]);
  }

  method ComputeStatusText(history: seq<Item>) returns (text: Option<string>)
    ensures text == StatusText(history)
  {
    if history == [] {
      return None;
    }
    var sorted := SortKeys(Keys(history));  // `sort_by` of the standard library
    var status := "";
    var i := 0;
    ghost var whole := Render(sorted);
    assert sorted[0..] == sorted && "" + whole == whole;
    while i < |sorted|
      invariant 0 <= i <= |sorted|
      invariant status + Render(sorted[i..]) == whole
    {
      RenderOne(status, sorted, i);
      status := status + Entry(sorted[i]);
      i := i + 1;
    }
    assert status + "" == status;
    return Some(status);
  }

  /** Written out: transaction id, height and two colons for each entry, in the order given. */
  function Spelled(history: seq<Item>): string {
    if history == [] then ""
    else
      var id := if history[0].txHash.Some? then history[0].txHash.value else "";
      var height := if history[0].height.Some? then history[0].height.value else 0;
      id + ":" + IntText(height) + ":" + Spelled(history[1..])
  }

  /** `a` comes before `b` in the dictionary, or is the same. */
  ghost predicate Precedes(a: string, b: string) {
    || a <= b
    || exists i | 0 <= i < |a| && i < |b| :: a[..i] == b[..i] && a[i] < b[i]
  }

  lemma {:induction false} TextLeExactly(a: string, b: string)
    ensures TextLe(a, b) <==> Precedes(a, b)
  {
    if a != "" && b != "" && a[0] == b[0] {
      TextLeExactly(a[1..], b[1..]);
      assert a == [a[0]] + a[1..] && b == [b[0]] + b[1..];
      if i :| 0 <= i < |a| && i < |b| && a[..i] == b[..i] && a[i] < b[i] {
        assert i > 0 && a[1..][..i - 1] == a[..i][1..] && b[1..][..i - 1] == b[..i][1..];
        assert a[1..][i - 1] < b[1..][i - 1];
      }
      if i :| 0 <= i < |a[1..]| && i < |b[1..]| && a[1..][..i] == b[1..][..i] && a[1..][i] < b[1..][i] {
        assert a[..i + 1] == [a[0]] + a[1..][..i] && b[..i + 1] == [b[0]] + b[1..][..i];
        assert a[i + 1] < b[i + 1];
      }
    } else if a != "" && b != "" && a[0] < b[0] {
      assert a[..0] == b[..0] && a[0] < b[0];
    } else if a != "" && b != "" {
      assert forall i | 0 < i < |a| && i < |b| :: a[..i][0] != b[..i][0];
    }
  }

  /** By height, and within a height by transaction id. */
  ghost predicate InOrder(history: seq<Item>) {
    forall i | 0 < i < |history| ::
      var a, b := KeyOf(history[i - 1]), KeyOf(history[i]);
      a.height < b.height || (a.height == b.height && Precedes(a.txHash, b.txHash))
  }

  lemma {:induction false} InOrderAscends(history: seq<Item>)
    requires InOrder(history)
    ensures Ascending(Keys(history)) && Render(Keys(history)) == Spelled(history)
  {
    if history != [] {
      var rest := history[1..];
      assert forall i | 0 < i < |rest| :: rest[i - 1] == history[i] && rest[i] == history[i + 1];
      InOrderAscends(rest);
      assert Keys(history)[1..] == Keys(rest);
      if |history| > 1 {
        TextLeExactly(KeyOf(history[0]).txHash, KeyOf(history[1]).txHash);
      }
      assert Entry(KeyOf(history[0])) == KeyOf(history[0]).txHash + ":" + IntText(KeyOf(history[0]).height) + ":";
    }
  }

  /** The text itself: a history in any order gives the written form of its ordered arrangement. */
  lemma StatusIsSpelledInOrder(history: seq<Item>, ordered: seq<Item>)
    requires history != [] && multiset(Keys(history)) == multiset(Keys(ordered)) && InOrder(ordered)
    ensures StatusText(history) == Some(Spelled(ordered))
  {
    SortKeysFacts(Keys(history));
    InOrderAscends(ordered);
    AscendingIsUnique(SortKeys(Keys(history)), Keys(ordered));
  }

  ghost predicate ColonFree(ks: seq<Key>) {
    forall i | 0 <= i < |ks| :: Lacks(ks[i].txHash, ':')
  }

  lemma IntTextLacksColon(n: int)
    ensures Lacks(IntText(n), ':')
  {
    IntTextAlphabet(n);
  }

  /** An entry can be read off the front of the text. */
  lemma EntryReadsBack(a: Key, b: Key, rest: string, rest': string)
    requires Lacks(a.txHash, ':') && Lacks(b.txHash, ':')
    requires Entry(a) + rest == Entry(b) + rest'
    ensures a == b && rest == rest'
  {
    var ha, hb := IntText(a.height), IntText(b.height);
    assert Entry(a) + rest == a.txHash + [':'] + (ha + [':'] + rest);
    assert Entry(b) + rest' == b.txHash + [':'] + (hb + [':'] + rest');
    SplitAtFirst(':', a.txHash, b.txHash, ha + [':'] + rest, hb + [':'] + rest');
    IntTextLacksColon(a.height);
    IntTextLacksColon(b.height);
    SplitAtFirst(':', ha, hb, rest, rest');
    IntTextInjective(a.height, b.height);
  }

  lemma {:induction false} RenderInjective(a: seq<Key>, b: seq<Key>)
    requires ColonFree(a) && ColonFree(b) && Render(a) == Render(b)
    ensures a == b
  {
    if a == [] {
    } else if b == [] {
    } else {
      EntryReadsBack(a[0], b[0], Render(a[1..]), Render(b[1..]));
      RenderInjective(a[1..], b[1..]);
      assert a == [a[0]] + a[1..] && b == [b[0]] + b[1..];
    }
  }

  ghost predicate CleanHistory(history: seq<Item>) {
    ColonFree(Keys(history))
  }

  /** Main result: the text before hashing is a canonical form. Two histories share it exactly when
      they hold the same (tx_hash, height) pairs, each equally often. */
  lemma StatusIsCanonical(h: seq<Item>, g: seq<Item>)
    requires CleanHistory(h) && CleanHistory(g)
    ensures StatusText(h) == StatusText(g) <==> multiset(Keys(h)) == multiset(Keys(g))
  {
    SortKeysFacts(Keys(h));
    SortKeysFacts(Keys(g));
    assert |multiset(Keys(h))| == |h| && |multiset(Keys(g))| == |g|;
    if multiset(Keys(h)) == multiset(Keys(g)) {
      AscendingIsUnique(SortKeys(Keys(h)), SortKeys(Keys(g)));
    } else if StatusText(h) == StatusText(g) && h != [] {
      SortedColonFree(Keys(h));
      SortedColonFree(Keys(g));
      RenderInjective(SortKeys(Keys(h)), SortKeys(Keys(g)));
      assert false;
    }
  }

  lemma SortedColonFree(ks: seq<Key>)
    requires ColonFree(ks)
    ensures ColonFree(SortKeys(ks))
  {
    SortKeysFacts(ks);
    var r := SortKeys(ks);
    forall i | 0 <= i < |r| ensures Lacks(r[i].txHash, ':') {
      assert r[i] in multiset(ks);
    }
  }

  // ----- Injection of held transactions -----

  function Existing(history: seq<Item>): set<string> {
    set i | 0 <= i < |history| && history[i].txHash.Some? :: history[i].txHash.value
  }

  function Injected(existing: set<string>, pending: seq<string>): seq<Item> {
    if pending == [] then []
    else
      (if pending[0] in existing then [] else [Item(Some(pending[0]), Some(0))]) + Injected(existing, pending[1..])
  }

  function InjectInHistory(history: seq<Item>, pending: seq<string>): seq<Item> {
    history + Injected(Existing(history), pending)
  }

  method InjectHistory(history: seq<Item>, pending: seq<string>) returns (result: seq<Item>)
    ensures result == InjectInHistory(history, pending)
  {
    var existing := Existing(history);
    result := history;
    var i := 0;
    assert pending[0..] == pending;
    while i < |pending|
      invariant 0 <= i <= |pending|
      invariant result + Injected(existing, pending[i..]) == InjectInHistory(history, pending)
    {
      assert pending[i..][1..] == pending[i + 1..];
      if pending[i] !in existing {
        var item := Item(Some(pending[i]), Some(0));
        assert result + ([item] + Injected(existing, pending[i + 1..]))
            == (result + [item]) + Injected(existing, pending[i + 1..]);
        result := result + [item];
      }
      i := i + 1;
    }
    assert result + [] == result;
  }

  lemma KeysAppend(a: seq<Item>, b: seq<Item>)
    ensures Keys(a + b) == Keys(a) + Keys(b)
  {
  }

  /** How often a held transaction shows up at height 0. */
  lemma InjectedListed(existing: set<string>, pending: seq<string>)
    requires pending != [] && pending[0] in existing
    ensures Injected(existing, pending) == Injected(existing, pending[1..])
  {
  }

  lemma InjectedNew(existing: set<string>, pending: seq<string>)
    requires pending != [] && pending[0] !in existing
    ensures Keys(Injected(existing, pending)) == [Key(0, pending[0])] + Keys(Injected(existing, pending[1..]))
  {
    var rest := Injected(existing, pending[1..]);
    var all := Injected(existing, pending);
    assert all == [Item(Some(pending[0]), Some(0))] + rest;
    assert |Keys(all)| == |Keys(rest)| + 1;
    forall i | 0 <= i < |all| ensures Keys(all)[i] == ([Key(0, pending[0])] + Keys(rest))[i] {
      if i > 0 { assert all[i] == rest[i - 1]; }
    }
  }

  lemma CountCons<T>(x: T, s: seq<T>, y: T)
    ensures multiset([x] + s)[y] == multiset(s)[y] + (if x == y then 1 else 0)
  {
  }

  lemma {:induction false} InjectedCount(existing: set<string>, pending: seq<string>, k: Key)
    ensures multiset(Keys(Injected(existing, pending)))[k]
         == if k.height == 0 && k.txHash !in existing then multiset(pending)[k.txHash] else 0
  {
    if pending != [] {
      var rest := Keys(Injected(existing, pending[1..]));
      InjectedCount(existing, pending[1..], k);
      CountCons(pending[0], pending[1..], k.txHash);
      assert [pending[0]] + pending[1..] == pending;
      if pending[0] in existing {
        InjectedListed(existing, pending);
        assert pending[0] == k.txHash ==> k.txHash in existing;
      } else {
        InjectedNew(existing, pending);
        CountCons(Key(0, pending[0]), rest, k);
      }
    }
  }

  lemma InjectionKeys(history: seq<Item>, pending: seq<string>, k: Key)
    ensures multiset(Keys(InjectInHistory(history, pending)))[k]
         == multiset(Keys(history))[k]
            + if k.height == 0 && k.txHash !in Existing(history) then multiset(pending)[k.txHash] else 0
  {
    KeysAppend(history, Injected(Existing(history), pending));
    InjectedCount(Existing(history), pending, k);
  }

  lemma InjectionClean(history: seq<Item>, pending: seq<string>)
    requires CleanHistory(history) && forall i | 0 <= i < |pending| :: Lacks(pending[i], ':')
    ensures CleanHistory(InjectInHistory(history, pending))
  {
    var ks := Keys(InjectInHistory(history, pending));
    forall i | 0 <= i < |ks| ensures Lacks(ks[i].txHash, ':') {
      InjectionKeys(history, pending, ks[i]);
      assert multiset(ks)[ks[i]] > 0;
      if ks[i] in multiset(Keys(history)) {
        assert ks[i] in Keys(history);
      } else {
        assert ks[i].txHash in multiset(pending);
      }
    }
  }

  // ----- The two statuses of a scripthash -----

  /** Pushed on a notification, with the history fetched for it. */
  function PushedStatus(history: seq<Item>, pending: seq<string>): Option<string> {
    StatusText(InjectInHistory(history, pending))
  }

  /** Given to a subscriber, and put into notices on their way to it, as long as the pool holds anything for
      the scripthash: no history is fetched. */
  function SubscribeStatus(pending: seq<string>): Option<string> {
    PushedStatus([], pending)
  }

  /** Upstream lists nothing but what the pool holds, unconfirmed, and each as often as the pool holds it. */
  ghost predicate ListsOnlyHeld(h: seq<Item>, p: seq<string>) {
    forall i | 0 <= i < |h| ::
      && Keys(h)[i].height == 0 && Keys(h)[i].txHash in Existing(h)
      && multiset(Keys(h))[Keys(h)[i]] == multiset(p)[Keys(h)[i].txHash]
  }

  /** The counts of one key in the two statuses differ by what the history adds. */
  lemma CountsAgree(h: seq<Item>, p: seq<string>, k: Key)
    requires ListsOnlyHeld(h, p)
    ensures multiset(Keys(InjectInHistory(h, p)))[k] == multiset(Keys(InjectInHistory([], p)))[k]
  {
    InjectionKeys(h, p, k);
    InjectionKeys([], p, k);
    if k in multiset(Keys(h)) {
      var i :| 0 <= i < |Keys(h)| && Keys(h)[i] == k;
      assert multiset(Keys(h))[Keys(h)[i]] == multiset(p)[Keys(h)[i].txHash];
    } else if k.txHash in Existing(h) {
      var i :| 0 <= i < |h| && h[i].txHash.Some? && h[i].txHash.value == k.txHash;
      assert Keys(h)[i].height == 0 && Keys(h)[i].txHash == k.txHash;
      assert Keys(h)[i] in multiset(Keys(h));
    }
  }

  /** While the pool holds something, a push and a subscription agree exactly if upstream lists nothing but
      held transactions, unconfirmed: any confirmed transaction of the scripthash makes them differ, since
      only the push shows it. */
  lemma PushAgreesWithSubscription(h: seq<Item>, p: seq<string>)
    requires CleanHistory(h) && p != [] && forall i | 0 <= i < |p| :: Lacks(p[i], ':')
    ensures PushedStatus(h, p) == SubscribeStatus(p) <==> ListsOnlyHeld(h, p)
  {
    var a, b := InjectInHistory(h, p), InjectInHistory([], p);
    InjectionClean(h, p);
    InjectionClean([], p);
    StatusIsCanonical(a, b);
    if multiset(Keys(a)) == multiset(Keys(b)) {
      forall i | 0 <= i < |h|
        ensures Keys(h)[i].height == 0 && Keys(h)[i].txHash in Existing(h)
        ensures multiset(Keys(h))[Keys(h)[i]] == multiset(p)[Keys(h)[i].txHash]
      {
        InjectionKeys(h, p, Keys(h)[i]);
        InjectionKeys([], p, Keys(h)[i]);
        assert Keys(h)[i] in multiset(Keys(h));
      }
    }
    if ListsOnlyHeld(h, p) {
      forall k ensures multiset(Keys(a))[k] == multiset(Keys(b))[k] {
        CountsAgree(h, p, k);
      }
      assert multiset(Keys(a)) == multiset(Keys(b));
    }
  }

  /** The pushed status depends neither on the order of the upstream history nor on the
      order in which the map of held transactions is walked. */
  lemma StatusIgnoresOrder(h: seq<Item>, g: seq<Item>, p: seq<string>, q: seq<string>)
    requires multiset(h) == multiset(g) && multiset(p) == multiset(q)
    ensures PushedStatus(h, p) == PushedStatus(g, q)
  {
    KeysOfPermutation(h, g);
    ExistingOfPermutation(h, g);
    var a, b := InjectInHistory(h, p), InjectInHistory(g, q);
    forall k ensures multiset(Keys(a))[k] == multiset(Keys(b))[k] {
      InjectionKeys(h, p, k);
      InjectionKeys(g, q, k);
    }
    SortKeysFacts(Keys(a));
    SortKeysFacts(Keys(b));
    assert multiset(Keys(a)) == multiset(Keys(b));
    assert |multiset(Keys(a))| == |a| && |multiset(Keys(b))| == |b|;
    AscendingIsUnique(SortKeys(Keys(a)), SortKeys(Keys(b)));
  }

  lemma ExistingOfPermutation(h: seq<Item>, g: seq<Item>)
    requires multiset(h) == multiset(g)
    ensures Existing(h) == Existing(g)
  {
    forall i | 0 <= i < |h| ensures h[i] in g { assert h[i] in multiset(g); }
    forall i | 0 <= i < |g| ensures g[i] in h { assert g[i] in multiset(h); }
  }

  lemma KeysAround(s: seq<Item>, i: nat, rest: seq<Item>)
    requires i < |s| && rest == s[..i] + s[i + 1..]
    ensures multiset(s) == multiset(rest) + multiset{s[i]}
    ensures multiset(Keys(s)) == multiset(Keys(rest)) + multiset{KeyOf(s[i])}
  {
    assert s == s[..i] + [s[i]] + s[i + 1..];
    KeysAppend(s[..i] + [s[i]], s[i + 1..]);
    KeysAppend(s[..i], [s[i]]);
    KeysAppend(s[..i], s[i + 1..]);
    assert Keys([s[i]]) == [KeyOf(s[i])];
  }

  lemma {:induction false} KeysOfPermutation(h: seq<Item>, g: seq<Item>)
    requires multiset(h) == multiset(g)
    ensures multiset(Keys(h)) == multiset(Keys(g))
  {
    assert |multiset(g)| == |g| && |multiset(h)| == |h|;
    if h != [] {
      assert h[0] in multiset(g);
      var i :| 0 <= i < |g| && g[i] == h[0];
      var h', g' := h[1..], g[..i] + g[i + 1..];
      KeysAround(h, 0, h');
      KeysAround(g, i, g');
      assert multiset(h') == multiset(h) - multiset{h[0]};
      assert multiset(g') == multiset(g) - multiset{h[0]};
      KeysOfPermutation(h', g');
    }
  }

  /** Whatever the pool holds before and after: two histories that differ in how often a transaction is
      listed at some height of a block give different pushed statuses. */
  lemma ConfirmationsShowInStatus(h: seq<Item>, g: seq<Item>, p: seq<string>, q: seq<string>, tx: string, height: int)
    requires CleanHistory(h) && forall i | 0 <= i < |p| :: Lacks(p[i], ':')
    requires CleanHistory(g) && forall i | 0 <= i < |q| :: Lacks(q[i], ':')
    requires height != 0 && multiset(Keys(h))[Key(height, tx)] != multiset(Keys(g))[Key(height, tx)]
    ensures PushedStatus(h, p) != PushedStatus(g, q)
  {
    InjectionClean(h, p);
    InjectionClean(g, q);
    InjectionKeys(h, p, Key(height, tx));
    InjectionKeys(g, q, Key(height, tx));
    StatusIsCanonical(InjectInHistory(h, p), InjectInHistory(g, q));
  }

  /** So the pushed status changes when a block takes a transaction, listed before or not, whatever else happened
      to the history and to the pool in the meantime. */
  lemma ConfirmationChangesStatus(h: seq<Item>, g: seq<Item>, p: seq<string>, q: seq<string>, tx: string, height: int)
    requires CleanHistory(h) && forall i | 0 <= i < |p| :: Lacks(p[i], ':')
    requires CleanHistory(g) && forall i | 0 <= i < |q| :: Lacks(q[i], ':')
    requires height != 0 && Key(height, tx) !in Keys(h) && Key(height, tx) in Keys(g)
    ensures PushedStatus(h, p) != PushedStatus(g, q)
  {
    assert Key(height, tx) !in multiset(Keys(h)) && Key(height, tx) in multiset(Keys(g));
    ConfirmationsShowInStatus(h, g, p, q, tx, height);
  }

  /** The ordinary path: upstream lists the sent transaction at height 0, then in a block. */
  lemma MinedFromMempoolChangesStatus(h: seq<Item>, i: nat, p: seq<string>, q: seq<string>, tx: string, height: int)
    requires CleanHistory(h) && forall k | 0 <= k < |p| :: Lacks(p[k], ':')
    requires forall k | 0 <= k < |q| :: Lacks(q[k], ':')
    requires i < |h| && KeyOf(h[i]) == Key(0, tx) && height != 0
    ensures PushedStatus(h, p)
         != PushedStatus(h[i := Item(Some(tx), Some(height))], q)
  {
    var g, rest := h[i := Item(Some(tx), Some(height))], h[..i] + h[i + 1..];
    assert rest == g[..i] + g[i + 1..];
    KeysAround(h, i, rest);
    KeysAround(g, i, rest);
    assert CleanHistory(g) by {
      forall k | 0 <= k < |Keys(g)| ensures Lacks(Keys(g)[k].txHash, ':') {
        assert Keys(g)[k].txHash == Keys(h)[k].txHash;
      }
    }
    ConfirmationsShowInStatus(h, g, p, q, tx, height);
  }

  /** A block takes it before upstream ever listed it. */
  lemma NewEntryChangesStatus(h: seq<Item>, p: seq<string>, q: seq<string>, tx: string, height: int)
    requires CleanHistory(h) && Lacks(tx, ':') && height != 0
    requires (forall k | 0 <= k < |p| :: Lacks(p[k], ':')) && forall k | 0 <= k < |q| :: Lacks(q[k], ':')
    ensures PushedStatus(h, p)
         != PushedStatus(h + [Item(Some(tx), Some(height))], q)
  {
    var g := h + [Item(Some(tx), Some(height))];
    KeysAppend(h, [Item(Some(tx), Some(height))]);
    assert Keys(g) == Keys(h) + [Key(height, tx)];
    assert multiset(Keys(g)) == multiset(Keys(h)) + multiset{Key(height, tx)};
    assert CleanHistory(g);
    ConfirmationsShowInStatus(h, g, p, q, tx, height);
  }
}
