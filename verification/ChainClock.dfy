/** Median time past: `ElectrumClient::get_median_time_past` and the theorem behind the MTP cache. */
module ChainClock {
  import opened Prelude

  // Block times, genesis first.
  type Chain = seq<nat>

  // ----- Sorting and counting -----

  ghost predicate Sorted(s: seq<nat>) {
    forall i, j | 0 <= i < j < |s| :: s[i] <= s[j]
  }

  function InsertSorted(x: nat, s: seq<nat>): seq<nat> {
    if s == [] || x <= s[0] then [x] + s else [s[0]] + InsertSorted(x, s[1..])
  }

  function SortTimes(s: seq<nat>): seq<nat> {
    if s == [] then [] else InsertSorted(s[0], SortTimes(s[1..]))
  }

  /** How many elements lie strictly below `v`. */
  function CountBelow(s: seq<nat>, v: nat): nat {
    if s == [] then 0 else (if s[0] < v then 1 else 0) + CountBelow(s[1..], v)
  }

  lemma {:induction false} InsertSortedElements(x: nat, s: seq<nat>)
    ensures multiset(InsertSorted(x, s)) == multiset(s) + multiset{x}
    ensures |InsertSorted(x, s)| == |s| + 1
  {
    if s != [] && x > s[0] {
      InsertSortedElements(x, s[1..]);
      assert s == [s[0]] + s[1..];
    }
  }

  lemma {:induction false} InsertSortedOrder(x: nat, s: seq<nat>)
    requires Sorted(s)
    ensures Sorted(InsertSorted(x, s))
  {
    if s != [] && x > s[0] {
      var t := InsertSorted(x, s[1..]);
      InsertSortedOrder(x, s[1..]);
      InsertSortedElements(x, s[1..]);
      forall i | 0 <= i < |t| ensures s[0] <= t[i] {
        assert t[i] in multiset(t);
      }
      SortedCons(s[0], t);
    } else {
      SortedCons(x, s);
    }
  }

  lemma SortedCons(x: nat, t: seq<nat>)
    requires Sorted(t) && forall i | 0 <= i < |t| :: x <= t[i]
    ensures Sorted([x] + t)
  {
  }

  lemma {:induction false} InsertSortedCount(x: nat, s: seq<nat>, v: nat)
    ensures CountBelow(InsertSorted(x, s), v) == CountBelow(s, v) + (if x < v then 1 else 0)
  {
    var r := InsertSorted(x, s);
    if s == [] || x <= s[0] {
      assert r[1..] == s;
    } else {
      InsertSortedCount(x, s[1..], v);
      assert r[1..] == InsertSorted(x, s[1..]);
    }
  }

  lemma {:induction false} SortTimesOrder(s: seq<nat>)
    ensures |SortTimes(s)| == |s| && Sorted(SortTimes(s)) && multiset(SortTimes(s)) == multiset(s)
  {
    if s != [] {
      SortTimesOrder(s[1..]);
      InsertSortedOrder(s[0], SortTimes(s[1..]));
      InsertSortedElements(s[0], SortTimes(s[1..]));
      assert s == [s[0]] + s[1..];
    }
  }

  lemma {:induction false} SortTimesCount(s: seq<nat>, v: nat)
    ensures CountBelow(SortTimes(s), v) == CountBelow(s, v)
  {
    if s != [] {
      SortTimesCount(s[1..], v);
      InsertSortedCount(s[0], SortTimes(s[1..]), v);
    }
  }

  lemma {:induction false} SortedRank(r: seq<nat>, v: nat, k: nat)
    requires Sorted(r) && k < |r|
    ensures CountBelow(r, v) <= |r|
    ensures v <= r[k] <==> CountBelow(r, v) <= k
  {
    if |r| == 1 {
    } else if k > 0 {
      SortedRank(r[1..], v, k - 1);
    } else {
      SortedRank(r[1..], v, 0);
      assert r[1..][0] == r[1];
    }
  }

  // ----- The median -----

  /** Sort, then take the element at `len / 2`. */
  function Median(s: seq<nat>): nat
    requires s != []
  {
    SortTimesOrder(s);
    SortTimes(s)[|s| / 2]
  }

  /** What the sorted-middle element means without sorting: a value is at most the median
      exactly when at most half of the window lies strictly below it. */
  lemma MedianByRank(s: seq<nat>, v: nat)
    requires s != []
    ensures v <= Median(s) <==> CountBelow(s, v) <= |s| / 2
  {
    SortTimesOrder(s);
    SortTimesCount(s, v);
    SortedRank(SortTimes(s), v, |s| / 2);
  }

  lemma {:induction false} CountBelowAppend(a: seq<nat>, b: seq<nat>, v: nat)
    ensures CountBelow(a + b, v) == CountBelow(a, v) + CountBelow(b, v)
  {
    if a == [] {
      assert a + b == b;
    } else {
      CountBelowAppend(a[1..], b, v);
      assert (a + b)[1..] == a[1..] + b;
    }
  }

  // ----- The window of at most eleven headers -----

  function WindowStart(tip: nat): nat {
    if tip >= 10 then tip - 10 else 0
  }

  function Window(chain: Chain, tip: nat): seq<nat>
    requires tip < |chain|
  {
    chain[WindowStart(tip)..tip + 1]
  }

  function MtpAt(chain: Chain, tip: nat): nat
    requires tip < |chain|
  {
    Median(Window(chain, tip))
  }

  lemma {:induction false} CountBelowHeights(chain: Chain, from: nat, end: nat, v: nat)
    requires from <= end <= |chain|
    ensures CountBelow(chain[from..end], v) == |set h: nat | from <= h < end && chain[h] < v|
    decreases end - from
  {
    var below := set h: nat | from <= h < end && chain[h] < v;
    if from == end {
      assert below == {};
    } else {
      var rest := set h: nat | from + 1 <= h < end && chain[h] < v;
      CountBelowHeights(chain, from + 1, end, v);
      assert chain[from..end] == [chain[from]] + chain[from + 1..end];
      assert below == rest + (if chain[from] < v then {from} else {});
    }
  }

  /** Of the eleven blocks that end at `tip` (all of them, at the heights below ten), the earlier ones. */
  function EarlierHeights(chain: Chain, tip: nat, v: nat): set<nat>
    requires tip < |chain|
  {
    set h: nat | tip - 10 <= h <= tip && chain[h] < v
  }

  /** The median at a height, without sorting: it is at least `v` exactly if at most half of those blocks
      have a time below `v`. */
  lemma MtpByRank(chain: Chain, tip: nat, v: nat)
    requires tip < |chain|
    ensures v <= MtpAt(chain, tip) <==> |EarlierHeights(chain, tip, v)| <= Min(tip + 1, 11) / 2
  {
    var from := WindowStart(tip);
    MedianByRank(Window(chain, tip), v);
    CountBelowHeights(chain, from, tip + 1, v);
    assert EarlierHeights(chain, tip, v) == set h: nat | from <= h < tip + 1 && chain[h] < v;
  }

  /** The consensus rule on block times: each block is later than the median before it. */
  ghost predicate ValidChain(chain: Chain) {
    chain != [] && forall h | 0 < h < |chain| :: chain[h] > MtpAt(chain, h - 1)
  }

  /** One block: growing windows (heights 0 to 10) and sliding ones alike. A block time equal
      to the median would still do. */
  lemma MtpStep(chain: Chain, tip: nat)
    requires tip + 1 < |chain| && chain[tip + 1] >= MtpAt(chain, tip)
    ensures MtpAt(chain, tip) <= MtpAt(chain, tip + 1)
  {
    var w, w' := Window(chain, tip), Window(chain, tip + 1);
    var m, x := MtpAt(chain, tip), chain[tip + 1];
    MedianByRank(w, m);
    if tip < 10 {
      assert w' == w + [x];
      CountBelowAppend(w, [x], m);
    } else {
      assert w == [w[0]] + w[1..];
      assert w' == w[1..] + [x];
      CountBelowAppend([w[0]], w[1..], m);
      CountBelowAppend(w[1..], [x], m);
    }
    MedianByRank(w', m);
  }

  lemma {:induction false} MtpMonotone(chain: Chain, i: nat, j: nat)
    requires ValidChain(chain) && i <= j < |chain|
    ensures MtpAt(chain, i) <= MtpAt(chain, j)
    decreases j - i
  {
    if i < j {
      MtpMonotone(chain, i, j - 1);
      MtpStep(chain, j - 1);
    }
  }

  /** Without the rule on block times the median does fall: the rule is what the cache rests on. */
  lemma MtpCanFallWithoutTheRule()
    ensures MtpAt([5, 1, 1], 1) == 5 && MtpAt([5, 1, 1], 2) == 1
  {
    assert [5, 1, 1][0..2] == [5, 1] && [5, 1, 1][0..3] == [5, 1, 1];
    assert [5, 1][1..] == [1] && [5, 1, 1][1..] == [1, 1] && [1, 1][1..] == [1];
    assert [1][1..] == [];
    assert SortTimes([1]) == [1];
    assert SortTimes([1, 1]) == [1, 1];
    assert SortTimes([5, 1]) == [1, 5] by { assert InsertSorted(5, [1]) == [1] + InsertSorted(5, []); }
    assert SortTimes([5, 1, 1]) == [1, 1, 5] by {
      assert InsertSorted(5, [1, 1]) == [1] + InsertSorted(5, [1]);
      assert InsertSorted(5, [1]) == [1] + InsertSorted(5, []);
    }
  }

  lemma MtpOfExtension(chain: Chain, longer: Chain, tip: nat)
    requires chain <= longer && tip < |chain|
    ensures MtpAt(chain, tip) == MtpAt(longer, tip)
  {
    assert Window(chain, tip) == Window(longer, tip);
  }

  // ----- Reading the median from an Electrum server -----

  datatype HeaderReply =
    | Unreadable           // the request failed or the reply was not a string
    | Malformed            // bad hex or fewer than 68 bytes: skipped
    | BlockTime(time: nat)

  /** Times of the headers `from..=tip` in order; None when any of them is unreadable. */
  function Gathered(from: nat, tip: int, header: nat -> HeaderReply): Option<seq<nat>>
    decreases tip - from
  {
    if from > tip then Some([])
    else
      match header(from)
      case Unreadable => None
      case Malformed => Gathered(from + 1, tip, header)
      case BlockTime(t) => Prefixed([t], Gathered(from + 1, tip, header))
  }

  function IndexerMtp(tip: Option<nat>, header: nat -> HeaderReply): Option<nat> {
    if tip.None? then None
    else
      var times := Gathered(WindowStart(tip.value), tip.value, header);
      if times.None? || times.value == [] then None else Some(Median(times.value))
  }

  function Prefixed(got: seq<nat>, rest: Option<seq<nat>>): Option<seq<nat>> {
    if rest.None? then None else Some(got + rest.value)
  }

  lemma PrefixedMore(got: seq<nat>, t: nat, rest: Option<seq<nat>>)
    ensures Prefixed(got, Prefixed([t], rest)) == Prefixed(got + [t], rest)
  {
    if rest.Some? {
      assert got + ([t] + rest.value) == (got + [t]) + rest.value;
    }
  }

  /** The loop over the header heights. */
  method GatherTimes(start: nat, tip: nat, header: nat -> HeaderReply) returns (times: Option<seq<nat>>)
    requires start <= tip
    ensures times == Gathered(start, tip, header)
  {
    var got: seq<nat> := [];
    var height := start;
    ghost var whole := Gathered(start, tip, header);
    assert whole.Some? ==> [] + whole.value == whole.value;
    while height <= tip
      invariant start <= height <= tip + 1
      invariant whole == Prefixed(got, Gathered(height, tip, header))
    {
      var reply := header(height);
      if reply.Unreadable? {
        return None;
      }
      if reply.BlockTime? {
        PrefixedMore(got, reply.time, Gathered(height + 1, tip, header));
        got := got + [reply.time];
      }
      height := height + 1;
    }
    assert got + [] == got;
    return Some(got);
  }

  /** Of the eleven headers that end at `tip`, those that could be read. */
  function ReadableHeights(tip: nat, header: nat -> HeaderReply): set<nat> {
    set h: nat | tip - 10 <= h <= tip && header(h).BlockTime?
  }

  function ReadableBelow(tip: nat, header: nat -> HeaderReply, v: nat): set<nat> {
    set h: nat | tip - 10 <= h <= tip && header(h).BlockTime? && header(h).time < v
  }

  lemma {:induction false} GatheredFails(from: nat, tip: nat, header: nat -> HeaderReply)
    requires from <= tip + 1
    ensures Gathered(from, tip, header).None? <==> exists h: nat | from <= h <= tip :: header(h).Unreadable?
    decreases tip + 1 - from
  {
    if from <= tip {
      GatheredFails(from + 1, tip, header);
      assert header(from).Unreadable? ==> exists h: nat | from <= h <= tip :: header(h).Unreadable?;
    }
  }

  function ReadFrom(from: nat, tip: nat, header: nat -> HeaderReply): set<nat> {
    set h: nat | from <= h <= tip && header(h).BlockTime?
  }

  function ReadBelowFrom(from: nat, tip: nat, header: nat -> HeaderReply, v: nat): set<nat> {
    set h: nat | from <= h <= tip && header(h).BlockTime? && header(h).time < v
  }

  lemma ReadOneMore(from: nat, tip: nat, header: nat -> HeaderReply, v: nat)
    requires from <= tip
    ensures |ReadFrom(from, tip, header)|
         == |ReadFrom(from + 1, tip, header)| + (if header(from).BlockTime? then 1 else 0)
    ensures |ReadBelowFrom(from, tip, header, v)|
         == |ReadBelowFrom(from + 1, tip, header, v)|
            + (if header(from).BlockTime? && header(from).time < v then 1 else 0)
  {
    var r := header(from);
    assert ReadFrom(from, tip, header) == ReadFrom(from + 1, tip, header) + (if r.BlockTime? then {from} else {});
    assert ReadBelowFrom(from, tip, header, v)
        == ReadBelowFrom(from + 1, tip, header, v) + (if r.BlockTime? && r.time < v then {from} else {});
  }

  lemma CountBelowCons(t: nat, times: seq<nat>, v: nat)
    ensures CountBelow([t] + times, v) == (if t < v then 1 else 0) + CountBelow(times, v)
  {
    assert ([t] + times)[1..] == times;
  }

  lemma {:induction false} GatheredCounts(from: nat, tip: nat, header: nat -> HeaderReply, v: nat)
    requires from <= tip + 1 && Gathered(from, tip, header).Some?
    ensures |Gathered(from, tip, header).value| == |ReadFrom(from, tip, header)|
    ensures CountBelow(Gathered(from, tip, header).value, v) == |ReadBelowFrom(from, tip, header, v)|
    decreases tip + 1 - from
  {
    if from > tip {
      assert ReadFrom(from, tip, header) == {} && ReadBelowFrom(from, tip, header, v) == {};
    } else {
      GatheredCounts(from + 1, tip, header, v);
      ReadOneMore(from, tip, header, v);
      if header(from).BlockTime? {
        CountBelowCons(header(from).time, Gathered(from + 1, tip, header).value, v);
      }
    }
  }

  /** What the reading means: an error exactly if the tip or one of the last eleven headers cannot be had, or
      all of these are malformed; else the middle of the times that were read. */
  ghost predicate IsMedianRead(tipReply: Option<nat>, header: nat -> HeaderReply, mtp: Option<nat>) {
    if tipReply.None? then mtp.None?
    else
      var tip := tipReply.value;
      && (mtp.None? <==> (exists h: nat | tip - 10 <= h <= tip :: header(h).Unreadable?)
                         || ReadableHeights(tip, header) == {})
      && (mtp.Some? ==> forall v: nat ::
            v <= mtp.value <==> |ReadableBelow(tip, header, v)| <= |ReadableHeights(tip, header)| / 2)
  }

  lemma IndexerMtpIsMedianRead(tipReply: Option<nat>, header: nat -> HeaderReply)
    ensures IsMedianRead(tipReply, header, IndexerMtp(tipReply, header))
  {
    if tipReply.Some? {
      var tip := tipReply.value;
      var from := WindowStart(tip);
      var times := Gathered(from, tip, header);
      GatheredFails(from, tip, header);
      if times.Some? {
        GatheredCounts(from, tip, header, 0);
        assert ReadableHeights(tip, header) == ReadFrom(from, tip, header);
        if times.value != [] {
          forall v: nat
            ensures v <= Median(times.value)
                    <==> |ReadableBelow(tip, header, v)| <= |ReadableHeights(tip, header)| / 2
          {
            GatheredCounts(from, tip, header, v);
            MedianByRank(times.value, v);
            assert ReadableBelow(tip, header, v) == ReadBelowFrom(from, tip, header, v);
          }
        }
      }
    }
  }

  method GetMedianTimePast(tipReply: Option<nat>, header: nat -> HeaderReply) returns (mtp: Option<nat>)
    ensures mtp == IndexerMtp(tipReply, header) && IsMedianRead(tipReply, header, mtp)
  {
    IndexerMtpIsMedianRead(tipReply, header);
    if tipReply.None? {
      return None;
    }
    var tip := tipReply.value;
    var start := if tip >= 10 then tip - 10 else 0;
    var gathered := GatherTimes(start, tip, header);
    if gathered.None? {
      return None;
    }
    SortTimesOrder(gathered.value);
    var times := SortTimes(gathered.value);  // `sort_unstable` of the standard library
    if |times| == 0 {
      return None;
    }
    mtp := Some(times[|times| / 2]);
  }

  lemma {:induction false} GatheredFromChain(chain: Chain, from: nat, tip: nat, header: nat -> HeaderReply)
    requires tip < |chain| && from <= tip + 1
    requires forall h | from <= h <= tip :: header(h) == BlockTime(chain[h])
    ensures Gathered(from, tip, header) == Some(chain[from..tip + 1])
    decreases tip + 1 - from
  {
    if from <= tip {
      GatheredFromChain(chain, from + 1, tip, header);
      assert header(from) == BlockTime(chain[from]);
      assert Gathered(from, tip, header) == Some([chain[from]] + chain[from + 1..tip + 1]);
      assert chain[from..tip + 1] == [chain[from]] + chain[from + 1..tip + 1];
    } else {
      assert chain[from..tip + 1] == [];
    }
  }

  /** A server whose last eleven headers are those of the chain reports exactly the chain's median there. */
  lemma IndexerMtpIsTheChainMedian(chain: Chain, tip: nat, header: nat -> HeaderReply)
    requires tip < |chain|
    requires forall h: nat | tip - 10 <= h <= tip :: header(h) == BlockTime(chain[h])
    ensures IndexerMtp(Some(tip), header) == Some(MtpAt(chain, tip))
    ensures forall v: nat :: v <= IndexerMtp(Some(tip), header).value
                             <==> |EarlierHeights(chain, tip, v)| <= Min(tip + 1, 11) / 2
  {
    GatheredFromChain(chain, WindowStart(tip), tip, header);
    forall v: nat ensures v <= MtpAt(chain, tip) <==> |EarlierHeights(chain, tip, v)| <= Min(tip + 1, 11) / 2 {
      MtpByRank(chain, tip, v);
    }
  }
}
