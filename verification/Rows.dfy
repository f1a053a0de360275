/** A row of `broadcast_pool`, its integrity MAC and the mutators of `db/mod.rs`. */
module Rows {
  import opened Prelude

  datatype Status = Pending | Scheduled | Broadcast | Confirmed | Expired | Failed

  function StatusText(s: Status): string {
    match s
    case Pending => "pending"
    case Scheduled => "scheduled"
    case Broadcast => "broadcast"
    case Confirmed => "confirmed"
    case Expired => "expired"
    case Failed => "failed"
  }

  /** Stored columns. Times are nanoseconds of the wall clock, prices an integer amount in the
      smallest unit; both stand in the MAC input as decimal text. */
  datatype Row = Row(
    id: string, txHex: string, txid: Option<string>, status: Status, network: string,
    nlocktime: nat, mode: Option<string>, scheduledTime: Option<int>,
    broadcastAt: Option<int>, confirmedAt: Option<int>, blockHeight: Option<nat>,
    sourceLabel: Option<string>, dest: Option<string>, errorMessage: Option<string>,
    missedAt: Option<int>, originalScheduled: Option<int>, deferUntil: Option<int>,
    trigger: Option<string>, targetPrice: Option<int>,
    priceCurrency: Option<string>, priceCondition: Option<string>,
    updatedAt: int, rowMac: Option<string>)

  // ----- MAC input -----

  const SEPARATOR: char := '\U{001F}'

  type Mac = string -> string

  function Join(fields: seq<string>): string {
    if fields == [] then ""
    else if |fields| == 1 then fields[0]
    else fields[0] + [SEPARATOR] + Join(fields[1..])
  }

  function NumberText(n: Option<int>): string {
    if n.None? then "" else IntText(n.value)
  }

  function Covered(r: Row): seq<string> {
    [r.id, StatusText(r.status), r.mode.GetOr(""), NumberText(r.scheduledTime), IntText(r.nlocktime),
     NumberText(r.targetPrice), r.trigger.GetOr(""), r.priceCondition.GetOr(""), r.txHex, r.dest.GetOr("")]
  }

  function RowMacInput(r: Row): string {
    Join(Covered(r))
  }

  /** The MAC a row ought to carry. */
  type RowMac = Row -> string

  function RowMacOf(mac: Mac): RowMac {
    (r: Row) => mac(RowMacInput(r))
  }

  function Sealed(mac: RowMac, r: Row): Row {
    r.(rowMac := Some(mac(r)))
  }

  predicate Tampered(mac: RowMac, r: Row) {
    r.rowMac != Some(mac(r))
  }

  // ----- Injectivity of the joined text -----

  ghost predicate SeparatorFree(s: string) {
    Lacks(s, SEPARATOR)
  }

  ghost predicate AllSeparatorFree(fields: seq<string>) {
    forall i | 0 <= i < |fields| :: SeparatorFree(fields[i])
  }

  lemma SeparatorInJoin(fields: seq<string>)
    requires |fields| > 1
    ensures !SeparatorFree(Join(fields))
  {
    assert Join(fields)[|fields[0]|] == SEPARATOR;
  }

  lemma {:induction false} JoinInjective(a: seq<string>, b: seq<string>)
    requires a != [] && b != [] && AllSeparatorFree(a) && AllSeparatorFree(b)
    requires Join(a) == Join(b)
    ensures a == b
  {
    if |a| == 1 && |b| == 1 {
    } else if |a| == 1 {
      SeparatorInJoin(b);
    } else if |b| == 1 {
      SeparatorInJoin(a);
    } else {
      SplitAtFirst(SEPARATOR, a[0], b[0], Join(a[1..]), Join(b[1..]));
      JoinInjective(a[1..], b[1..]);
      assert a == [a[0]] + a[1..] && b == [b[0]] + b[1..];
    }
  }

  // ----- What the MAC detects -----

  ghost predicate CollisionFree(mac: Mac) {
    forall x, y :: mac(x) == mac(y) ==> x == y
  }

  ghost predicate CleanText(r: Row) {
    && SeparatorFree(r.id) && SeparatorFree(r.mode.GetOr("")) && SeparatorFree(r.trigger.GetOr(""))
    && SeparatorFree(r.priceCondition.GetOr("")) && SeparatorFree(r.txHex) && SeparatorFree(r.dest.GetOr(""))
  }

  /** Equal in every covered column, a missing text counting as the empty one. */
  ghost predicate SameCoveredColumns(r: Row, q: Row) {
    && r.id == q.id && r.status == q.status && r.mode.GetOr("") == q.mode.GetOr("")
    && r.scheduledTime == q.scheduledTime && r.nlocktime == q.nlocktime && r.targetPrice == q.targetPrice
    && r.trigger.GetOr("") == q.trigger.GetOr("") && r.priceCondition.GetOr("") == q.priceCondition.GetOr("")
    && r.txHex == q.txHex && r.dest.GetOr("") == q.dest.GetOr("")
  }

  lemma JoinCons(f: string, rest: seq<string>)
    requires rest != []
    ensures Join([f] + rest) == f + [SEPARATOR] + Join(rest)
  {
    assert ([f] + rest)[1..] == rest;
  }

  /** The boundary between two neighbouring fields can be moved across a separator inside them. */
  lemma {:induction false} JoinShifts(before: seq<string>, a: string, b: string, c: string, after: seq<string>)
    requires after != []
    ensures Join(before + ([a + [SEPARATOR] + b, c] + after)) == Join(before + ([a, b + [SEPARATOR] + c] + after))
    decreases |before|
  {
    var one, two := [a + [SEPARATOR] + b, c] + after, [a, b + [SEPARATOR] + c] + after;
    if before == [] {
      assert before + one == [a + [SEPARATOR] + b] + ([c] + after);
      assert before + two == [a] + ([b + [SEPARATOR] + c] + after);
      JoinCons(a + [SEPARATOR] + b, [c] + after);
      JoinCons(c, after);
      JoinCons(a, [b + [SEPARATOR] + c] + after);
      JoinCons(b + [SEPARATOR] + c, after);
      var tail := [SEPARATOR] + Join(after);
      assert (a + [SEPARATOR] + b) + [SEPARATOR] + (c + [SEPARATOR] + Join(after))
          == a + [SEPARATOR] + ((b + [SEPARATOR] + c) + [SEPARATOR] + Join(after));
    } else {
      JoinShifts(before[1..], a, b, c, after);
      JoinCons(before[0], before[1..] + one);
      JoinCons(before[0], before[1..] + two);
      assert before + one == [before[0]] + (before[1..] + one) && before + two == [before[0]] + (before[1..] + two);
    }
  }

  /** Without that condition it fails for every row: a separator in the trigger or the price condition
      lets two rows that differ in both share their MAC. */
  lemma RowsCollideOnSeparators(r: Row, a: string, b: string, c: string)
    ensures var one := r.(trigger := Some(a + [SEPARATOR] + b), priceCondition := Some(c));
            var two := r.(trigger := Some(a), priceCondition := Some(b + [SEPARATOR] + c));
            RowMacInput(one) == RowMacInput(two) && !SameCoveredColumns(one, two)
  {
    var one := r.(trigger := Some(a + [SEPARATOR] + b), priceCondition := Some(c));
    var two := r.(trigger := Some(a), priceCondition := Some(b + [SEPARATOR] + c));
    var before, after := Covered(r)[..6], Covered(r)[8..];
    assert Covered(one) == before + ([a + [SEPARATOR] + b, c] + after);
    assert Covered(two) == before + ([a, b + [SEPARATOR] + c] + after);
    JoinShifts(before, a, b, c, after);
    assert |a + [SEPARATOR] + b| > |a|;
  }

  /** Two joined texts that agree in every field but one differ. */
  lemma {:induction false} JoinDiffersIn(a: seq<string>, b: seq<string>, k: nat)
    requires |a| == |b| && k < |a| && forall i | 0 <= i < |a| && i != k :: a[i] == b[i]
    requires Join(a) == Join(b)
    ensures a[k] == b[k]
    decreases |a|
  {
    if |a| > 1 {
      if k == 0 {
        assert a[1..] == b[1..];
        assert Join(a) == a[0] + ([SEPARATOR] + Join(a[1..])) && Join(b) == b[0] + ([SEPARATOR] + Join(a[1..]));
        SameEnding(a[0], b[0], [SEPARATOR] + Join(a[1..]));
      } else {
        assert Join(a)[|a[0]| + 1..] == Join(a[1..]) && Join(b)[|b[0]| + 1..] == Join(b[1..]);
        JoinDiffersIn(a[1..], b[1..], k - 1);
      }
    }
  }

  lemma SameEnding(x: string, y: string, ending: string)
    requires x + ending == y + ending
    ensures x == y
  {
    assert |x| == |y|;
    assert x == (x + ending)[..|x|] && y == (y + ending)[..|y|];
  }

  lemma NumberTextInjective(a: Option<int>, b: Option<int>)
    requires NumberText(a) == NumberText(b)
    ensures a == b
  {
    if a.Some? { IntTextAlphabet(a.value); }
    if b.Some? { IntTextAlphabet(b.value); }
    if a.Some? && b.Some? { IntTextInjective(a.value, b.value); }
  }

  lemma NumberTextSeparatorFree(a: Option<int>)
    ensures SeparatorFree(NumberText(a))
  {
    if a.Some? { IntTextAlphabet(a.value); }
  }

  lemma StatusTextSeparatorFree(s: Status)
    ensures SeparatorFree(StatusText(s))
  {
  }

  lemma CoveredSeparatorFree(r: Row)
    requires CleanText(r)
    ensures AllSeparatorFree(Covered(r))
  {
    NumberTextSeparatorFree(r.scheduledTime);
    NumberTextSeparatorFree(Some(r.nlocktime));
    NumberTextSeparatorFree(r.targetPrice);
    StatusTextSeparatorFree(r.status);
    var c := Covered(r);
    assert SeparatorFree(c[0]) && SeparatorFree(c[1]) && SeparatorFree(c[2]) && SeparatorFree(c[3]);
    assert SeparatorFree(c[4]) && SeparatorFree(c[5]) && SeparatorFree(c[6]) && SeparatorFree(c[7]);
    assert SeparatorFree(c[8]) && SeparatorFree(c[9]);
  }

  lemma MacInputDeterminesColumns(r: Row, q: Row)
    requires CleanText(r) && CleanText(q)
    ensures RowMacInput(r) == RowMacInput(q) <==> SameCoveredColumns(r, q)
  {
    if RowMacInput(r) == RowMacInput(q) {
      CoveredSeparatorFree(r);
      CoveredSeparatorFree(q);
      JoinInjective(Covered(r), Covered(q));
      var c, d := Covered(r), Covered(q);
      assert c[0] == d[0] && c[1] == d[1] && c[2] == d[2] && c[3] == d[3] && c[4] == d[4];
      assert c[5] == d[5] && c[6] == d[6] && c[7] == d[7] && c[8] == d[8] && c[9] == d[9];
      NumberTextInjective(r.scheduledTime, q.scheduledTime);
      NumberTextInjective(r.targetPrice, q.targetPrice);
      IntTextInjective(r.nlocktime, q.nlocktime);
    }
  }

  /** A write behind the program's back that leaves the stored MAC alone is noticed on read
      exactly when it changes a covered column (a NULL text and "" being the same). */
  lemma OutOfBandWriteDetected(mac: Mac, before: Row, after: Row)
    requires CollisionFree(mac) && CleanText(before) && CleanText(after)
    requires !Tampered(RowMacOf(mac), before) && after.rowMac == before.rowMac
    ensures Tampered(RowMacOf(mac), after) <==> !SameCoveredColumns(before, after)
  {
    MacInputDeterminesColumns(before, after);
  }

  /** The MAC reads the covered columns only. */
  ghost predicate OverCoveredColumns(mac: RowMac) {
    forall r, q :: SameCoveredColumns(r, q) ==> mac(r) == mac(q)
  }

  lemma RowMacReadsCoveredColumns(mac: Mac)
    ensures OverCoveredColumns(RowMacOf(mac))
  {
    forall r, q | SameCoveredColumns(r, q) ensures RowMacInput(r) == RowMacInput(q) {
      assert Covered(r) == Covered(q);
    }
  }

  lemma SealedReadsBack(mac: RowMac, r: Row)
    requires OverCoveredColumns(mac)
    ensures !Tampered(mac, Sealed(mac, r))
  {
    assert SameCoveredColumns(r, Sealed(mac, r));
  }

  // ----- Mutators: column updates followed by a reseal -----

  function MarkDueRow(mac: RowMac, r: Row, now: int): Row {
    Sealed(mac, r.(status := Scheduled, scheduledTime := Some(now), updatedAt := now))
  }

  function MarkDueFromPriceRow(mac: RowMac, r: Row, now: int): Row {
    Sealed(mac, r.(status := Scheduled, scheduledTime := Some(now), trigger := Some("datetime"), updatedAt := now))
  }

  function RequeuedRow(mac: RowMac, r: Row, now: int): Row {
    Sealed(mac, r.(status := Scheduled, errorMessage := None, updatedAt := now))
  }

  function MarkBroadcastRow(mac: RowMac, r: Row, txid: string, now: int): Row {
    Sealed(mac, r.(status := Broadcast, txid := Some(txid), broadcastAt := Some(now), updatedAt := now,
                   missedAt := None, deferUntil := None))
  }

  function FailedRow(mac: RowMac, r: Row, msg: string, now: int): Row {
    Sealed(mac, r.(status := Failed, errorMessage := Some(msg), updatedAt := now))
  }

  function ConfirmedRow(mac: RowMac, r: Row, height: nat, now: int): Row {
    Sealed(mac, r.(status := Confirmed, blockHeight := Some(height), confirmedAt := Some(now), updatedAt := now))
  }

  function RescheduledRow(mac: RowMac, r: Row, at: int, defer: Option<int>, now: int): Row {
    Sealed(mac, r.(status := Scheduled, scheduledTime := Some(at), deferUntil := defer, errorMessage := None,
                   trigger := Some("datetime"), targetPrice := None, priceCurrency := None,
                   priceCondition := None, updatedAt := now))
  }

  function PriceScheduledRow(mac: RowMac, r: Row, target: int, currency: string, condition: string, now: int): Row {
    Sealed(mac, r.(status := Pending, scheduledTime := None, deferUntil := None, errorMessage := None,
                   trigger := Some("price"), targetPrice := Some(target), priceCurrency := Some(currency),
                   priceCondition := Some(condition), updatedAt := now))
  }

  /** `record_broadcast_miss`: no covered column changes, hence no reseal. */
  function MissedRow(r: Row, missedAt: int, original: Option<int>): Row {
    if r.missedAt.Some? then r
    else r.(missedAt := Some(missedAt), updatedAt := missedAt,
            originalScheduled := if r.originalScheduled.Some? then r.originalScheduled else original)
  }

  /** `schedule_transaction`: status and time are covered columns, and nothing reseals the row. */
  function DelayedRow(r: Row, at: int, now: int): Row {
    r.(status := Scheduled, scheduledTime := Some(at), updatedAt := now)
  }

  predicate WaitsImmediate(r: Row) {
    r.status == Pending && r.mode == Some("immediate")
  }

  /** The data migration at every start. The mode is a covered column, and nothing reseals the row. */
  function Reclassified(r: Row): Row {
    if WaitsImmediate(r) then r.(mode := Some("imported")) else r
  }

  /** The pass over old rows that follows: which rows it takes, and what it makes of their three
      encrypted columns. */
  datatype StartUpPass = StartUpPass(
    takes: Row -> bool, txHex: Row -> string, dest: Row -> Option<string>, sourceLabel: Row -> Option<string>)

  function StartedRow(mac: RowMac, pass: StartUpPass, r: Row): Row {
    var q := Reclassified(r);
    if pass.takes(q)
    then Sealed(mac, q.(txHex := pass.txHex(q), dest := pass.dest(q), sourceLabel := pass.sourceLabel(q)))
    else q
  }

  datatype NewTx = NewTx(
    txHex: string, network: string, nlocktime: Option<nat>, mode: Option<string>,
    scheduledTime: Option<int>, sourceLabel: Option<string>, dest: Option<string>)

  /** `insert_broadcast_tx`, sensitive fields already encoded. */
  function InsertedRow(mac: RowMac, id: string, tx: NewTx, now: int): Row {
    Sealed(mac, Row(
      id, tx.txHex, None, Pending, tx.network, tx.nlocktime.GetOr(0), Some(tx.mode.GetOr("immediate")),
      tx.scheduledTime, None, None, None, tx.sourceLabel, tx.dest, None, None, None, None,
      Some("datetime"), None, None, None, now, None))
  }

  /** Every row is stored under its own id. */
  ghost predicate Keyed(rows: map<string, Row>) {
    forall id | id in rows :: rows[id].id == id
  }

  predicate IsUserScheduledMode(mode: Option<string>) {
    mode == Some("manual") || mode == Some("imported")
  }

  predicate IsEmitted(s: Status) {
    s == Broadcast || s == Confirmed
  }
}
