/** Encrypting and sealing rows written before field encryption existed (`encrypt_legacy_rows`). */
module LegacyRows {
  import opened Prelude
  import opened FieldCrypto
  import opened Rows

  datatype Column = TxHex | Dest | Source

  /** The random nonce drawn for one column of one row. */
  type Nonces = (string, Column) -> nat

  /** `LIKE 'enc:%'`, which ignores case. */
  predicate LikeEnc(s: string) {
    |s| >= 4 && Lower(s[..4]) == "enc:"
  }

  predicate IsLegacy(r: Row) {
    !LikeEnc(r.txHex) || r.rowMac.None?
  }

  function OnceEncoded(c: Cipher, s: string, aad: string, nonce: nat): string {
    if IsEncoded(s) then s else EncodeField(c, s, aad, nonce)
  }

  function OptionallyEncoded(c: Cipher, s: Option<string>, aad: string, nonce: nat): Option<string> {
    if s.None? then None else Some(OnceEncoded(c, s.value, aad, nonce))
  }

  /** The first of the two statements per row: the columns, not yet the MAC. */
  function EncodedRow(c: Cipher, nonces: Nonces, r: Row): Row {
    r.(txHex := OnceEncoded(c, r.txHex, r.id, nonces(r.id, TxHex)),
       dest := OptionallyEncoded(c, r.dest, r.id, nonces(r.id, Dest)),
       sourceLabel := OptionallyEncoded(c, r.sourceLabel, r.id, nonces(r.id, Source)))
  }

  function UpgradedRow(mac: RowMac, c: Cipher, nonces: Nonces, r: Row): Row {
    Sealed(mac, EncodedRow(c, nonces, r))
  }

  function Upgraded(mac: RowMac, c: Cipher, nonces: Nonces, rows: map<string, Row>): map<string, Row> {
    map id | id in rows :: if IsLegacy(rows[id]) then UpgradedRow(mac, c, nonces, rows[id]) else rows[id]
  }

  /** `map_broadcast_row`: the row with its three encrypted columns opened. */
  function Readable(c: Cipher, r: Row): Row {
    r.(txHex := Shown(c, r.txHex, r.id),
       dest := if r.dest.None? then None else Some(Shown(c, r.dest.value, r.id)),
       sourceLabel := if r.sourceLabel.None? then None else Some(Shown(c, r.sourceLabel.value, r.id)))
  }

  // ----- The pass over the table -----

  /** Part of the way: the rows in `done` as in `target`, the others as in `start`. */
  ghost predicate PartOfTheWay(rows: map<string, Row>, start: map<string, Row>, target: map<string, Row>,
                               done: seq<string>)
  {
    && rows.Keys == start.Keys == target.Keys
    && forall id | id in rows :: rows[id] == if id in done then target[id] else start[id]
  }

  /** The row `id` of `rows`, upgraded, is that of `target`. */
  ghost predicate Upgrades(mac: RowMac, c: Cipher, nonces: Nonces, rows: map<string, Row>, target: map<string, Row>,
                           id: string)
  {
    && id in rows && id in target && rows[id].id == id
    && target[id] == UpgradedRow(mac, c, nonces, rows[id])
  }

  lemma OneRowFurther(rows: map<string, Row>, start: map<string, Row>, target: map<string, Row>,
                      done: seq<string>, id: string)
    requires PartOfTheWay(rows, start, target, done) && id in rows
    ensures PartOfTheWay(rows[id := target[id]], start, target, done + [id])
  {
  }

  lemma StillToUpgrade(mac: RowMac, c: Cipher, nonces: Nonces, rows: map<string, Row>, start: map<string, Row>,
                       target: map<string, Row>, selected: seq<string>, k: nat)
    requires k < |selected| && Distinct(selected) && PartOfTheWay(rows, start, target, selected[..k])
    requires Upgrades(mac, c, nonces, start, target, selected[k])
    ensures Upgrades(mac, c, nonces, rows, target, selected[k])
    ensures selected[..k + 1] == selected[..k] + [selected[k]]
  {
    assert selected[k] !in selected[..k];
  }

  lemma ReachedTarget(rows: map<string, Row>, start: map<string, Row>, target: map<string, Row>, done: seq<string>)
    requires PartOfTheWay(rows, start, target, done)
    requires forall id | id in start && id !in done :: target[id] == start[id]
    ensures rows == target
  {
  }

  class Table {
    var rows: map<string, Row>

    constructor (rows: map<string, Row>)
      ensures this.rows == rows
    {
      this.rows := rows;
    }

    method UpgradeOne(mac: RowMac, c: Cipher, nonces: Nonces, id: string, ghost target: map<string, Row>)
      requires Upgrades(mac, c, nonces, rows, target, id)
      modifies this
      ensures rows == old(rows)[id := target[id]]
    {
      var r := rows[id];
      var txHex := r.txHex;
      if !IsEncoded(txHex) {
        txHex := EncodeField(c, txHex, id, nonces(id, TxHex));
      }
      var dest := r.dest;
      if dest.Some? {
        if !IsEncoded(dest.value) {
          dest := Some(EncodeField(c, dest.value, id, nonces(id, Dest)));
        }
      }
      var source := r.sourceLabel;
      if source.Some? {
        if !IsEncoded(source.value) {
          source := Some(EncodeField(c, source.value, id, nonces(id, Source)));
        }
      }
      rows := rows[id := r.(txHex := txHex, dest := dest, sourceLabel := source)];
      rows := rows[id := Sealed(mac, rows[id])];
    }

    method UpgradeAll(mac: RowMac, c: Cipher, nonces: Nonces, selected: seq<string>,
                      ghost target: map<string, Row>) returns (updated: nat)
      requires Distinct(selected) && rows.Keys == target.Keys && forall id | id in selected :: id in rows
      requires forall id {:trigger Upgrades(mac, c, nonces, rows, target, id)} | id in selected ::
                 Upgrades(mac, c, nonces, rows, target, id)
      modifies this
      ensures PartOfTheWay(rows, old(rows), target, selected) && updated == |selected|
    {
      ghost var start := rows;
      updated := 0;
      while updated < |selected|
        invariant 0 <= updated <= |selected|
        invariant PartOfTheWay(rows, start, target, selected[..updated])
      {
        var id := selected[updated];
        assert Upgrades(mac, c, nonces, start, target, id);
        StillToUpgrade(mac, c, nonces, rows, start, target, selected, updated);
        OneRowFurther(rows, start, target, selected[..updated], id);
        UpgradeOne(mac, c, nonces, id, target);
        updated := updated + 1;
      }
      assert selected[..updated] == selected;
    }

    /** `selected` is the query's answer: the legacy rows in some order. */
    method EncryptLegacyRows(mac: RowMac, c: Cipher, nonces: Nonces, selected: seq<string>) returns (updated: nat)
      requires forall id | id in rows :: rows[id].id == id
      requires Distinct(selected) && forall id :: id in selected <==> id in rows && IsLegacy(rows[id])
      modifies this
      ensures rows == Upgraded(mac, c, nonces, old(rows))
      ensures updated == |selected|
    {
      ghost var start, target := rows, Upgraded(mac, c, nonces, rows);
      updated := UpgradeAll(mac, c, nonces, selected, target);
      ReachedTarget(rows, start, target, selected);
    }
  }

  // ----- What the pass promises -----

  lemma EncodedLooksEncoded(s: string)
    requires IsEncoded(s)
    ensures LikeEnc(s)
  {
    assert s[..4] == FIELD_PREFIX[..4];
    assert Lower(FIELD_PREFIX[..4]) == "enc:";
  }

  lemma UpgradedIsNotLegacy(mac: RowMac, c: Cipher, nonces: Nonces, r: Row)
    requires Opens(c)
    ensures !IsLegacy(UpgradedRow(mac, c, nonces, r))
  {
    EncodedReadsBack(c, r.txHex, r.id, nonces(r.id, TxHex));
    EncodedLooksEncoded(OnceEncoded(c, r.txHex, r.id, nonces(r.id, TxHex)));
  }

  /** A second pass selects no row and so changes none, whatever nonces it draws. */
  lemma SecondPassTouchesNothing(mac: RowMac, c: Cipher, nonces: Nonces, nonces': Nonces, rows: map<string, Row>)
    requires Opens(c)
    ensures var once := Upgraded(mac, c, nonces, rows);
            && (forall id | id in once :: !IsLegacy(once[id]))
            && Upgraded(mac, c, nonces', once) == once
  {
    forall id | id in rows ensures !IsLegacy(Upgraded(mac, c, nonces, rows)[id]) {
      UpgradedIsNotLegacy(mac, c, nonces, rows[id]);
    }
  }

  lemma OnceEncodedShows(c: Cipher, s: string, aad: string, nonce: nat)
    requires Opens(c)
    ensures Shown(c, OnceEncoded(c, s, aad, nonce), aad) == Shown(c, s, aad)
  {
    EncodedReadsBack(c, s, aad, nonce);
  }

  /** A reader sees the same rows before and after, except for the MAC; every row touched now passes
      its integrity check, every other row is as it was. */
  lemma UpgradePreservesMeaning(mac: RowMac, c: Cipher, nonces: Nonces, rows: map<string, Row>, id: string)
    requires Opens(c) && OverCoveredColumns(mac) && id in rows
    ensures var after := Upgraded(mac, c, nonces, rows)[id];
            && Readable(c, after) == Readable(c, rows[id]).(rowMac := after.rowMac)
            && (if IsLegacy(rows[id]) then !Tampered(mac, after) else after == rows[id])
  {
    var r := rows[id];
    OnceEncodedShows(c, r.txHex, r.id, nonces(r.id, TxHex));
    if r.dest.Some? { OnceEncodedShows(c, r.dest.value, r.id, nonces(r.id, Dest)); }
    if r.sourceLabel.Some? { OnceEncodedShows(c, r.sourceLabel.value, r.id, nonces(r.id, Source)); }
    SealedReadsBack(mac, EncodedRow(c, nonces, r));
  }

  predicate Marked(s: string) {
    "enc:v1:" <= s
  }

  /** A row is taken exactly if its transaction does not start with "enc:", in capitals or not, or it carries no
      MAC. Then its transaction, and its destination and label where it has them, are encrypted afterwards,
      those already marked unchanged. */
  lemma UpgradeEncryptsEverything(mac: RowMac, c: Cipher, nonces: Nonces, rows: map<string, Row>, id: string)
    requires Opens(c) && id in rows
    ensures var row, after := rows[id], Upgraded(mac, c, nonces, rows)[id];
            var taken := row.rowMac.None? || |row.txHex| < 4 || Lower(row.txHex[..4]) != "enc:";
            && (taken ==> && Marked(after.txHex) && (Marked(row.txHex) ==> after.txHex == row.txHex)
                          && (after.dest.Some? <==> row.dest.Some?)
                          && (after.dest.Some? ==> Marked(after.dest.value)
                                                   && (Marked(row.dest.value) ==> after.dest == row.dest))
                          && (after.sourceLabel.Some? <==> row.sourceLabel.Some?)
                          && (after.sourceLabel.Some? ==>
                                Marked(after.sourceLabel.value)
                                && (Marked(row.sourceLabel.value) ==> after.sourceLabel == row.sourceLabel)))
            && (!taken ==> after == row)
  {
    var r := rows[id];
    EncodedReadsBack(c, r.txHex, r.id, nonces(r.id, TxHex));
    if r.dest.Some? { EncodedReadsBack(c, r.dest.value, r.id, nonces(r.id, Dest)); }
    if r.sourceLabel.Some? { EncodedReadsBack(c, r.sourceLabel.value, r.id, nonces(r.id, Source)); }
  }

  /** A pass stopped between the two statements of one row: the next pass picks the row up again
      exactly when it carried no MAC, as all rows from before field encryption do. */
  lemma InterruptedRowIsPickedUpAgain(c: Cipher, nonces: Nonces, r: Row)
    requires Opens(c)
    ensures IsLegacy(EncodedRow(c, nonces, r)) <==> r.rowMac.None?
    ensures Readable(c, EncodedRow(c, nonces, r)) == Readable(c, r)
  {
    EncodedReadsBack(c, r.txHex, r.id, nonces(r.id, TxHex));
    EncodedLooksEncoded(OnceEncoded(c, r.txHex, r.id, nonces(r.id, TxHex)));
    OnceEncodedShows(c, r.txHex, r.id, nonces(r.id, TxHex));
    if r.dest.Some? { OnceEncodedShows(c, r.dest.value, r.id, nonces(r.id, Dest)); }
    if r.sourceLabel.Some? { OnceEncodedShows(c, r.sourceLabel.value, r.id, nonces(r.id, Source)); }
  }
}
