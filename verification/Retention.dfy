/** Moving old terminal rows from the pool into the encrypted archive, one database transaction per
    row (`archive_terminal_older_than`), and what is left when the process stops in between. */
module Retention {
  import opened Prelude
  import opened FieldCrypto
  import opened LegacyRows
  import opened Rows

  datatype ArchiveRow = ArchiveRow(network: string, archivedAt: int, blob: string)

  datatype Stores = Stores(pool: map<string, Row>, archive: map<string, ArchiveRow>)

  /** Parameters of a run: the row MAC, what a reader gets of a stored row (`map_broadcast_row`), the
      archive cipher under the archive key, the JSON form of what is read, and per
      transaction the drawn archive id, nonce and clock reading. */
  datatype Setup = Setup(mac: RowMac, read: Row -> Row, blobs: Cipher, json: Row -> string,
                         parse: string -> Option<Row>, draw: nat -> Draw)

  datatype Draw = Draw(archiveId: string, nonce: nat, at: int)

  ghost predicate Sound(p: Setup) {
    && Opens(p.blobs)
    && (forall r :: p.parse(p.json(p.read(r))) == Some(p.read(r)))
    && (forall r :: p.read(r).id == r.id)
  }

  /** The decoded row without its stored MAC, which the record that is archived has no field for. */
  function ReadWithoutMac(c: Cipher, r: Row): Row {
    Readable(c, r).(rowMac := None)
  }

  /** A JSON form that leaves out the stored MAC, and brings back every row that has none, will do. */
  lemma JsonWithoutMacIsSound(p: Setup, c: Cipher)
    requires Opens(p.blobs) && p.read == ((r: Row) => ReadWithoutMac(c, r))
    requires forall r: Row | r.rowMac.None? :: p.parse(p.json(r)) == Some(r)
    ensures Sound(p)
  {
    forall r ensures p.parse(p.json(p.read(r))) == Some(p.read(r)) && p.read(r).id == r.id {
      assert p.read(r) == ReadWithoutMac(c, r);
    }
  }

  // ----- Which rows -----

  predicate IsTerminal(s: Status) {
    s == Confirmed || s == Failed || s == Broadcast
  }

  predicate IsOld(r: Row, network: string, cutoff: int) {
    IsTerminal(r.status) && r.updatedAt < cutoff && r.network == network
  }

  predicate IsMoved(p: Setup, r: Row, network: string, cutoff: int) {
    IsOld(r, network, cutoff) && !Tampered(p.mac, r)
  }

  // ----- One row -----

  /** Insert into the archive and delete from the pool, in one database transaction. */
  function MoveRow(p: Setup, s: Stores, id: string, network: string, d: Draw): Stores
    requires id in s.pool
  {
    var blob := p.blobs.seal(p.json(p.read(s.pool[id])), d.archiveId, d.nonce);
    Stores(s.pool - {id}, s.archive[d.archiveId := ArchiveRow(network, d.at, blob)])
  }

  /** What the archive gives back under an id. */
  function Opened(p: Setup, s: Stores, archiveId: string): Option<Row>
    requires archiveId in s.archive
  {
    var plain := p.blobs.open(s.archive[archiveId].blob, archiveId);
    if plain.Some? then p.parse(plain.value) else None
  }

  // ----- Conservation -----

  ghost predicate InArchive(p: Setup, s0: Stores, s: Stores, id: string)
    requires id in s0.pool
  {
    exists n | n in s.archive && n !in s0.archive :: Opened(p, s, n) == Some(p.read(s0.pool[id]))
  }

  ghost predicate NewEntriesComeFromPool(p: Setup, s0: Stores, s: Stores) {
    forall n | n in s.archive && n !in s0.archive ::
      && Opened(p, s, n).Some?
      && var r := Opened(p, s, n).value;
         r.id in s0.pool && r.id !in s.pool && r == p.read(s0.pool[r.id])
  }

  ghost predicate NewEntriesDiffer(p: Setup, s0: Stores, s: Stores) {
    forall n, m | n in s.archive && n !in s0.archive && m in s.archive && m !in s0.archive && n != m ::
      Opened(p, s, n) != Opened(p, s, m)
  }

  ghost predicate MissingIsArchived(p: Setup, s0: Stores, s: Stores) {
    forall id | id in s0.pool && id !in s.pool :: InArchive(p, s0, s, id)
  }

  ghost predicate RestUnchanged(s0: Stores, s: Stores) {
    && (forall id | id in s.pool :: id in s0.pool && s.pool[id] == s0.pool[id])
    && (forall n | n in s0.archive :: n in s.archive && s.archive[n] == s0.archive[n])
  }

  /** What left the pool is recoverable from the archive, once; nothing else appears there; what stayed
      and what the archive held before are untouched. */
  ghost predicate Conserved(p: Setup, s0: Stores, s: Stores) {
    && RestUnchanged(s0, s)
    && MissingIsArchived(p, s0, s)
    && NewEntriesComeFromPool(p, s0, s)
    && NewEntriesDiffer(p, s0, s)
  }

  /** So every original row is in exactly one of the two stores. */
  lemma ExactlyOneStore(p: Setup, s0: Stores, s: Stores, id: string)
    requires Sound(p) && Keyed(s0.pool) && Conserved(p, s0, s) && id in s0.pool
    ensures id in s.pool <==> !InArchive(p, s0, s, id)
  {
    if InArchive(p, s0, s, id) {
      var n :| n in s.archive && n !in s0.archive && Opened(p, s, n) == Some(p.read(s0.pool[id]));
      assert p.read(s0.pool[id]).id == id;
    }
  }

  lemma OpenedAfterMove(p: Setup, s: Stores, id: string, network: string, d: Draw, n: string)
    requires Sound(p) && id in s.pool && d.archiveId !in s.archive
    requires n in s.archive || n == d.archiveId
    ensures Opened(p, MoveRow(p, s, id, network, d), n)
         == if n == d.archiveId then Some(p.read(s.pool[id])) else Opened(p, s, n)
  {
  }

  lemma MoveKeepsOrigins(p: Setup, s0: Stores, s: Stores, id: string, network: string, d: Draw)
    requires Sound(p) && Keyed(s0.pool) && Conserved(p, s0, s) && id in s.pool && d.archiveId !in s.archive
    ensures NewEntriesComeFromPool(p, s0, MoveRow(p, s, id, network, d))
  {
    var s' := MoveRow(p, s, id, network, d);
    forall n | n in s'.archive && n !in s0.archive
      ensures Opened(p, s', n).Some?
      ensures var r := Opened(p, s', n).value;
              r.id in s0.pool && r.id !in s'.pool && r == p.read(s0.pool[r.id])
    {
      OpenedAfterMove(p, s, id, network, d, n);
      assert p.read(s0.pool[id]).id == id;
    }
  }

  lemma MoveKeepsEntriesApart(p: Setup, s0: Stores, s: Stores, id: string, network: string, d: Draw)
    requires Sound(p) && Keyed(s0.pool) && Conserved(p, s0, s) && id in s.pool && d.archiveId !in s.archive
    ensures NewEntriesDiffer(p, s0, MoveRow(p, s, id, network, d))
  {
    var s' := MoveRow(p, s, id, network, d);
    assert p.read(s.pool[id]).id == id;
    forall n, m | n in s'.archive && n !in s0.archive && m in s'.archive && m !in s0.archive && n != m
      ensures Opened(p, s', n) != Opened(p, s', m)
    {
      OpenedAfterMove(p, s, id, network, d, n);
      OpenedAfterMove(p, s, id, network, d, m);
      if n == d.archiveId {
        assert Opened(p, s, m).value.id !in s.pool;
      } else if m == d.archiveId {
        assert Opened(p, s, n).value.id !in s.pool;
      }
    }
  }

  lemma MoveKeepsMissingArchived(p: Setup, s0: Stores, s: Stores, id: string, network: string, d: Draw)
    requires Sound(p) && Conserved(p, s0, s) && id in s.pool && d.archiveId !in s.archive
    ensures MissingIsArchived(p, s0, MoveRow(p, s, id, network, d))
  {
    var s' := MoveRow(p, s, id, network, d);
    assert d.archiveId !in s0.archive;
    forall k | k in s0.pool && k !in s'.pool ensures InArchive(p, s0, s', k) {
      if k == id {
        OpenedAfterMove(p, s, id, network, d, d.archiveId);
      } else {
        assert InArchive(p, s0, s, k);
        var n :| n in s.archive && n !in s0.archive && Opened(p, s, n) == Some(p.read(s0.pool[k]));
        OpenedAfterMove(p, s, id, network, d, n);
        assert n in s'.archive;
      }
    }
  }

  lemma MoveConserves(p: Setup, s0: Stores, s: Stores, id: string, network: string, d: Draw)
    requires Sound(p) && Keyed(s0.pool) && Conserved(p, s0, s)
    requires id in s.pool && d.archiveId !in s.archive
    ensures Conserved(p, s0, MoveRow(p, s, id, network, d))
  {
    MoveKeepsOrigins(p, s0, s, id, network, d);
    MoveKeepsEntriesApart(p, s0, s, id, network, d);
    MoveKeepsMissingArchived(p, s0, s, id, network, d);
  }

  // ----- The loop -----

  datatype Outcome = Done(count: nat) | InsertFailed | Stopped

  /** The rows still to look at, after `count` moves; the process stops before transaction number `limit`.
      An archive id that is taken already makes the insert fail and ends the run with an error. */
  function Run(p: Setup, s: Stores, todo: seq<string>, network: string, count: nat, limit: nat): (Stores, Outcome)
    requires Distinct(todo) && forall id | id in todo :: id in s.pool
    decreases |todo|
  {
    if todo == [] then (s, Done(count))
    else if Tampered(p.mac, s.pool[todo[0]]) then Run(p, s, todo[1..], network, count, limit)
    else if count >= limit then (s, Stopped)
    else if p.draw(count).archiveId in s.archive then (s, InsertFailed)
    else Run(p, MoveRow(p, s, todo[0], network, p.draw(count)), todo[1..], network, count + 1, limit)
  }

  /** However a run ends, in success, in error or by a crash between two transactions, no row is lost
      and none is in both stores. */
  lemma {:induction false} EveryRunConserves(p: Setup, s0: Stores, s: Stores, todo: seq<string>, network: string,
                                             count: nat, limit: nat)
    requires Sound(p) && Keyed(s0.pool) && Conserved(p, s0, s)
    requires Distinct(todo) && forall id | id in todo :: id in s.pool
    ensures Conserved(p, s0, Run(p, s, todo, network, count, limit).0)
    decreases |todo|
  {
    if todo != [] {
      if Tampered(p.mac, s.pool[todo[0]]) {
        EveryRunConserves(p, s0, s, todo[1..], network, count, limit);
      } else if count < limit && p.draw(count).archiveId !in s.archive {
        MoveConserves(p, s0, s, todo[0], network, p.draw(count));
        EveryRunConserves(p, s0, MoveRow(p, s, todo[0], network, p.draw(count)), todo[1..], network, count + 1, limit);
      }
    }
  }

  /** The next `n` drawn archive ids are new, each to the ones before it too. */
  predicate FreshDraws(p: Setup, taken: set<string>, count: nat, n: nat)
    decreases n
  {
    n == 0 || (p.draw(count).archiveId !in taken && FreshDraws(p, taken + {p.draw(count).archiveId}, count + 1, n - 1))
  }

  lemma {:induction false} FewerFreshDraws(p: Setup, taken: set<string>, count: nat, n: nat)
    requires n > 0 && FreshDraws(p, taken, count, n)
    ensures FreshDraws(p, taken, count, n - 1)
    decreases n
  {
    if n > 1 {
      FewerFreshDraws(p, taken + {p.draw(count).archiveId}, count + 1, n - 1);
    }
  }

  function Untampered(p: Setup, todo: seq<string>, pool: map<string, Row>): set<string>
    requires forall id | id in todo :: id in pool
  {
    set id | id in todo && !Tampered(p.mac, pool[id])
  }

  lemma UntamperedTail(p: Setup, todo: seq<string>, pool: map<string, Row>)
    requires todo != [] && Distinct(todo) && forall id | id in todo :: id in pool
    ensures todo[0] !in todo[1..] && forall x | x in todo[1..] :: x in todo
    ensures todo[0] !in Untampered(p, todo[1..], pool)
    ensures Untampered(p, todo, pool)
         == Untampered(p, todo[1..], pool) + (if Tampered(p.mac, pool[todo[0]]) then {} else {todo[0]})
    ensures Untampered(p, todo[1..], pool - {todo[0]}) == Untampered(p, todo[1..], pool)
  {
    assert todo == [todo[0]] + todo[1..];
  }

  /** How many of the rows to look at are moved. */
  function Moves(p: Setup, todo: seq<string>, pool: map<string, Row>): nat
    requires forall id | id in todo :: id in pool
  {
    if todo == [] then 0
    else (if Tampered(p.mac, pool[todo[0]]) then 0 else 1) + Moves(p, todo[1..], pool)
  }

  lemma {:induction false} MovesIgnoreOthers(p: Setup, todo: seq<string>, pool: map<string, Row>, id: string)
    requires id !in todo && forall x | x in todo :: x in pool
    ensures Moves(p, todo, pool - {id}) == Moves(p, todo, pool)
  {
    if todo != [] {
      MovesIgnoreOthers(p, todo[1..], pool, id);
    }
  }

  lemma {:induction false} MovesAreUntampered(p: Setup, todo: seq<string>, pool: map<string, Row>)
    requires Distinct(todo) && forall id | id in todo :: id in pool
    ensures Moves(p, todo, pool) == |Untampered(p, todo, pool)|
  {
    if todo == [] {
      assert Untampered(p, todo, pool) == {};
    } else {
      UntamperedTail(p, todo, pool);
      MovesAreUntampered(p, todo[1..], pool);
    }
  }

  lemma {:induction false} FullRunCounts(p: Setup, s: Stores, todo: seq<string>, network: string, count: nat,
                                         limit: nat)
    requires Distinct(todo) && forall id | id in todo :: id in s.pool
    requires FreshDraws(p, s.archive.Keys, count, |todo|) && limit >= count + |todo|
    ensures Run(p, s, todo, network, count, limit).1 == Done(count + Moves(p, todo, s.pool))
    decreases |todo|
  {
    if todo != [] {
      var id, rest := todo[0], todo[1..];
      assert id !in rest && forall x | x in rest :: x in todo;
      if Tampered(p.mac, s.pool[id]) {
        FewerFreshDraws(p, s.archive.Keys, count, |todo|);
        FullRunCounts(p, s, rest, network, count, limit);
      } else {
        var next := MoveRow(p, s, id, network, p.draw(count));
        assert next.archive.Keys == s.archive.Keys + {p.draw(count).archiveId};
        MovesIgnoreOthers(p, rest, s.pool, id);
        FullRunCounts(p, next, rest, network, count + 1, limit);
      }
    }
  }

  lemma {:induction false} FullRunPool(p: Setup, s: Stores, todo: seq<string>, network: string, count: nat, limit: nat)
    requires Distinct(todo) && forall id | id in todo :: id in s.pool
    requires FreshDraws(p, s.archive.Keys, count, |todo|) && limit >= count + |todo|
    ensures Run(p, s, todo, network, count, limit).0.pool == s.pool - Untampered(p, todo, s.pool)
    decreases |todo|
  {
    if todo != [] {
      UntamperedTail(p, todo, s.pool);
      if Tampered(p.mac, s.pool[todo[0]]) {
        FewerFreshDraws(p, s.archive.Keys, count, |todo|);
        FullRunPool(p, s, todo[1..], network, count, limit);
      } else {
        var next := MoveRow(p, s, todo[0], network, p.draw(count));
        assert next.archive.Keys == s.archive.Keys + {p.draw(count).archiveId};
        FullRunPool(p, next, todo[1..], network, count + 1, limit);
        var moved := Untampered(p, todo[1..], s.pool);
        assert s.pool - {todo[0]} - moved == s.pool - (moved + {todo[0]});
      }
    }
  }

  function OldRows(p: Setup, pool: map<string, Row>, network: string, cutoff: int): set<string> {
    set id | id in pool && IsMoved(p, pool[id], network, cutoff)
  }

  /** A run that is not cut short moves exactly the untampered old terminal rows of the network and
      returns their number. `selected` is the query's answer. */
  lemma FullRunMovesExactlyTheOldRows(p: Setup, s: Stores, selected: seq<string>, network: string, cutoff: int,
                                      limit: nat)
    requires Sound(p) && Keyed(s.pool) && Distinct(selected)
    requires forall id :: id in selected <==> id in s.pool && IsOld(s.pool[id], network, cutoff)
    requires FreshDraws(p, s.archive.Keys, 0, |selected|) && limit >= |selected|
    ensures var r := Run(p, s, selected, network, 0, limit);
            && r.1 == Done(|OldRows(p, s.pool, network, cutoff)|)
            && r.0.pool == s.pool - OldRows(p, s.pool, network, cutoff)
    ensures forall id | id in OldRows(p, s.pool, network, cutoff) ::
              InArchive(p, s, Run(p, s, selected, network, 0, limit).0, id)
  {
    var r := Run(p, s, selected, network, 0, limit).0;
    FullRunCounts(p, s, selected, network, 0, limit);
    MovesAreUntampered(p, selected, s.pool);
    FullRunPool(p, s, selected, network, 0, limit);
    assert Untampered(p, selected, s.pool) == OldRows(p, s.pool, network, cutoff);
    forall id | id in OldRows(p, s.pool, network, cutoff) ensures InArchive(p, s, r, id) {
      MovedIsArchived(p, s, selected, network, limit, id);
    }
  }

  lemma MovedIsArchived(p: Setup, s: Stores, selected: seq<string>, network: string, limit: nat, id: string)
    requires Sound(p) && Keyed(s.pool) && Distinct(selected) && forall x | x in selected :: x in s.pool
    requires id in s.pool && id !in Run(p, s, selected, network, 0, limit).0.pool
    ensures InArchive(p, s, Run(p, s, selected, network, 0, limit).0, id)
  {
    assert Conserved(p, s, s);
    EveryRunConserves(p, s, s, selected, network, 0, limit);
  }

  // ----- The two tables -----

  class Database {
    var pool: map<string, Row>
    var archive: map<string, ArchiveRow>

    constructor (pool: map<string, Row>, archive: map<string, ArchiveRow>)
      ensures View() == Stores(pool, archive)
    {
      this.pool, this.archive := pool, archive;
    }

    function View(): Stores
      reads this
    {
      Stores(pool, archive)
    }

    /** `limit` is the number of transactions the process lives to commit. */
    method ArchiveTerminalOlderThan(p: Setup, selected: seq<string>, network: string, limit: nat)
      returns (outcome: Outcome)
      requires Distinct(selected) && forall id | id in selected :: id in pool
      modifies this
      ensures (View(), outcome) == Run(p, old(View()), selected, network, 0, limit)
    {
      var count, i := 0, 0;
      ghost var whole := Run(p, View(), selected, network, 0, limit);
      assert selected[0..] == selected;
      while i < |selected|
        invariant 0 <= i <= |selected|
        invariant forall id | id in selected[i..] :: id in pool
        invariant Run(p, View(), selected[i..], network, count, limit) == whole
      {
        var id := selected[i];
        assert selected[i..][0] == id && selected[i..][1..] == selected[i + 1..];
        assert id !in selected[i + 1..];
        i := i + 1;
        if Tampered(p.mac, pool[id]) {
          continue;
        }
        var tx := p.read(pool[id]);
        var d := p.draw(count);
        var blob := p.blobs.seal(p.json(tx), d.archiveId, d.nonce);
        if count >= limit {
          return Stopped;
        }
        if d.archiveId in archive {
          return InsertFailed;
        }
        archive := archive[d.archiveId := ArchiveRow(network, d.at, blob)];
        pool := pool - {id};
        count := count + 1;
      }
      return Done(count);
    }
  }
}
