/** The in-memory archive key with its sliding expiry (`ArchiveKeyStore`), against the history of calls
    made on it. Hashing and key derivation are parameters; one clock reading per call. */
module ArchiveKey {
  import opened Prelude

  const TTL: nat := 15 * 60 * 1000   // milliseconds

  type Key = seq<nat>

  /** The two configuration values a password leaves behind. */
  datatype Db = Db(verifier: Option<string>, salt: Option<string>)

  /** `decodeHex` and `verify` give None for malformed text. */
  datatype Crypto = Crypto(decodeHex: string -> Option<seq<nat>>,
                           verify: (string, string) -> Option<bool>,
                           derive: (string, seq<nat>) -> Key)

  /** What `unlock` decides: an error, a refusal (None), or the key to cache. */
  function Unlocking(c: Crypto, db: Db, password: string): Result<Option<Key>, string> {
    if db.verifier.None? then Failure("archive password is not set")
    else if db.salt.None? then Failure("archive salt is missing")
    else if c.decodeHex(db.salt.value).None? then Failure("invalid archive salt")
    else if c.verify(db.verifier.value, password).None? then Failure("invalid archive verifier")
    else if !c.verify(db.verifier.value, password).value then Success(None)
    else Success(Some(c.derive(password, c.decodeHex(db.salt.value).value)))
  }

  /** The password is the one that was set, as far as the stored values tell. */
  predicate Accepted(c: Crypto, db: Db, password: string) {
    && db.verifier.Some? && db.salt.Some? && c.decodeHex(db.salt.value).Some?
    && c.verify(db.verifier.value, password) == Some(true)
  }

  /** What an attempt may answer: success for an accepted password alone, refusal for one that does not
      verify, and an error of its own for each stored value that is missing or malformed, in this order. */
  ghost predicate AnswersAttempt(c: Crypto, db: Db, password: string, r: Result<bool, string>) {
    && (r == Success(true) <==> Accepted(c, db, password))
    && (r == Success(false) <==> && db.verifier.Some? && db.salt.Some? && c.decodeHex(db.salt.value).Some?
                                 && c.verify(db.verifier.value, password) == Some(false))
    && (db.verifier.None? ==> r == Failure("archive password is not set"))
    && (db.verifier.Some? && db.salt.None? ==> r == Failure("archive salt is missing"))
    && (db.verifier.Some? && db.salt.Some? && c.decodeHex(db.salt.value).None? ==>
          r == Failure("invalid archive salt"))
    && (&& db.verifier.Some? && db.salt.Some? && c.decodeHex(db.salt.value).Some?
        && c.verify(db.verifier.value, password).None?
        ==> r == Failure("invalid archive verifier"))
  }

  /** The answer that goes with a decision. */
  function Answered(u: Result<Option<Key>, string>): Result<bool, string> {
    match u
    case Failure(e) => Failure(e)
    case Success(key) => Success(key.Some?)
  }

  /** The decision, on the stored values: which attempts succeed, with which key, and how the others end. */
  lemma AttemptsExactly(c: Crypto, db: Db, password: string)
    ensures AnswersAttempt(c, db, password, Answered(Unlocking(c, db, password)))
    ensures Accepted(c, db, password) ==>
              Unlocking(c, db, password) == Success(Some(c.derive(password, c.decodeHex(db.salt.value).value)))
  {
  }

  // ----- Histories -----

  datatype Call = Unlock(password: string, db: Db) | ReadKey | Lock | IsUnlocked

  datatype Entry = Entry(call: Call, at: nat)

  ghost predicate Chronological(h: seq<Entry>) {
    forall i, j | 0 <= i < j < |h| :: h[i].at <= h[j].at
  }

  datatype Use = Use(key: Key, at: nat)

  /** The last successful unlock or key read with no lock since, and the key it concerned. A read is
      successful when the last use before it is less than TTL old. */
  function LastUse(c: Crypto, h: seq<Entry>): Option<Use> {
    if h == [] then None else UseAfter(c, LastUse(c, h[..|h| - 1]), h[|h| - 1])
  }

  function UseAfter(c: Crypto, before: Option<Use>, last: Entry): Option<Use> {
    match last.call
    case Unlock(password, db) =>
      var u := Unlocking(c, db, password);
      if u.Success? && u.value.Some? then Some(Use(u.value.value, last.at)) else before
    case ReadKey => if Fresh(before, last.at) then Some(Use(before.value.key, last.at)) else before
    case Lock => None
    case IsUnlocked => before
  }

  predicate Fresh(u: Option<Use>, now: nat) {
    u.Some? && now < u.value.at + TTL
  }

  function KeyAt(c: Crypto, h: seq<Entry>, now: nat): Option<Key> {
    var u := LastUse(c, h);
    if Fresh(u, now) then Some(u.value.key) else None
  }

  lemma LastUseOfOneMore(c: Crypto, h: seq<Entry>, e: Entry)
    ensures LastUse(c, h + [e]) == UseAfter(c, LastUse(c, h), e)
  {
    assert (h + [e])[..|h|] == h;
  }

  // ----- The store -----

  datatype CachedKey = CachedKey(key: Key, expiresAt: nat)

  class ArchiveKeyStore {
    var cached: Option<CachedKey>
    ghost var history: seq<Entry>

    /** A cached key belongs to the last use; without one, any last use has expired by the latest call. */
    ghost predicate Valid(c: Crypto)
      reads this
    {
      var u := LastUse(c, history);
      && Chronological(history)
      && (cached.Some? ==> u.Some? && cached.value == CachedKey(u.value.key, u.value.at + TTL))
      && (cached.None? && u.Some? ==> history != [] && history[|history| - 1].at >= u.value.at + TTL)
    }

    ghost predicate NotBefore(now: nat)
      reads this
    {
      history == [] || history[|history| - 1].at <= now
    }

    constructor (ghost c: Crypto)
      ensures Valid(c) && history == []
    {
      cached, history := None, [];
    }

    ghost method Append(c: Crypto, e: Entry)
      requires Chronological(history) && NotBefore(e.at)
      modifies this`history
      ensures history == old(history) + [e] && history[..|history| - 1] == old(history)
      ensures Chronological(history) && LastUse(c, history) == UseAfter(c, LastUse(c, old(history)), e)
    {
      LastUseOfOneMore(c, history, e);
      history := history + [e];
    }

    /** The checks of `unlock`, in their order. */
    method CheckPassword(c: Crypto, db: Db, password: string) returns (r: Result<Option<Key>, string>)
      ensures r == Unlocking(c, db, password)
    {
      if db.verifier.None? {
        return Failure("archive password is not set");
      }
      if db.salt.None? {
        return Failure("archive salt is missing");
      }
      var salt := c.decodeHex(db.salt.value);
      if salt.None? {
        return Failure("invalid archive salt");
      }
      var ok := c.verify(db.verifier.value, password);
      if ok.None? {
        return Failure("invalid archive verifier");
      }
      if !ok.value {
        return Success(None);
      }
      return Success(Some(c.derive(password, salt.value)));
    }

    method Unlock(c: Crypto, db: Db, password: string, now: nat) returns (r: Result<bool, string>)
      requires Valid(c) && NotBefore(now)
      modifies this
      ensures Valid(c) && history == old(history) + [Entry(Call.Unlock(password, db), now)]
      ensures AnswersAttempt(c, db, password, r)
      ensures Accepted(c, db, password) ==>
                KeyAt(c, history, now) == Some(c.derive(password, c.decodeHex(db.salt.value).value))
      ensures !Accepted(c, db, password) ==> cached == old(cached)
    {
      Append(c, Entry(Call.Unlock(password, db), now));
      var checked := CheckPassword(c, db, password);
      AttemptsExactly(c, db, password);
      r := Answered(checked);
      if checked.Success? && checked.value.Some? {
        cached := Some(CachedKey(checked.value.value, now + TTL));
      }
    }

    /** A key is returned exactly when the history says so; reading it renews its life. */
    method GetKey(c: Crypto, now: nat) returns (key: Option<Key>)
      requires Valid(c) && NotBefore(now)
      modifies this
      ensures Valid(c) && history == old(history) + [Entry(ReadKey, now)]
      ensures key == KeyAt(c, old(history), now)
    {
      Append(c, Entry(ReadKey, now));
      if cached.None? {
        return None;
      }
      if now >= cached.value.expiresAt {
        cached := None;
        return None;
      }
      key := Some(cached.value.key);
      cached := Some(cached.value.(expiresAt := now + TTL));
    }

    method LockNow(c: Crypto, now: nat)
      requires Valid(c) && NotBefore(now)
      modifies this
      ensures Valid(c) && history == old(history) + [Entry(Lock, now)]
      ensures forall later: nat :: KeyAt(c, history, later) == None
    {
      Append(c, Entry(Lock, now));
      cached := None;
    }

    /** Reports what `GetKey` would find, without renewing anything. */
    method CheckUnlocked(c: Crypto, now: nat) returns (unlocked: bool)
      requires Valid(c) && NotBefore(now)
      modifies this
      ensures Valid(c) && history == old(history) + [Entry(IsUnlocked, now)]
      ensures unlocked <==> KeyAt(c, old(history), now).Some?
    {
      Append(c, Entry(IsUnlocked, now));
      if cached.None? {
        return false;
      }
      if now >= cached.value.expiresAt {
        cached := None;
        return false;
      }
      return true;
    }
  }

  // ----- Watching does not keep the archive open -----

  function WithoutChecks(h: seq<Entry>): seq<Entry> {
    if h == [] then []
    else WithoutChecks(h[..|h| - 1]) + (if h[|h| - 1].call.IsUnlocked? then [] else [h[|h| - 1]])
  }

  /** All results of `key()` along a history. */
  function KeyResults(c: Crypto, h: seq<Entry>): seq<Option<Key>> {
    if h == [] then []
    else
      var before, last := h[..|h| - 1], h[|h| - 1];
      KeyResults(c, before) + (if last.call.ReadKey? then [KeyAt(c, before, last.at)] else [])
  }

  lemma {:induction false} ChecksChangeNothing(c: Crypto, h: seq<Entry>)
    ensures LastUse(c, WithoutChecks(h)) == LastUse(c, h)
    ensures KeyResults(c, WithoutChecks(h)) == KeyResults(c, h)
  {
    if h != [] {
      var before, last := h[..|h| - 1], h[|h| - 1];
      ChecksChangeNothing(c, before);
      if last.call.IsUnlocked? {
        assert WithoutChecks(h) == WithoutChecks(before);
      } else {
        var w := WithoutChecks(before);
        LastUseOfOneMore(c, w, last);
        assert (w + [last])[..|w|] == w;
      }
    }
  }

  /** Inserting or deleting any number of `is_unlocked()` calls changes no result of `key()`. */
  lemma OnlyChecksDiffer(c: Crypto, h: seq<Entry>, h': seq<Entry>)
    requires WithoutChecks(h) == WithoutChecks(h')
    ensures KeyResults(c, h) == KeyResults(c, h')
    ensures forall now: nat :: KeyAt(c, h, now) == KeyAt(c, h', now)
  {
    ChecksChangeNothing(c, h);
    ChecksChangeNothing(c, h');
  }

  // ----- What the definition says, in terms of positions -----

  /** The call at `i` was a successful unlock or a successful read. */
  predicate UsesAt(c: Crypto, h: seq<Entry>, i: nat) {
    && i < |h|
    && match h[i].call
       case Unlock(password, db) => Accepted(c, db, password)
       case ReadKey => KeyAt(c, h[..i], h[i].at).Some?
       case _ => false
  }

  /** ... and no lock came after it. */
  predicate HoldsFrom(c: Crypto, h: seq<Entry>, i: nat) {
    UsesAt(c, h, i) && forall j | i < j < |h| :: !h[j].call.Lock?
  }

  lemma HoldsExtend(c: Crypto, h: seq<Entry>, i: nat)
    requires i < |h| - 1
    ensures HoldsFrom(c, h, i) <==> HoldsFrom(c, h[..|h| - 1], i) && !h[|h| - 1].call.Lock?
  {
    var before := h[..|h| - 1];
    assert h[..i] == before[..i];
    assert forall j | i < j < |before| :: before[j] == h[j];
  }

  lemma {:induction false} LastUseIsHeld(c: Crypto, h: seq<Entry>)
    requires LastUse(c, h).Some?
    ensures exists i: nat :: HoldsFrom(c, h, i) && h[i].at == LastUse(c, h).value.at
  {
    var n := |h| - 1;
    if UsesAt(c, h, n) {
      assert HoldsFrom(c, h, n);
    } else {
      LastUseIsHeld(c, h[..n]);
      var i: nat :| HoldsFrom(c, h[..n], i) && h[..n][i].at == LastUse(c, h[..n]).value.at;
      HoldsExtend(c, h, i);
      assert HoldsFrom(c, h, i);
    }
  }

  lemma {:induction false} LastUseIsLatest(c: Crypto, h: seq<Entry>, i: nat)
    requires Chronological(h) && HoldsFrom(c, h, i)
    ensures LastUse(c, h).Some? && h[i].at <= LastUse(c, h).value.at
  {
    var n := |h| - 1;
    if i < n {
      HoldsExtend(c, h, i);
      LastUseIsLatest(c, h[..n], i);
    }
  }

  /** `key()` returns a key exactly when some successful unlock or read, less than 15 minutes ago, has no
      lock after it. */
  lemma KeyMeansRecentUse(c: Crypto, h: seq<Entry>, now: nat)
    requires Chronological(h)
    ensures KeyAt(c, h, now).Some? <==> exists i: nat :: HoldsFrom(c, h, i) && now < h[i].at + 900_000
  {
    if KeyAt(c, h, now).Some? {
      LastUseIsHeld(c, h);
      var i: nat :| HoldsFrom(c, h, i) && h[i].at == LastUse(c, h).value.at;
      assert HoldsFrom(c, h, i) && now < h[i].at + TTL;
    }
    if i: nat :| HoldsFrom(c, h, i) && now < h[i].at + TTL {
      LastUseIsLatest(c, h, i);
    }
  }

  /** The call at `i` unlocked the archive with this key, and neither a lock nor another successful unlock
      came after it. */
  predicate UnlockedLast(c: Crypto, h: seq<Entry>, i: nat, key: Key) {
    && i < |h| && Unlocks(c, h[i], key)
    && forall j | i < j < |h| :: !h[j].call.Lock? && !SucceedsUnlocking(c, h[j])
  }

  predicate SucceedsUnlocking(c: Crypto, e: Entry) {
    e.call.Unlock? && Accepted(c, e.call.db, e.call.password)
  }

  predicate Unlocks(c: Crypto, e: Entry, key: Key) {
    SucceedsUnlocking(c, e) && key == c.derive(e.call.password, c.decodeHex(e.call.db.salt.value).value)
  }

  lemma {:induction false} LastUseIsOfLastUnlock(c: Crypto, h: seq<Entry>)
    requires LastUse(c, h).Some?
    ensures exists i: nat :: UnlockedLast(c, h, i, LastUse(c, h).value.key)
  {
    var n := |h| - 1;
    if SucceedsUnlocking(c, h[n]) {
      assert UnlockedLast(c, h, n, LastUse(c, h).value.key);
    } else {
      LastUseIsOfLastUnlock(c, h[..n]);
      var i: nat :| UnlockedLast(c, h[..n], i, LastUse(c, h[..n]).value.key);
      assert forall j | i < j < n :: h[..n][j] == h[j];
      assert UnlockedLast(c, h, i, LastUse(c, h).value.key);
    }
  }

  lemma LastUnlockIsUnique(c: Crypto, h: seq<Entry>, i: nat, key: Key, j: nat, other: Key)
    requires UnlockedLast(c, h, i, key) && UnlockedLast(c, h, j, other)
    ensures i == j && key == other
  {
  }

  /** Which key: the one of the last successful unlock, and it is returned exactly when some use since the
      last lock is less than 15 minutes old. */
  lemma KeyIsOfLastUnlock(c: Crypto, h: seq<Entry>, now: nat, key: Key)
    requires Chronological(h)
    ensures KeyAt(c, h, now) == Some(key)
            <==> (exists i: nat :: UnlockedLast(c, h, i, key))
                 && exists i: nat :: HoldsFrom(c, h, i) && now < h[i].at + 900_000
  {
    KeyMeansRecentUse(c, h, now);
    if KeyAt(c, h, now).Some? {
      LastUseIsOfLastUnlock(c, h);
      var j: nat :| UnlockedLast(c, h, j, LastUse(c, h).value.key);
      if i: nat :| UnlockedLast(c, h, i, key) {
        LastUnlockIsUnique(c, h, i, key, j, LastUse(c, h).value.key);
      }
    }
  }
}
