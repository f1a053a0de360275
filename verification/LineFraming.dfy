/** Line framing of an Electrum session: `pop_client_line` and the read loop of
    `handle_connection`. */
module LineFraming {
  import opened Prelude

  newtype byte = b: int | 0 <= b < 256

  type Line = seq<byte>

  const NEWLINE: byte := 10

  // ----- What a buffer holds: complete lines and an unterminated tail -----

  ghost predicate Plain(line: Line) {
    forall i | 0 <= i < |line| :: line[i] != 10   // the newline
  }

  /** Index of the first newline, or the length. */
  function Cut(buf: seq<byte>): (k: nat)
    ensures k <= |buf| && (k < |buf| ==> buf[k] == NEWLINE)
    ensures forall i | 0 <= i < k :: buf[i] != NEWLINE
  {
    if buf == [] || buf[0] == NEWLINE then 0
    else
      var k := Cut(buf[1..]);
      assert forall i | 0 < i <= k :: buf[i] == buf[1..][i - 1];
      k + 1
  }

  function Lines(buf: seq<byte>): seq<Line>
    decreases |buf|
  {
    var k := Cut(buf);
    if k == |buf| then [] else [buf[..k]] + Lines(buf[k + 1..])
  }

  function Tail(buf: seq<byte>): seq<byte>
    decreases |buf|
  {
    var k := Cut(buf);
    if k == |buf| then buf else Tail(buf[k + 1..])
  }

  function Unlines(ls: seq<Line>): seq<byte> {
    if ls == [] then [] else ls[0] + [NEWLINE] + Unlines(ls[1..])
  }

  ghost predicate NewlineFree(ls: seq<Line>) {
    forall i | 0 <= i < |ls| :: Plain(ls[i])
  }

  lemma CutAfterLine(line: Line, rest: seq<byte>)
    requires Plain(line)
    ensures Cut(line) == |line|
    ensures Cut(line + [NEWLINE] + rest) == |line|
  {
    var s := line + [NEWLINE] + rest;
    assert s[|line|] == NEWLINE && forall i | 0 <= i < |line| :: s[i] == line[i];
  }

  lemma LinesCons(line: Line, rest: seq<byte>)
    requires Plain(line)
    ensures Lines(line + [NEWLINE] + rest) == [line] + Lines(rest)
    ensures Tail(line + [NEWLINE] + rest) == Tail(rest)
  {
    CutAfterLine(line, rest);
    var s := line + [NEWLINE] + rest;
    assert s[..|line|] == line && s[|line| + 1..] == rest;
  }

  lemma PlainIsTail(rest: seq<byte>)
    requires Plain(rest)
    ensures Lines(rest) == [] && Tail(rest) == rest
  {
    CutAfterLine(rest, []);
  }

  lemma SplitAt<T>(s: seq<T>, k: nat)
    requires k < |s|
    ensures s == s[..k] + [s[k]] + s[k + 1..]
  {
  }

  lemma SplitAtCut(buf: seq<byte>, k: nat)
    requires k == Cut(buf) && k < |buf|
    ensures Plain(buf[..k]) && buf == buf[..k] + [NEWLINE] + buf[k + 1..]
  {
    SplitAt(buf, k);
  }

  lemma {:induction false} LinesArePlain(buf: seq<byte>)
    ensures NewlineFree(Lines(buf)) && Plain(Tail(buf))
    decreases |buf|
  {
    var k := Cut(buf);
    if k < |buf| {
      LinesArePlain(buf[k + 1..]);
    }
  }

  lemma UnlinesCons(line: Line, ls: seq<Line>)
    ensures Unlines([line] + ls) == line + [NEWLINE] + Unlines(ls)
  {
    assert ([line] + ls)[1..] == ls;
  }

  lemma Regroup<T>(a: seq<T>, b: seq<T>, c: seq<T>)
    ensures a + b + c == a + (b + c)
  {
  }

  lemma DropEmpty<T>(a: seq<T>, b: seq<T>)
    ensures [] + a + b == a + b && a + [] + b == a + b && [] + b == b
  {
  }

  /** Splitting loses nothing. */
  lemma {:induction false} BufferIsLinesAndTail(buf: seq<byte>)
    ensures buf == Unlines(Lines(buf)) + Tail(buf)
    decreases |buf|
  {
    var k := Cut(buf);
    if k == |buf| {
      assert Unlines([]) + buf == buf;
    } else {
      var line, rest := buf[..k], buf[k + 1..];
      SplitAtCut(buf, k);
      BufferIsLinesAndTail(rest);
      UnlinesCons(line, Lines(rest));
      Regroup(line + [NEWLINE], Unlines(Lines(rest)), Tail(rest));
    }
  }

  /** And rejoining gives back the same lines and tail. */
  lemma {:induction false} LinesOfJoined(ls: seq<Line>, tail: seq<byte>)
    requires NewlineFree(ls) && Plain(tail)
    ensures Lines(Unlines(ls) + tail) == ls && Tail(Unlines(ls) + tail) == tail
  {
    var buf := Unlines(ls) + tail;
    if ls == [] {
      assert buf == tail;
      PlainIsTail(tail);
    } else {
      var rest := Unlines(ls[1..]) + tail;
      assert buf == ls[0] + [NEWLINE] + rest;
      LinesCons(ls[0], rest);
      LinesOfJoined(ls[1..], tail);
    }
  }

  lemma {:induction false} UnlinesAppend(a: seq<Line>, b: seq<Line>)
    ensures Unlines(a + b) == Unlines(a) + Unlines(b)
  {
    if a == [] {
      assert a + b == b;
    } else {
      UnlinesAppend(a[1..], b);
      assert (a + b)[1..] == a[1..] + b;
    }
  }

  /** More bytes complete the tail and leave the lines already there untouched. */
  lemma {:induction false} LinesOfAppend(a: seq<byte>, b: seq<byte>)
    ensures Lines(a + b) == Lines(a) + Lines(Tail(a) + b)
    ensures Tail(a + b) == Tail(Tail(a) + b)
    decreases |a|
  {
    var k := Cut(a);
    if k < |a| {
      var line, rest := a[..k], a[k + 1..];
      SplitAtCut(a, k);
      Regroup(line + [NEWLINE], rest, b);
      LinesCons(line, rest);
      LinesCons(line, rest + b);
      LinesOfAppend(rest, b);
      Regroup([line], Lines(rest), Lines(Tail(rest) + b));
    } else {
      assert Lines(a) == [] && Tail(a) == a;
      DropEmpty(Lines(a), Lines(a + b));
    }
  }

  // ----- Priority -----

  /** Whether the bytes of a line form, or look like, a broadcast request. */
  type Priority = Line -> bool

  function Pick(urgent: Priority, ls: seq<Line>): (p: nat)
    requires ls != []
    ensures p < |ls|
    ensures urgent(ls[p]) || (p == 0 && forall i | 0 <= i < |ls| :: !urgent(ls[i]))
    ensures forall i | 0 <= i < p :: !urgent(ls[i])
  {
    if urgent(ls[0]) || |ls| == 1 then 0
    else
      var p := Pick(urgent, ls[1..]);
      if urgent(ls[1..][p]) then p + 1 else
        assert forall i | 0 < i < |ls| :: ls[i] == ls[1..][i - 1];
        0
  }

  function Keep(p: Priority, ls: seq<Line>): seq<Line> {
    if ls == [] then [] else (if p(ls[0]) then [ls[0]] else []) + Keep(p, ls[1..])
  }

  function Others(urgent: Priority): Priority {
    (l: Line) => !urgent(l)
  }

  /** Broadcast lines in order, then the others in order. */
  function Partitioned(urgent: Priority, ls: seq<Line>): seq<Line> {
    Keep(urgent, ls) + Keep(Others(urgent), ls)
  }

  function Without(ls: seq<Line>, p: nat): seq<Line>
    requires p < |ls|
  {
    ls[..p] + ls[p + 1..]
  }

  lemma {:induction false} KeepAppend(p: Priority, a: seq<Line>, b: seq<Line>)
    ensures Keep(p, a + b) == Keep(p, a) + Keep(p, b)
  {
    if a == [] {
      assert a + b == b;
    } else {
      var first := if p(a[0]) then [a[0]] else [];
      assert Keep(p, a + b) == first + Keep(p, a[1..] + b) by {
        assert (a + b)[1..] == a[1..] + b;
      }
      KeepAppend(p, a[1..], b);
      assert first + (Keep(p, a[1..]) + Keep(p, b)) == (first + Keep(p, a[1..])) + Keep(p, b);
    }
  }

  lemma {:induction false} KeepAll(p: Priority, ls: seq<Line>)
    requires forall i | 0 <= i < |ls| :: p(ls[i])
    ensures Keep(p, ls) == ls
  {
    if ls != [] { KeepAll(p, ls[1..]); }
  }

  lemma {:induction false} KeepNone(p: Priority, ls: seq<Line>)
    requires forall i | 0 <= i < |ls| :: !p(ls[i])
    ensures Keep(p, ls) == []
  {
    if ls != [] { KeepNone(p, ls[1..]); }
  }

  lemma {:induction false} KeptSatisfy(p: Priority, ls: seq<Line>)
    ensures forall i | 0 <= i < |Keep(p, ls)| :: p(Keep(p, ls)[i])
  {
    if ls != [] { KeptSatisfy(p, ls[1..]); }
  }

  lemma KeepAround(q: Priority, ls: seq<Line>, p: nat)
    requires p < |ls|
    ensures Keep(q, ls) == Keep(q, ls[..p]) + Keep(q, [ls[p]]) + Keep(q, ls[p + 1..])
  {
    SplitAt(ls, p);
    KeepAppend(q, ls[..p] + [ls[p]], ls[p + 1..]);
    KeepAppend(q, ls[..p], [ls[p]]);
  }

  lemma TakeOne(q: Priority, ls: seq<Line>, p: nat)
    requires p < |ls| && q(ls[p]) && Keep(q, ls[..p]) == []
    ensures Keep(q, ls) == [ls[p]] + Keep(q, Without(ls, p))
  {
    KeepAround(q, ls, p);
    KeepAppend(q, ls[..p], ls[p + 1..]);
    KeepSingle(q, ls[p]);
    DropEmpty([ls[p]], Keep(q, ls[p + 1..]));
  }

  lemma KeepSingle(q: Priority, line: Line)
    ensures Keep(q, [line]) == if q(line) then [line] else []
  {
    assert [line][1..] == [];
  }

  lemma TakeNone(q: Priority, ls: seq<Line>, p: nat)
    requires p < |ls| && !q(ls[p])
    ensures Keep(q, ls) == Keep(q, Without(ls, p))
  {
    KeepAround(q, ls, p);
    KeepAppend(q, ls[..p], ls[p + 1..]);
    KeepSingle(q, ls[p]);
    DropEmpty(Keep(q, ls[..p]), Keep(q, ls[p + 1..]));
  }

  /** Popping the picked line takes the head off the partition. */
  lemma PickIsHeadOfPartition(urgent: Priority, ls: seq<Line>)
    requires ls != []
    ensures var p := Pick(urgent, ls);
            Partitioned(urgent, ls) == [ls[p]] + Partitioned(urgent, Without(ls, p))
  {
    var p := Pick(urgent, ls);
    if urgent(ls[p]) {
      KeepNone(urgent, ls[..p]);
      TakeOne(urgent, ls, p);
      TakeNone(Others(urgent), ls, p);
    } else {
      KeepNone(urgent, ls);
      KeepNone(urgent, Without(ls, p));
      TakeOne(Others(urgent), ls, p);
    }
  }

  /** The partition is stable and loses nothing: each class keeps its own order. */
  lemma PartitionKeepsClasses(urgent: Priority, ls: seq<Line>)
    ensures Keep(urgent, Partitioned(urgent, ls)) == Keep(urgent, ls)
    ensures Keep(Others(urgent), Partitioned(urgent, ls)) == Keep(Others(urgent), ls)
    ensures multiset(Partitioned(urgent, ls)) == multiset(ls)
  {
    var others := Others(urgent);
    var a, b := Keep(urgent, ls), Keep(others, ls);
    KeptSatisfy(urgent, ls);
    KeptSatisfy(others, ls);
    KeepAppend(urgent, a, b);
    KeepAppend(others, a, b);
    KeepAll(urgent, a);
    KeepNone(urgent, b);
    KeepAll(others, b);
    KeepNone(others, a);
    PartitionElements(urgent, ls);
  }

  lemma {:induction false} PartitionElements(urgent: Priority, ls: seq<Line>)
    ensures multiset(Keep(urgent, ls)) + multiset(Keep(Others(urgent), ls)) == multiset(ls)
  {
    if ls != [] {
      PartitionElements(urgent, ls[1..]);
      assert ls == [ls[0]] + ls[1..];
    }
  }

  // ----- The session's buffer -----

  class ClientBuffer {
    const urgent: Priority
    var bytes: seq<byte>

    constructor (urgent: Priority)
      ensures this.urgent == urgent && bytes == []
    {
      this.urgent := urgent;
      bytes := [];
    }

    /** The first loop of `pop_client_line`: where the complete lines lie. */
    method LineRanges() returns (ranges: seq<(nat, nat)>)
      ensures RangesOf(Lines(bytes), ranges)
    {
      ranges := [];
      var start := 0;
      var i := 0;
      ghost var done: seq<Line> := [];
      while i < |bytes|
        invariant 0 <= start <= i <= |bytes| && Plain(bytes[start..i])
        invariant NewlineFree(done) && bytes[..start] == Unlines(done) && RangesOf(done, ranges)
      {
        assert bytes[start..i + 1] == bytes[start..i] + [bytes[i]];
        if bytes[i] == NEWLINE {
          NextLine(bytes, done, ranges, start, i);
          ranges := ranges + [(start, i)];
          done := done + [bytes[start..i]];
          start := i + 1;
        }
        i := i + 1;
      }
      assert bytes[start..i] == bytes[start..] && bytes == Unlines(done) + bytes[start..];
      LinesOfJoined(done, bytes[start..]);
    }

    /** The range of the first buffered broadcast line, else the first range. */
    method PickRange(ranges: seq<(nat, nat)>) returns (pick: nat)
      requires ranges != [] && RangesOf(Lines(bytes), ranges)
      ensures pick == Pick(urgent, Lines(bytes))
    {
      ghost var ls := Lines(bytes);
      BufferIsLinesAndTail(bytes);
      var j := 0;
      while j < |ranges|
        invariant 0 <= j <= |ranges|
        invariant forall m | 0 <= m < j :: !urgent(ls[m])
      {
        RangeHoldsLine(ls, Tail(bytes), j, ranges[j].0, ranges[j].1, bytes);
        if urgent(bytes[ranges[j].0..ranges[j].1]) {
          return j;
        }
        j := j + 1;
      }
      return 0;
    }

    /** The range to pop, and what popping it leaves. */
    method NextRange() returns (range: Option<(nat, nat)>)
      ensures range.None? <==> Lines(bytes) == []
      ensures range.Some? ==> CutsPick(urgent, bytes, range.value.0, range.value.1)
    {
      var ranges := LineRanges();
      if ranges == [] {
        return None;
      }
      var pick := PickRange(ranges);
      CuttingThePick(urgent, bytes, ranges, pick);
      return Some(ranges[pick]);
    }

    /** `pop_client_line`: takes the first buffered broadcast line, else the first line, out of
        the buffer and leaves everything else in place. */
    method PopClientLine() returns (popped: Option<Line>)
      modifies this
      ensures Tail(bytes) == Tail(old(bytes))
      ensures var ls := Lines(old(bytes));
              if ls == [] then popped == None && bytes == old(bytes)
              else popped == Some(ls[Pick(urgent, ls)]) && Lines(bytes) == Without(ls, Pick(urgent, ls))
                   && |bytes| < |old(bytes)|
    {
      var range := NextRange();
      if range.None? {
        return None;
      }
      var (start, end) := range.value;
      popped := Some(bytes[start..end]);
      bytes := bytes[..start] + bytes[end + 1..];
    }

    /** The `while let` loop over one read: empties the buffer of complete lines. */
    method Drain() returns (handled: seq<Line>)
      modifies this
      ensures handled == Partitioned(urgent, Lines(old(bytes)))
      ensures bytes == Tail(old(bytes)) && Lines(bytes) == []
    {
      handled := [];
      while true
        invariant handled + Partitioned(urgent, Lines(bytes)) == Partitioned(urgent, Lines(old(bytes)))
        invariant Tail(bytes) == Tail(old(bytes))
        decreases |bytes|
      {
        ghost var ls := Lines(bytes);
        var line := PopClientLine();
        if line.None? {
          BufferIsLinesAndTail(bytes);
          assert Unlines([]) + Tail(bytes) == Tail(bytes);
          break;
        }
        PickIsHeadOfPartition(urgent, ls);
        assert handled + ([line.value] + Partitioned(urgent, Lines(bytes)))
            == (handled + [line.value]) + Partitioned(urgent, Lines(bytes));
        handled := handled + [line.value];
      }
    }

    /** The read loop: an empty read ends the session. */
    method HandleConnection(chunks: seq<seq<byte>>) returns (handled: seq<Line>)
      requires bytes == []
      modifies this
      ensures handled == Handled(urgent, [], UntilEof(chunks))
      ensures bytes == Tail(Concat(UntilEof(chunks)))
    {
      handled := [];
      var i := 0;
      StartReading(urgent, chunks);
      while i < |chunks| && chunks[i] != []
        invariant 0 <= i <= |chunks|
        invariant ReadSoFar(urgent, chunks, i, handled, bytes)
      {
        OneRead(urgent, chunks, i, handled, bytes);
        bytes := bytes + chunks[i];
        var lines := Drain();
        handled := handled + lines;
        i := i + 1;
      }
      NoMoreChunks(urgent, chunks, i, handled, bytes);
    }
  }

  /** After `i` reads: what was handled and the tail at hand, together with what is to come, make up what the
      whole input leads to. */
  ghost predicate ReadSoFar(urgent: Priority, chunks: seq<seq<byte>>, i: nat, handled: seq<Line>, tail: seq<byte>)
    requires i <= |chunks|
  {
    && Plain(tail)
    && handled + Handled(urgent, tail, UntilEof(chunks[i..])) == Handled(urgent, [], UntilEof(chunks))
    && Tail(tail + Concat(UntilEof(chunks[i..]))) == Tail(Concat(UntilEof(chunks)))
  }

  lemma StartReading(urgent: Priority, chunks: seq<seq<byte>>)
    ensures ReadSoFar(urgent, chunks, 0, [], [])
  {
    var all, stream := Handled(urgent, [], UntilEof(chunks)), Concat(UntilEof(chunks));
    assert chunks[0..] == chunks && [] + stream == stream && [] + all == all;
  }

  lemma OneRead(urgent: Priority, chunks: seq<seq<byte>>, i: nat, handled: seq<Line>, tail: seq<byte>)
    requires i < |chunks| && chunks[i] != [] && ReadSoFar(urgent, chunks, i, handled, tail)
    ensures var buf := tail + chunks[i];
            ReadSoFar(urgent, chunks, i + 1, handled + Partitioned(urgent, Lines(buf)), Tail(buf))
  {
    NextChunk(chunks, i);
    ReadTurn(urgent, handled, tail, chunks[i], UntilEof(chunks[i + 1..]));
  }

  lemma NoMoreChunks(urgent: Priority, chunks: seq<seq<byte>>, i: nat, handled: seq<Line>, tail: seq<byte>)
    requires i <= |chunks| && (i == |chunks| || chunks[i] == []) && ReadSoFar(urgent, chunks, i, handled, tail)
    ensures handled == Handled(urgent, [], UntilEof(chunks))
    ensures tail == Tail(Concat(UntilEof(chunks)))
  {
    assert UntilEof(chunks[i..]) == [];
    PlainIsTail(tail);
    assert tail + [] == tail;
  }

  lemma NextChunk(chunks: seq<seq<byte>>, i: nat)
    requires i < |chunks| && chunks[i] != []
    ensures UntilEof(chunks[i..]) == [chunks[i]] + UntilEof(chunks[i + 1..])
  {
    assert chunks[i..][0] == chunks[i] && chunks[i..][1..] == chunks[i + 1..];
  }

  lemma ReadTurn(urgent: Priority, handled: seq<Line>, tail: seq<byte>, chunk: seq<byte>, later: seq<seq<byte>>)
    requires Plain(tail)
    ensures var buf := tail + chunk;
            && handled + Handled(urgent, tail, [chunk] + later)
               == handled + Partitioned(urgent, Lines(buf)) + Handled(urgent, Tail(buf), later)
            && Tail(tail + Concat([chunk] + later)) == Tail(Tail(buf) + Concat(later))
            && Plain(Tail(buf))
  {
    var buf := tail + chunk;
    assert ([chunk] + later)[1..] == later;
    LinesOfAppend(buf, Concat(later));
    LinesArePlain(buf);
    Regroup(tail, chunk, Concat(later));
  }

  // ----- Where the lines lie in the buffer -----

  ghost predicate RangesOf(done: seq<Line>, ranges: seq<(nat, nat)>) {
    && |ranges| == |done|
    && forall p | 0 <= p < |done| ::
         ranges[p].0 == |Unlines(done[..p])| && ranges[p].1 == ranges[p].0 + |done[p]|
  }

  lemma NextLine(buf: seq<byte>, done: seq<Line>, ranges: seq<(nat, nat)>, start: nat, i: nat)
    requires start <= i < |buf| && buf[i] == NEWLINE && Plain(buf[start..i])
    requires NewlineFree(done) && buf[..start] == Unlines(done) && RangesOf(done, ranges)
    ensures var done', ranges' := done + [buf[start..i]], ranges + [(start, i)];
            NewlineFree(done') && buf[..i + 1] == Unlines(done') && RangesOf(done', ranges')
  {
    var line := buf[start..i];
    var done', ranges' := done + [line], ranges + [(start, i)];
    UnlinesAppend(done, [line]);
    assert [line][1..] == [];
    assert buf[..i + 1] == buf[..start] + line + [NEWLINE];
    forall p | 0 <= p < |done'|
      ensures ranges'[p].0 == |Unlines(done'[..p])| && ranges'[p].1 == ranges'[p].0 + |done'[p]|
    {
      if p < |done| {
        assert done'[..p] == done[..p] && ranges'[p] == ranges[p];
      } else {
        assert done'[..p] == done;
      }
    }
  }

  /** The range of a line holds that line; what lies around it is the other lines and the tail. */
  lemma RangeHoldsLine(done: seq<Line>, tail: seq<byte>, p: nat, start: nat, end: nat, buf: seq<byte>)
    requires p < |done| && start == |Unlines(done[..p])| && end == start + |done[p]| && buf == Unlines(done) + tail
    ensures end < |buf| && buf[start..end] == done[p]
    ensures buf[..start] + buf[end + 1..] == Unlines(Without(done, p)) + tail
  {
    var a, b := Unlines(done[..p]), Unlines(done[p + 1..]);
    UnlinesAround(done, p);
    UnlinesAppend(done[..p], done[p + 1..]);
    BytesAround(buf, a, done[p], b, tail, start, end);
  }

  lemma RemovingALine(ls: seq<Line>, tail: seq<byte>, p: nat)
    requires NewlineFree(ls) && Plain(tail) && p < |ls|
    ensures Lines(Unlines(Without(ls, p)) + tail) == Without(ls, p)
    ensures Tail(Unlines(Without(ls, p)) + tail) == tail
  {
    LinesOfJoined(Without(ls, p), tail);
  }

  lemma CuttingARange(buf: seq<byte>, ranges: seq<(nat, nat)>, p: nat)
    requires RangesOf(Lines(buf), ranges) && p < |ranges|
    ensures ranges[p].0 <= ranges[p].1 < |buf| && buf[ranges[p].0..ranges[p].1] == Lines(buf)[p]
    ensures |buf[..ranges[p].0] + buf[ranges[p].1 + 1..]| < |buf|
    ensures Lines(buf[..ranges[p].0] + buf[ranges[p].1 + 1..]) == Without(Lines(buf), p)
    ensures Tail(buf[..ranges[p].0] + buf[ranges[p].1 + 1..]) == Tail(buf)
  {
    var ls, tail := Lines(buf), Tail(buf);
    BufferIsLinesAndTail(buf);
    LinesArePlain(buf);
    RangeHoldsLine(ls, tail, p, ranges[p].0, ranges[p].1, buf);
    RemovingALine(ls, tail, p);
  }

  /** The bytes from `start` to `end` are the line to pop; without them and their newline the buffer holds
      the other lines and the same tail. */
  ghost predicate CutsPick(urgent: Priority, buf: seq<byte>, start: nat, end: nat) {
    var ls := Lines(buf);
    && ls != [] && start <= end < |buf| && buf[start..end] == ls[Pick(urgent, ls)]
    && var rest := buf[..start] + buf[end + 1..];
       |rest| < |buf| && Lines(rest) == Without(ls, Pick(urgent, ls)) && Tail(rest) == Tail(buf)
  }

  lemma CuttingThePick(urgent: Priority, buf: seq<byte>, ranges: seq<(nat, nat)>, p: nat)
    requires RangesOf(Lines(buf), ranges) && Lines(buf) != [] && p == Pick(urgent, Lines(buf))
    ensures p < |ranges| && CutsPick(urgent, buf, ranges[p].0, ranges[p].1)
  {
    CuttingARange(buf, ranges, p);
  }

  lemma UnlinesAround(done: seq<Line>, p: nat)
    requires p < |done|
    ensures Unlines(done) == Unlines(done[..p]) + (done[p] + [NEWLINE]) + Unlines(done[p + 1..])
  {
    SplitAt(done, p);
    UnlinesAppend(done[..p] + [done[p]], done[p + 1..]);
    UnlinesAppend(done[..p], [done[p]]);
    UnlinesCons(done[p], []);
    assert [done[p]] + [] == [done[p]];
    assert done[p] + [NEWLINE] + [] == done[p] + [NEWLINE];
  }

  lemma BytesAround(buf: seq<byte>, a: seq<byte>, line: Line, b: seq<byte>, tail: seq<byte>, start: nat, end: nat)
    requires buf == a + (line + [NEWLINE]) + b + tail && start == |a| && end == |a| + |line|
    ensures end < |buf| && buf[start..end] == line && buf[..start] + buf[end + 1..] == a + b + tail
  {
    assert buf[..start] == a;
    assert buf[end + 1..] == b + tail;
  }

  // ----- Chunked reads -----

  function UntilEof(chunks: seq<seq<byte>>): seq<seq<byte>> {
    if chunks == [] || chunks[0] == [] then [] else [chunks[0]] + UntilEof(chunks[1..])
  }

  function Concat(chunks: seq<seq<byte>>): seq<byte> {
    if chunks == [] then [] else chunks[0] + Concat(chunks[1..])
  }

  /** Everything handled when `tail` is left over and `chunks` are still to be read. */
  function Handled(urgent: Priority, tail: seq<byte>, chunks: seq<seq<byte>>): seq<Line>
    decreases |chunks|
  {
    if chunks == [] then []
    else
      var buf := tail + chunks[0];
      Partitioned(urgent, Lines(buf)) + Handled(urgent, Tail(buf), chunks[1..])
  }

  /** Main result: for every stream and every way of cutting it into reads, the lines handled are
      exactly the complete lines of the stream, each once; and the broadcast lines among them,
      and likewise the others, come in stream order whatever the cuts. */
  lemma {:induction false} FramingIsChunkIndependent(urgent: Priority, tail: seq<byte>, chunks: seq<seq<byte>>)
    requires Plain(tail)
    ensures var handled, whole := Handled(urgent, tail, chunks), Lines(tail + Concat(chunks));
            && multiset(handled) == multiset(whole)
            && Keep(urgent, handled) == Keep(urgent, whole)
            && Keep(Others(urgent), handled) == Keep(Others(urgent), whole)
    decreases |chunks|
  {
    if chunks == [] {
      assert tail + [] == tail;
      PlainIsTail(tail);
    } else {
      var buf, later := tail + chunks[0], Concat(chunks[1..]);
      var others := Others(urgent);
      var now, rest := Partitioned(urgent, Lines(buf)), Handled(urgent, Tail(buf), chunks[1..]);
      assert tail + Concat(chunks) == buf + later;
      LinesOfAppend(buf, later);
      LinesArePlain(buf);
      FramingIsChunkIndependent(urgent, Tail(buf), chunks[1..]);
      PartitionKeepsClasses(urgent, Lines(buf));
      KeepAppend(urgent, now, rest);
      KeepAppend(others, now, rest);
      KeepAppend(urgent, Lines(buf), Lines(Tail(buf) + later));
      KeepAppend(others, Lines(buf), Lines(Tail(buf) + later));
    }
  }
}
