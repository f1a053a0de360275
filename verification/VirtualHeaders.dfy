/** The chain of synthetic headers shown above the real tip (`fabricate_headers`, `header_hex_at`).
    Hashing and the 80-byte encoding are parameters. */
module VirtualHeaders {
  import opened Prelude

  const U32_MAX: nat := 0xFFFF_FFFF
  const SECS_PER_BLOCK: nat := 600

  type u32 = n: nat | n <= U32_MAX

  type i32 = n: int | -0x8000_0000 <= n < 0x8000_0000

  type Bytes32 = s: seq<nat> | |s| == 32 && forall i | 0 <= i < 32 :: s[i] < 256
    witness seq(32, _ => 0)

  /** Exactly the values an 80-byte header holds. */
  datatype Header = Header(
    version: i32, prevBlockhash: Bytes32, merkleRoot: Bytes32, time: u32, bits: u32, nonce: u32)

  datatype Entry = Entry(height: nat, hex: string)

  const ALL_ZEROS: Bytes32 := seq(32, _ => 0)

  /** `decode` fails on bad hex and on anything that is not an 80-byte header. */
  datatype Codec = Codec(decode: string -> Option<Header>, encode: Header -> string, hash: Header -> Bytes32)

  ghost predicate Faithful(c: Codec) {
    forall h: Header :: c.decode(c.encode(h)) == Some(h)
  }

  // ----- The chain, element by element -----

  /** The step count is cut to 32 bits before the two saturating operations. */
  function TimeAfter(tipTime: u32, steps: nat): u32 {
    Min(tipTime + Min(SECS_PER_BLOCK * (steps % (U32_MAX + 1)), U32_MAX), U32_MAX)
  }

  /** The `k`-th header above `tip`; the tip itself for `k == 0`. */
  function Above(c: Codec, tip: Header, k: nat): Header {
    if k == 0 then tip
    else Header(tip.version, c.hash(Above(c, tip, k - 1)), ALL_ZEROS, TimeAfter(tip.time, k), tip.bits, 0)
  }

  function Chain(c: Codec, realHeight: nat, tip: Header, count: nat): seq<Entry> {
    seq(count, i requires 0 <= i < count => Entry(realHeight + i + 1, c.encode(Above(c, tip, i + 1))))
  }

  /** The headers for `realHeight + 1 ..= upTo`; the tip is decoded only when there are any. */
  function Fabricated(c: Codec, realHeight: nat, tipHex: string, upTo: nat): Option<seq<Entry>> {
    if upTo <= realHeight then Some([])
    else if c.decode(tipHex).None? then None
    else Some(Chain(c, realHeight, c.decode(tipHex).value, upTo - realHeight))
  }

  method FabricateHeaders(c: Codec, realHeight: nat, tipHex: string, upTo: nat)
      returns (headers: Option<seq<Entry>>)
    ensures headers == Fabricated(c, realHeight, tipHex, upTo)
  {
    if upTo <= realHeight {
      return Some([]);
    }
    var decoded := c.decode(tipHex);
    if decoded.None? {
      return None;
    }
    var tip := decoded.value;
    var out: seq<Entry> := [];
    var prevHash := c.hash(tip);
    var h := realHeight + 1;
    while h <= upTo
      invariant realHeight < h <= upTo + 1
      invariant out == Chain(c, realHeight, tip, h - realHeight - 1)
      invariant prevHash == c.hash(Above(c, tip, h - realHeight - 1))
    {
      var steps := (h - realHeight) % (U32_MAX + 1);
      var header := Header(tip.version, prevHash, ALL_ZEROS,
                           Min(tip.time + Min(SECS_PER_BLOCK * steps, U32_MAX), U32_MAX), tip.bits, 0);
      assert header == Above(c, tip, h - realHeight);
      prevHash := c.hash(header);
      out := out + [Entry(h, c.encode(header))];
      h := h + 1;
    }
    return Some(out);
  }

  /** `Failure` for an undecodable tip, `Success(None)` at or below the real tip. */
  method HeaderHexAt(c: Codec, realHeight: nat, tipHex: string, height: nat)
      returns (hex: Result<Option<string>, string>)
    ensures hex == HexAt(c, realHeight, tipHex, height)
  {
    if height <= realHeight {
      return Success(None);
    }
    var headers := FabricateHeaders(c, realHeight, tipHex, height);
    match headers {
      case None => return Failure("undecodable tip");
      case Some(out) =>
        var last := out[|out| - 1];
        return Success(Some(last.hex));
    }
  }

  function HexAt(c: Codec, realHeight: nat, tipHex: string, height: nat): Result<Option<string>, string> {
    if height <= realHeight then Success(None)
    else match c.decode(tipHex)
      case None => Failure("undecodable tip")
      case Some(tip) => Success(Some(c.encode(Above(c, tip, height - realHeight))))
  }

  // ----- What a wallet that follows the chain sees -----

  /** Every listed header carries the next height and points at the hash of the one before it, the
      first at the real tip. */
  ghost predicate LinkedFrom(c: Codec, height: nat, below: Header, headers: seq<Entry>)
    decreases |headers|
  {
    headers == [] ||
    (headers[0].height == height + 1 &&
     match c.decode(headers[0].hex)
     case None => false
     case Some(first) =>
       first.prevBlockhash == c.hash(below) && LinkedFrom(c, height + 1, first, headers[1..]))
  }

  lemma {:induction false} ChainSuffixLinked(c: Codec, realHeight: nat, tip: Header, count: nat, from: nat)
    requires Faithful(c) && from <= count
    ensures LinkedFrom(c, realHeight + from, Above(c, tip, from), Chain(c, realHeight, tip, count)[from..])
    decreases count - from
  {
    if from < count {
      ChainSuffixLinked(c, realHeight, tip, count, from + 1);
      var rest := Chain(c, realHeight, tip, count)[from..];
      assert rest[1..] == Chain(c, realHeight, tip, count)[from + 1..];
      assert c.decode(rest[0].hex) == Some(Above(c, tip, from + 1));
    }
  }

  /** The fabricated headers form one chain from the real tip, one per height, up to `upTo`. */
  lemma FabricatedIsLinked(c: Codec, realHeight: nat, tipHex: string, upTo: nat)
    requires Faithful(c) && c.decode(tipHex).Some? && realHeight < upTo
    ensures var headers := Fabricated(c, realHeight, tipHex, upTo).value;
            && |headers| == upTo - realHeight
            && LinkedFrom(c, realHeight, c.decode(tipHex).value, headers)
            && headers[|headers| - 1].height == upTo
  {
    var tip := c.decode(tipHex).value;
    ChainSuffixLinked(c, realHeight, tip, upTo - realHeight, 0);
    assert Chain(c, realHeight, tip, upTo - realHeight)[0..] == Chain(c, realHeight, tip, upTo - realHeight);
  }

  /** Asking for fewer headers gives a prefix, and asking for a single one gives the matching element. */
  lemma ShorterIsPrefix(c: Codec, realHeight: nat, tipHex: string, a: nat, b: nat)
    requires a <= b && c.decode(tipHex).Some?
    ensures Fabricated(c, realHeight, tipHex, a).value <= Fabricated(c, realHeight, tipHex, b).value
    ensures realHeight < a ==>
              HexAt(c, realHeight, tipHex, a)
              == Success(Some(Fabricated(c, realHeight, tipHex, b).value[a - realHeight - 1].hex))
  {
  }

  // ----- Times and the other fields -----

  /** What a wallet decodes from the entries of a fabricated chain, first to last. */
  function DecodedAt(c: Codec, headers: seq<Entry>, k: nat): Option<Header>
    requires k < |headers|
  {
    c.decode(headers[k].hex)
  }

  /** Every header decodes: the tip's version and bits, a zero merkle root and nonce, and the tip's time plus
      600 s for each block above it, the number of blocks cut to 32 bits and the result saturated there. */
  lemma FieldsOfFabricated(c: Codec, realHeight: nat, tipHex: string, upTo: nat, k: nat)
    requires Faithful(c) && c.decode(tipHex).Some? && realHeight + k < upTo
    ensures var tip, headers := c.decode(tipHex).value, Fabricated(c, realHeight, tipHex, upTo).value;
            && k < |headers| && DecodedAt(c, headers, k).Some?
            && var h := DecodedAt(c, headers, k).value;
               && h.time == Min(tip.time + Min(600 * ((k + 1) % 0x1_0000_0000), 0xFFFF_FFFF), 0xFFFF_FFFF)
               && h.version == tip.version && h.bits == tip.bits && h.nonce == 0
               && forall i | 0 <= i < 32 :: h.merkleRoot[i] == 0
  {
    var tip, headers := c.decode(tipHex).value, Fabricated(c, realHeight, tipHex, upTo).value;
    assert headers[k].hex == c.encode(Above(c, tip, k + 1));
  }

  /** Header times rise by exactly 600 s, from the tip on, as long as the last one fits 32 bits. */
  lemma TimesRiseBySixHundred(c: Codec, realHeight: nat, tipHex: string, upTo: nat, k: nat)
    requires Faithful(c) && c.decode(tipHex).Some? && realHeight + k < upTo
    requires c.decode(tipHex).value.time + 600 * (upTo - realHeight) <= 0xFFFF_FFFF
    ensures var tip, headers := c.decode(tipHex).value, Fabricated(c, realHeight, tipHex, upTo).value;
            && k < |headers| && DecodedAt(c, headers, k).Some?
            && DecodedAt(c, headers, k).value.time == tip.time + 600 * (k + 1)
  {
    FieldsOfFabricated(c, realHeight, tipHex, upTo, k);
    assert (k + 1) % 0x1_0000_0000 == k + 1;
  }

  /** No header is earlier than the one below it, the tip below the first. */
  ghost predicate TimesRise(c: Codec, tip: Header, headers: seq<Entry>)
    requires forall k | 0 <= k < |headers| :: DecodedAt(c, headers, k).Some?
  {
    && (headers != [] ==> tip.time <= DecodedAt(c, headers, 0).value.time)
    && forall k: nat | k + 1 < |headers| ::
         DecodedAt(c, headers, k).value.time <= DecodedAt(c, headers, k + 1).value.time
  }

  lemma TimesNeverFallBelow(tipTime: u32, j: nat, k: nat)
    requires j <= k <= U32_MAX
    ensures TimeAfter(tipTime, j) <= TimeAfter(tipTime, k)
  {
    assert j % (U32_MAX + 1) == j && k % (U32_MAX + 1) == k;
  }

  lemma TimeOfFabricated(c: Codec, realHeight: nat, tipHex: string, upTo: nat)
    requires Faithful(c) && c.decode(tipHex).Some?
    ensures var tip, headers := c.decode(tipHex).value, Fabricated(c, realHeight, tipHex, upTo).value;
            forall k | 0 <= k < |headers| :: DecodedAt(c, headers, k).Some?
                                             && DecodedAt(c, headers, k).value.time == TimeAfter(tip.time, k + 1)
  {
    var tip, headers := c.decode(tipHex).value, Fabricated(c, realHeight, tipHex, upTo).value;
    forall k | 0 <= k < |headers|
      ensures DecodedAt(c, headers, k) == Some(Above(c, tip, k + 1))
    {
      assert headers[k].hex == c.encode(Above(c, tip, k + 1));
    }
  }

  /** They never fall exactly as long as the step count fits 32 bits too: at step 2^32 the cut brings
      the time back to the tip's. */
  lemma TimesRiseWhileStepsFit(c: Codec, realHeight: nat, tipHex: string, upTo: nat)
    requires Faithful(c) && c.decode(tipHex).Some?
    ensures var tip, headers := c.decode(tipHex).value, Fabricated(c, realHeight, tipHex, upTo).value;
            && (forall k | 0 <= k < |headers| :: DecodedAt(c, headers, k).Some?)
            && (TimesRise(c, tip, headers) <==> upTo - realHeight <= 0xFFFF_FFFF || tip.time == 0xFFFF_FFFF)
  {
    var tip, headers := c.decode(tipHex).value, Fabricated(c, realHeight, tipHex, upTo).value;
    var n := |headers|;
    TimeOfFabricated(c, realHeight, tipHex, upTo);
    if n <= U32_MAX {
      forall k: nat | k < n ensures TimeAfter(tip.time, k) <= TimeAfter(tip.time, k + 1) {
        TimesNeverFallBelow(tip.time, k, k + 1);
      }
      assert TimeAfter(tip.time, 0) == tip.time;
    } else if tip.time < U32_MAX {
      var k: nat := U32_MAX - 1;
      assert U32_MAX % (U32_MAX + 1) == U32_MAX && (U32_MAX + 1) % (U32_MAX + 1) == 0;
      assert TimeAfter(tip.time, U32_MAX) == U32_MAX && TimeAfter(tip.time, U32_MAX + 1) == tip.time;
      assert DecodedAt(c, headers, k).value.time > DecodedAt(c, headers, k + 1).value.time;
    }
  }
}
