/** The wrap-around reader of pixel low bits and the length-prefixed shares it reads, with the
    writer that it inverts. */
module PixelReader {
  import opened Bytes
  import opened Elimination

  datatype Error =
    | EmptyClientId
    | NotBitmap
    | InvalidHeader
    | NoPayload
    | WrongClient
    | InvalidCount
    | EmptyCoefficient
    | SingularMatrix
    | NotAnInteger
    | TooLong

  datatype Result<+T> = Ok(value: T) | Err(error: Error)

  // ------------------------------------------------------------------------------------------
  // The low-bit reader
  // ------------------------------------------------------------------------------------------

  /** The low bit of the pixel a cursor stands on; cursors wrap around the payload. */
  function LowBit(payload: bytes, cursor: nat): bit
    requires payload != []
  {
    (payload[cursor % |payload|] % 2) as bit
  }

  /** The low bits of the next count pixels, least significant first. Each bit goes to a place
      where the number so far has a zero, so setting it is adding it. */
  function Collect(payload: bytes, cursor: nat, count: nat): (v: nat)
    requires payload != []
    ensures v < Two(count)
  {
    if count == 0 then 0
    else Collect(payload, cursor, count - 1) + Place(LowBit(payload, cursor + count - 1), count - 1)
  }

  function ByteAt(payload: bytes, cursor: nat): byte
    requires payload != []
  {
    assert Two(8) == 256;
    Collect(payload, cursor, 8) as byte
  }

  function BytesAt(payload: bytes, cursor: nat, count: nat): (s: bytes)
    requires payload != []
    ensures |s| == count
  {
    seq(count, i requires 0 <= i < count => ByteAt(payload, cursor + 8 * i))
  }

  class Reader {
    const payload: bytes
    var cursor: nat

    constructor (payload: bytes, cursor: nat)
      ensures this.payload == payload && this.cursor == cursor
    {
      this.payload := payload;
      this.cursor := cursor;
    }

    method ReadByte() returns (value: byte)
      requires payload != []
      modifies this
      ensures value == ByteAt(payload, old(cursor))
      ensures cursor == old(cursor) + 8
    {
      var collected := 0;
      for k := 0 to 8
        invariant cursor == old(cursor) + k
        invariant collected == Collect(payload, old(cursor), k)
      {
        collected := collected + Place((payload[cursor % |payload|] % 2) as bit, k);
        cursor := cursor + 1;
      }
      assert Two(8) == 256;
      value := collected as byte;
    }

    method ReadBytes(count: nat) returns (s: bytes)
      requires payload != []
      modifies this
      ensures s == BytesAt(payload, old(cursor), count)
      ensures cursor == old(cursor) + 8 * count
    {
      s := [];
      for i := 0 to count
        invariant cursor == old(cursor) + 8 * i
        invariant s == BytesAt(payload, old(cursor), i)
      {
        var value := ReadByte();
        s := s + [value];
      }
    }

    /** One share: two length-prefixed big-endian numbers, neither of them empty. */
    method ReadShare() returns (share: Result<Share>)
      requires payload != []
      modifies this
      ensures share == ShareAt(payload, old(cursor))
      ensures cursor == ShareEnd(payload, old(cursor))
    {
      var firstSize := ReadByte();
      var first := ReadBytes(firstSize as nat);
      var secondSize := ReadByte();
      var second := ReadBytes(secondSize as nat);
      if first == [] || second == [] {
        return Err(EmptyCoefficient);
      }
      return Ok(Share(BigEndian(first), BigEndian(second)));
    }

    method ReadShares(count: nat) returns (shares: Result<seq<Share>>)
      requires payload != []
      modifies this
      ensures shares == SharesAt(payload, old(cursor), count)
    {
      var pairs: seq<Share> := [];
      ghost var all := SharesAt(payload, cursor, count);
      PrependNothing(all);
      for i := 0 to count
        invariant all == Prepend(pairs, SharesAt(payload, cursor, count - i))
      {
        ghost var start := cursor;
        var share := ReadShare();
        SharesAtStep(payload, start, count - i);
        if share.Err? {
          return Err(share.error);
        }
        PrependAssociative(pairs, [share.value], SharesAt(payload, cursor, count - i - 1));
        pairs := pairs + [share.value];
      }
      assert pairs + [] == pairs;
      return Ok(pairs);
    }
  }

  lemma SharesAtStep(payload: bytes, cursor: nat, count: nat)
    requires payload != [] && count > 0
    ensures SharesAt(payload, cursor, count)
         == match ShareAt(payload, cursor)
            case Err(error) => Err(error)
            case Ok(share) =>
              Prepend([share], SharesAt(payload, ShareEnd(payload, cursor), count - 1))
  {
  }

  function Prepend(pairs: seq<Share>, rest: Result<seq<Share>>): Result<seq<Share>> {
    match rest
    case Ok(shares) => Ok(pairs + shares)
    case Err(error) => Err(error)
  }

  lemma PrependNothing(rest: Result<seq<Share>>)
    ensures Prepend([], rest) == rest
  {
    if rest.Ok? {
      assert [] + rest.value == rest.value;
    }
  }

  lemma PrependAssociative(a: seq<Share>, b: seq<Share>, rest: Result<seq<Share>>)
    ensures Prepend(a, Prepend(b, rest)) == Prepend(a + b, rest)
  {
    if rest.Ok? {
      assert a + (b + rest.value) == a + b + rest.value;
    }
  }

  /** Where the second number of the share at cursor starts. */
  function SecondStart(payload: bytes, cursor: nat): nat
    requires payload != []
  {
    cursor + 8 + 8 * ByteAt(payload, cursor) as nat
  }

  function ShareEnd(payload: bytes, cursor: nat): nat
    requires payload != []
  {
    var second := SecondStart(payload, cursor);
    second + 8 + 8 * ByteAt(payload, second) as nat
  }

  function ShareAt(payload: bytes, cursor: nat): Result<Share>
    requires payload != []
  {
    var second := SecondStart(payload, cursor);
    var xs := BytesAt(payload, cursor + 8, ByteAt(payload, cursor) as nat);
    var ys := BytesAt(payload, second + 8, ByteAt(payload, second) as nat);
    if xs == [] || ys == [] then Err(EmptyCoefficient)
    else Ok(Share(BigEndian(xs), BigEndian(ys)))
  }

  function SharesAt(payload: bytes, cursor: nat, count: nat): Result<seq<Share>>
    requires payload != []
    decreases count
  {
    if count == 0 then Ok([])
    else
      match ShareAt(payload, cursor)
      case Err(error) => Err(error)
      case Ok(share) => Prepend([share], SharesAt(payload, ShareEnd(payload, cursor), count - 1))
  }

  // ------------------------------------------------------------------------------------------
  // The writer, and that the reader inverts it
  // ------------------------------------------------------------------------------------------

  /** The low bits of the pixels from cursor on. */
  function LowBits(payload: bytes, cursor: nat, count: nat): (bits: seq<bit>)
    requires payload != []
    ensures |bits| == count
  {
    seq(count, j requires 0 <= j < count => LowBit(payload, cursor + j))
  }

  /** The bits of a byte string, least significant first in each byte. */
  function BitsOf(content: bytes): (bits: seq<bit>)
    ensures |bits| == 8 * |content|
  {
    seq(8 * |content|, j requires 0 <= j < 8 * |content| => BitOf(content[j / 8], j % 8))
  }

  /** The pixels from cursor on carry these bytes in their low bits. */
  ghost predicate Carries(payload: bytes, cursor: nat, content: bytes)
    requires payload != []
  {
    LowBits(payload, cursor, 8 * |content|) == BitsOf(content)
  }

  function SetLowBit(payload: bytes, cursor: nat, b: bit): (r: bytes)
    requires payload != []
    ensures |r| == |payload|
  {
    var at := cursor % |payload|;
    payload[at := payload[at] - payload[at] % 2 + b as byte]
  }

  function EmbedBits(payload: bytes, cursor: nat, bits: seq<bit>): (r: bytes)
    requires payload != []
    ensures |r| == |payload|
    decreases |bits|
  {
    if bits == [] then payload
    else EmbedBits(SetLowBit(payload, cursor, bits[0]), cursor + 1, bits[1..])
  }

  /** The payload with the bytes written into the low bits from cursor on, around its end. */
  function Embed(payload: bytes, cursor: nat, content: bytes): (r: bytes)
    requires payload != []
    ensures |r| == |payload|
  {
    EmbedBits(payload, cursor, BitsOf(content))
  }

  lemma DifferentPixels(a: nat, b: nat, size: nat)
    requires a < b < a + size
    ensures a % size != b % size
  {
    var d := b / size - a / size;
    assert b - a == size * d + (b % size - a % size);
    assert d <= 0 ==> size * d <= 0;
    assert d >= 1 ==> size * d >= size;
  }

  lemma SetLowBitEffect(payload: bytes, cursor: nat, b: bit, other: nat)
    requires payload != [] && other < cursor + |payload| && cursor < other + |payload|
    ensures LowBit(SetLowBit(payload, cursor, b), other)
         == if other == cursor then b else LowBit(payload, other)
  {
    if other < cursor {
      DifferentPixels(other, cursor, |payload|);
    } else if cursor < other {
      DifferentPixels(cursor, other, |payload|);
    }
  }

  lemma {:induction false} EmbedBitsEffect(payload: bytes, cursor: nat, bits: seq<bit>, other: nat)
    requires payload != []
    requires cursor + |bits| <= other + |payload| && other < cursor + |payload|
    ensures LowBit(EmbedBits(payload, cursor, bits), other)
         == if cursor <= other < cursor + |bits| then bits[other - cursor]
            else LowBit(payload, other)
    decreases |bits|
  {
    if bits != [] {
      var written := SetLowBit(payload, cursor, bits[0]);
      SetLowBitEffect(payload, cursor, bits[0], other);
      if other == cursor {
        EmbedBitsKeeps(written, cursor + 1, bits[1..], other);
      } else {
        EmbedBitsEffect(written, cursor + 1, bits[1..], other);
      }
    }
  }

  lemma {:induction false} EmbedBitsKeeps(payload: bytes, cursor: nat, bits: seq<bit>, other: nat)
    requires payload != []
    requires other < cursor && cursor + |bits| <= other + |payload|
    ensures LowBit(EmbedBits(payload, cursor, bits), other) == LowBit(payload, other)
    decreases |bits|
  {
    if bits != [] {
      SetLowBitEffect(payload, cursor, bits[0], other);
      EmbedBitsKeeps(SetLowBit(payload, cursor, bits[0]), cursor + 1, bits[1..], other);
    }
  }

  /** Whatever was embedded is carried, from every start and also across the end of the payload,
      as long as the span fits. */
  lemma EmbedCarries(payload: bytes, cursor: nat, content: bytes)
    requires payload != [] && 8 * |content| <= |payload|
    ensures Carries(Embed(payload, cursor, content), cursor, content)
  {
    var bits, result := BitsOf(content), Embed(payload, cursor, content);
    forall j | 0 <= j < |bits| ensures LowBits(result, cursor, |bits|)[j] == bits[j] {
      EmbedBitsEffect(payload, cursor, bits, cursor + j);
    }
  }

  lemma {:induction false} CollectsBits(payload: bytes, cursor: nat, count: nat)
    requires payload != []
    ensures Collect(payload, cursor, count) == BitsValue(LowBits(payload, cursor, count))
  {
    if count > 0 {
      var bits := LowBits(payload, cursor, count - 1);
      CollectsBits(payload, cursor, count - 1);
      BitsValueAppend(bits, LowBit(payload, cursor + count - 1));
      assert LowBits(payload, cursor, count) == bits + [LowBit(payload, cursor + count - 1)];
    }
  }

  lemma CollectsByte(payload: bytes, cursor: nat, b: byte)
    requires payload != []
    requires forall k :: 0 <= k < 8 ==> LowBits(payload, cursor, 8)[k] == BitOf(b, k)
    ensures ByteAt(payload, cursor) == b
  {
    CollectsBits(payload, cursor, 8);
    assert Two(8) == 256;
    BitsMakeByte(b, LowBits(payload, cursor, 8));
  }

  lemma CarriedReadBack(payload: bytes, cursor: nat, content: bytes)
    requires payload != [] && Carries(payload, cursor, content)
    ensures BytesAt(payload, cursor, |content|) == content
  {
    var bits := LowBits(payload, cursor, 8 * |content|);
    forall i | 0 <= i < |content|
      ensures BytesAt(payload, cursor, |content|)[i] == content[i]
    {
      forall k | 0 <= k < 8
        ensures LowBits(payload, cursor + 8 * i, 8)[k] == BitOf(content[i], k)
      {
        assert bits[8 * i + k] == BitOf(content[(8 * i + k) / 8], (8 * i + k) % 8);
      }
      CollectsByte(payload, cursor + 8 * i, content[i]);
    }
  }

  // ------------------------------------------------------------------------------------------
  // A stream of shares
  // ------------------------------------------------------------------------------------------

  /** The two big-endian numbers of a share as they are written. */
  datatype RawShare = RawShare(x: bytes, y: bytes) {
    ghost predicate Writable() {
      0 < |x| < 256 && 0 < |y| < 256
    }

    function Written(): bytes
      requires |x| < 256 && |y| < 256
    {
      [|x| as byte] + x + [|y| as byte] + y
    }

    function Value(): Share {
      Share(BigEndian(x), BigEndian(y))
    }
  }

  ghost predicate Writable(raws: seq<RawShare>) {
    forall i :: 0 <= i < |raws| ==> raws[i].Writable()
  }

  ghost function Written(raws: seq<RawShare>): bytes
    requires Writable(raws)
  {
    if raws == [] then [] else raws[0].Written() + Written(raws[1..])
  }

  function Values(raws: seq<RawShare>): (shares: seq<Share>)
    ensures |shares| == |raws|
    ensures forall i :: 0 <= i < |raws| ==> shares[i] == raws[i].Value()
  {
    seq(|raws|, i requires 0 <= i < |raws| => raws[i].Value())
  }

  /** A part of what is carried is carried from its own place on. */
  lemma CarriesPart(payload: bytes, cursor: nat, before: bytes, part: bytes, after: bytes)
    requires payload != [] && Carries(payload, cursor, before + part + after)
    ensures Carries(payload, cursor + 8 * |before|, part)
  {
    var whole := before + part + after;
    forall j | 0 <= j < 8 * |part|
      ensures LowBits(payload, cursor + 8 * |before|, 8 * |part|)[j] == BitsOf(part)[j]
    {
      var at := 8 * |before| + j;
      assert LowBits(payload, cursor, 8 * |whole|)[at] == BitsOf(whole)[at];
      assert at / 8 == |before| + j / 8 && at % 8 == j % 8;
    }
  }

  lemma CarriedPartReadBack(payload: bytes, cursor: nat, before: bytes, part: bytes, after: bytes)
    requires payload != [] && Carries(payload, cursor, before + part + after)
    ensures BytesAt(payload, cursor + 8 * |before|, |part|) == part
  {
    CarriesPart(payload, cursor, before, part, after);
    CarriedReadBack(payload, cursor + 8 * |before|, part);
  }

  lemma CarriedByte(payload: bytes, cursor: nat, before: bytes, b: byte, after: bytes)
    requires payload != [] && Carries(payload, cursor, before + [b] + after)
    ensures ByteAt(payload, cursor + 8 * |before|) == b
  {
    CarriedPartReadBack(payload, cursor, before, [b], after);
    assert BytesAt(payload, cursor + 8 * |before|, 1)[0] == [b][0];
  }

  /** A length-prefixed number at any place of what is carried. */
  lemma PrefixedReadBack(payload: bytes, cursor: nat, before: bytes, part: bytes, after: bytes)
    requires payload != [] && |part| < 256
    requires Carries(payload, cursor, before + ([|part| as byte] + part) + after)
    ensures ByteAt(payload, cursor + 8 * |before|) as nat == |part|
    ensures BytesAt(payload, cursor + 8 * |before| + 8, |part|) == part
  {
    var size := |part| as byte;
    assert before + ([size] + part) + after == before + [size] + (part + after);
    CarriedByte(payload, cursor, before, size, part + after);
    assert before + ([size] + part) + after == (before + [size]) + part + after;
    CarriedPartReadBack(payload, cursor, before + [size], part, after);
  }

  lemma SharePartsReadBack(payload: bytes, cursor: nat, raw: RawShare, rest: bytes)
    requires payload != [] && raw.Writable() && Carries(payload, cursor, raw.Written() + rest)
    ensures ByteAt(payload, cursor) as nat == |raw.x|
    ensures BytesAt(payload, cursor + 8, |raw.x|) == raw.x
    ensures ByteAt(payload, cursor + 8 * (1 + |raw.x|)) as nat == |raw.y|
    ensures BytesAt(payload, cursor + 8 * (1 + |raw.x|) + 8, |raw.y|) == raw.y
  {
    var xs, ys := [|raw.x| as byte] + raw.x, [|raw.y| as byte] + raw.y;
    assert raw.Written() + rest == [] + xs + (ys + rest);
    PrefixedReadBack(payload, cursor, [], raw.x, ys + rest);
    assert raw.Written() + rest == xs + ys + rest;
    PrefixedReadBack(payload, cursor, xs, raw.y, rest);
  }

  lemma ShareReadBack(payload: bytes, cursor: nat, raw: RawShare, rest: bytes)
    requires payload != [] && raw.Writable() && Carries(payload, cursor, raw.Written() + rest)
    ensures ShareAt(payload, cursor) == Ok(raw.Value())
    ensures ShareEnd(payload, cursor) == cursor + 8 * |raw.Written()|
    ensures Carries(payload, ShareEnd(payload, cursor), rest)
  {
    SharePartsReadBack(payload, cursor, raw, rest);
    assert SecondStart(payload, cursor) == cursor + 8 * (1 + |raw.x|);
    assert raw.Written() + rest == raw.Written() + rest + [];
    CarriesPart(payload, cursor, raw.Written(), rest, []);
  }

  /** The reader gives back every share that was written, in order. */
  lemma {:induction false} SharesReadBack(payload: bytes, cursor: nat, raws: seq<RawShare>)
    requires payload != [] && Writable(raws) && Carries(payload, cursor, Written(raws))
    ensures SharesAt(payload, cursor, |raws|) == Ok(Values(raws))
    decreases |raws|
  {
    if raws != [] {
      ShareReadBack(payload, cursor, raws[0], Written(raws[1..]));
      SharesReadBack(payload, ShareEnd(payload, cursor), raws[1..]);
      SharesAtStep(payload, cursor, |raws|);
      assert [raws[0].Value()] + Values(raws[1..]) == Values(raws);
    }
  }

  // ------------------------------------------------------------------------------------------
  // Numbers that are empty
  // ------------------------------------------------------------------------------------------

  ghost predicate Short(raws: seq<RawShare>) {
    forall i :: 0 <= i < |raws| ==> |raws[i].x| < 256 && |raws[i].y| < 256
  }

  /** Shares as they are written, also such as have an empty number. */
  ghost function WrittenAny(raws: seq<RawShare>): bytes
    requires Short(raws)
  {
    if raws == [] then [] else raws[0].Written() + WrittenAny(raws[1..])
  }

  /** The reader gives back every share in order exactly when no number of any of them is empty, and
      otherwise refuses. */
  lemma {:induction false} SharesReadBackIff(payload: bytes, cursor: nat, raws: seq<RawShare>)
    requires payload != [] && Short(raws) && Carries(payload, cursor, WrittenAny(raws))
    ensures SharesAt(payload, cursor, |raws|)
         == if AllFull(raws) then Ok(Values(raws)) else Err(EmptyCoefficient)
    decreases |raws|
  {
    if raws != [] {
      var raw, rest := raws[0], WrittenAny(raws[1..]);
      AnySharePartsReadBack(payload, cursor, raw, rest);
      SharesAtStep(payload, cursor, |raws|);
      AllFullStep(raws);
      hide ShareAt, ShareEnd, Carries, AllFull, Values;
      if raw.x != [] && raw.y != [] {
        assert raw.Written() + rest == raw.Written() + rest + [];
        CarriesPart(payload, cursor, raw.Written(), rest, []);
        SharesReadBackIff(payload, ShareEnd(payload, cursor), raws[1..]);
        ValuesStep(raws);
      }
    } else {
      assert Values(raws) == [];
    }
  }

  predicate AllFull(raws: seq<RawShare>) {
    forall i :: 0 <= i < |raws| ==> raws[i].x != [] && raws[i].y != []
  }

  lemma AllFullStep(raws: seq<RawShare>)
    requires raws != []
    ensures AllFull(raws) <==> raws[0].x != [] && raws[0].y != [] && AllFull(raws[1..])
  {
    assert forall i :: 1 <= i < |raws| ==> raws[i] == raws[1..][i - 1];
  }

  lemma ValuesStep(raws: seq<RawShare>)
    requires raws != []
    ensures Values(raws) == [raws[0].Value()] + Values(raws[1..])
  {
  }

  lemma AnySharePartsReadBack(payload: bytes, cursor: nat, raw: RawShare, rest: bytes)
    requires payload != [] && |raw.x| < 256 && |raw.y| < 256
    requires Carries(payload, cursor, raw.Written() + rest)
    ensures ShareAt(payload, cursor)
         == if raw.x == [] || raw.y == [] then Err(EmptyCoefficient) else Ok(raw.Value())
    ensures ShareEnd(payload, cursor) == cursor + 8 * |raw.Written()|
  {
    var xs, ys := [|raw.x| as byte] + raw.x, [|raw.y| as byte] + raw.y;
    assert raw.Written() + rest == [] + xs + (ys + rest);
    PrefixedReadBack(payload, cursor, [], raw.x, ys + rest);
    assert raw.Written() + rest == xs + ys + rest;
    PrefixedReadBack(payload, cursor, xs, raw.y, rest);
    assert SecondStart(payload, cursor) == cursor + 8 * (1 + |raw.x|);
  }
}
