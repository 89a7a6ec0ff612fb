/** The two frame formats of the local network link: packing, and what reading one frame from a byte
    stream means. Checksums and ciphers are parameters of which only their laws are known. */
module LanFrames {
  import opened Options
  import opened Bytes

  const PREFIX_55AA: bytes := [0x00, 0x00, 0x55, 0xAA]
  const PREFIX_6699: bytes := [0x00, 0x00, 0x66, 0x99]
  const SUFFIX_55AA: bytes := [0x00, 0x00, 0xAA, 0x55]
  const SUFFIX_6699: bytes := [0x00, 0x00, 0x99, 0x66]
  const HEADER_LEN_55AA: nat := 16
  const HEADER_LEN_6699: nat := 18
  const MAX_PAYLOAD_LENGTH: nat := 8192
  const WINDOW: nat := 8

  /** The keyed digest, the checksum and the authenticated cipher. */
  datatype Crypto = Crypto(
    hmac: (bytes, bytes) -> bytes,
    crc32: bytes -> u32,
    seal: (bytes, bytes, bytes, bytes) -> bytes,
    unseal: (bytes, bytes, bytes, bytes) -> Option<bytes>,
    keyFits: bytes -> bool)
  {
    /** A digest has 32 bytes; sealing adds a tag of 16 bytes and unsealing undoes it. */
    ghost predicate Lawful() {
      && (forall key, data :: |hmac(key, data)| == 32)
      && (forall key, iv, text, header :: keyFits(key) && |iv| == 12 ==>
            |seal(key, iv, text, header)| == |text| + 16)
      && (forall key, iv, text, header :: keyFits(key) && |iv| == 12 ==>
            unseal(key, iv, seal(key, iv, text, header), header) == Some(text))
    }
  }

  /** A frame as it is handed to the packer. */
  datatype Outgoing =
    | Frame55AA(seqNo: u32, cmd: u32, retcode: Option<u32>, payload: bytes)
    | Frame6699(seqNo: u32, cmd: u32, retcode: Option<u32>, payload: bytes, iv: bytes)

  /** What the reader returns for a frame. */
  datatype Incoming = Incoming(seqNo: u32, cmd: u32, retcode: u32, payload: bytes, ok: bool)

  datatype Read = Got(frame: Incoming) | EndOfStream | OverCap | ShortBody

  // ------------------------------------------------------------------------------------------
  // Packing
  // ------------------------------------------------------------------------------------------

  function RetcodeBytes(retcode: Option<u32>): (s: bytes)
    ensures |s| == if retcode.Some? then 4 else 0
  {
    match retcode
    case None => []
    case Some(code) => PackU32(code)
  }

  function Body(f: Outgoing): (body: bytes)
    ensures |body| == (if f.retcode.Some? then 4 else 0) + |f.payload|
  {
    RetcodeBytes(f.retcode) + f.payload
  }

  /** The packer takes an empty key for no key. */
  predicate PacksWithHmac(key: Option<bytes>) {
    key.Some? && key.value != []
  }

  function PackedTrailerLength(key: Option<bytes>): nat {
    if PacksWithHmac(key) then 36 else 8
  }

  function Header55AA(seqNo: u32, cmd: u32, length: u32): (h: bytes)
    ensures |h| == HEADER_LEN_55AA
  {
    PREFIX_55AA + PackU32(seqNo) + PackU32(cmd) + PackU32(length)
  }

  function Header6699(seqNo: u32, cmd: u32, length: u32): (h: bytes)
    ensures |h| == HEADER_LEN_6699
  {
    PREFIX_6699 + [0, 0] + PackU32(seqNo) + PackU32(cmd) + PackU32(length)
  }

  function Pack55AA(c: Crypto, f: Outgoing, key: Option<bytes>): bytes
    requires f.Frame55AA? && |f.payload| + 40 < U32_LIMIT
  {
    var data := Header55AA(f.seqNo, f.cmd, |Body(f)| + PackedTrailerLength(key)) + Body(f);
    var trailer := if PacksWithHmac(key) then c.hmac(key.value, data) else PackU32(c.crc32(data));
    data + trailer + SUFFIX_55AA
  }

  function Pack6699(c: Crypto, f: Outgoing, key: bytes): bytes
    requires f.Frame6699? && |f.payload| + 32 < U32_LIMIT
  {
    var header := Header6699(f.seqNo, f.cmd, 12 + |Body(f)| + 16);
    header + f.iv + c.seal(key, f.iv, Body(f), header[4..]) + SUFFIX_6699
  }

  // ------------------------------------------------------------------------------------------
  // Finding the start of a frame
  // ------------------------------------------------------------------------------------------

  predicate StandsAt(s: bytes, pattern: bytes, at: nat) {
    at + |pattern| <= |s| && s[at..at + |pattern|] == pattern
  }

  /** The first place from i on where the pattern stands, or -1. */
  function Find(s: bytes, pattern: bytes, i: nat): (r: int)
    ensures r == -1 || (i <= r && StandsAt(s, pattern, r))
    ensures forall q: nat :: i <= q && (q < r || r == -1) ==> !StandsAt(s, pattern, q)
    decreases |s| - i
  {
    if i + |pattern| > |s| then -1
    else if StandsAt(s, pattern, i) then i
    else Find(s, pattern, i + 1)
  }

  /** Where the window search stops: whether it found a prefix, and what is left of the stream. */
  function Resync(s: bytes): (r: (bool, bytes))
    ensures r.0 ==> |r.1| >= 4
    decreases |s|
  {
    if |s| < WINDOW then (false, s)
    else
      var i55, i66 := Find(s[..WINDOW], PREFIX_55AA, 0), Find(s[..WINDOW], PREFIX_6699, 0);
      if i55 == 0 || i66 == 0 then (true, s)
      else if i55 > 0 && (i66 < 0 || i55 <= i66) then (true, s[i55..])
      else if i66 > 0 then (true, s[i66..])
      else Resync(s[1..])
  }

  predicate PrefixAt(s: bytes, p: nat) {
    StandsAt(s, PREFIX_55AA, p) || StandsAt(s, PREFIX_6699, p)
  }

  ghost predicate NoPrefix(s: bytes) {
    forall p: nat :: !PrefixAt(s, p)
  }

  ghost predicate FirstPrefix(s: bytes, p: nat) {
    PrefixAt(s, p) && forall q: nat :: q < p ==> !PrefixAt(s, q)
  }

  lemma InWindow(s: bytes, pattern: bytes, q: nat)
    requires |s| >= WINDOW && |pattern| == 4
    ensures StandsAt(s[..WINDOW], pattern, q) <==> q <= 4 && StandsAt(s, pattern, q)
  {
    if q <= 4 {
      assert s[..WINDOW][q..q + 4] == s[q..q + 4];
    }
  }

  lemma AfterFirst(s: bytes, pattern: bytes, p: nat)
    requires s != [] && |pattern| == 4
    ensures StandsAt(s[1..], pattern, p) <==> StandsAt(s, pattern, p + 1)
  {
    if p + 5 <= |s| {
      assert s[1..][p..p + 4] == s[p + 1..p + 5];
    }
  }

  lemma PrefixAfterFirst(s: bytes, p: nat)
    requires s != []
    ensures PrefixAt(s[1..], p) <==> PrefixAt(s, p + 1)
  {
    AfterFirst(s, PREFIX_55AA, p);
    AfterFirst(s, PREFIX_6699, p);
  }

  /** What the search for one pattern in the window says about the stream. */
  lemma FindInWindow(s: bytes, pattern: bytes)
    requires |s| >= WINDOW && |pattern| == 4
    ensures var i := Find(s[..WINDOW], pattern, 0);
            && (i == -1 || (0 <= i <= 4 && StandsAt(s, pattern, i)))
            && forall q: nat :: q <= 4 && (q < i || i == -1) ==> !StandsAt(s, pattern, q)
  {
    var i := Find(s[..WINDOW], pattern, 0);
    forall q: nat | q <= 4 ensures StandsAt(s[..WINDOW], pattern, q) <==> StandsAt(s, pattern, q) {
      InWindow(s, pattern, q);
    }
    if i >= 0 {
      InWindow(s, pattern, i);
    }
  }

  /** A prefix in the window is found, and the earlier one of two. */
  lemma WindowFinds(s: bytes, p: nat)
    requires |s| >= WINDOW && p <= 4 && FirstPrefix(s, p)
    ensures Resync(s) == (true, s[p..])
  {
    hide StandsAt, Find;
    var i55, i66 := Find(s[..WINDOW], PREFIX_55AA, 0), Find(s[..WINDOW], PREFIX_6699, 0);
    FindInWindow(s, PREFIX_55AA);
    FindInWindow(s, PREFIX_6699);
    assert i55 >= 0 ==> PrefixAt(s, i55) && i55 >= p;
    assert i66 >= 0 ==> PrefixAt(s, i66) && i66 >= p;
    assert i55 == p || i66 == p;
    assert s[0..] == s;
  }

  lemma WindowMisses(s: bytes)
    requires |s| >= WINDOW && forall q: nat :: q <= 4 ==> !PrefixAt(s, q)
    ensures Resync(s) == Resync(s[1..])
  {
    hide StandsAt, Find;
    var i55, i66 := Find(s[..WINDOW], PREFIX_55AA, 0), Find(s[..WINDOW], PREFIX_6699, 0);
    FindInWindow(s, PREFIX_55AA);
    FindInWindow(s, PREFIX_6699);
    assert i55 >= 0 ==> PrefixAt(s, i55);
    assert i66 >= 0 ==> PrefixAt(s, i66);
  }

  lemma FirstPrefixAfterFirst(s: bytes, p: nat)
    requires |s| >= 1 && p >= 1 && FirstPrefix(s, p)
    ensures FirstPrefix(s[1..], p - 1)
  {
    hide PrefixAt;
    PrefixAfterFirst(s, p - 1);
    forall q: nat | q < p - 1 ensures !PrefixAt(s[1..], q) {
      PrefixAfterFirst(s, q);
    }
  }

  /** The search stops at the least place where either prefix stands, wherever the window was when
      it came into view. */
  lemma {:induction false} ResyncFindsFirst(s: bytes, p: nat)
    requires |s| >= WINDOW && FirstPrefix(s, p)
    ensures Resync(s) == (true, s[p..])
    decreases |s|
  {
    assert p + 4 <= |s|;
    hide StandsAt, Find, Resync;
    if p <= 4 {
      WindowFinds(s, p);
    } else {
      WindowMisses(s);
      FirstPrefixAfterFirst(s, p);
      ResyncFindsFirst(s[1..], p - 1);
      assert s[1..][p - 1..] == s[p..];
    }
  }

  lemma NoPrefixAfterFirst(s: bytes)
    requires s != [] && NoPrefix(s)
    ensures NoPrefix(s[1..])
  {
    hide PrefixAt;
    forall p: nat ensures !PrefixAt(s[1..], p) {
      PrefixAfterFirst(s, p);
    }
  }

  /** The bytes that cannot fill a window. */
  function Tail(s: bytes): bytes {
    if |s| < WINDOW then s else s[|s| - 7..]
  }

  lemma TailAfterFirst(s: bytes)
    requires |s| >= WINDOW
    ensures Tail(s[1..]) == Tail(s)
  {
  }

  lemma ResyncShort(s: bytes)
    requires |s| < WINDOW
    ensures Resync(s) == (false, Tail(s))
  {
  }

  /** Without any prefix the search eats the stream down to the last bytes a window cannot fill. */
  lemma {:induction false} ResyncExhausts(s: bytes)
    requires NoPrefix(s)
    ensures Resync(s) == (false, Tail(s))
    decreases |s|
  {
    hide PrefixAt, Resync, Tail;
    if |s| < WINDOW {
      ResyncShort(s);
    } else {
      WindowMisses(s);
      NoPrefixAfterFirst(s);
      hide NoPrefix;
      TailAfterFirst(s);
      ResyncExhausts(s[1..]);
    }
  }

  // ------------------------------------------------------------------------------------------
  // Reading
  // ------------------------------------------------------------------------------------------

  /** The reader takes any key, also an empty one, for a key. */
  function TrailerLength(key: Option<bytes>): nat {
    if key.Some? then 36 else 8
  }

  function Field(header: bytes, at: nat): u32
    requires at + 4 <= |header|
  {
    UnpackU32(header[at..at + 4])
  }

  function Accept55AA(c: Crypto, key: Option<bytes>, noRetcode: bool, header: bytes, body: bytes)
    : (r: Read)
    requires |header| == HEADER_LEN_55AA
  {
    var retcodeLength := if noRetcode then 0 else 4;
    if |body| < TrailerLength(key) + retcodeLength then ShortBody
    else
      var end := |body| - TrailerLength(key);
      var retcode := if noRetcode then 0 else UnpackU32(body[..4]);
      var signed, trailer := header + body[..end], body[end..];
      var ok := match key
        case Some(k) => c.hmac(k, signed) == trailer[..32]
        case None => c.crc32(signed) == UnpackU32(trailer[..4]);
      Got(Incoming(Field(header, 4), Field(header, 8), retcode, body[retcodeLength..end], ok))
  }

  function Accept6699(c: Crypto, key: Option<bytes>, noRetcode: bool, header: bytes, body: bytes)
    : (r: Read)
    requires |header| == HEADER_LEN_6699
  {
    var seqNo, cmd := Field(header, 6), Field(header, 10);
    if key.None? || |body| < 28 then Got(Incoming(seqNo, cmd, 0, body, false))
    else
      match c.unseal(key.value, body[..12], body[12..], header[4..])
      case None => Got(Incoming(seqNo, cmd, 0, [], false))
      case Some(raw) =>
        if noRetcode || |raw| < 4 then Got(Incoming(seqNo, cmd, 0, raw, true))
        else Got(Incoming(seqNo, cmd, UnpackU32(raw[..4]), raw[4..], true))
  }

  /** One frame of either format from a stream that starts with its prefix, and what is left. */
  function ReadBody55AA(c: Crypto, key: Option<bytes>, noRetcode: bool, s: bytes): (Read, bytes) {
    if |s| < HEADER_LEN_55AA then (EndOfStream, s)
    else
      var header, rest := s[..HEADER_LEN_55AA], s[HEADER_LEN_55AA..];
      var length := Field(header, 12);
      if length > MAX_PAYLOAD_LENGTH then (OverCap, rest)
      else if |rest| < length then (EndOfStream, rest)
      else (Accept55AA(c, key, noRetcode, header, rest[..length]), rest[length..])
  }

  function ReadBody6699(c: Crypto, key: Option<bytes>, noRetcode: bool, s: bytes): (Read, bytes) {
    if |s| < HEADER_LEN_6699 then (EndOfStream, s)
    else
      var header, rest := s[..HEADER_LEN_6699], s[HEADER_LEN_6699..];
      var length := Field(header, 14);
      if length > MAX_PAYLOAD_LENGTH then (OverCap, rest)
      else if |rest| < length then (EndOfStream, rest)
      else if |rest| < length + 4 then (EndOfStream, rest[length..])
      else (Accept6699(c, key, noRetcode, header, rest[..length]), rest[length + 4..])
  }

  /** What reading one frame from a stream returns and leaves, however the stream arrives. */
  function ReadFrom(c: Crypto, key: Option<bytes>, noRetcode: bool, s: bytes): (Read, bytes) {
    var (found, at) := Resync(s);
    if !found then (EndOfStream, at)
    else if at[..4] == PREFIX_55AA then ReadBody55AA(c, key, noRetcode, at)
    else ReadBody6699(c, key, noRetcode, at)
  }

  // ------------------------------------------------------------------------------------------
  // Reading undoes packing
  // ------------------------------------------------------------------------------------------

  /** A frame the reader's side can take: within the cap, with a return code exactly when the reader
      expects one, and for the sealed format with a usable key. */
  ghost predicate Sendable(c: Crypto, key: Option<bytes>, noRetcode: bool, f: Outgoing) {
    && f.retcode.None? == noRetcode
    && match f
       case Frame55AA(_, _, _, _) => |Body(f)| + PackedTrailerLength(key) <= MAX_PAYLOAD_LENGTH
       case Frame6699(_, _, _, _, iv) =>
         |Body(f)| + 28 <= MAX_PAYLOAD_LENGTH && |iv| == 12 && key.Some? && c.keyFits(key.value)
  }

  function Packed(c: Crypto, key: Option<bytes>, f: Outgoing): bytes
    requires |f.payload| + 40 < U32_LIMIT && (f.Frame6699? ==> key.Some?)
  {
    if f.Frame55AA? then Pack55AA(c, f, key) else Pack6699(c, f, key.value)
  }

  /** The frame as the reader should report it. */
  function Received(f: Outgoing): Incoming {
    Incoming(f.seqNo, f.cmd, if f.retcode.Some? then f.retcode.value else 0, f.payload, true)
  }

  lemma FieldAt(before: bytes, n: u32, after: bytes)
    ensures Field(before + PackU32(n) + after, |before|) == n
  {
    var s := before + PackU32(n) + after;
    assert s[|before|..|before| + 4] == PackU32(n);
  }

  lemma HeaderFields55AA(seqNo: u32, cmd: u32, length: u32)
    ensures var h := Header55AA(seqNo, cmd, length);
            && h[..4] == PREFIX_55AA
            && Field(h, 4) == seqNo && Field(h, 8) == cmd && Field(h, 12) == length
  {
    hide PackU32;
    var h, x, y, z := Header55AA(seqNo, cmd, length), PackU32(seqNo), PackU32(cmd), PackU32(length);
    assert h == PREFIX_55AA + x + (y + z);
    FieldAt(PREFIX_55AA, seqNo, y + z);
    assert h == PREFIX_55AA + x + y + z;
    FieldAt(PREFIX_55AA + x, cmd, z);
    assert h == PREFIX_55AA + x + y + z + [];
    FieldAt(PREFIX_55AA + x + y, length, []);
  }

  lemma HeaderFields6699(seqNo: u32, cmd: u32, length: u32)
    ensures var h := Header6699(seqNo, cmd, length);
            && h[..4] == PREFIX_6699
            && Field(h, 6) == seqNo && Field(h, 10) == cmd && Field(h, 14) == length
  {
    hide PackU32;
    var h, x, y, z := Header6699(seqNo, cmd, length), PackU32(seqNo), PackU32(cmd), PackU32(length);
    var head := PREFIX_6699 + [0, 0];
    assert h == head + x + (y + z);
    FieldAt(head, seqNo, y + z);
    assert h == head + x + y + z;
    FieldAt(head + x, cmd, z);
    assert h == head + x + y + z + [];
    FieldAt(head + x + y, length, []);
  }

  lemma BodyParts(f: Outgoing, end: bytes)
    ensures var body := Body(f) + end;
            && body[..|Body(f)|] == Body(f)
            && body[|Body(f)|..] == end
            && body[|RetcodeBytes(f.retcode)|..|Body(f)|] == f.payload
            && (f.retcode.Some? ==> |body| >= 4 && UnpackU32(body[..4]) == f.retcode.value)
  {
    var body := Body(f) + end;
    if f.retcode.Some? {
      var code := PackU32(f.retcode.value);
      assert Body(f) == code + f.payload;
      assert body == code + (f.payload + end);
      assert body[..4] == code;
      assert body[4..|Body(f)|] == f.payload;
    } else {
      assert Body(f) == f.payload;
    }
  }

  /** A packed frame of the plain format is accepted with everything in its place exactly when the
      key is not the empty key: packing ignores that one, reading does not. */
  lemma Accepts55AA(c: Crypto, key: Option<bytes>, noRetcode: bool, f: Outgoing)
    requires c.Lawful() && f.Frame55AA? && Sendable(c, key, noRetcode, f)
    ensures var header := Header55AA(f.seqNo, f.cmd, |Body(f)| + PackedTrailerLength(key));
            var data := header + Body(f);
            var trailer := (if PacksWithHmac(key) then c.hmac(key.value, data)
                            else PackU32(c.crc32(data))) + SUFFIX_55AA;
            Accept55AA(c, key, noRetcode, header, Body(f) + trailer) == Got(Received(f))
            <==> key != Some([])
  {
    var header := Header55AA(f.seqNo, f.cmd, |Body(f)| + PackedTrailerLength(key));
    var data := header + Body(f);
    var digest := if PacksWithHmac(key) then c.hmac(key.value, data) else PackU32(c.crc32(data));
    HeaderFields55AA(f.seqNo, f.cmd, |Body(f)| + PackedTrailerLength(key));
    BodyParts(f, digest + SUFFIX_55AA);
    assert (digest + SUFFIX_55AA)[..|digest|] == digest;
  }

  lemma Accepts6699(c: Crypto, key: bytes, noRetcode: bool, f: Outgoing)
    requires c.Lawful() && f.Frame6699? && Sendable(c, Some(key), noRetcode, f)
    ensures var header := Header6699(f.seqNo, f.cmd, 12 + |Body(f)| + 16);
            var sealed := f.iv + c.seal(key, f.iv, Body(f), header[4..]);
            && |sealed| == 28 + |Body(f)|
            && Accept6699(c, Some(key), noRetcode, header, sealed) == Got(Received(f))
  {
    var header := Header6699(f.seqNo, f.cmd, 12 + |Body(f)| + 16);
    var text := c.seal(key, f.iv, Body(f), header[4..]);
    HeaderFields6699(f.seqNo, f.cmd, 12 + |Body(f)| + 16);
    assert (f.iv + text)[..12] == f.iv && (f.iv + text)[12..] == text;
    BodyParts(f, []);
    assert Body(f) + [] == Body(f);
  }

  /** The frame that packing starts with its prefix and ends where its length says. */
  lemma PackedReads(c: Crypto, key: Option<bytes>, noRetcode: bool, f: Outgoing, rest: bytes)
    requires c.Lawful() && Sendable(c, key, noRetcode, f)
    ensures var s := Packed(c, key, f) + rest;
            var r := if f.Frame55AA? then ReadBody55AA(c, key, noRetcode, s)
                     else ReadBody6699(c, key, noRetcode, s);
            && r.1 == rest
            && (r.0 == Got(Received(f)) <==> f.Frame6699? || key != Some([]))
  {
    if f.Frame55AA? {
      Packed55AAReads(c, key, noRetcode, f, rest);
    } else {
      Packed6699Reads(c, key.value, noRetcode, f, rest);
    }
  }

  lemma ReadsBody55AA(
    c: Crypto, key: Option<bytes>, noRetcode: bool, header: bytes, body: bytes, rest: bytes)
    requires |header| == HEADER_LEN_55AA && Field(header, 12) == |body| <= MAX_PAYLOAD_LENGTH
    ensures ReadBody55AA(c, key, noRetcode, header + (body + rest))
         == (Accept55AA(c, key, noRetcode, header, body), rest)
  {
    hide Accept55AA, Field;
    var s := header + (body + rest);
    assert s[..HEADER_LEN_55AA] == header && s[HEADER_LEN_55AA..] == body + rest;
    assert (body + rest)[..|body|] == body && (body + rest)[|body|..] == rest;
  }

  lemma Packed55AAReads(c: Crypto, key: Option<bytes>, noRetcode: bool, f: Outgoing, rest: bytes)
    requires c.Lawful() && f.Frame55AA? && Sendable(c, key, noRetcode, f)
    ensures var r := ReadBody55AA(c, key, noRetcode, Pack55AA(c, f, key) + rest);
            r.1 == rest && (r.0 == Got(Received(f)) <==> key != Some([]))
  {
    hide Accept55AA, Header55AA, Body, Field, ReadBody55AA, PackU32;
    var length := |Body(f)| + PackedTrailerLength(key);
    var header := Header55AA(f.seqNo, f.cmd, length);
    var data := header + Body(f);
    var trailer := (if PacksWithHmac(key) then c.hmac(key.value, data)
                    else PackU32(c.crc32(data))) + SUFFIX_55AA;
    var body := Body(f) + trailer;
    var s := Pack55AA(c, f, key) + rest;
    assert s == header + (body + rest);
    assert |body| == length;
    HeaderFields55AA(f.seqNo, f.cmd, length);
    ReadsBody55AA(c, key, noRetcode, header, body, rest);
    Accepts55AA(c, key, noRetcode, f);
  }

  lemma Packed6699Reads(c: Crypto, key: bytes, noRetcode: bool, f: Outgoing, rest: bytes)
    requires c.Lawful() && f.Frame6699? && Sendable(c, Some(key), noRetcode, f)
    ensures ReadBody6699(c, Some(key), noRetcode, Pack6699(c, f, key) + rest)
         == (Got(Received(f)), rest)
  {
    hide Accept6699, Header6699, Body, Field;
    var length := 12 + |Body(f)| + 16;
    var header := Header6699(f.seqNo, f.cmd, length);
    var sealed := f.iv + c.seal(key, f.iv, Body(f), header[4..]);
    var s := Pack6699(c, f, key) + rest;
    assert s == header + (sealed + (SUFFIX_6699 + rest));
    assert s[..18] == header && s[18..] == sealed + (SUFFIX_6699 + rest);
    HeaderFields6699(f.seqNo, f.cmd, length);
    Accepts6699(c, key, noRetcode, f);
    var tail := sealed + (SUFFIX_6699 + rest);
    assert tail[..length] == sealed;
    assert tail == sealed + SUFFIX_6699 + rest;
    assert tail[length + 4..] == rest;
  }

  lemma PackedStarts(c: Crypto, key: Option<bytes>, f: Outgoing, rest: bytes)
    requires |f.payload| + 40 < U32_LIMIT && (f.Frame6699? ==> key.Some?)
    ensures var s := Packed(c, key, f) + rest;
            |s| >= WINDOW && s[..4] == if f.Frame55AA? then PREFIX_55AA else PREFIX_6699
  {
    var s := Packed(c, key, f) + rest;
    assert s[..4] == Packed(c, key, f)[..4];
  }

  /** Bytes before a frame that contain no prefix do not combine with the frame into an earlier one:
      the third byte of a prefix is not one of its first two, nor the fourth its first. */
  lemma GarbageBeforeFrame(garbage: bytes, s: bytes)
    requires NoPrefix(garbage) && |s| >= 4 && (s[..4] == PREFIX_55AA || s[..4] == PREFIX_6699)
    ensures FirstPrefix(garbage + s, |garbage|)
  {
    var all := garbage + s;
    assert all[|garbage|..|garbage| + 4] == s[..4];
    forall q: nat | q < |garbage| ensures !PrefixAt(all, q) {
      if q + 4 <= |garbage| {
        assert all[q..q + 4] == garbage[q..q + 4];
        assert !PrefixAt(garbage, q);
      } else if q + 4 <= |all| {
        var w := all[q..q + 4];
        assert w[2] == all[q + 2] && w[3] == all[q + 3];
        assert s[0] == s[..4][0] && s[1] == s[..4][1];
      }
    }
  }

  /** Reading skips any bytes without a prefix, returns exactly the packed frame and leaves exactly
      what follows it; the one exception is an empty key. */
  lemma ReadUndoesPack(
    c: Crypto, key: Option<bytes>, noRetcode: bool, garbage: bytes, f: Outgoing, rest: bytes)
    requires c.Lawful() && Sendable(c, key, noRetcode, f) && NoPrefix(garbage)
    ensures var r := ReadFrom(c, key, noRetcode, garbage + Packed(c, key, f) + rest);
            && r.1 == rest
            && (r.0 == Got(Received(f)) <==> f.Frame6699? || key != Some([]))
  {
    hide Packed, ReadBody55AA, ReadBody6699, Resync;
    var s := Packed(c, key, f) + rest;
    PackedStarts(c, key, f, rest);
    GarbageBeforeFrame(garbage, s);
    assert garbage + Packed(c, key, f) + rest == garbage + s;
    ResyncFindsFirst(garbage + s, |garbage|);
    assert (garbage + s)[|garbage|..] == s;
    PackedReads(c, key, noRetcode, f, rest);
  }

  // ------------------------------------------------------------------------------------------
  // Any frame on the wire, packed or not
  // ------------------------------------------------------------------------------------------

  /** The header of a plain frame that says a length. */
  function PlainHeader(seqNo: u32, cmd: u32, length: u32): bytes {
    [0x00, 0x00, 0x55, 0xAA] + PackU32(seqNo) + PackU32(cmd) + PackU32(length)
  }

  /** The header of a sealed frame; its fifth and sixth byte are not looked at. */
  function SealedHeader(unknown: bytes, seqNo: u32, cmd: u32, length: u32): bytes {
    [0x00, 0x00, 0x66, 0x99] + unknown + PackU32(seqNo) + PackU32(cmd) + PackU32(length)
  }

  lemma PlainHeaderIs(seqNo: u32, cmd: u32, length: u32)
    ensures PlainHeader(seqNo, cmd, length) == Header55AA(seqNo, cmd, length)
  {
  }

  lemma SealedHeaderFields(unknown: bytes, seqNo: u32, cmd: u32, length: u32)
    requires |unknown| == 2
    ensures var h := SealedHeader(unknown, seqNo, cmd, length);
            && |h| == 18 && h[..4] == PREFIX_6699
            && Field(h, 6) == seqNo && Field(h, 10) == cmd && Field(h, 14) == length
  {
    hide PackU32;
    var x, y, z := PackU32(seqNo), PackU32(cmd), PackU32(length);
    var h, head := SealedHeader(unknown, seqNo, cmd, length), PREFIX_6699 + unknown;
    assert h == head + x + (y + z);
    FieldAt(head, seqNo, y + z);
    assert h == head + x + y + z;
    FieldAt(head + x, cmd, z);
    assert h == head + x + y + z + [];
    FieldAt(head + x + y, length, []);
  }

  /** Reading starts at the first prefix, whatever stands before it. */
  lemma ReadsAtPrefix(c: Crypto, key: Option<bytes>, noRetcode: bool, garbage: bytes, s: bytes)
    requires NoPrefix(garbage) && |s| >= 8
    requires s[..4] == PREFIX_55AA || s[..4] == PREFIX_6699
    ensures ReadFrom(c, key, noRetcode, garbage + s)
         == if s[..4] == PREFIX_55AA then ReadBody55AA(c, key, noRetcode, s)
            else ReadBody6699(c, key, noRetcode, s)
  {
    hide ReadBody55AA, ReadBody6699, Resync;
    GarbageBeforeFrame(garbage, s);
    ResyncFindsFirst(garbage + s, |garbage|);
    assert (garbage + s)[|garbage|..] == s;
  }

  lemma HeaderSplits(header: bytes, tail: bytes, n: nat)
    requires |header| == n
    ensures (header + tail)[..n] == header && (header + tail)[n..] == tail
  {
  }

  /** When a plain frame gives no result: an over-long one, one that the stream ends in, and one too
      short for what must stand in it; and what is left of the stream then. */
  lemma PlainOutcome(
    c: Crypto, key: Option<bytes>, noRetcode: bool, garbage: bytes,
    seqNo: u32, cmd: u32, length: u32, tail: bytes)
    requires NoPrefix(garbage)
    ensures var r := ReadFrom(c, key, noRetcode, garbage + (PlainHeader(seqNo, cmd, length) + tail));
            var least := (if key.Some? then 36 else 8) + if noRetcode then 0 else 4;
            if length > 8192 then r == (OverCap, tail)
            else if |tail| < length then r == (EndOfStream, tail)
            else if length < least then r == (ShortBody, tail[length..])
            else r.0.Got? && r.1 == tail[length..]
  {
    hide PackU32, Resync, Field;
    var header := PlainHeader(seqNo, cmd, length);
    PlainHeaderIs(seqNo, cmd, length);
    HeaderFields55AA(seqNo, cmd, length);
    HeaderSplits(header, tail, 16);
    assert (header + tail)[..4] == header[..4];
    ReadsAtPrefix(c, key, noRetcode, garbage, header + tail);
    hide PlainHeader, Header55AA;
  }

  /** The same for a sealed frame: no sealed frame is too short. */
  lemma SealedOutcome(
    c: Crypto, key: Option<bytes>, noRetcode: bool, garbage: bytes, unknown: bytes,
    seqNo: u32, cmd: u32, length: u32, tail: bytes)
    requires NoPrefix(garbage) && |unknown| == 2
    ensures var s := SealedHeader(unknown, seqNo, cmd, length) + tail;
            var r := ReadFrom(c, key, noRetcode, garbage + s);
            if length > 8192 then r == (OverCap, tail)
            else if |tail| < length then r == (EndOfStream, tail)
            else if |tail| < length + 4 then r == (EndOfStream, tail[length..])
            else r.0.Got? && r.1 == tail[length + 4..]
  {
    hide PackU32, Resync, Field;
    var header := SealedHeader(unknown, seqNo, cmd, length);
    SealedHeaderFields(unknown, seqNo, cmd, length);
    HeaderSplits(header, tail, 18);
    assert (header + tail)[..4] == header[..4];
    ReadsAtPrefix(c, key, noRetcode, garbage, header + tail);
    hide SealedHeader;
  }

  /** A stream without a prefix, or too short for the window, gives no frame. */
  lemma NoFrame(c: Crypto, key: Option<bytes>, noRetcode: bool, s: bytes)
    requires NoPrefix(s) || |s| < 8
    ensures ReadFrom(c, key, noRetcode, s)
         == (EndOfStream, if |s| < 8 then s else s[|s| - 7..])
  {
    if NoPrefix(s) {
      ResyncExhausts(s);
    }
  }

  /** A stream that ends within a header. */
  lemma HeaderCut(c: Crypto, key: Option<bytes>, noRetcode: bool, garbage: bytes, s: bytes)
    requires NoPrefix(garbage) && |s| >= 8
    requires (s[..4] == PREFIX_55AA && |s| < 16) || (s[..4] == PREFIX_6699 && |s| < 18)
    ensures ReadFrom(c, key, noRetcode, garbage + s) == (EndOfStream, s)
  {
    ReadsAtPrefix(c, key, noRetcode, garbage, s);
  }

  /** The part of a frame that is neither header nor trailer. */
  function Coded(noRetcode: bool, code: u32, payload: bytes): bytes {
    if noRetcode then payload else PackU32(code) + payload
  }

  /** Any plain frame is read field by field, and counts as authentic exactly when what stands in the
      place of the digest is the digest under the key, or without a key the checksum. What stands in
      the place of the suffix does not matter. */
  lemma PlainFrameRead(
    c: Crypto, key: Option<bytes>, noRetcode: bool, garbage: bytes, seqNo: u32, cmd: u32,
    code: u32, payload: bytes, digest: bytes, suffix: bytes, rest: bytes)
    requires NoPrefix(garbage) && |digest| == (if key.Some? then 32 else 4) && |suffix| == 4
    requires |Coded(noRetcode, code, payload)| + |digest| + 4 <= 8192
    ensures var coded := Coded(noRetcode, code, payload);
            var signed := PlainHeader(seqNo, cmd, |coded| + |digest| + 4) + coded;
            var ok := if key.Some? then c.hmac(key.value, signed) == digest
                      else c.crc32(signed) == BigEndian(digest);
            ReadFrom(c, key, noRetcode, garbage + (signed + digest + suffix + rest))
              == (Got(Incoming(seqNo, cmd, if noRetcode then 0 else code, payload, ok)), rest)
  {
    hide PackU32, Resync, Field, ReadFrom, ReadBody55AA, Accept55AA;
    var coded := Coded(noRetcode, code, payload);
    var body := coded + digest + suffix;
    var header := PlainHeader(seqNo, cmd, |body|);
    PlainHeaderIs(seqNo, cmd, |body|);
    HeaderFields55AA(seqNo, cmd, |body|);
    hide PlainHeader, Header55AA;
    var s := header + (body + rest);
    assert header + coded + digest + suffix + rest == s;
    assert s[..4] == header[..4];
    ReadsAtPrefix(c, key, noRetcode, garbage, s);
    ReadsBody55AA(c, key, noRetcode, header, body, rest);
    PlainBodyAccepted(c, key, noRetcode, header, code, payload, digest, suffix);
  }

  /** Where the parts of a plain body stand. */
  lemma PlainParts(noRetcode: bool, code: u32, payload: bytes, digest: bytes, suffix: bytes)
    ensures var coded := Coded(noRetcode, code, payload);
            var body := coded + digest + suffix;
            && |body| == |coded| + |digest| + |suffix| && |coded| >= (if noRetcode then 0 else 4)
            && body[..|coded|] == coded && body[|coded|..][..|digest|] == digest
            && body[if noRetcode then 0 else 4..|coded|] == payload
            && (!noRetcode ==> UnpackU32(body[..4]) == code)
  {
    hide PackU32, UnpackU32;
    SameNumber(code);
    var coded := Coded(noRetcode, code, payload);
    var body := coded + digest + suffix;
    assert body[|coded|..] == digest + suffix;
    if !noRetcode {
      assert body[..4] == PackU32(code);
    }
  }

  lemma PlainBodyAccepted(
    c: Crypto, key: Option<bytes>, noRetcode: bool, header: bytes, code: u32, payload: bytes,
    digest: bytes, suffix: bytes)
    requires |header| == 16 && |digest| == (if key.Some? then 32 else 4) && |suffix| == 4
    ensures var coded := Coded(noRetcode, code, payload);
            var ok := if key.Some? then c.hmac(key.value, header + coded) == digest
                      else c.crc32(header + coded) == BigEndian(digest);
            Accept55AA(c, key, noRetcode, header, coded + digest + suffix)
              == Got(Incoming(Field(header, 4), Field(header, 8), if noRetcode then 0 else code,
                              payload, ok))
  {
    PlainParts(noRetcode, code, payload, digest, suffix);
    assert key.None? ==> UnpackU32(digest) == BigEndian(digest);
    hide PackU32, UnpackU32, Field, Coded;
  }

  lemma SameNumber(n: u32)
    ensures |PackU32(n)| == 4 && UnpackU32(PackU32(n)) == n
  {
  }

  /** Any sealed frame is read field by field, and counts as authentic exactly when there is a key,
      the frame has 28 bytes and the cipher opens it. */
  lemma SealedFrameRead(
    c: Crypto, key: Option<bytes>, noRetcode: bool, garbage: bytes, unknown: bytes, seqNo: u32,
    cmd: u32, body: bytes, suffix: bytes, rest: bytes)
    requires NoPrefix(garbage) && |unknown| == 2 && |body| <= 8192 && |suffix| == 4
    ensures var header := SealedHeader(unknown, seqNo, cmd, |body|);
            var clear := if key.None? || |body| < 28 then None
                          else c.unseal(key.value, body[..12], body[12..], header[4..]);
            var (r, left) := ReadFrom(c, key, noRetcode, garbage + (header + body + suffix + rest));
            && left == rest && r.Got? && r.frame.seqNo == seqNo && r.frame.cmd == cmd
            && (r.frame.ok <==> clear.Some?)
            && (key.None? || |body| < 28 ==> r.frame.payload == body && r.frame.retcode == 0)
            && (key.Some? && |body| >= 28 && clear.None? ==>
                  r.frame.payload == [] && r.frame.retcode == 0)
            && (clear.Some? && (noRetcode || |clear.value| < 4) ==>
                  r.frame.payload == clear.value && r.frame.retcode == 0)
            && (clear.Some? && !noRetcode && |clear.value| >= 4 ==>
                  && PackU32(r.frame.retcode) + r.frame.payload == clear.value)
  {
    hide PackU32, Resync, Field, ReadFrom;
    var header := SealedHeader(unknown, seqNo, cmd, |body|);
    SealedHeaderFields(unknown, seqNo, cmd, |body|);
    hide SealedHeader;
    var s := header + (body + (suffix + rest));
    assert header + body + suffix + rest == s;
    HeaderSplits(header, body + (suffix + rest), 18);
    HeaderSplits(body, suffix + rest, |body|);
    assert (body + (suffix + rest))[|body| + 4..] == rest;
    assert s[..4] == header[..4];
    ReadsAtPrefix(c, key, noRetcode, garbage, s);
    if key.Some? && |body| >= 28 {
      var clear := c.unseal(key.value, body[..12], body[12..], header[4..]);
      if clear.Some? && !noRetcode && |clear.value| >= 4 {
        FourBytes(clear.value[..4]);
        assert clear.value[..4] + clear.value[4..] == clear.value;
      }
    }
  }

  /** Four bytes are those of their number. */
  lemma FourBytes(s: bytes)
    requires |s| == 4
    ensures PackU32(UnpackU32(s)) == s
  {
    BigEndianInjective(PackU32(UnpackU32(s)), s);
  }

  lemma {:induction false} BigEndianInjective(a: bytes, b: bytes)
    requires |a| == |b| && BigEndian(a) == BigEndian(b)
    ensures a == b
  {
    if a != [] {
      var n := |a| - 1;
      BigEndianInjective(a[..n], b[..n]);
      assert a == a[..n] + [a[n]] && b == b[..n] + [b[n]];
    }
  }

  /** What packing writes, byte for byte. */
  lemma PackedLayout(c: Crypto, key: Option<bytes>, f: Outgoing)
    requires |f.payload| + 40 < U32_LIMIT
    ensures f.Frame55AA? ==>
              var coded := (if f.retcode.Some? then PackU32(f.retcode.value) else []) + f.payload;
              var keyed := key.Some? && key.value != [];
              var signed := PlainHeader(f.seqNo, f.cmd, |coded| + if keyed then 36 else 8) + coded;
              Pack55AA(c, f, key)
                == signed + (if keyed then c.hmac(key.value, signed) else PackU32(c.crc32(signed)))
                   + [0x00, 0x00, 0xAA, 0x55]
    ensures f.Frame6699? && key.Some? ==>
              var coded := (if f.retcode.Some? then PackU32(f.retcode.value) else []) + f.payload;
              var header := SealedHeader([0x00, 0x00], f.seqNo, f.cmd, |coded| + 28);
              Pack6699(c, f, key.value)
                == header + f.iv + c.seal(key.value, f.iv, coded, header[4..])
                   + [0x00, 0x00, 0x99, 0x66]
  {
    hide PackU32;
  }

  // ------------------------------------------------------------------------------------------
  // Whole streams
  // ------------------------------------------------------------------------------------------

  /** A frame with the bytes that precede it on the wire. */
  datatype Sent = Sent(garbage: bytes, frame: Outgoing)

  ghost predicate AllSendable(c: Crypto, key: Option<bytes>, noRetcode: bool, sent: seq<Sent>) {
    forall i :: 0 <= i < |sent| ==>
      NoPrefix(sent[i].garbage) && Sendable(c, key, noRetcode, sent[i].frame)
  }

  ghost function Wire(c: Crypto, key: Option<bytes>, noRetcode: bool, sent: seq<Sent>): bytes
    requires AllSendable(c, key, noRetcode, sent)
  {
    if sent == [] then []
    else
      sent[0].garbage + Packed(c, key, sent[0].frame)
      + Wire(c, key, noRetcode, sent[1..])
  }

  /** The results of reading so many frames, and what is left after them. */
  function ReadMany(c: Crypto, key: Option<bytes>, noRetcode: bool, s: bytes, count: nat)
    : (r: (seq<Read>, bytes))
    ensures |r.0| == count
    decreases count
  {
    if count == 0 then ([], s)
    else
      var (first, rest) := ReadFrom(c, key, noRetcode, s);
      var (more, left) := ReadMany(c, key, noRetcode, rest, count - 1);
      ([first] + more, left)
  }

  lemma ReadManyMore(
    c: Crypto, key: Option<bytes>, noRetcode: bool, s: bytes, count: nat, before: seq<Read>)
    requires count > 0
    ensures var (frame, rest) := ReadFrom(c, key, noRetcode, s);
            var (all, left) := ReadMany(c, key, noRetcode, s, count);
            var (more, left') := ReadMany(c, key, noRetcode, rest, count - 1);
            before + all == before + [frame] + more && left == left'
  {
    hide ReadFrom;
    var (frame, rest) := ReadFrom(c, key, noRetcode, s);
    var more := ReadMany(c, key, noRetcode, rest, count - 1).0;
    assert before + ([frame] + more) == before + [frame] + more;
  }

  function AllReceived(sent: seq<Sent>): (r: seq<Read>)
    ensures |r| == |sent|
  {
    seq(|sent|, i requires 0 <= i < |sent| => Got(Received(sent[i].frame)))
  }

  lemma AllReceivedStep(sent: seq<Sent>)
    requires sent != []
    ensures AllReceived(sent) == [Got(Received(sent[0].frame))] + AllReceived(sent[1..])
  {
  }

  /** Any list of frames of both formats, with prefix-free bytes before each, is read back frame by
      frame, in order, and nothing is lost of what follows. */
  lemma {:induction false} StreamReadsBack(
    c: Crypto, key: Option<bytes>, noRetcode: bool, sent: seq<Sent>, rest: bytes)
    requires c.Lawful() && key != Some([]) && AllSendable(c, key, noRetcode, sent)
    ensures ReadMany(c, key, noRetcode, Wire(c, key, noRetcode, sent) + rest, |sent|)
         == (AllReceived(sent), rest)
    decreases |sent|
  {
    hide Packed, ReadFrom, Sendable, NoPrefix, Received, AllReceived;
    if sent == [] {
      assert Wire(c, key, noRetcode, sent) + rest == rest;
      assert AllReceived(sent) == [];
    } else {
      var head, left := sent[0], Wire(c, key, noRetcode, sent[1..]) + rest;
      SentStarts(c, key, noRetcode, sent, rest);
      ReadUndoesPack(c, key, noRetcode, head.garbage, head.frame, left);
      StreamReadsBack(c, key, noRetcode, sent[1..], rest);
      AllReceivedStep(sent);
    }
  }

  lemma SentStarts(c: Crypto, key: Option<bytes>, noRetcode: bool, sent: seq<Sent>, rest: bytes)
    requires AllSendable(c, key, noRetcode, sent) && sent != []
    ensures AllSendable(c, key, noRetcode, sent[1..])
    ensures |sent[0].frame.payload| + 40 < U32_LIMIT && (sent[0].frame.Frame6699? ==> key.Some?)
    ensures Wire(c, key, noRetcode, sent) + rest
         == sent[0].garbage + Packed(c, key, sent[0].frame)
            + (Wire(c, key, noRetcode, sent[1..]) + rest)
  {
    hide Packed;
  }
}
