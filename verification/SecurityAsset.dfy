/** Recovery of the app-bound components hidden in a bitmap asset: header checks, a reader seeded
    by a hash of the client id, one elimination per key and a final mask. */
module SecurityAsset {
  import opened Bytes
  import opened Polynomials
  import opened Elimination
  import opened PixelReader

  /** The length of the fixed mask stream. */
  const STREAM_LENGTH: nat := 264

  /** The mask stream in blocks of sixteen bytes, the last one half as long. */
  function StreamBlock(k: nat): (block: bytes)
    requires k < 17
    ensures |block| == if k < 16 then 16 else 8
  {
    if k == 0 then
      [0xcc, 0xc8, 0x6e, 0x0b, 0xf7, 0x22, 0xfe, 0x3e, 0xb9, 0xa8, 0x9a, 0x80, 0xff, 0xff, 0xff, 0xff]
    else if k == 1 then
      [0x9c, 0x9a, 0xc2, 0xc1, 0xaa, 0x6c, 0x17, 0x18, 0xf6, 0xd1, 0xd1, 0x9e, 0xd2, 0xa1, 0x34, 0xaa]
    else if k == 2 then
      [0x4a, 0xac, 0x20, 0x00, 0xff, 0xff, 0xff, 0xff, 0x3c, 0xca, 0x8b, 0x0e, 0xaa, 0x0c, 0xa1, 0xc4]
    else if k == 3 then
      [0x63, 0x6e, 0xc8, 0xa4, 0xf7, 0x22, 0xfe, 0x3e, 0x26, 0xe8, 0x00, 0x00, 0xff, 0xff, 0xff, 0xff]
    else if k == 4 then
      [0x9c, 0x9a, 0xc2, 0xc1, 0xaa, 0x6c, 0x17, 0x18, 0x59, 0x77, 0x77, 0x31, 0xd2, 0xa1, 0x34, 0xaa]
    else if k == 5 then
      [0xd2, 0x00, 0x00, 0x00, 0xff, 0xff, 0xff, 0xff, 0x3c, 0xca, 0x8b, 0x0e, 0xaa, 0x0c, 0xa1, 0xc4]
    else if k == 6 then
      [0xcc, 0xc8, 0x6e, 0x0b, 0xf7, 0x22, 0xfe, 0x3e, 0x80, 0x00, 0x00, 0x00, 0xff, 0xff, 0xff, 0xff]
    else if k == 7 then
      [0x9c, 0x9a, 0xc2, 0xc1, 0xaa, 0x6c, 0x17, 0x18, 0xf6, 0xd1, 0xd1, 0x9e, 0xd2, 0xa1, 0x34, 0xaa]
    else if k == 8 then
      [0x00, 0x00, 0x00, 0x00, 0xff, 0xff, 0xff, 0xff, 0x3c, 0xca, 0x8b, 0x0e, 0xaa, 0x0c, 0xa1, 0xc4]
    else if k == 9 then
      [0x63, 0x6e, 0xc8, 0xa4, 0xf7, 0x22, 0xfe, 0x3e, 0x00, 0x00, 0x00, 0x00, 0xff, 0xff, 0xff, 0xff]
    else if k == 10 then
      [0x9c, 0x9a, 0xc2, 0xc1, 0xaa, 0x6c, 0x17, 0x18, 0x59, 0x77, 0x77, 0x31, 0xd2, 0xa1, 0x34, 0xaa]
    else if k == 11 then
      [0x00, 0x00, 0x00, 0x00, 0xff, 0xff, 0xff, 0xff, 0x3c, 0xca, 0x8b, 0x0e, 0xaa, 0x0c, 0xa1, 0xc4]
    else if k == 12 then
      [0xcc, 0xc8, 0x6e, 0x0b, 0xf7, 0x22, 0xfe, 0x3e, 0x00, 0x00, 0x00, 0x00, 0xff, 0xff, 0xff, 0xff]
    else if k == 13 then
      [0x9c, 0x9a, 0xc2, 0xc1, 0xaa, 0x6c, 0x17, 0x18, 0xf6, 0xd1, 0xd1, 0x9e, 0xd2, 0xa1, 0x34, 0xaa]
    else if k == 14 then
      [0x00, 0x00, 0x00, 0x00, 0xff, 0xff, 0xff, 0xff, 0x3c, 0xca, 0x8b, 0x0e, 0xaa, 0x0c, 0xa1, 0xc4]
    else if k == 15 then
      [0x63, 0x6e, 0xc8, 0xa4, 0xf7, 0x22, 0xfe, 0x3e, 0x00, 0x00, 0x00, 0x00, 0xff, 0xff, 0xff, 0xff]
    else [0x9c, 0x9a, 0xc2, 0xc1, 0xaa, 0x6c, 0x17, 0x18]
  }

  function StreamAt(i: nat): byte
    requires i < STREAM_LENGTH
  {
    StreamBlock(i / 16)[i % 16]
  }

  const MAX_KEYS: nat := 5
  const SKIPPED_PIXELS: nat := 32

  // ------------------------------------------------------------------------------------------
  // The start of the hidden stream
  // ------------------------------------------------------------------------------------------

  /** The 32-bit wrap-around hash before it is read as a signed number. */
  function Hash32(s: bytes): u32 {
    if s == [] then 0 else (Hash32(s[..|s| - 1]) * 31 + s[|s| - 1] as nat) % U32_LIMIT
  }

  /** The absolute value of the hash as a signed 32-bit number. */
  function JavaStringHash(s: bytes): (h: nat)
    ensures h <= 0x8000_0000
  {
    var h := Hash32(s);
    if h >= 0x8000_0000 then U32_LIMIT - h else h
  }

  method ComputeJavaStringHash(s: bytes) returns (h: nat)
    ensures h == JavaStringHash(s)
  {
    var result: u32 := 0;
    for i := 0 to |s|
      invariant result == Hash32(s[..i])
    {
      assert s[..i + 1][..i] == s[..i];
      result := (result * 31 + s[i] as nat) % U32_LIMIT;
    }
    assert s[..|s|] == s;
    h := if result >= 0x8000_0000 then U32_LIMIT - result else result;
  }

  function StartCursor(clientId: bytes, size: nat): nat
    requires size > 0
  {
    ((JavaStringHash(clientId) % size) / 2) % size + 1
  }

  /** The pixel bytes of a bitmap, or what is wrong with its header. */
  function Payload(bitmap: bytes): (r: Result<bytes>)
    ensures r.Ok? ==> r.value != []
  {
    if |bitmap| < 54 || bitmap[..2] != [0x42, 0x4D] then Err(NotBitmap)
    else
      var pixelOffset := LittleEndian(bitmap[10..14]);
      var declaredSize := LittleEndian(bitmap[2..6]);
      if pixelOffset >= |bitmap| || declaredSize > |bitmap| then Err(InvalidHeader)
      else if pixelOffset >= declaredSize then Err(NoPayload)
      else Ok(bitmap[pixelOffset..declaredSize])
  }

  // ------------------------------------------------------------------------------------------
  // The solved number as bytes, and the mask
  // ------------------------------------------------------------------------------------------

  type nibble = d: nat | d < 16

  /** The hexadecimal digits of a number without leading zeros. */
  function HexDigits(n: nat): (digits: seq<nibble>)
    ensures digits != []
  {
    if n < 16 then [n] else HexDigits(n / 16) + [n % 16]
  }

  function EvenDigits(digits: seq<nibble>): (r: seq<nibble>)
    ensures |r| % 2 == 0
  {
    if |digits| % 2 == 1 then [0] + digits else digits
  }

  function FromHex(digits: seq<nibble>): bytes
    requires |digits| % 2 == 0
  {
    var k := |digits|;
    if k == 0 then []
    else FromHex(digits[..k - 2]) + [HexByte(digits[k - 2], digits[k - 1])]
  }

  function HexByte(high: nibble, low: nibble): byte {
    (high * 16 + low) as byte
  }

  function ComponentBytes(n: nat): bytes {
    FromHex(EvenDigits(HexDigits(n)))
  }

  lemma FromHexAppend(digits: seq<nibble>, high: nibble, low: nibble)
    requires |digits| % 2 == 0
    ensures FromHex(digits + [high, low]) == FromHex(digits) + [HexByte(high, low)]
  {
    var all := digits + [high, low];
    assert all[..|all| - 2] == digits && all[|all| - 2] == high && all[|all| - 1] == low;
  }

  lemma ComponentBytesStep(n: nat)
    requires n >= 256
    ensures ComponentBytes(n) == ComponentBytes(n / 256) + [(n % 256) as byte]
  {
    var upper, high, low := HexDigits(n / 256), n / 16 % 16, n % 16;
    assert n / 16 / 16 == n / 256;
    assert HexDigits(n) == HexDigits(n / 16) + [low] == upper + [high] + [low];
    assert EvenDigits(HexDigits(n)) == EvenDigits(upper) + [high, low];
    assert high * 16 + low == n % 256;
    FromHexAppend(EvenDigits(upper), high, low);
  }

  lemma ComponentBytesSmall(n: nat)
    requires n < 256
    ensures ComponentBytes(n) == [n as byte]
  {
    if n < 16 {
      assert EvenDigits(HexDigits(n)) == [0, n];
      assert FromHex([0, n][..0]) == [];
    } else {
      assert HexDigits(n / 16) == [n / 16];
      assert EvenDigits(HexDigits(n)) == [n / 16, n % 16];
      assert FromHex([n / 16, n % 16][..0]) == [];
    }
  }

  /** The bytes re-read big-endian are the number, and no shorter string does that: the first byte
      is zero only for the number zero. */
  lemma {:induction false} ComponentReadsBack(n: nat)
    ensures ComponentBytes(n) != []
    ensures BigEndian(ComponentBytes(n)) == n
    ensures ComponentBytes(n)[0] == 0 ==> n == 0
  {
    if n < 256 {
      ComponentBytesSmall(n);
      SplitLast([], n as byte);
      assert [] + [n as byte] == [n as byte];
    } else {
      var upper, last := ComponentBytes(n / 256), (n % 256) as byte;
      ComponentReadsBack(n / 256);
      ComponentBytesStep(n);
      SplitLast(upper, last);
      assert ComponentBytes(n)[0] == upper[0];
    }
  }

  function Transform(component: bytes): (r: Result<bytes>)
    ensures r.Ok? <==> |component| <= STREAM_LENGTH
  {
    if |component| > STREAM_LENGTH then Err(TooLong)
    else Ok(Masked(component))
  }

  function Masked(component: bytes): (r: bytes)
    requires |component| <= STREAM_LENGTH
    ensures |r| == |component|
  {
    seq(|component|, i requires 0 <= i < |component| => XorByte(component[i], StreamAt(i)))
  }

  /** The mask is its own inverse. */
  lemma MaskedTwice(component: bytes)
    requires |component| <= STREAM_LENGTH
    ensures Masked(Masked(component)) == component
  {
    forall i | 0 <= i < |component| ensures Masked(Masked(component))[i] == component[i] {
      XorByteTwice(component[i], StreamAt(i));
    }
  }

  // ------------------------------------------------------------------------------------------
  // The whole extraction
  // ------------------------------------------------------------------------------------------

  /** One component from the shares of one key. */
  function Component(shares: seq<Share>): Result<bytes>
    requires shares != []
  {
    match Recovered(shares)
    case Singular => Err(SingularMatrix)
    case NotInteger => Err(NotAnInteger)
    case Solved(value) => Transform(ComponentBytes(value))
  }

  /** The components of all keys: the shares are taken perKey at a time, and the first error ends
      the extraction. */
  function Components(shares: seq<Share>, perKey: nat): Result<seq<bytes>>
    requires perKey > 0
    decreases |shares|
  {
    if |shares| < perKey then Ok([])
    else
      match Component(shares[..perKey])
      case Err(error) => Err(error)
      case Ok(first) => Before(first, Components(shares[perKey..], perKey))
  }

  function Before(first: bytes, rest: Result<seq<bytes>>): Result<seq<bytes>> {
    match rest
    case Err(error) => Err(error)
    case Ok(components) => Ok([first] + components)
  }

  function After(solved: seq<bytes>, rest: Result<seq<bytes>>): Result<seq<bytes>> {
    match rest
    case Err(error) => Err(error)
    case Ok(components) => Ok(solved + components)
  }

  lemma AfterBefore(solved: seq<bytes>, next: bytes, rest: Result<seq<bytes>>)
    ensures After(solved, Before(next, rest)) == After(solved + [next], rest)
  {
    if rest.Ok? {
      assert solved + ([next] + rest.value) == solved + [next] + rest.value;
    }
  }

  lemma AfterEnds(components: Result<seq<bytes>>, solved: seq<bytes>)
    ensures After([], components) == components
    ensures After(solved, Ok([])) == Ok(solved)
  {
    if components.Ok? {
      assert [] + components.value == components.value;
    }
    assert solved + [] == solved;
  }

  function Decode(payload: bytes, start: nat): Result<seq<bytes>>
    requires payload != []
  {
    var keys := ByteAt(payload, start) as nat;
    var count := ByteAt(payload, start + 8) as nat;
    if !(1 <= keys <= MAX_KEYS) then Err(WrongClient)
    else if count == 0 || count % keys != 0 then Err(InvalidCount)
    else
      match SharesAt(payload, start + 16 + SKIPPED_PIXELS, count)
      case Err(error) => Err(error)
      case Ok(shares) =>
        SharesAtLength(payload, start + 16 + SKIPPED_PIXELS, count);
        PerKey(count, keys);
        Components(shares, count / keys)
  }

  lemma {:induction false} SharesAtLength(payload: bytes, cursor: nat, count: nat)
    requires payload != []
    ensures SharesAt(payload, cursor, count).Ok? ==>
              |SharesAt(payload, cursor, count).value| == count
    decreases count
  {
    if count > 0 {
      SharesAtLength(payload, ShareEnd(payload, cursor), count - 1);
      SharesAtStep(payload, cursor, count);
    }
  }

  lemma PerKey(count: nat, keys: nat)
    requires keys > 0 && count > 0 && count % keys == 0
    ensures count / keys > 0 && keys * (count / keys) == count
  {
  }

  function Extraction(clientId: bytes, bitmap: bytes): Result<seq<bytes>> {
    if clientId == [] then Err(EmptyClientId)
    else
      match Payload(bitmap)
      case Err(error) => Err(error)
      case Ok(payload) => Decode(payload, StartCursor(clientId, |payload|))
  }

  /** The number of shares in so many groups of perKey. */
  ghost function InGroups(groups: nat, perKey: nat): nat {
    if groups == 0 then 0 else perKey + InGroups(groups - 1, perKey)
  }

  lemma {:induction false} InGroupsIsProduct(groups: nat, perKey: nat)
    ensures InGroups(groups, perKey) == groups * perKey
  {
    if groups > 0 {
      InGroupsIsProduct(groups - 1, perKey);
      assert groups * perKey == perKey + (groups - 1) * perKey;
    }
  }

  method SolveComponents(shares: seq<Share>, perKey: nat, keys: nat)
    returns (results: Result<seq<bytes>>)
    requires perKey > 0 && |shares| == InGroups(keys, perKey)
    ensures results == Components(shares, perKey)
  {
    hide Component;
    var solved: seq<bytes> := [];
    var rest := shares;
    AfterEnds(Components(shares, perKey), solved);
    for key := 0 to keys
      invariant |rest| == InGroups(keys - key, perKey)
      invariant After(solved, Components(rest, perKey)) == Components(shares, perKey)
    {
      var component := SolveComponent(rest[..perKey]);
      if component.Err? {
        return Err(component.error);
      }
      AfterBefore(solved, component.value, Components(rest[perKey..], perKey));
      solved := solved + [component.value];
      rest := rest[perKey..];
    }
    AfterEnds(Ok([]), solved);
    return Ok(solved);
  }

  method SolveComponent(shares: seq<Share>) returns (component: Result<bytes>)
    requires shares != []
    ensures component == Component(shares)
  {
    var answer := SolveKey(shares);
    if answer.Singular? {
      return Err(SingularMatrix);
    }
    if answer.NotInteger? {
      return Err(NotAnInteger);
    }
    component := Transform(ComponentBytes(answer.value));
  }

  /** The shares fall into one group for each key. */
  lemma GroupsOf(count: nat, keys: nat)
    requires keys > 0 && count > 0 && count % keys == 0
    ensures count / keys > 0 && InGroups(keys, count / keys) == count
  {
    PerKey(count, keys);
    InGroupsIsProduct(keys, count / keys);
  }

  method DecodePayload(payload: bytes, start: nat) returns (components: Result<seq<bytes>>)
    requires payload != []
    ensures components == Decode(payload, start)
  {
    hide ByteAt, SharesAt, Components, InGroups;
    var reader := new Reader(payload, start);
    var keys := reader.ReadByte();
    var count := reader.ReadByte();
    if !(1 <= keys as nat <= MAX_KEYS) {
      return Err(WrongClient);
    }
    if count as nat == 0 || count as nat % keys as nat != 0 {
      return Err(InvalidCount);
    }
    reader.cursor := reader.cursor + SKIPPED_PIXELS;
    var shares := reader.ReadShares(count as nat);
    if shares.Err? {
      return Err(shares.error);
    }
    SharesAtLength(payload, start + 16 + SKIPPED_PIXELS, count as nat);
    GroupsOf(count as nat, keys as nat);
    components := SolveComponents(shares.value, count as nat / keys as nat, keys as nat);
  }

  method Extract(clientId: bytes, bitmap: bytes) returns (components: Result<seq<bytes>>)
    ensures components == Extraction(clientId, bitmap)
  {
    if clientId == [] {
      return Err(EmptyClientId);
    }
    var pixels := Payload(bitmap);
    if pixels.Err? {
      return Err(pixels.error);
    }
    var size := |pixels.value|;
    var hash := ComputeJavaStringHash(clientId);
    components := DecodePayload(pixels.value, ((hash % size) / 2) % size + 1);
  }

  // ------------------------------------------------------------------------------------------
  // Hidden secrets are found
  // ------------------------------------------------------------------------------------------

  /** Secrets shared with perKey points each, all shares in one list key by key. */
  ghost predicate SharesOfSecrets(
    shares: seq<Share>, perKey: nat, polynomials: seq<Poly>, secrets: seq<nat>)
    requires |polynomials| == |secrets|
    decreases |secrets|
  {
    if secrets == [] then shares == []
    else
      && 0 < perKey <= |shares|
      && SharesOf(shares[..perKey], polynomials[0], secrets[0])
      && SharesOfSecrets(shares[perKey..], perKey, polynomials[1..], secrets[1..])
  }

  lemma {:induction false} SharesOfSecretsCount(
    shares: seq<Share>, perKey: nat, polynomials: seq<Poly>, secrets: seq<nat>)
    requires |polynomials| == |secrets|
    requires SharesOfSecrets(shares, perKey, polynomials, secrets)
    ensures |shares| == InGroups(|secrets|, perKey)
    decreases |secrets|
  {
    if secrets != [] {
      SharesOfSecretsCount(shares[perKey..], perKey, polynomials[1..], secrets[1..]);
    }
  }

  ghost predicate Fit(secrets: seq<nat>) {
    forall k :: 0 <= k < |secrets| ==> |ComponentBytes(secrets[k])| <= STREAM_LENGTH
  }

  ghost function MaskedSecrets(secrets: seq<nat>): (r: seq<bytes>)
    requires Fit(secrets)
    ensures |r| == |secrets|
  {
    seq(|secrets|, k requires 0 <= k < |secrets| => Masked(ComponentBytes(secrets[k])))
  }

  lemma ComponentOfSecret(shares: seq<Share>, p: Poly, secret: nat)
    requires SharesOf(shares, p, secret) && |ComponentBytes(secret)| <= STREAM_LENGTH
    ensures Component(shares) == Ok(Masked(ComponentBytes(secret)))
  {
    RecoversSecret(shares, p, secret);
  }

  lemma {:induction false} ComponentsOfSecrets(
    shares: seq<Share>, perKey: nat, polynomials: seq<Poly>, secrets: seq<nat>)
    requires perKey > 0 && |polynomials| == |secrets| && Fit(secrets)
    requires SharesOfSecrets(shares, perKey, polynomials, secrets)
    ensures Components(shares, perKey) == Ok(MaskedSecrets(secrets))
    decreases |secrets|
  {
    hide Masked, ComponentBytes, Component, SharesOf;
    if secrets != [] {
      ComponentOfSecret(shares[..perKey], polynomials[0], secrets[0]);
      ComponentsOfSecrets(shares[perKey..], perKey, polynomials[1..], secrets[1..]);
      assert MaskedSecrets(secrets)
          == [Masked(ComponentBytes(secrets[0]))] + MaskedSecrets(secrets[1..]);
    }
  }

  /** The counts of an asset and, after the skipped pixels, its shares. */
  ghost predicate Hides(payload: bytes, start: nat, keys: byte, raws: seq<RawShare>)
    requires payload != []
  {
    && Writable(raws) && |raws| < 256
    && Carries(payload, start, [keys, |raws| as byte])
    && Carries(payload, start + 16 + SKIPPED_PIXELS, Written(raws))
  }

  /** Writing the counts and the shares into any payload that has room for them hides them. */
  lemma EmbeddedHides(payload: bytes, start: nat, keys: byte, raws: seq<RawShare>) returns (r: bytes)
    requires Writable(raws) && |raws| < 256
    requires |payload| >= 16 + SKIPPED_PIXELS + 8 * |Written(raws)|
    ensures r == Embed(Embed(payload, start, [keys, |raws| as byte]),
                       start + 16 + SKIPPED_PIXELS, Written(raws))
    ensures |r| == |payload| && Hides(r, start, keys, raws)
  {
    var head, stream := [keys, |raws| as byte], Written(raws);
    var first, at := Embed(payload, start, head), start + 16 + SKIPPED_PIXELS;
    r := Embed(first, at, stream);
    EmbedCarries(payload, start, head);
    EmbedCarries(first, at, stream);
    forall j | 0 <= j < 16 ensures LowBits(r, start, 16)[j] == BitsOf(head)[j] {
      EmbedBitsKeeps(first, at, BitsOf(stream), start + j);
      assert LowBits(first, start, 16)[j] == BitsOf(head)[j];
    }
    assert LowBits(r, start, 16) == BitsOf(head);
  }

  lemma CountsReadBack(payload: bytes, start: nat, keys: byte, raws: seq<RawShare>)
    requires payload != [] && Hides(payload, start, keys, raws)
    ensures ByteAt(payload, start) == keys && ByteAt(payload, start + 8) == |raws| as byte
  {
    var head := [keys, |raws| as byte];
    TwoCountsReadBack(payload, start, head[0], head[1]);
  }

  lemma GroupSize(count: nat, keys: nat, perKey: nat)
    requires keys > 0 && perKey > 0 && count == keys * perKey
    ensures count > 0 && count % keys == 0 && count / keys == perKey
  {
    var d := perKey - count / keys;
    assert keys * d == count % keys by {
      assert count == keys * (count / keys) + count % keys;
    }
    assert d >= 1 ==> keys * d >= keys;
    assert d <= -1 ==> keys * d < 0;
    assert keys * perKey >= keys;
  }

  lemma DecodeFindsSecrets(
    payload: bytes, start: nat, raws: seq<RawShare>, perKey: nat,
    polynomials: seq<Poly>, secrets: seq<nat>)
    requires payload != []
    requires 1 <= |secrets| <= MAX_KEYS && |polynomials| == |secrets| && Fit(secrets)
    requires Hides(payload, start, |secrets| as byte, raws)
    requires SharesOfSecrets(Values(raws), perKey, polynomials, secrets)
    ensures Decode(payload, start) == Ok(MaskedSecrets(secrets))
  {
    CountsReadBack(payload, start, |secrets| as byte, raws);
    SharesReadBack(payload, start + 16 + SKIPPED_PIXELS, raws);
    SharesOfSecretsCount(Values(raws), perKey, polynomials, secrets);
    InGroupsIsProduct(|secrets|, perKey);
    GroupSize(|raws|, |secrets|, perKey);
    ComponentsOfSecrets(Values(raws), perKey, polynomials, secrets);
  }

  lemma ExtractionFromPayload(
    clientId: bytes, bitmap: bytes, raws: seq<RawShare>, perKey: nat,
    polynomials: seq<Poly>, secrets: seq<nat>)
    requires clientId != [] && Payload(bitmap).Ok?
    requires 1 <= |secrets| <= MAX_KEYS && |polynomials| == |secrets| && Fit(secrets)
    requires var payload := Payload(bitmap).value;
             Hides(payload, StartCursor(clientId, |payload|), |secrets| as byte, raws)
    requires SharesOfSecrets(Values(raws), perKey, polynomials, secrets)
    ensures Extraction(clientId, bitmap) == Ok(MaskedSecrets(secrets))
  {
    var payload := Payload(bitmap).value;
    DecodeFindsSecrets(
      payload, StartCursor(clientId, |payload|), raws, perKey, polynomials, secrets);
  }

  /** Unmasked and re-read big-endian, every returned component is its secret. */
  lemma UnmaskedSecret(secrets: seq<nat>, k: nat)
    requires Fit(secrets) && k < |secrets|
    ensures |MaskedSecrets(secrets)[k]| <= STREAM_LENGTH
    ensures BigEndian(Masked(MaskedSecrets(secrets)[k])) == secrets[k]
  {
    MaskedTwice(ComponentBytes(secrets[k]));
    ComponentReadsBack(secrets[k]);
  }

  /** The mask is the exclusive or with the stream, bit by bit. */
  lemma MaskedBit(component: bytes, i: nat, k: nat)
    requires |component| <= STREAM_LENGTH && i < |component| && k < 8
    ensures BitOf(Masked(component)[i], k)
         == if BitOf(component[i], k) == BitOf(StreamAt(i), k) then 0 else 1
  {
    XorByteBit(component[i], StreamAt(i), k);
  }

  /** The stream is its blocks one after the other. */
  lemma StreamIs(k: nat, j: nat)
    requires j < 16 && 16 * k + j < STREAM_LENGTH
    ensures j < |StreamBlock(k)| && StreamAt(16 * k + j) == StreamBlock(k)[j]
  {
    hide StreamBlock;
    assert (16 * k + j) / 16 == k && (16 * k + j) % 16 == j;
  }

  /** Byte j of block k is in the part that repeats. */
  predicate Repeats(k: nat, j: nat) {
    (k % 3 == 0 ==> j < 8 || 12 <= j) && (k % 3 == 2 ==> 4 <= j)
  }

  lemma EarlyBlocks(k: nat, j: nat)
    requires k < 5 && j < 16 && Repeats(k, j)
    ensures StreamBlock(k + 6)[j] == StreamBlock(k)[j]
  {
  }

  lemma LateBlocks(k: nat, j: nat)
    requires 5 <= k && k + 6 < 17 && j < |StreamBlock(k + 6)| && Repeats(k, j)
    ensures j < |StreamBlock(k)| && StreamBlock(k + 6)[j] == StreamBlock(k)[j]
  {
  }

  /** It repeats every 96 bytes, but for four bytes in every 24. */
  lemma StreamRepeats(k: nat, j: nat)
    requires k + 6 < 17 && j < |StreamBlock(k + 6)| && Repeats(k, j)
    ensures j < |StreamBlock(k)| && StreamBlock(k + 6)[j] == StreamBlock(k)[j]
  {
    hide StreamBlock;
    if k < 5 {
      EarlyBlocks(k, j);
    } else {
      LateBlocks(k, j);
    }
  }

  /** Those are zero from there on, all but the first. */
  lemma StreamRunsOut(k: nat, j: nat)
    requires 6 <= k < 17 && j < |StreamBlock(k)| && !Repeats(k, j)
    ensures StreamBlock(k)[j] == if k == 6 && j == 8 then 0x80 else 0
  {
  }

  // ------------------------------------------------------------------------------------------
  // Bitmaps as they are assembled
  // ------------------------------------------------------------------------------------------

  /** The lowest width bytes of a number, least significant first. */
  function Le(n: nat, width: nat): (s: bytes)
    ensures |s| == width
  {
    if width == 0 then [] else [(n % 256) as byte] + Le(n / 256, width - 1)
  }

  lemma {:induction false} LittleEndianInverse(n: nat, width: nat)
    requires n < Power256(width)
    ensures LittleEndian(Le(n, width)) == n
  {
    if width > 0 {
      LittleEndianInverse(n / 256, width - 1);
      assert Le(n, width)[1..] == Le(n / 256, width - 1);
    }
  }

  /** The header of a bitmap and all that follows it: magic, size, reserved bytes, offset. */
  function Assembled(size: u32, reserved: bytes, offset: u32, rest: bytes): bytes {
    [0x42, 0x4D] + Le(size, 4) + reserved + Le(offset, 4) + rest
  }

  lemma HeaderReadBack(size: u32, reserved: bytes, offset: u32, rest: bytes)
    requires |reserved| == 4
    ensures var b := Assembled(size, reserved, offset, rest);
            && |b| == 14 + |rest| && b[..2] == [0x42, 0x4D] && b[14..] == rest
            && LittleEndian(b[2..6]) == size && LittleEndian(b[10..14]) == offset
  {
    var b := Assembled(size, reserved, offset, rest);
    assert Power256(4) == U32_LIMIT by {
      assert Power256(3) == 0x100_0000 by { assert Power256(2) == 0x1_0000; }
    }
    LittleEndianInverse(size, 4);
    LittleEndianInverse(offset, 4);
    hide Le, LittleEndian;
    assert b[2..6] == Le(size, 4) && b[10..14] == Le(offset, 4);
  }

  /** What the pixels of a bitmap are, for every header and every content. */
  lemma PayloadOfAssembled(size: u32, reserved: bytes, offset: u32, rest: bytes)
    requires |reserved| == 4 && |rest| >= 40
    ensures var b := Assembled(size, reserved, offset, rest);
            Payload(b) == if offset >= |b| || size > |b| then Err(InvalidHeader)
                          else if offset >= size then Err(NoPayload)
                          else Ok(b[offset..size])
  {
    hide Assembled, LittleEndian;
    HeaderReadBack(size, reserved, offset, rest);
  }

  /** Everything else is not taken for a bitmap. */
  lemma NotABitmapIff(bitmap: bytes)
    ensures Payload(bitmap) == Err(NotBitmap)
        <==> |bitmap| < 54 || bitmap[0] != 0x42 || bitmap[1] != 0x4D
  {
    if |bitmap| >= 54 {
      assert bitmap[..2] == [bitmap[0], bitmap[1]];
    }
  }

  /** A bitmap whose pixels stand between a gap after the header and trailing bytes. */
  ghost predicate HasPixels(bitmap: bytes, pixels: bytes) {
    exists reserved: bytes, gap: bytes, after: bytes ::
      && |reserved| == 4 && 14 + |gap| + |pixels| < U32_LIMIT
      && bitmap == Assembled(14 + |gap| + |pixels|, reserved, 14 + |gap|, gap + pixels + after)
  }

  lemma PixelsAt(bitmap: bytes, gap: bytes, pixels: bytes, after: bytes)
    requires |bitmap| >= 14 && bitmap[14..] == gap + pixels + after
    ensures |bitmap| == 14 + |gap| + |pixels| + |after|
    ensures bitmap[14 + |gap|..14 + |gap| + |pixels|] == pixels
  {
    assert bitmap[14..][|gap|..|gap| + |pixels|] == pixels;
  }

  lemma PayloadIsPixels(bitmap: bytes, pixels: bytes)
    requires |bitmap| >= 54 && pixels != [] && HasPixels(bitmap, pixels)
    ensures Payload(bitmap) == Ok(pixels)
  {
    var reserved: bytes, gap: bytes, after: bytes :|
      && |reserved| == 4 && 14 + |gap| + |pixels| < U32_LIMIT
      && bitmap == Assembled(14 + |gap| + |pixels|, reserved, 14 + |gap|, gap + pixels + after);
    var rest, end := gap + pixels + after, 14 + |gap| + |pixels|;
    HeaderReadBack(end, reserved, 14 + |gap|, rest);
    PayloadOfAssembled(end, reserved, 14 + |gap|, rest);
    hide Assembled, Payload;
    PixelsAt(bitmap, gap, pixels, after);
  }

  // ------------------------------------------------------------------------------------------
  // The hash as a sum
  // ------------------------------------------------------------------------------------------

  function Power31(k: nat): nat {
    if k == 0 then 1 else 31 * Power31(k - 1)
  }

  /** The sum of s[i] * 31^(n - 1 - i). */
  function HashSum(s: bytes): nat {
    if s == [] then 0 else s[0] as nat * Power31(|s| - 1) + HashSum(s[1..])
  }

  lemma {:induction false} HashSumLast(s: bytes, b: byte)
    ensures HashSum(s + [b]) == 31 * HashSum(s) + b as nat
  {
    if s == [] {
      assert (s + [b])[1..] == [];
      assert Power31(0) == 1;
    } else {
      assert (s + [b])[1..] == s[1..] + [b];
      HashSumLast(s[1..], b);
      var head, power := s[0] as nat, Power31(|s| - 1);
      assert head * (31 * power) == 31 * (head * power);
    }
  }

  lemma SameRemainder(sum: nat, hash: nat, b: nat)
    requires hash == sum % U32_LIMIT
    ensures (hash * 31 + b) % U32_LIMIT == (31 * sum + b) % U32_LIMIT
  {
    var q := sum / U32_LIMIT;
    assert 31 * sum + b == (hash * 31 + b) + (31 * q) * U32_LIMIT;
    RemainderOfSum(hash * 31 + b, 31 * q);
  }

  lemma {:induction false} RemainderOfSum(n: nat, q: nat)
    ensures (n + q * U32_LIMIT) % U32_LIMIT == n % U32_LIMIT
  {
    if q > 0 {
      RemainderOfSum(n, q - 1);
      assert n + q * U32_LIMIT == (n + (q - 1) * U32_LIMIT) + U32_LIMIT;
    }
  }

  lemma {:induction false} HashIsSum(s: bytes)
    ensures Hash32(s) == HashSum(s) % U32_LIMIT
  {
    if s != [] {
      var init, last := s[..|s| - 1], s[|s| - 1];
      HashIsSum(init);
      HashSumLast(init, last);
      assert s == init + [last];
      hide HashSum, Hash32;
      SameRemainder(HashSum(init), Hash32(init), last as nat);
      assert Hash32(s) == (Hash32(init) * 31 + last as nat) % U32_LIMIT by {
        HashStep(s);
      }
    }
  }

  lemma HashStep(s: bytes)
    requires s != []
    ensures Hash32(s) == (Hash32(s[..|s| - 1]) * 31 + s[|s| - 1] as nat) % U32_LIMIT
  {
  }

  /** Where the hidden stream starts: the sum modulo 2^32, without its sign when it is read as a
      signed number, taken modulo the size, halved, and one further. */
  function StartOf(clientId: bytes, size: nat): nat
    requires size > 0
  {
    var sum := HashSum(clientId) % 0x1_0000_0000;
    var distance := if sum < 0x8000_0000 then sum else 0x1_0000_0000 - sum;
    distance % size / 2 + 1
  }

  lemma StartCursorIs(clientId: bytes, size: nat)
    requires size > 0
    ensures StartCursor(clientId, size) == StartOf(clientId, size)
  {
    hide HashSum, Hash32;
    HashIsSum(clientId);
    var m := JavaStringHash(clientId) % size;
    SmallRemainder(m / 2, size);
  }

  lemma SmallRemainder(n: nat, size: nat)
    requires n < size
    ensures n % size == n
  {
  }

  // ------------------------------------------------------------------------------------------
  // The whole way
  // ------------------------------------------------------------------------------------------

  /** Whatever polynomials the secrets were shared with, whatever different x were used, however the
      bitmap is laid out and wherever the stream wraps: extraction returns every secret, masked, in
      order. */
  lemma ExtractionFindsSecrets(
    clientId: bytes, bitmap: bytes, pixels: bytes, raws: seq<RawShare>, perKey: nat,
    polynomials: seq<Poly>, secrets: seq<nat>)
    requires clientId != [] && |bitmap| >= 54 && pixels != [] && HasPixels(bitmap, pixels)
    requires 1 <= |secrets| <= 5 && |polynomials| == |secrets| && Fit(secrets)
    requires Hides(pixels, StartOf(clientId, |pixels|), |secrets| as byte, raws)
    requires SharesOfSecrets(Values(raws), perKey, polynomials, secrets)
    ensures Extraction(clientId, bitmap) == Ok(MaskedSecrets(secrets))
  {
    hide Payload, StartCursor, StartOf, HasPixels, Hides, SharesOfSecrets, Extraction;
    PayloadIsPixels(bitmap, pixels);
    StartCursorIs(clientId, |pixels|);
    ExtractionFromPayload(clientId, bitmap, raws, perKey, polynomials, secrets);
  }

  /** What goes wrong first, for a stream that starts with two counts. */
  lemma CountsRefused(payload: bytes, start: nat, keys: byte, count: byte)
    requires payload != [] && Carries(payload, start, [keys, count])
    ensures keys == 0 || keys > 5 ==> Decode(payload, start) == Err(WrongClient)
    ensures 1 <= keys <= 5 && (count == 0 || count as nat % keys as nat != 0) ==>
              Decode(payload, start) == Err(InvalidCount)
  {
    TwoCountsReadBack(payload, start, keys, count);
    hide Carries, SharesAt, ByteAt, Components;
  }

  /** A share with an empty number is refused, whatever the others are. */
  lemma EmptyShareRefused(payload: bytes, start: nat, keys: byte, raws: seq<RawShare>)
    requires payload != [] && Short(raws) && 0 < |raws| < 256 && 1 <= keys <= 5
    requires |raws| % keys as nat == 0
    requires Carries(payload, start, [keys, |raws| as byte])
    requires Carries(payload, start + 16 + 32, WrittenAny(raws))
    requires exists i :: 0 <= i < |raws| && (raws[i].x == [] || raws[i].y == [])
    ensures Decode(payload, start) == Err(EmptyCoefficient)
  {
    TwoCountsReadBack(payload, start, keys, |raws| as byte);
    SharesReadBackIff(payload, start + 48, raws);
    hide Carries, WrittenAny, SharesAt, ByteAt, Components;
  }

  lemma TwoCountsReadBack(payload: bytes, start: nat, keys: byte, count: byte)
    requires payload != [] && Carries(payload, start, [keys, count])
    ensures ByteAt(payload, start) == keys && ByteAt(payload, start + 8) == count
  {
    CarriedReadBack(payload, start, [keys, count]);
    assert BytesAt(payload, start, 2)[0] == keys && BytesAt(payload, start, 2)[1] == count;
  }

  /** What one key comes to: its own error for a repeated x, for a value at 0 that is no natural
      number, and for one of more bytes than the mask has; and its masked bytes otherwise. */
  lemma ComponentIs(shares: seq<Share>, p: Poly)
    requires shares != [] && |p| == |shares| && Through(p, Points(shares))
    ensures var constant := Eval(p, 0.0);
            Component(shares) ==
              if exists i, j :: 0 <= i < j < |shares| && shares[i].x == shares[j].x
              then Err(SingularMatrix)
              else if constant < 0.0 || constant != constant.Floor as real then Err(NotAnInteger)
              else if |ComponentBytes(constant.Floor)| > 264 then Err(TooLong)
              else Ok(Masked(ComponentBytes(constant.Floor)))
  {
    hide Interpolate, Eval, Masked, ComponentBytes, Through;
    if DistinctShares(shares) {
      SharesDistinct(shares);
      UniquePolynomial(p, Points(shares));
      ValueAtZero(p);
    }
  }
}
