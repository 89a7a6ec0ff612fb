/** The key settings of data point 105: a lock mask and three gestures in seven bytes. */
module Dp105 {
  import opened Options
  import opened Bytes
  import opened Dp102

  const KEYS_LENGTH: nat := 7
  const DEFAULT_KEYS: bytes := [0, 1, 0, 1, 2, 1, 3]

  datatype Gesture = Gesture(enabled: bool, action: int)

  datatype KeySettings = KeySettings(
    lockMask: int, press: Gesture, hold3s: Gesture, hold7s: Gesture)

  /** A short payload is replaced as a whole, not padded. */
  function DecodeKeysRaw(payload: bytes): KeySettings {
    var raw := if |payload| >= KEYS_LENGTH then payload else DEFAULT_KEYS;
    KeySettings(raw[0] as int % 16, Gesture(raw[1] != 0, raw[2] as int),
                Gesture(raw[3] != 0, raw[4] as int), Gesture(raw[5] != 0, raw[6] as int))
  }

  function DecodeKeys(payload: Option<bytes>): Option<KeySettings> {
    match payload
    case None => None
    case Some(b) => Some(DecodeKeysRaw(b))
  }

  function EncodedKeys(s: KeySettings): bytes {
    [(s.lockMask % 16) as byte,
     FlagByte(s.press.enabled), (s.press.action % 256) as byte,
     FlagByte(s.hold3s.enabled), (s.hold3s.action % 256) as byte,
     FlagByte(s.hold7s.enabled), (s.hold7s.action % 256) as byte]
  }

  /** The key settings come back exactly when the mask has four bits and the actions are bytes. */
  lemma KeysGetBackIff(s: KeySettings)
    ensures DecodeKeysRaw(EncodedKeys(s)) == s
            <==> 0 <= s.lockMask < 16 && 0 <= s.press.action < 256
                 && 0 <= s.hold3s.action < 256 && 0 <= s.hold7s.action < 256
  {
  }

  /** This encoder does not keep the old payload: it gives an untouched one back exactly when that
      has seven bytes, no bit above the mask and flags that are 0 or 1. */
  lemma KeysPutUnchangedIff(payload: bytes)
    ensures EncodedKeys(DecodeKeysRaw(payload)) == payload
            <==> |payload| == KEYS_LENGTH && payload[0] < 16
                 && payload[1] <= 1 && payload[3] <= 1 && payload[5] <= 1
  {
    var r := EncodedKeys(DecodeKeysRaw(payload));
    if |payload| == KEYS_LENGTH {
      assert r == payload <==> forall i :: 0 <= i < 7 ==> r[i] == payload[i];
      assert payload == [payload[0], payload[1], payload[2], payload[3], payload[4], payload[5],
                         payload[6]];
    }
  }

  /** Bit k of the mask, as the locks of the four keys are read. */
  function LockBit(mask: int, k: nat): bool
    requires k < 4
  {
    Flag((mask % 16) as byte, k)
  }

  predicate IsKeyLocked(s: KeySettings, key: int) {
    0 <= key < 4 && LockBit(s.lockMask, key)
  }

  /** The mask with one of its four bits set or cleared and all higher bits cut off. */
  function MaskWith(mask: int, key: nat, locked: bool): int
    requires key < 4
  {
    FlagsByte([if key == 0 then locked else LockBit(mask, 0),
               if key == 1 then locked else LockBit(mask, 1),
               if key == 2 then locked else LockBit(mask, 2),
               if key == 3 then locked else LockBit(mask, 3)]) as int
  }

  function WithKeyLock(s: KeySettings, key: int, locked: bool): KeySettings {
    if !(0 <= key < 4) then s else s.(lockMask := MaskWith(s.lockMask, key, locked))
  }

  lemma MaskWithBit(mask: int, key: nat, locked: bool, other: nat)
    requires key < 4 && other < 4
    ensures LockBit(MaskWith(mask, key, locked), other)
         == if other == key then locked else LockBit(mask, other)
  {
    hide BitOf, FlagsByte;
    var f := [if key == 0 then locked else LockBit(mask, 0),
              if key == 1 then locked else LockBit(mask, 1),
              if key == 2 then locked else LockBit(mask, 2),
              if key == 3 then locked else LockBit(mask, 3)];
    assert Two(4) == 16;
    FlagsByteBit(f, other);
    assert LockBit(MaskWith(mask, key, locked), other) == Flag(FlagsByte(f), other);
    hide LockBit;
    match other
    case 0 =>
    case 1 =>
    case 2 =>
    case _ =>
  }

  /** Locking a key changes that key's lock and nothing else, and an unknown key changes nothing. */
  lemma KeyLockIsLocal(s: KeySettings, key: int, locked: bool, other: int)
    ensures var r := WithKeyLock(s, key, locked);
            && IsKeyLocked(r, other)
               == (if other == key && 0 <= key < 4 then locked else IsKeyLocked(s, other))
            && r.press == s.press && r.hold3s == s.hold3s && r.hold7s == s.hold7s
  {
    hide MaskWith, LockBit;
    if 0 <= key < 4 && 0 <= other < 4 {
      MaskWithBit(s.lockMask, key, locked, other);
    }
  }

  /** Locks of different keys commute. */
  lemma KeyLocksCommute(s: KeySettings, key: int, locked: bool, key': int, locked': bool)
    requires key != key'
    ensures WithKeyLock(WithKeyLock(s, key, locked), key', locked')
         == WithKeyLock(WithKeyLock(s, key', locked'), key, locked)
  {
    hide LockBit, FlagsByte;
    if 0 <= key < 4 && 0 <= key' < 4 {
      MaskBits(s.lockMask, key, locked);
      MaskBits(s.lockMask, key', locked');
    }
  }

  /** A later lock of the same key wins. */
  lemma LastKeyLockWins(s: KeySettings, key: int, first: bool, locked: bool)
    ensures WithKeyLock(WithKeyLock(s, key, first), key, locked) == WithKeyLock(s, key, locked)
  {
    hide LockBit, FlagsByte;
    if 0 <= key < 4 {
      MaskBits(s.lockMask, key, first);
    }
  }

  lemma MaskBits(mask: int, key: nat, locked: bool)
    requires key < 4
    ensures forall k :: 0 <= k < 4 ==>
              LockBit(MaskWith(mask, key, locked), k) == if k == key then locked else LockBit(mask, k)
  {
    var s := KeySettings(mask, Gesture(true, 0), Gesture(true, 0), Gesture(true, 0));
    forall k | 0 <= k < 4
      ensures LockBit(MaskWith(mask, key, locked), k) == if k == key then locked else LockBit(mask, k)
    {
      KeyLockIsLocal(s, key, locked, k);
      assert IsKeyLocked(WithKeyLock(s, key, locked), k) == LockBit(MaskWith(mask, key, locked), k);
    }
  }

  function AllKeysLocked(s: KeySettings, locked: bool): KeySettings {
    s.(lockMask := if locked then 0x0F else 0)
  }

  /** Locking all keys locks exactly the four keys there are. */
  lemma AllKeysLockedMeans(s: KeySettings, locked: bool, key: int)
    ensures IsKeyLocked(AllKeysLocked(s, locked), key) <==> locked && 0 <= key < 4
  {
    if 0 <= key < 4 {
      hide BitOf;
      var f := [locked, locked, locked, locked];
      FlagsByteBit(f, key);
      assert FlagsByte(f) == if locked then 15 else 0 by {
        var x := FlagBit(locked) as byte;
        assert FlagsByte([locked]) == x + 2 * FlagsByte([locked][1..]) == x;
        assert [locked, locked][1..] == [locked] && FlagsByte([locked, locked]) == 3 * x;
        assert [locked, locked, locked][1..] == [locked, locked];
        assert FlagsByte([locked, locked, locked]) == 7 * x;
        assert f[1..] == [locked, locked, locked];
      }
    }
  }

  /** The layout of the payload: a gesture is a switch and an action. A payload of fewer than seven
      bytes counts for nothing, and the default has no key locked and the actions 0, 2 and 3. */
  lemma KeysRead(payload: bytes)
    ensures var s := DecodeKeysRaw(payload);
            && (|payload| < 7 ==>
                  && s.press == Gesture(true, 0) && s.hold3s == Gesture(true, 2)
                  && s.hold7s == Gesture(true, 3)
                  && forall key :: !IsKeyLocked(s, key))
            && (|payload| >= 7 ==>
                  && (s.press.enabled <==> payload[1] > 0) && s.press.action == payload[2] as int
                  && (s.hold3s.enabled <==> payload[3] > 0) && s.hold3s.action == payload[4] as int
                  && (s.hold7s.enabled <==> payload[5] > 0) && s.hold7s.action == payload[6] as int)
  {
    NoLocks();
    hide LockBit;
  }

  /** The locks of the keys are the lowest four bits of the first byte, whatever stands above them. */
  lemma LocksRead(
    payload: bytes, a: bool, b: bool, c: bool, d: bool, e: bool, f: bool, g: bool, h: bool, key: int)
    requires |payload| >= 7 && payload[0] == Eight(a, b, c, d, e, f, g, h)
    ensures IsKeyLocked(DecodeKeysRaw(payload), key)
        <==> (key == 0 && a) || (key == 1 && b) || (key == 2 && c) || (key == 3 && d)
  {
    LowNibble(payload[0]);
    EightBits(a, b, c, d, e, f, g, h);
    hide Eight, BitOf, LockBit;
    assert DecodeKeysRaw(payload).lockMask == (payload[0] % 16) as int;
    if 0 <= key < 4 {
      assert IsKeyLocked(DecodeKeysRaw(payload), key) == Flag(payload[0], key);
    }
  }

  lemma NoLocks()
    ensures forall k :: 0 <= k < 4 ==> !LockBit(0, k)
  {
    forall k | 0 <= k < 4 ensures !LockBit(0, k) {
      ZeroBit(k);
    }
  }

  /** What is left of a byte below its upper four bits has the same lower bits. */
  lemma LowNibble(b: byte)
    ensures forall k :: 0 <= k < 4 ==> LockBit((b % 16) as int, k) == Flag(b, k)
  {
    forall k | 0 <= k < 4 ensures LockBit((b % 16) as int, k) == Flag(b, k) {
      NibbleBit(b, k);
    }
  }

  lemma NibbleBit(b: byte, k: nat)
    requires k < 4
    ensures BitOf(b % 16, k) == BitOf(b, k)
  {
    assert b % 16 / 2 == b / 2 % 8 && b % 16 % 2 == b % 2;
    if k > 0 {
      OctalBit(b / 2, k - 1);
    }
  }

  lemma OctalBit(b: byte, k: nat)
    requires k < 3
    ensures BitOf(b % 8, k) == BitOf(b, k)
  {
    assert b % 8 / 2 == b / 2 % 4 && b % 8 % 2 == b % 2;
    if k > 0 {
      LastTwoBits(b / 2, k - 1);
    }
  }

  lemma LastTwoBits(b: byte, k: nat)
    requires k < 2
    ensures BitOf(b % 4, k) == BitOf(b, k)
  {
    assert b % 4 / 2 == b / 2 % 2 && b % 4 % 2 == b % 2;
  }
}
