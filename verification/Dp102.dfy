/** The packed system settings of data point 102: a 29-byte payload decoded with fallbacks, and
    encoded by rewriting only the bytes whose fields differ from the payload's own decoding. */
module Dp102 {
  import opened Options
  import opened Bytes

  const LENGTH: nat := 29
  const RESHUFFLE_LABELS: seq<string> := ["2X", "3X", "4X", "5X"]

  datatype ActiveShield = ActiveShield(antiInterference: bool, sensitivity: int, range: int)

  datatype Notifications = Notifications(
    selfCheck: bool, binFull: bool, manualCleaning: bool, scheduledCleaning: bool,
    automaticCleaning: bool, cleaningStarted: bool, petFinished: bool, petDetected: bool)
  {
    function Flags(): (f: seq<bool>)
      ensures |f| == 8
    {
      [selfCheck, binFull, manualCleaning, scheduledCleaning,
       automaticCleaning, cleaningStarted, petFinished, petDetected]
    }
  }

  datatype ExtNotifications = ExtNotifications(
    newFirmware: bool, petLeftWithoutBusiness: bool, cleaningPaused: bool, cleaningResumed: bool)
  {
    function Flags(): (f: seq<bool>)
      ensures |f| == 4
    {
      [newFirmware, petLeftWithoutBusiness, cleaningPaused, cleaningResumed]
    }
  }

  datatype Panel = Panel(statusLight: bool, buzzer: bool, proCommands: bool)

  datatype Weights = Weights(automatic: bool, sentinel: bool, caring: bool, trackPetData: bool)

  datatype Spin = Spin(
    autoPowerCycle: bool, lowerSpeed: bool, reshuffleEnabled: bool, oscillation: string,
    autoSelfCheck: bool)

  datatype SystemSettings = SystemSettings(
    shield: ActiveShield,
    delayMinutes: int,
    smoothSpread: int,
    timezone: int,
    color: string,
    notifications: Notifications,
    master: bool,
    panel: Panel,
    weights: Weights,
    spin: Spin,
    ext: ExtNotifications,
    raw: bytes)

  // ------------------------------------------------------------------------------------------
  // Decoding, byte by byte
  // ------------------------------------------------------------------------------------------

  function Clamp(v: int, low: int, high: int): (r: int)
    requires low <= high
    ensures low <= r <= high
    ensures low <= v <= high ==> r == v
  {
    if v < low then low else if v > high then high else v
  }

  function ValidOr(b: byte, low: int, high: int, default: int): int {
    if low <= b as int <= high then b as int else default
  }

  /** Padded with zeros or cut to the length. */
  function Normalized(payload: bytes, length: nat): (r: bytes)
    ensures |r| == length
  {
    seq(length, i requires 0 <= i < length => if i < |payload| then payload[i] else 0)
  }

  function Sensitivity(b: byte): int { ValidOr(b, 1, 10, 5) }

  function Range(b: byte): int { ValidOr(b, 1, 5, 3) }

  function Delay(b: byte): int { ValidOr(b, 1, 60, 5) }

  function Smooth(b: byte): int { Clamp(b as int, 2, 7) }

  function Timezone(b: byte): int {
    Clamp(if b > 127 then b as int - 256 else b as int, -12, 12)
  }

  function Color(b: byte): string {
    if b == 1 then "black" else "white"
  }

  function Oscillation(b: byte): string {
    if b % 128 < 4 then RESHUFFLE_LABELS[b % 128] else "2X"
  }

  function Flag(b: byte, k: nat): bool
    requires k < 8
  {
    BitOf(b, k) == 1
  }

  function NotificationsOf(b: byte): Notifications {
    Notifications(Flag(b, 0), Flag(b, 1), Flag(b, 2), Flag(b, 3),
                  Flag(b, 4), Flag(b, 5), Flag(b, 6), Flag(b, 7))
  }

  function ExtOf(b: byte): ExtNotifications {
    ExtNotifications(Flag(b, 0), Flag(b, 1), Flag(b, 2), Flag(b, 3))
  }

  function WeightsOf(b: byte): Weights {
    Weights(Flag(b, 0), Flag(b, 1), Flag(b, 2), Flag(b, 6))
  }

  function DecodeRaw(raw: bytes): SystemSettings
    requires |raw| == LENGTH
  {
    SystemSettings(
      ActiveShield(raw[12] != 0, Sensitivity(raw[10]), Range(raw[11])),
      Delay(raw[13]), Smooth(raw[14]), Timezone(raw[15]), Color(raw[17]),
      NotificationsOf(raw[18]), raw[19] != 0,
      Panel(raw[20] != 0, raw[21] != 0, raw[23] != 0),
      WeightsOf(raw[22]),
      Spin(raw[24] != 0, raw[25] != 0, raw[26] >= 128, Oscillation(raw[26]), raw[28] != 0),
      ExtOf(raw[27]),
      raw)
  }

  /** Nothing without a payload; any payload at all, whatever its length, has a decoding. */
  function Decode(payload: Option<bytes>): Option<SystemSettings> {
    match payload
    case None => None
    case Some(b) => Some(DecodeRaw(Normalized(b, LENGTH)))
  }

  // ------------------------------------------------------------------------------------------
  // Encoding, byte by byte
  // ------------------------------------------------------------------------------------------

  /** Equality with "black" after lower-casing; the Kelvin sign lower-cases to k. */
  predicate IsBlack(text: string) {
    && |text| == 5
    && text[0] in {'b', 'B'} && text[1] in {'l', 'L'} && text[2] in {'a', 'A'}
    && text[3] in {'c', 'C'} && text[4] in {'k', 'K', '\U{212A}'}
  }

  function LabelIndex(text: string): (i: byte)
    ensures i < 4
  {
    if text == RESHUFFLE_LABELS[1] then 1
    else if text == RESHUFFLE_LABELS[2] then 2
    else if text == RESHUFFLE_LABELS[3] then 3
    else 0
  }

  function FlagByte(flag: bool): byte {
    if flag then 1 else 0
  }

  /** A byte that is a flag by being zero or not. */
  function PutFlag(prior: byte, flag: bool): byte {
    if flag == (prior != 0) then prior else FlagByte(flag)
  }

  function PutNumber(prior: byte, decoded: int, v: int, low: int, high: int): byte
    requires 0 <= low <= high < 256
  {
    if v == decoded then prior else Clamp(v, low, high) as byte
  }

  /** The weight byte: four known bits, the others kept. */
  function PutWeights(prior: byte, w: Weights): byte {
    if w == WeightsOf(prior) then prior else ReplacedWeights(prior, w)
  }

  function ReplacedWeights(prior: byte, w: Weights): byte {
    FlagsByte([w.automatic, w.sentinel, w.caring, Flag(prior, 3), Flag(prior, 4), Flag(prior, 5),
               w.trackPetData, Flag(prior, 7)])
  }

  /** The top bit of the reshuffle byte, written first. */
  function PutReshuffle(prior: byte, enabled: bool): byte {
    if enabled == (prior >= 128) then prior else prior % 128 + (if enabled then 128 else 0)
  }

  /** The lower seven bits of the reshuffle byte, over what the first write left. */
  function PutOscillation(prior: byte, current: byte, text: string): byte {
    if text == Oscillation(prior) then current else current - current % 128 + LabelIndex(text)
  }

  function PutSpin(prior: byte, spin: Spin): byte {
    PutOscillation(prior, PutReshuffle(prior, spin.reshuffleEnabled), spin.oscillation)
  }

  function EncodedByte(s: SystemSettings, prior: byte, i: nat): byte {
    if i == 10 then PutNumber(prior, Sensitivity(prior), s.shield.sensitivity, 1, 10)
    else if i == 11 then PutNumber(prior, Range(prior), s.shield.range, 1, 5)
    else if i == 12 then PutFlag(prior, s.shield.antiInterference)
    else if i == 13 then PutNumber(prior, Delay(prior), s.delayMinutes, 1, 60)
    else if i == 14 then PutNumber(prior, Smooth(prior), s.smoothSpread, 2, 7)
    else if i == 15 then
      if s.timezone == Timezone(prior) then prior else (Clamp(s.timezone, -12, 12) % 256) as byte
    else if i == 17 then if s.color == Color(prior) then prior else FlagByte(IsBlack(s.color))
    else if i == 18 then
      if s.notifications == NotificationsOf(prior) then prior else FlagsByte(s.notifications.Flags())
    else if i == 19 then PutFlag(prior, s.master)
    else if i == 20 then PutFlag(prior, s.panel.statusLight)
    else if i == 21 then PutFlag(prior, s.panel.buzzer)
    else if i == 22 then PutWeights(prior, s.weights)
    else if i == 23 then PutFlag(prior, s.panel.proCommands)
    else if i == 24 then PutFlag(prior, s.spin.autoPowerCycle)
    else if i == 25 then PutFlag(prior, s.spin.lowerSpeed)
    else if i == 26 then PutSpin(prior, s.spin)
    else if i == 27 then if s.ext == ExtOf(prior) then prior else FlagsByte(s.ext.Flags())
    else if i == 28 then PutFlag(prior, s.spin.autoSelfCheck)
    else prior
  }

  /** The payload for a model: every byte as its own field demands. */
  function Encoded(s: SystemSettings): (r: bytes)
    ensures |r| == LENGTH
  {
    var raw := Normalized(s.raw, LENGTH);
    seq(LENGTH, i requires 0 <= i < LENGTH => EncodedByte(s, raw[i], i))
  }

  /** The encoder as it runs: one pass over the fields, writing into the normalized payload in place
      wherever a field differs from the baseline. */
  method EncodeDp102(s: SystemSettings) returns (payload: bytes)
    ensures payload == Encoded(s)
  {
    var raw := Normalized(s.raw, LENGTH);
    var out := new byte[LENGTH](i requires 0 <= i < LENGTH => raw[i]);
    var base := DecodeRaw(raw);
    WriteShield(out, s, base);
    WriteMiddle(out, s, base);
    WriteSpin(out, s, base);
    WriteReshuffle(out, s, base);
    WriteTail(out, s, base);
    payload := out[..];
    forall i | 0 <= i < LENGTH ensures payload[i] == Encoded(s)[i] {
    }
  }

  /** A conditional write of one byte. */
  method WriteIf(out: array<byte>, i: nat, changed: bool, b: byte)
    requires i < out.Length
    modifies out
    ensures out[i] == if changed then b else old(out[i])
    ensures forall k :: 0 <= k < out.Length && k != i ==> out[k] == old(out[k])
  {
    if changed {
      out[i] := b;
    }
  }

  method WriteShield(out: array<byte>, s: SystemSettings, base: SystemSettings)
    requires out.Length == LENGTH == |base.raw| && base == DecodeRaw(base.raw)
    requires forall i :: 0 <= i < LENGTH ==> out[i] == base.raw[i]
    modifies out
    ensures forall i :: 0 <= i < 16 ==> out[i] == EncodedByte(s, base.raw[i], i)
    ensures forall i :: 16 <= i < LENGTH ==> out[i] == old(out[i])
  {
    WriteIf(out, 10, s.shield.sensitivity != base.shield.sensitivity,
            Clamp(s.shield.sensitivity, 1, 10) as byte);
    WriteIf(out, 11, s.shield.range != base.shield.range, Clamp(s.shield.range, 1, 5) as byte);
    WriteIf(out, 12, s.shield.antiInterference != base.shield.antiInterference,
            FlagByte(s.shield.antiInterference));
    WriteIf(out, 13, s.delayMinutes != base.delayMinutes, Clamp(s.delayMinutes, 1, 60) as byte);
    WriteIf(out, 14, s.smoothSpread != base.smoothSpread, Clamp(s.smoothSpread, 2, 7) as byte);
    WriteIf(out, 15, s.timezone != base.timezone, (Clamp(s.timezone, -12, 12) % 256) as byte);
  }

  method WriteMiddle(out: array<byte>, s: SystemSettings, base: SystemSettings)
    requires out.Length == LENGTH == |base.raw| && base == DecodeRaw(base.raw)
    requires forall i :: 16 <= i < LENGTH ==> out[i] == base.raw[i]
    modifies out
    ensures forall i :: 16 <= i < 23 ==> out[i] == EncodedByte(s, base.raw[i], i)
    ensures forall i :: 0 <= i < 16 || 23 <= i < LENGTH ==> out[i] == old(out[i])
  {
    hide IsBlack, Color, NotificationsOf, FlagsByte, BitOf;
    WriteIf(out, 17, s.color != base.color, FlagByte(IsBlack(s.color)));
    WriteIf(out, 18, s.notifications != base.notifications, FlagsByte(s.notifications.Flags()));
    WriteIf(out, 19, s.master != base.master, FlagByte(s.master));
    WriteIf(out, 20, s.panel.statusLight != base.panel.statusLight, FlagByte(s.panel.statusLight));
    WriteIf(out, 21, s.panel.buzzer != base.panel.buzzer, FlagByte(s.panel.buzzer));
    WriteIf(out, 22, s.weights != base.weights, ReplacedWeights(out[22], s.weights));
  }

  method WriteSpin(out: array<byte>, s: SystemSettings, base: SystemSettings)
    requires out.Length == LENGTH == |base.raw| && base == DecodeRaw(base.raw)
    requires forall i :: 23 <= i < LENGTH ==> out[i] == base.raw[i]
    modifies out
    ensures forall i :: 23 <= i < 26 ==> out[i] == EncodedByte(s, base.raw[i], i)
    ensures forall i :: 0 <= i < 23 || 26 <= i < LENGTH ==> out[i] == old(out[i])
  {
    WriteIf(out, 23, s.panel.proCommands != base.panel.proCommands, FlagByte(s.panel.proCommands));
    WriteIf(out, 24, s.spin.autoPowerCycle != base.spin.autoPowerCycle,
            FlagByte(s.spin.autoPowerCycle));
    WriteIf(out, 25, s.spin.lowerSpeed != base.spin.lowerSpeed, FlagByte(s.spin.lowerSpeed));
  }

  method WriteReshuffle(out: array<byte>, s: SystemSettings, base: SystemSettings)
    requires out.Length == LENGTH == |base.raw| && base == DecodeRaw(base.raw)
    requires forall i :: 26 <= i < LENGTH ==> out[i] == base.raw[i]
    modifies out
    ensures out[26] == EncodedByte(s, base.raw[26], 26)
    ensures forall i :: 0 <= i < LENGTH && i != 26 ==> out[i] == old(out[i])
  {
    hide Oscillation, LabelIndex;
    WriteIf(out, 26, s.spin.reshuffleEnabled != base.spin.reshuffleEnabled,
            out[26] % 128 + (if s.spin.reshuffleEnabled then 128 else 0));
    WriteIf(out, 26, s.spin.oscillation != base.spin.oscillation,
            out[26] - out[26] % 128 + LabelIndex(s.spin.oscillation));
  }

  method WriteTail(out: array<byte>, s: SystemSettings, base: SystemSettings)
    requires out.Length == LENGTH == |base.raw| && base == DecodeRaw(base.raw)
    requires forall i :: 27 <= i < LENGTH ==> out[i] == base.raw[i]
    modifies out
    ensures forall i :: 27 <= i < 29 ==> out[i] == EncodedByte(s, base.raw[i], i)
    ensures forall i :: 0 <= i < 27 ==> out[i] == old(out[i])
  {
    WriteIf(out, 27, s.ext != base.ext, FlagsByte(s.ext.Flags()));
    WriteIf(out, 28, s.spin.autoSelfCheck != base.spin.autoSelfCheck,
            FlagByte(s.spin.autoSelfCheck));
  }

  // ------------------------------------------------------------------------------------------
  // The laws of the lens
  // ------------------------------------------------------------------------------------------

  /** Encoding an untouched decoding gives the payload back, byte for byte, for every length. */
  lemma PutUnchanged(payload: bytes)
    ensures Encoded(DecodeRaw(Normalized(payload, LENGTH))) == Normalized(payload, LENGTH)
  {
    var raw := Normalized(payload, LENGTH);
    var s := DecodeRaw(raw);
    assert Normalized(raw, LENGTH) == raw;
    forall i | 0 <= i < LENGTH ensures EncodedByte(s, raw[i], i) == raw[i] {
    }
  }

  /** The values that decoding can produce. */
  predicate InRange(s: SystemSettings) {
    && 1 <= s.shield.sensitivity <= 10 && 1 <= s.shield.range <= 5
    && 1 <= s.delayMinutes <= 60 && 2 <= s.smoothSpread <= 7 && -12 <= s.timezone <= 12
    && (s.color == "black" || s.color == "white")
    && s.spin.oscillation in RESHUFFLE_LABELS
  }

  lemma NotificationsBack(n: Notifications)
    ensures NotificationsOf(FlagsByte(n.Flags())) == n
  {
    var f := n.Flags();
    FlagsByteBit(f, 0);
    FlagsByteBit(f, 1);
    FlagsByteBit(f, 2);
    FlagsByteBit(f, 3);
    FlagsByteBit(f, 4);
    FlagsByteBit(f, 5);
    FlagsByteBit(f, 6);
    FlagsByteBit(f, 7);
  }

  lemma ExtBack(n: ExtNotifications)
    ensures ExtOf(FlagsByte(n.Flags())) == n
  {
    var f := n.Flags();
    FlagsByteBit(f, 0);
    FlagsByteBit(f, 1);
    FlagsByteBit(f, 2);
    FlagsByteBit(f, 3);
  }

  /** The weight flags come back, and the bits that belong to none of them are kept. */
  lemma WeightsBack(prior: byte, w: Weights)
    ensures WeightsOf(PutWeights(prior, w)) == w
    ensures forall k :: k in {3, 4, 5, 7} ==> BitOf(PutWeights(prior, w), k) == BitOf(prior, k)
  {
    hide FlagsByte;
    var f := [w.automatic, w.sentinel, w.caring, Flag(prior, 3), Flag(prior, 4), Flag(prior, 5),
              w.trackPetData, Flag(prior, 7)];
    FlagsByteBit(f, 0);
    FlagsByteBit(f, 1);
    FlagsByteBit(f, 2);
    FlagsByteBit(f, 3);
    FlagsByteBit(f, 4);
    FlagsByteBit(f, 5);
    FlagsByteBit(f, 6);
    FlagsByteBit(f, 7);
  }

  lemma LabelBack(text: string)
    ensures text in RESHUFFLE_LABELS <==> RESHUFFLE_LABELS[LabelIndex(text)] == text
  {
  }

  /** The oscillation label comes back from the lower bits exactly when it is a known one. */
  lemma OscillationBack(prior: byte, current: byte, text: string)
    requires current % 128 == prior % 128
    ensures Oscillation(PutOscillation(prior, current, text)) == text
            <==> text in RESHUFFLE_LABELS
    ensures PutOscillation(prior, current, text) >= 128 <==> current >= 128
  {
    LabelBack(text);
    assert RESHUFFLE_LABELS[0] == "2X";
    if text != Oscillation(prior) {
      var b := PutOscillation(prior, current, text);
      assert b % 128 == LabelIndex(text);
    }
  }

  /** Both fields of the reshuffle byte come back, each without disturbing the other. */
  lemma SpinBack(prior: byte, spin: Spin)
    ensures var b := PutSpin(prior, spin);
            && (b >= 128) == spin.reshuffleEnabled
            && (Oscillation(b) == spin.oscillation <==> spin.oscillation in RESHUFFLE_LABELS)
  {
    hide Oscillation, PutOscillation;
    OscillationBack(prior, PutReshuffle(prior, spin.reshuffleEnabled), spin.oscillation);
  }

  /** A model that was encoded decodes to itself, on any old payload whatever its fallbacks, exactly
      when its numbers and labels are ones that decoding can produce. */
  lemma GetBackIff(s: SystemSettings)
    ensures DecodeRaw(Encoded(s)) == s.(raw := Encoded(s)) <==> InRange(s)
  {
    var raw, out := Normalized(s.raw, LENGTH), Encoded(s);
    var d := DecodeRaw(out);
    hide NotificationsOf, ExtOf, WeightsOf, PutSpin, PutWeights, Oscillation, RESHUFFLE_LABELS;
    hide FlagsByte;
    assert out[18] == EncodedByte(s, raw[18], 18);
    NotificationsBack(s.notifications);
    assert d.notifications == s.notifications;
    assert out[27] == EncodedByte(s, raw[27], 27);
    ExtBack(s.ext);
    assert d.ext == s.ext;
    WeightsBack(raw[22], s.weights);
    assert out[22] == EncodedByte(s, raw[22], 22) && d.weights == s.weights;
    SpinBack(raw[26], s.spin);
    assert out[26] == EncodedByte(s, raw[26], 26);
    NumbersBack(s);
    FlagsBack(s);
  }

  lemma NumbersBack(s: SystemSettings)
    ensures var d := DecodeRaw(Encoded(s));
            && (d.shield.sensitivity == s.shield.sensitivity <==> 1 <= s.shield.sensitivity <= 10)
            && (d.shield.range == s.shield.range <==> 1 <= s.shield.range <= 5)
            && (d.delayMinutes == s.delayMinutes <==> 1 <= s.delayMinutes <= 60)
            && (d.smoothSpread == s.smoothSpread <==> 2 <= s.smoothSpread <= 7)
            && (d.timezone == s.timezone <==> -12 <= s.timezone <= 12)
            && (d.color == s.color <==> s.color == "black" || s.color == "white")
  {
    hide NotificationsOf, ExtOf, WeightsOf, PutSpin, PutWeights, FlagsByte, PutFlag, IsBlack, Color;
    var raw, out := Normalized(s.raw, LENGTH), Encoded(s);
    assert out[10] == EncodedByte(s, raw[10], 10) && out[11] == EncodedByte(s, raw[11], 11);
    assert out[13] == EncodedByte(s, raw[13], 13) && out[14] == EncodedByte(s, raw[14], 14);
    assert out[15] == EncodedByte(s, raw[15], 15) && out[17] == EncodedByte(s, raw[17], 17);
    ColorBack(raw[17], s.color);
  }

  lemma ColorBack(prior: byte, color: string)
    ensures Color(if color == Color(prior) then prior else FlagByte(IsBlack(color))) == color
            <==> color == "black" || color == "white"
  {
    assert IsBlack("black") && !IsBlack("white") by {
      assert "white"[0] == 'w';
    }
  }

  lemma PutFlagBack(prior: byte, v: bool)
    ensures PutFlag(prior, v) != 0 <==> v
  {
  }

  lemma FlagsBack(s: SystemSettings)
    ensures var d := DecodeRaw(Encoded(s));
            && d.shield.antiInterference == s.shield.antiInterference
            && d.master == s.master && d.panel == s.panel
            && d.spin.autoPowerCycle == s.spin.autoPowerCycle
            && d.spin.lowerSpeed == s.spin.lowerSpeed
            && d.spin.autoSelfCheck == s.spin.autoSelfCheck
  {
    hide NotificationsOf, ExtOf, WeightsOf, PutSpin, PutWeights, PutFlag, PutNumber;
    var raw, out := Normalized(s.raw, LENGTH), Encoded(s);
    PutFlagBack(raw[12], s.shield.antiInterference);
    PutFlagBack(raw[19], s.master);
    PutFlagBack(raw[20], s.panel.statusLight);
    PutFlagBack(raw[21], s.panel.buzzer);
    PutFlagBack(raw[23], s.panel.proCommands);
    PutFlagBack(raw[24], s.spin.autoPowerCycle);
    PutFlagBack(raw[25], s.spin.lowerSpeed);
    PutFlagBack(raw[28], s.spin.autoSelfCheck);
    assert out[12] == EncodedByte(s, raw[12], 12) && out[19] == EncodedByte(s, raw[19], 19);
    assert out[20] == EncodedByte(s, raw[20], 20) && out[21] == EncodedByte(s, raw[21], 21);
    assert out[23] == EncodedByte(s, raw[23], 23) && out[24] == EncodedByte(s, raw[24], 24);
    assert out[25] == EncodedByte(s, raw[25], 25) && out[28] == EncodedByte(s, raw[28], 28);
  }

  // ------------------------------------------------------------------------------------------
  // What an update leaves alone
  // ------------------------------------------------------------------------------------------

  /** The field that owns bit k of byte i differs between the two models. The upper bits of the
      second notification byte have no field of their own and go with that byte's flags. */
  ghost predicate Changed(s: SystemSettings, base: SystemSettings, i: nat, k: nat)
    requires k < 8
  {
    match i
    case 10 => s.shield.sensitivity != base.shield.sensitivity
    case 11 => s.shield.range != base.shield.range
    case 12 => s.shield.antiInterference != base.shield.antiInterference
    case 13 => s.delayMinutes != base.delayMinutes
    case 14 => s.smoothSpread != base.smoothSpread
    case 15 => s.timezone != base.timezone
    case 17 => s.color != base.color
    case 18 => s.notifications.Flags()[k] != base.notifications.Flags()[k]
    case 19 => s.master != base.master
    case 20 => s.panel.statusLight != base.panel.statusLight
    case 21 => s.panel.buzzer != base.panel.buzzer
    case 22 =>
      (k == 0 && s.weights.automatic != base.weights.automatic)
      || (k == 1 && s.weights.sentinel != base.weights.sentinel)
      || (k == 2 && s.weights.caring != base.weights.caring)
      || (k == 6 && s.weights.trackPetData != base.weights.trackPetData)
    case 23 => s.panel.proCommands != base.panel.proCommands
    case 24 => s.spin.autoPowerCycle != base.spin.autoPowerCycle
    case 25 => s.spin.lowerSpeed != base.spin.lowerSpeed
    case 26 => s.spin.reshuffleEnabled != base.spin.reshuffleEnabled
               || s.spin.oscillation != base.spin.oscillation
    case 27 => if k < 4 then s.ext.Flags()[k] != base.ext.Flags()[k] else s.ext != base.ext
    case 28 => s.spin.autoSelfCheck != base.spin.autoSelfCheck
    case _ => false
  }

  lemma NotificationBitKept(prior: byte, n: Notifications, k: nat)
    requires k < 8 && n.Flags()[k] == NotificationsOf(prior).Flags()[k]
    ensures BitOf(FlagsByte(n.Flags()), k) == BitOf(prior, k)
  {
    hide FlagsByte, BitOf;
    FlagsByteBit(n.Flags(), k);
    assert NotificationsOf(prior).Flags()[k] == Flag(prior, k);
  }

  lemma ExtBitKept(prior: byte, n: ExtNotifications, k: nat)
    requires k < 4 && n.Flags()[k] == ExtOf(prior).Flags()[k]
    ensures BitOf(FlagsByte(n.Flags()), k) == BitOf(prior, k)
  {
    hide FlagsByte, BitOf;
    FlagsByteBit(n.Flags(), k);
    assert ExtOf(prior).Flags()[k] == Flag(prior, k);
  }

  lemma WeightBitKept(prior: byte, w: Weights, k: nat)
    requires k < 8
    requires k == 0 ==> w.automatic == Flag(prior, 0)
    requires k == 1 ==> w.sentinel == Flag(prior, 1)
    requires k == 2 ==> w.caring == Flag(prior, 2)
    requires k == 6 ==> w.trackPetData == Flag(prior, 6)
    ensures BitOf(PutWeights(prior, w), k) == BitOf(prior, k)
  {
    hide FlagsByte, BitOf, WeightsOf;
    FlagsByteBit([w.automatic, w.sentinel, w.caring, Flag(prior, 3), Flag(prior, 4),
                  Flag(prior, 5), w.trackPetData, Flag(prior, 7)], k);
  }

  /** A bit moves only if its own field changed: unknown bytes, unknown bits and the bits of all
      other fields survive every encoding. The one exception is part of Changed: a change of the
      second notification flags takes the upper bits of their byte with it. */
  lemma OnlyChangedBitsMove(s: SystemSettings, i: nat, k: nat)
    requires i < LENGTH && k < 8
    requires !Changed(s, DecodeRaw(Normalized(s.raw, LENGTH)), i, k)
    ensures BitOf(Encoded(s)[i], k) == BitOf(Normalized(s.raw, LENGTH)[i], k)
  {
    hide FlagsByte, BitOf, PutWeights, Oscillation, NotificationsOf, ExtOf, PutNumber;
    var raw := Normalized(s.raw, LENGTH);
    var prior := raw[i];
    assert Encoded(s)[i] == EncodedByte(s, prior, i);
    if i == 18 {
      NotificationBitKept(prior, s.notifications, k);
    } else if i == 22 {
      WeightBitKept(prior, s.weights, k);
    } else if i == 27 && k < 4 {
      ExtBitKept(prior, s.ext, k);
    } else if i == 10 || i == 11 || i == 13 || i == 14 {
      NumberKept(s, prior, i);
    }
  }

  lemma NumberKept(s: SystemSettings, prior: byte, i: nat)
    requires i == 10 ==> s.shield.sensitivity == Sensitivity(prior)
    requires i == 11 ==> s.shield.range == Range(prior)
    requires i == 13 ==> s.delayMinutes == Delay(prior)
    requires i == 14 ==> s.smoothSpread == Smooth(prior)
    ensures i in {10, 11, 13, 14} ==> EncodedByte(s, prior, i) == prior
  {
  }

  /** The two fields that share the reshuffle byte do not touch each other's bits. */
  lemma ReshuffleFieldsApart(s: SystemSettings)
    ensures var prior, now := Normalized(s.raw, LENGTH)[26], Encoded(s)[26];
            && (s.spin.reshuffleEnabled == (prior >= 128) ==> (now >= 128 <==> prior >= 128))
            && (s.spin.oscillation == Oscillation(prior) ==> now % 128 == prior % 128)
  {
    hide Oscillation;
  }

  /** The exception, and how far it goes: whatever stood above the four flags is cleared. */
  lemma ExtChangeClearsUpperBits(s: SystemSettings)
    requires s.ext != ExtOf(Normalized(s.raw, LENGTH)[27])
    ensures Encoded(s)[27] < 16
  {
    assert Two(4) == 16;
    assert Encoded(s)[27] == FlagsByte(s.ext.Flags());
  }

  /** Byte 27 keeps what stands above the four flags exactly if no flag changes or nothing stands
      there. */
  lemma ExtUpperBitsKeptIff(s: SystemSettings)
    ensures var prior := Normalized(s.raw, LENGTH)[27];
            Encoded(s)[27] / 16 == prior / 16 <==> s.ext == ExtOf(prior) || prior < 16
  {
    if s.ext != ExtOf(Normalized(s.raw, LENGTH)[27]) {
      hide ExtOf, Encoded;
      ExtChangeClearsUpperBits(s);
    }
  }

  /** It can be lost: a payload whose byte 27 is 0x80, after a change of the first flag alone. */
  lemma ExtUpperBitLost(payload: bytes)
    requires |payload| == LENGTH && payload[27] == 0x80
    ensures var s := DecodeRaw(payload);
            var changed := s.(ext := s.ext.(newFirmware := true));
            BitOf(payload[27], 7) == 1 && BitOf(Encoded(changed)[27], 7) == 0
  {
    hide Encoded, FlagsByte;
    var s := DecodeRaw(payload);
    var changed := s.(ext := s.ext.(newFirmware := true));
    assert Normalized(payload, LENGTH) == payload;
    assert BitOf(0x80, 0) == 0 && BitOf(0x80, 7) == 1;
    ExtChangeClearsUpperBits(changed);
    assert BitOf(Encoded(changed)[27], 7) == 0;
  }

  /** Encoding again over its own result changes nothing, also with values out of range. */
  lemma EncodedTwice(s: SystemSettings)
    ensures Encoded(s.(raw := Encoded(s))) == Encoded(s)
  {
    var out := Encoded(s);
    assert Normalized(out, LENGTH) == out;
    forall i | 0 <= i < LENGTH ensures EncodedByte(s, out[i], i) == out[i] {
      EncodedByteTwice(s, Normalized(s.raw, LENGTH)[i], i);
    }
  }

  lemma EncodedByteTwice(s: SystemSettings, prior: byte, i: nat)
    ensures EncodedByte(s, EncodedByte(s, prior, i), i) == EncodedByte(s, prior, i)
  {
    hide FlagsByte, PutWeights, PutSpin, NotificationsOf, ExtOf, WeightsOf, IsBlack;
    if i == 22 {
      WeightsTwice(prior, s.weights);
    } else if i == 26 {
      SpinTwice(prior, s.spin);
    } else if i == 18 {
      NotificationsBack(s.notifications);
    } else if i == 27 {
      ExtBack(s.ext);
    }
  }

  lemma WeightsTwice(prior: byte, w: Weights)
    ensures PutWeights(PutWeights(prior, w), w) == PutWeights(prior, w)
  {
    WeightsBack(prior, w);
  }

  lemma SpinTwice(prior: byte, spin: Spin)
    ensures PutSpin(PutSpin(prior, spin), spin) == PutSpin(prior, spin)
  {
    hide Oscillation;
    SpinBack(prior, spin);
    var b := PutSpin(prior, spin);
    if spin.oscillation != Oscillation(prior) {
      assert b % 128 == LabelIndex(spin.oscillation);
    } else {
      LowerBitsDecide(b, prior);
    }
  }

  lemma LowerBitsDecide(b: byte, c: byte)
    requires b % 128 == c % 128
    ensures Oscillation(b) == Oscillation(c)
  {
  }

  // ------------------------------------------------------------------------------------------
  // The layout of the payload
  // ------------------------------------------------------------------------------------------

  /** A byte of the payload; what lies beyond its end counts as zero. */
  function At(payload: bytes, i: nat): int {
    if i < |payload| then payload[i] as int else 0
  }

  /** Numbers stand in bytes 10, 11, 13, 14 and 15; one that is out of range has a fallback, or is
      brought to the nearer end of its range. */
  lemma NumbersRead(payload: bytes)
    ensures var d := DecodeRaw(Normalized(payload, LENGTH));
            var strength, range, delay := At(payload, 10), At(payload, 11), At(payload, 13);
            var smooth, zone := At(payload, 14), At(payload, 15);
            && d.shield.sensitivity == (if 1 <= strength <= 10 then strength else 5)
            && d.shield.range == (if 1 <= range <= 5 then range else 3)
            && d.delayMinutes == (if 1 <= delay <= 60 then delay else 5)
            && d.smoothSpread == (if smooth <= 2 then 2 else if smooth >= 7 then 7 else smooth)
            && d.timezone == (if zone <= 12 then zone else if zone <= 127 then 12
                              else if zone <= 244 then -12 else zone - 256)
  {
  }

  /** Switches that have a byte of their own are on when it is not zero. */
  lemma SwitchesRead(payload: bytes)
    ensures var d := DecodeRaw(Normalized(payload, LENGTH));
            && (d.shield.antiInterference <==> At(payload, 12) > 0)
            && (d.master <==> At(payload, 19) > 0)
            && (d.panel.statusLight <==> At(payload, 20) > 0)
            && (d.panel.buzzer <==> At(payload, 21) > 0)
            && (d.panel.proCommands <==> At(payload, 23) > 0)
            && (d.spin.autoPowerCycle <==> At(payload, 24) > 0)
            && (d.spin.lowerSpeed <==> At(payload, 25) > 0)
            && (d.spin.autoSelfCheck <==> At(payload, 28) > 0)
            && (d.color == "black" <==> At(payload, 17) == 1)
            && (d.color == "white" <==> At(payload, 17) != 1)
  {
    assert "black"[0] == 'b' && "white"[0] == 'w';
  }

  /** Byte 26 holds the reshuffle switch in its top bit and the label below. */
  lemma ReshuffleRead(payload: bytes, enabled: bool, index: int)
    requires 0 <= index < 128 && At(payload, 26) == index + if enabled then 128 else 0
    ensures var spin := DecodeRaw(Normalized(payload, LENGTH)).spin;
            && spin.reshuffleEnabled == enabled
            && spin.oscillation == if index == 1 then "3X" else if index == 2 then "4X"
                                   else if index == 3 then "5X" else "2X"
  {
    hide NotificationsOf, ExtOf, WeightsOf;
    var b := Normalized(payload, LENGTH)[26];
    assert (b % 128) as int == index;
  }

  lemma FlagBytes(a: bool, b: bool, c: bool, d: bool, e: bool, f: bool, g: bool, h: bool)
    ensures var x := Eight(a, b, c, d, e, f, g, h);
            && NotificationsOf(x)
               == Notifications(selfCheck := a, binFull := b, manualCleaning := c,
                                scheduledCleaning := d, automaticCleaning := e,
                                cleaningStarted := f, petFinished := g, petDetected := h)
            && WeightsOf(x)
               == Weights(automatic := a, sentinel := b, caring := c, trackPetData := g)
            && ExtOf(x)
               == ExtNotifications(newFirmware := a, petLeftWithoutBusiness := b,
                                   cleaningPaused := c, cleaningResumed := d)
  {
    EightBits(a, b, c, d, e, f, g, h);
    hide Eight, BitOf;
  }

  /** Bytes 18, 22 and 27 hold flags in their bits, the lowest first. */
  lemma FlagsRead(
    payload: bytes, a: bool, b: bool, c: bool, d: bool, e: bool, f: bool, g: bool, h: bool)
    ensures At(payload, 18) == Eight(a, b, c, d, e, f, g, h) as int ==>
              DecodeRaw(Normalized(payload, LENGTH)).notifications
              == Notifications(selfCheck := a, binFull := b, manualCleaning := c,
                               scheduledCleaning := d, automaticCleaning := e, cleaningStarted := f,
                               petFinished := g, petDetected := h)
    ensures At(payload, 22) == Eight(a, b, c, d, e, f, g, h) as int ==>
              DecodeRaw(Normalized(payload, LENGTH)).weights
              == Weights(automatic := a, sentinel := b, caring := c, trackPetData := g)
    ensures At(payload, 27) == Eight(a, b, c, d, e, f, g, h) as int ==>
              DecodeRaw(Normalized(payload, LENGTH)).ext
              == ExtNotifications(newFirmware := a, petLeftWithoutBusiness := b, cleaningPaused := c,
                                  cleaningResumed := d)
  {
    hide Eight, NotificationsOf, WeightsOf, ExtOf;
    hide Oscillation, Color, Timezone, Smooth, Delay, Range, Sensitivity;
    FlagBytes(a, b, c, d, e, f, g, h);
  }

  /** What a number that was changed is written as: itself, or the nearer end of its range. */
  lemma NumbersWritten(s: SystemSettings)
    ensures var out, base := Encoded(s), DecodeRaw(Normalized(s.raw, LENGTH));
            && (s.shield.sensitivity != base.shield.sensitivity ==>
                  Nearest(out[10] as int, s.shield.sensitivity, 1, 10))
            && (s.shield.range != base.shield.range ==>
                  Nearest(out[11] as int, s.shield.range, 1, 5))
            && (s.delayMinutes != base.delayMinutes ==>
                  Nearest(out[13] as int, s.delayMinutes, 1, 60))
            && (s.smoothSpread != base.smoothSpread ==>
                  Nearest(out[14] as int, s.smoothSpread, 2, 7))
            && (s.timezone != base.timezone ==>
                  Nearest(if out[15] >= 128 then out[15] as int - 256 else out[15] as int,
                          s.timezone, -12, 12))
  {
  }

  /** The number between the bounds that is nearest to another. */
  ghost predicate Nearest(n: int, to: int, low: int, high: int) {
    low <= n <= high && (n < to ==> n == high) && (n > to ==> n == low)
  }

  /** What a switch that was changed is written as. */
  lemma SwitchesWritten(s: SystemSettings)
    ensures var out, base := Encoded(s), DecodeRaw(Normalized(s.raw, LENGTH));
            && Switched(out[12], s.shield.antiInterference, base.shield.antiInterference)
            && Switched(out[19], s.master, base.master)
            && Switched(out[20], s.panel.statusLight, base.panel.statusLight)
            && Switched(out[21], s.panel.buzzer, base.panel.buzzer)
            && Switched(out[23], s.panel.proCommands, base.panel.proCommands)
            && Switched(out[24], s.spin.autoPowerCycle, base.spin.autoPowerCycle)
            && Switched(out[25], s.spin.lowerSpeed, base.spin.lowerSpeed)
            && Switched(out[28], s.spin.autoSelfCheck, base.spin.autoSelfCheck)
            && (s.color != base.color ==> out[17] == if IsBlack(s.color) then 1 else 0)
  {
    hide NotificationsOf, ExtOf, WeightsOf, IsBlack, Oscillation, Color;
  }

  predicate Switched(b: byte, flag: bool, before: bool) {
    flag != before ==> b == if flag then 1 else 0
  }

  lemma NotificationsByte(n: Notifications)
    ensures FlagsByte(n.Flags())
         == Eight(n.selfCheck, n.binFull, n.manualCleaning, n.scheduledCleaning,
                  n.automaticCleaning, n.cleaningStarted, n.petFinished, n.petDetected)
  {
    EightIsFlags(n.Flags());
  }

  lemma ExtByte(n: ExtNotifications)
    ensures FlagsByte(n.Flags())
         == Eight(n.newFirmware, n.petLeftWithoutBusiness, n.cleaningPaused, n.cleaningResumed,
                  false, false, false, false)
  {
    FourAreEight(n.newFirmware, n.petLeftWithoutBusiness, n.cleaningPaused, n.cleaningResumed);
  }

  /** What flags that were changed are written as. */
  lemma FlagsWritten(s: SystemSettings)
    ensures var out, base := Encoded(s), DecodeRaw(Normalized(s.raw, LENGTH));
            var n, e := s.notifications, s.ext;
            && (n != base.notifications ==>
                  out[18] == Eight(n.selfCheck, n.binFull, n.manualCleaning, n.scheduledCleaning,
                                   n.automaticCleaning, n.cleaningStarted, n.petFinished,
                                   n.petDetected))
            && (e != base.ext ==>
                  out[27] == Eight(e.newFirmware, e.petLeftWithoutBusiness, e.cleaningPaused,
                                   e.cleaningResumed, false, false, false, false))
  {
    hide NotificationsOf, ExtOf, WeightsOf, FlagsByte, Oscillation, Eight;
    NotificationsByte(s.notifications);
    ExtByte(s.ext);
  }
}
