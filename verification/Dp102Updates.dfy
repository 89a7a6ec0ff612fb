/** Partial updates of the system settings, as the targeted setters make them, and that updates of
    different fields do not interfere. */
module Dp102Updates {
  import opened Options
  import opened Bytes
  import opened Dp102

  datatype NotificationsPatch = NotificationsPatch(
    selfCheck: Option<bool>, binFull: Option<bool>, manualCleaning: Option<bool>,
    scheduledCleaning: Option<bool>, automaticCleaning: Option<bool>,
    cleaningStarted: Option<bool>, petFinished: Option<bool>, petDetected: Option<bool>)
  {
    function Parts(): (f: seq<Option<bool>>)
      ensures |f| == 8
    {
      [selfCheck, binFull, manualCleaning, scheduledCleaning,
       automaticCleaning, cleaningStarted, petFinished, petDetected]
    }
  }

  datatype ExtPatch = ExtPatch(
    newFirmware: Option<bool>, petLeftWithoutBusiness: Option<bool>,
    cleaningPaused: Option<bool>, cleaningResumed: Option<bool>)
  {
    function Parts(): (f: seq<Option<bool>>)
      ensures |f| == 4
    {
      [newFirmware, petLeftWithoutBusiness, cleaningPaused, cleaningResumed]
    }
  }

  datatype WeightsPatch = WeightsPatch(
    automatic: Option<bool>, sentinel: Option<bool>, caring: Option<bool>,
    trackPetData: Option<bool>)

  /** New values for some of the fields. */
  datatype Patch = Patch(
    sensitivity: Option<int>, range: Option<int>, antiInterference: Option<bool>,
    delayMinutes: Option<int>, smoothSpread: Option<int>, timezone: Option<int>,
    color: Option<string>, notifications: NotificationsPatch, master: Option<bool>,
    statusLight: Option<bool>, buzzer: Option<bool>, proCommands: Option<bool>,
    weights: WeightsPatch, autoPowerCycle: Option<bool>, lowerSpeed: Option<bool>,
    reshuffleEnabled: Option<bool>, oscillation: Option<string>, autoSelfCheck: Option<bool>,
    ext: ExtPatch)

  function ApplyNotifications(p: NotificationsPatch, n: Notifications): Notifications {
    Notifications(
      Or(p.selfCheck, n.selfCheck), Or(p.binFull, n.binFull),
      Or(p.manualCleaning, n.manualCleaning), Or(p.scheduledCleaning, n.scheduledCleaning),
      Or(p.automaticCleaning, n.automaticCleaning), Or(p.cleaningStarted, n.cleaningStarted),
      Or(p.petFinished, n.petFinished), Or(p.petDetected, n.petDetected))
  }

  function ApplyExt(p: ExtPatch, n: ExtNotifications): ExtNotifications {
    ExtNotifications(
      Or(p.newFirmware, n.newFirmware), Or(p.petLeftWithoutBusiness, n.petLeftWithoutBusiness),
      Or(p.cleaningPaused, n.cleaningPaused), Or(p.cleaningResumed, n.cleaningResumed))
  }

  function ApplyWeights(p: WeightsPatch, w: Weights): Weights {
    Weights(Or(p.automatic, w.automatic), Or(p.sentinel, w.sentinel), Or(p.caring, w.caring),
            Or(p.trackPetData, w.trackPetData))
  }

  function Apply(p: Patch, s: SystemSettings): SystemSettings {
    SystemSettings(
      ActiveShield(Or(p.antiInterference, s.shield.antiInterference),
                   Or(p.sensitivity, s.shield.sensitivity), Or(p.range, s.shield.range)),
      Or(p.delayMinutes, s.delayMinutes), Or(p.smoothSpread, s.smoothSpread),
      Or(p.timezone, s.timezone), Or(p.color, s.color),
      ApplyNotifications(p.notifications, s.notifications), Or(p.master, s.master),
      Panel(Or(p.statusLight, s.panel.statusLight), Or(p.buzzer, s.panel.buzzer),
            Or(p.proCommands, s.panel.proCommands)),
      ApplyWeights(p.weights, s.weights),
      Spin(Or(p.autoPowerCycle, s.spin.autoPowerCycle), Or(p.lowerSpeed, s.spin.lowerSpeed),
           Or(p.reshuffleEnabled, s.spin.reshuffleEnabled),
           Or(p.oscillation, s.spin.oscillation), Or(p.autoSelfCheck, s.spin.autoSelfCheck)),
      ApplyExt(p.ext, s.ext),
      s.raw)
  }

  /** The payload after one read-modify-write of the fields in the patch. */
  function Updated(p: Patch, payload: bytes): (r: bytes)
    ensures |r| == LENGTH
  {
    Encoded(Apply(p, DecodeRaw(Normalized(payload, LENGTH))))
  }

  predicate Apart<T>(a: Option<T>, b: Option<T>) {
    a.None? || b.None?
  }

  /** No field is in both patches. */
  predicate Disjoint(p: Patch, q: Patch) {
    && Apart(p.sensitivity, q.sensitivity) && Apart(p.range, q.range)
    && Apart(p.antiInterference, q.antiInterference) && Apart(p.delayMinutes, q.delayMinutes)
    && Apart(p.smoothSpread, q.smoothSpread) && Apart(p.timezone, q.timezone)
    && Apart(p.color, q.color) && Apart(p.master, q.master)
    && Apart(p.statusLight, q.statusLight) && Apart(p.buzzer, q.buzzer)
    && Apart(p.proCommands, q.proCommands) && Apart(p.autoPowerCycle, q.autoPowerCycle)
    && Apart(p.lowerSpeed, q.lowerSpeed) && Apart(p.reshuffleEnabled, q.reshuffleEnabled)
    && Apart(p.oscillation, q.oscillation) && Apart(p.autoSelfCheck, q.autoSelfCheck)
    && (forall k :: 0 <= k < 8 ==> Apart(p.notifications.Parts()[k], q.notifications.Parts()[k]))
    && (forall k :: 0 <= k < 4 ==> Apart(p.ext.Parts()[k], q.ext.Parts()[k]))
    && Apart(p.weights.automatic, q.weights.automatic)
    && Apart(p.weights.sentinel, q.weights.sentinel)
    && Apart(p.weights.caring, q.weights.caring)
    && Apart(p.weights.trackPetData, q.weights.trackPetData)
  }

  // ------------------------------------------------------------------------------------------
  // An update works byte by byte
  // ------------------------------------------------------------------------------------------

  function NumberAfter(b: byte, decoded: int, v: Option<int>, low: int, high: int): byte
    requires 0 <= low <= high < 256
  {
    PutNumber(b, decoded, Or(v, decoded), low, high)
  }

  function FlagAfter(b: byte, v: Option<bool>): byte {
    PutFlag(b, Or(v, b != 0))
  }

  function TimezoneAfter(b: byte, v: Option<int>): byte {
    if Or(v, Timezone(b)) == Timezone(b) then b
    else (Clamp(Or(v, Timezone(b)), -12, 12) % 256) as byte
  }

  function ColorAfter(b: byte, v: Option<string>): byte {
    if Or(v, Color(b)) == Color(b) then b else FlagByte(IsBlack(Or(v, Color(b))))
  }

  function NotificationsAfter(b: byte, p: NotificationsPatch): byte {
    var n := ApplyNotifications(p, NotificationsOf(b));
    if n == NotificationsOf(b) then b else FlagsByte(n.Flags())
  }

  function ExtAfter(b: byte, p: ExtPatch): byte {
    var n := ApplyExt(p, ExtOf(b));
    if n == ExtOf(b) then b else FlagsByte(n.Flags())
  }

  function WeightsAfter(b: byte, p: WeightsPatch): byte {
    PutWeights(b, ApplyWeights(p, WeightsOf(b)))
  }

  function ReshuffleAfter(b: byte, enabled: Option<bool>, text: Option<string>): byte {
    PutOscillation(b, PutReshuffle(b, Or(enabled, b >= 128)), Or(text, Oscillation(b)))
  }

  function ByteAfter(p: Patch, b: byte, i: nat): byte {
    if i == 10 then NumberAfter(b, Sensitivity(b), p.sensitivity, 1, 10)
    else if i == 11 then NumberAfter(b, Range(b), p.range, 1, 5)
    else if i == 12 then FlagAfter(b, p.antiInterference)
    else if i == 13 then NumberAfter(b, Delay(b), p.delayMinutes, 1, 60)
    else if i == 14 then NumberAfter(b, Smooth(b), p.smoothSpread, 2, 7)
    else if i == 15 then TimezoneAfter(b, p.timezone)
    else if i == 17 then ColorAfter(b, p.color)
    else if i == 18 then NotificationsAfter(b, p.notifications)
    else if i == 19 then FlagAfter(b, p.master)
    else if i == 20 then FlagAfter(b, p.statusLight)
    else if i == 21 then FlagAfter(b, p.buzzer)
    else if i == 22 then WeightsAfter(b, p.weights)
    else if i == 23 then FlagAfter(b, p.proCommands)
    else if i == 24 then FlagAfter(b, p.autoPowerCycle)
    else if i == 25 then FlagAfter(b, p.lowerSpeed)
    else if i == 26 then ReshuffleAfter(b, p.reshuffleEnabled, p.oscillation)
    else if i == 27 then ExtAfter(b, p.ext)
    else if i == 28 then FlagAfter(b, p.autoSelfCheck)
    else b
  }

  lemma UpdatedByte(p: Patch, payload: bytes, i: nat)
    requires i < LENGTH
    ensures Updated(p, payload)[i] == ByteAfter(p, Normalized(payload, LENGTH)[i], i)
  {
    hide FlagsByte, BitOf, NotificationsOf, ExtOf, WeightsOf, IsBlack, Color, Oscillation;
    hide Sensitivity, Range, Delay, Smooth, Timezone, PutWeights, PutOscillation, PutReshuffle;
    hide PutNumber, PutFlag, FlagByte, Clamp, ApplyNotifications, ApplyExt, ApplyWeights;
    var raw := Normalized(payload, LENGTH);
    assert Normalized(raw, LENGTH) == raw;
    assert Updated(p, payload)[i] == EncodedByte(Apply(p, DecodeRaw(raw)), raw[i], i);
  }

  // ------------------------------------------------------------------------------------------
  // Disjoint updates commute
  // ------------------------------------------------------------------------------------------

  lemma NotificationPart(p: NotificationsPatch, n: Notifications, k: nat)
    requires k < 8
    ensures ApplyNotifications(p, n).Flags()[k] == Or(p.Parts()[k], n.Flags()[k])
  {
    match k
    case 0 =>
    case 1 =>
    case 2 =>
    case 3 =>
    case 4 =>
    case 5 =>
    case 6 =>
    case _ =>
  }

  lemma NotificationsOfBit(b: byte, k: nat)
    requires k < 8
    ensures NotificationsOf(b).Flags()[k] == Flag(b, k)
  {
    hide Flag;
    match k
    case 0 =>
    case 1 =>
    case 2 =>
    case 3 =>
    case 4 =>
    case 5 =>
    case 6 =>
    case _ =>
  }

  lemma NotificationsRepacked(b: byte)
    ensures FlagsByte(NotificationsOf(b).Flags()) == b
  {
    hide NotificationsOf, Notifications.Flags, FlagsByte, BitOf;
    var f := NotificationsOf(b).Flags();
    assert Two(8) == 256;
    forall k | 0 <= k < 8 ensures f[k] == Flag(b, k) {
      NotificationsOfBit(b, k);
    }
    FlagsOfByte(b, f);
  }

  lemma NotificationsAfterBits(b: byte, p: NotificationsPatch, k: nat)
    requires k < 8
    ensures Flag(NotificationsAfter(b, p), k) == Or(p.Parts()[k], Flag(b, k))
    ensures NotificationsAfter(b, p) == FlagsByte(ApplyNotifications(p, NotificationsOf(b)).Flags())
  {
    hide FlagsByte, BitOf, NotificationsOf, Notifications.Flags, ApplyNotifications,
      NotificationsPatch.Parts;
    NotificationsRepacked(b);
    NotificationsOfBit(b, k);
    NotificationPart(p, NotificationsOf(b), k);
    FlagsByteBit(ApplyNotifications(p, NotificationsOf(b)).Flags(), k);
  }

  lemma NotificationsCommute(b: byte, p: NotificationsPatch, q: NotificationsPatch)
    requires forall k :: 0 <= k < 8 ==> Apart(p.Parts()[k], q.Parts()[k])
    ensures NotificationsAfter(NotificationsAfter(b, p), q)
         == NotificationsAfter(NotificationsAfter(b, q), p)
  {
    hide NotificationsAfter, FlagsByte, BitOf, Flag;
    var c, d := NotificationsAfter(b, p), NotificationsAfter(b, q);
    forall k | 0 <= k < 8
      ensures Flag(NotificationsAfter(c, q), k) == Flag(NotificationsAfter(d, p), k)
    {
      NotificationsAfterBits(b, p, k);
      NotificationsAfterBits(b, q, k);
      NotificationsAfterBits(c, q, k);
      NotificationsAfterBits(d, p, k);
    }
    SameFlagsSameByte(NotificationsAfter(c, q), NotificationsAfter(d, p));
  }

  lemma SameFlagsSameByte(b: byte, c: byte)
    requires forall k :: 0 <= k < 8 ==> Flag(b, k) == Flag(c, k)
    ensures b == c
  {
    assert Two(8) == 256;
    var f := seq(8, k requires 0 <= k < 8 => Flag(b, k));
    FlagsOfByte(b, f);
    FlagsOfByte(c, f);
  }

  lemma WeightsAfterBits(b: byte, p: WeightsPatch)
    ensures WeightsOf(WeightsAfter(b, p)) == ApplyWeights(p, WeightsOf(b))
    ensures forall k :: k in {3, 4, 5, 7} ==> Flag(WeightsAfter(b, p), k) == Flag(b, k)
  {
    WeightsBack(b, ApplyWeights(p, WeightsOf(b)));
  }

  lemma WeightsCommute(b: byte, p: WeightsPatch, q: WeightsPatch)
    requires Apart(p.automatic, q.automatic) && Apart(p.sentinel, q.sentinel)
    requires Apart(p.caring, q.caring) && Apart(p.trackPetData, q.trackPetData)
    ensures WeightsAfter(WeightsAfter(b, p), q) == WeightsAfter(WeightsAfter(b, q), p)
  {
    hide WeightsAfter, Flag;
    var c, d := WeightsAfter(b, p), WeightsAfter(b, q);
    WeightsAfterBits(b, p);
    WeightsAfterBits(b, q);
    WeightsAfterBits(c, q);
    WeightsAfterBits(d, p);
    var x, y := WeightsAfter(c, q), WeightsAfter(d, p);
    assert WeightsOf(x) == WeightsOf(y);
    forall k | 0 <= k < 8 ensures Flag(x, k) == Flag(y, k) {
      assert k in {3, 4, 5, 7} || k in {0, 1, 2, 6};
    }
    SameFlagsSameByte(x, y);
  }

  lemma ExtAfterParts(b: byte, p: ExtPatch)
    ensures ExtOf(ExtAfter(b, p)) == ApplyExt(p, ExtOf(b))
    ensures ApplyExt(p, ExtOf(b)) == ExtOf(b) ==> ExtAfter(b, p) == b
    ensures ApplyExt(p, ExtOf(b)) != ExtOf(b) ==>
              ExtAfter(b, p) == FlagsByte(ApplyExt(p, ExtOf(b)).Flags())
  {
    ExtBack(ApplyExt(p, ExtOf(b)));
  }

  /** Also for the byte whose upper bits go with any change: they are cleared in both orders or in
      neither. */
  lemma ExtCommute(b: byte, p: ExtPatch, q: ExtPatch)
    requires forall k :: 0 <= k < 4 ==> Apart(p.Parts()[k], q.Parts()[k])
    ensures ExtAfter(ExtAfter(b, p), q) == ExtAfter(ExtAfter(b, q), p)
  {
    hide ExtAfter, ExtOf, FlagsByte;
    assert Apart(p.Parts()[0], q.Parts()[0]) && Apart(p.Parts()[1], q.Parts()[1]);
    assert Apart(p.Parts()[2], q.Parts()[2]) && Apart(p.Parts()[3], q.Parts()[3]);
    var c, d := ExtAfter(b, p), ExtAfter(b, q);
    ExtAfterParts(b, p);
    ExtAfterParts(b, q);
    ExtAfterParts(c, q);
    ExtAfterParts(d, p);
    ExtPatchesCommute(p, q, ExtOf(b));
  }

  lemma ExtPatchesCommute(p: ExtPatch, q: ExtPatch, n: ExtNotifications)
    requires Apart(p.newFirmware, q.newFirmware)
    requires Apart(p.petLeftWithoutBusiness, q.petLeftWithoutBusiness)
    requires Apart(p.cleaningPaused, q.cleaningPaused)
    requires Apart(p.cleaningResumed, q.cleaningResumed)
    ensures ApplyExt(q, ApplyExt(p, n)) == ApplyExt(p, ApplyExt(q, n))
    ensures ApplyExt(q, ApplyExt(p, n)) == ApplyExt(p, n) <==> ApplyExt(q, n) == n
    ensures ApplyExt(p, ApplyExt(q, n)) == ApplyExt(q, n) <==> ApplyExt(p, n) == n
  {
  }

  /** The two fields of the reshuffle byte commute with each other. */
  lemma ReshuffleCommute(
    b: byte, e: Option<bool>, t: Option<string>, e': Option<bool>, t': Option<string>)
    requires Apart(e, e') && Apart(t, t')
    ensures ReshuffleAfter(ReshuffleAfter(b, e, t), e', t')
         == ReshuffleAfter(ReshuffleAfter(b, e', t'), e, t)
  {
    ReshuffleParts(b, e, t);
    ReshuffleParts(b, e', t');
    ReshuffleParts(ReshuffleAfter(b, e, t), e', t');
    ReshuffleParts(ReshuffleAfter(b, e', t'), e, t);
  }

  /** An update of the reshuffle byte is an update of its top bit and one of the bits below. */
  lemma ReshuffleParts(b: byte, e: Option<bool>, t: Option<string>)
    ensures ReshuffleAfter(b, e, t) >= 128 <==> Or(e, b >= 128)
    ensures ReshuffleAfter(b, e, t) % 128
         == if Or(t, Oscillation(b)) == Oscillation(b) then b % 128
            else LabelIndex(Or(t, Oscillation(b)))
  {
    hide Oscillation, LabelIndex;
    var c := PutReshuffle(b, Or(e, b >= 128));
    assert c % 128 == b % 128 && (c >= 128 <==> Or(e, b >= 128));
  }

  /** Without a new value every byte stays. */
  lemma NoValueKeeps(b: byte)
    ensures NumberAfter(b, Sensitivity(b), None, 1, 10) == b
    ensures NumberAfter(b, Range(b), None, 1, 5) == b
    ensures NumberAfter(b, Delay(b), None, 1, 60) == b
    ensures NumberAfter(b, Smooth(b), None, 2, 7) == b
    ensures TimezoneAfter(b, None) == b
    ensures ColorAfter(b, None) == b
    ensures FlagAfter(b, None) == b
  {
  }

  lemma ByteUpdatesCommute(p: Patch, q: Patch, b: byte, i: nat)
    requires Disjoint(p, q)
    ensures ByteAfter(q, ByteAfter(p, b, i), i) == ByteAfter(p, ByteAfter(q, b, i), i)
  {
    hide NotificationsAfter, WeightsAfter, ReshuffleAfter, ExtAfter;
    hide NumberAfter, FlagAfter, TimezoneAfter, ColorAfter;
    NoValueKeeps(b);
    NoValueKeeps(ByteAfter(p, b, i));
    NoValueKeeps(ByteAfter(q, b, i));
    if i == 18 {
      NotificationsCommute(b, p.notifications, q.notifications);
    } else if i == 22 {
      WeightsCommute(b, p.weights, q.weights);
    } else if i == 26 {
      ReshuffleCommute(b, p.reshuffleEnabled, p.oscillation, q.reshuffleEnabled, q.oscillation);
    } else if i == 27 {
      ExtCommute(b, p.ext, q.ext);
    }
  }

  /** Two updates without a common field give the same payload in either order, whatever the payload
      was and whatever fallbacks it decodes by. */
  lemma DisjointUpdatesCommute(p: Patch, q: Patch, payload: bytes)
    requires Disjoint(p, q)
    ensures Updated(q, Updated(p, payload)) == Updated(p, Updated(q, payload))
  {
    hide Updated, ByteAfter, Disjoint;
    var raw := Normalized(payload, LENGTH);
    var a, b := Updated(p, payload), Updated(q, payload);
    assert Normalized(a, LENGTH) == a && Normalized(b, LENGTH) == b;
    forall i | 0 <= i < LENGTH ensures Updated(q, a)[i] == Updated(p, b)[i] {
      UpdatedByte(p, payload, i);
      UpdatedByte(q, payload, i);
      UpdatedByte(q, a, i);
      UpdatedByte(p, b, i);
      ByteUpdatesCommute(p, q, raw[i], i);
    }
  }

  // ------------------------------------------------------------------------------------------
  // What an update keeps
  // ------------------------------------------------------------------------------------------

  /** The patch has a value for the field that owns bit k of byte i. The upper bits of the second
      notification byte count as owned by each of its flags. */
  ghost predicate Touches(p: Patch, i: nat, k: nat)
    requires k < 8
  {
    match i
    case 10 => p.sensitivity.Some?
    case 11 => p.range.Some?
    case 12 => p.antiInterference.Some?
    case 13 => p.delayMinutes.Some?
    case 14 => p.smoothSpread.Some?
    case 15 => p.timezone.Some?
    case 17 => p.color.Some?
    case 18 => p.notifications.Parts()[k].Some?
    case 19 => p.master.Some?
    case 20 => p.statusLight.Some?
    case 21 => p.buzzer.Some?
    case 22 =>
      (k == 0 && p.weights.automatic.Some?) || (k == 1 && p.weights.sentinel.Some?)
      || (k == 2 && p.weights.caring.Some?) || (k == 6 && p.weights.trackPetData.Some?)
    case 23 => p.proCommands.Some?
    case 24 => p.autoPowerCycle.Some?
    case 25 => p.lowerSpeed.Some?
    case 26 => p.reshuffleEnabled.Some? || p.oscillation.Some?
    case 27 =>
      if k < 4 then p.ext.Parts()[k].Some?
      else exists j :: 0 <= j < 4 && p.ext.Parts()[j].Some?
    case 28 => p.autoSelfCheck.Some?
    case _ => false
  }

  lemma NotificationTouched(p: NotificationsPatch, n: Notifications, k: nat)
    requires k < 8 && ApplyNotifications(p, n).Flags()[k] != n.Flags()[k]
    ensures p.Parts()[k].Some?
  {
    hide ApplyNotifications, Notifications.Flags, NotificationsPatch.Parts;
    NotificationPart(p, n, k);
  }

  lemma ExtTouched(p: ExtPatch, n: ExtNotifications, k: nat)
    requires k < 4 && ApplyExt(p, n).Flags()[k] != n.Flags()[k]
    ensures p.Parts()[k].Some?
  {
    assert ApplyExt(p, n).Flags()[k] == Or(p.Parts()[k], n.Flags()[k]);
  }

  lemma AnyExtTouched(p: ExtPatch, n: ExtNotifications)
    requires ApplyExt(p, n) != n
    ensures exists j :: 0 <= j < 4 && p.Parts()[j].Some?
  {
    assert p.Parts()[0].Some? || p.Parts()[1].Some? || p.Parts()[2].Some? || p.Parts()[3].Some?;
  }

  lemma NumberTouched(p: Patch, s: SystemSettings, i: nat, k: nat)
    requires i < 18 && k < 8 && Changed(Apply(p, s), s, i, k)
    ensures Touches(p, i, k)
  {
    hide ApplyNotifications, ApplyExt, ApplyWeights, Notifications.Flags, ExtNotifications.Flags;
  }

  lemma WeightsTouched(p: Patch, s: SystemSettings, k: nat)
    requires k < 8 && Changed(Apply(p, s), s, 22, k)
    ensures Touches(p, 22, k)
  {
    hide ApplyNotifications, ApplyExt, Notifications.Flags, ExtNotifications.Flags;
    assert Apply(p, s).weights == ApplyWeights(p.weights, s.weights);
    hide Apply;
  }

  lemma PanelTouched(p: Patch, s: SystemSettings, i: nat, k: nat)
    requires 18 < i < 24 && i != 22 && k < 8 && Changed(Apply(p, s), s, i, k)
    ensures Touches(p, i, k)
  {
    hide ApplyNotifications, ApplyExt, ApplyWeights, Notifications.Flags, ExtNotifications.Flags;
  }

  lemma SpinTouched(p: Patch, s: SystemSettings, i: nat, k: nat)
    requires 24 <= i && i != 27 && k < 8 && Changed(Apply(p, s), s, i, k)
    ensures Touches(p, i, k)
  {
    hide ApplyNotifications, ApplyExt, ApplyWeights, Notifications.Flags, ExtNotifications.Flags;
  }

  lemma TouchedIfChanged(p: Patch, s: SystemSettings, i: nat, k: nat)
    requires i < LENGTH && k < 8 && Changed(Apply(p, s), s, i, k)
    ensures Touches(p, i, k)
  {
    if i == 27 {
      hide ApplyNotifications, ApplyExt, ApplyWeights, Notifications.Flags, ExtNotifications.Flags;
      if k >= 4 {
        AnyExtTouched(p.ext, s.ext);
      } else {
        ExtTouched(p.ext, s.ext, k);
      }
    } else if i == 18 {
      hide ApplyNotifications, ApplyExt, ApplyWeights, Notifications.Flags, ExtNotifications.Flags;
      NotificationTouched(p.notifications, s.notifications, k);
    } else {
      hide Apply, Changed, Touches;
      if i < 18 {
        NumberTouched(p, s, i, k);
      } else if i == 22 {
        WeightsTouched(p, s, k);
      } else if i < 24 {
        PanelTouched(p, s, i, k);
      } else {
        SpinTouched(p, s, i, k);
      }
    }
  }

  /** Every bit the patch does not own survives the update, in payloads of every length. */
  lemma UntouchedBitKept(p: Patch, payload: bytes, i: nat, k: nat)
    requires i < LENGTH && k < 8 && !Touches(p, i, k)
    ensures BitOf(Updated(p, payload)[i], k) == BitOf(Normalized(payload, LENGTH)[i], k)
  {
    hide Touches, Changed, Encoded, BitOf;
    var raw := Normalized(payload, LENGTH);
    var s := DecodeRaw(raw);
    assert Normalized(raw, LENGTH) == raw;
    if Changed(Apply(p, s), s, i, k) {
      TouchedIfChanged(p, s, i, k);
    }
    OnlyChangedBitsMove(Apply(p, s), i, k);
  }

  // ------------------------------------------------------------------------------------------
  // What a patch asks for
  // ------------------------------------------------------------------------------------------

  /** A field has the value that the patch has for it, or else the one it had. */
  predicate Takes<T(==)>(after: T, part: Option<T>, before: T) {
    (part.Some? ==> after == part.value) && (part.None? ==> after == before)
  }

  /** What a patch does to the settings, field by field. */
  lemma Patched(p: Patch, s: SystemSettings)
    ensures var t := Apply(p, s);
            && Takes(t.shield.sensitivity, p.sensitivity, s.shield.sensitivity)
            && Takes(t.shield.range, p.range, s.shield.range)
            && Takes(t.shield.antiInterference, p.antiInterference, s.shield.antiInterference)
            && Takes(t.delayMinutes, p.delayMinutes, s.delayMinutes)
            && Takes(t.smoothSpread, p.smoothSpread, s.smoothSpread)
            && Takes(t.timezone, p.timezone, s.timezone) && Takes(t.color, p.color, s.color)
            && Takes(t.master, p.master, s.master)
            && Takes(t.panel.statusLight, p.statusLight, s.panel.statusLight)
            && Takes(t.panel.buzzer, p.buzzer, s.panel.buzzer)
            && Takes(t.panel.proCommands, p.proCommands, s.panel.proCommands)
            && Takes(t.spin.autoPowerCycle, p.autoPowerCycle, s.spin.autoPowerCycle)
            && Takes(t.spin.lowerSpeed, p.lowerSpeed, s.spin.lowerSpeed)
            && Takes(t.spin.reshuffleEnabled, p.reshuffleEnabled, s.spin.reshuffleEnabled)
            && Takes(t.spin.oscillation, p.oscillation, s.spin.oscillation)
            && Takes(t.spin.autoSelfCheck, p.autoSelfCheck, s.spin.autoSelfCheck)
            && t.notifications == ApplyNotifications(p.notifications, s.notifications)
            && t.ext == ApplyExt(p.ext, s.ext) && t.weights == ApplyWeights(p.weights, s.weights)
            && t.raw == s.raw
  {
    hide ApplyNotifications, ApplyExt, ApplyWeights;
  }

  lemma PatchedNotifications(p: NotificationsPatch, n: Notifications)
    ensures var t := ApplyNotifications(p, n);
            && Takes(t.selfCheck, p.selfCheck, n.selfCheck)
            && Takes(t.binFull, p.binFull, n.binFull)
            && Takes(t.manualCleaning, p.manualCleaning, n.manualCleaning)
            && Takes(t.scheduledCleaning, p.scheduledCleaning, n.scheduledCleaning)
            && Takes(t.automaticCleaning, p.automaticCleaning, n.automaticCleaning)
            && Takes(t.cleaningStarted, p.cleaningStarted, n.cleaningStarted)
            && Takes(t.petFinished, p.petFinished, n.petFinished)
            && Takes(t.petDetected, p.petDetected, n.petDetected)
  {
  }

  lemma PatchedExt(p: ExtPatch, n: ExtNotifications)
    ensures var t := ApplyExt(p, n);
            && Takes(t.newFirmware, p.newFirmware, n.newFirmware)
            && Takes(t.petLeftWithoutBusiness, p.petLeftWithoutBusiness, n.petLeftWithoutBusiness)
            && Takes(t.cleaningPaused, p.cleaningPaused, n.cleaningPaused)
            && Takes(t.cleaningResumed, p.cleaningResumed, n.cleaningResumed)
  {
  }

  lemma PatchedWeights(p: WeightsPatch, w: Weights)
    ensures var t := ApplyWeights(p, w);
            && Takes(t.automatic, p.automatic, w.automatic)
            && Takes(t.sentinel, p.sentinel, w.sentinel)
            && Takes(t.caring, p.caring, w.caring)
            && Takes(t.trackPetData, p.trackPetData, w.trackPetData)
  {
  }
}
