/** The packed dustbin settings of data point 104: three bytes with a default, five known bits in the
    first of them. */
module Dp104 {
  import opened Options
  import opened Bytes
  import opened Dp102

  const DUSTBIN_LENGTH: nat := 3
  const DEFAULT_DUSTBIN: bytes := [0x05, 0x01, 0x05]

  datatype Toggles = Toggles(
    binFullDetection: bool, allowOverfill: bool, keepUpright: bool, dumpOverride: bool,
    blockOnFull: bool)
  {
    function Flags(): (f: seq<bool>)
      ensures |f| == 5
    {
      [binFullDetection, allowOverfill, keepUpright, dumpOverride, blockOnFull]
    }
  }

  datatype DustbinSettings = DustbinSettings(
    toggles: Toggles, calibration: int, cycleCount: int, dustbinRaw: bytes)

  /** The default fills what a short payload lacks. */
  function NormalizedDustbin(payload: bytes): (r: bytes)
    ensures |r| == DUSTBIN_LENGTH
  {
    seq(DUSTBIN_LENGTH, i requires 0 <= i < DUSTBIN_LENGTH =>
      if i < |payload| then payload[i] else DEFAULT_DUSTBIN[i])
  }

  function TogglesOf(b: byte): Toggles {
    Toggles(Flag(b, 0), Flag(b, 1), Flag(b, 2), Flag(b, 3), Flag(b, 4))
  }

  function Calibration(b: byte): int { Clamp(b as int, 0, 3) }

  function Cycle(b: byte): int { ValidOr(b, 1, 10, 5) }

  function DecodeDustbinRaw(raw: bytes): DustbinSettings
    requires |raw| == DUSTBIN_LENGTH
  {
    DustbinSettings(TogglesOf(raw[0]), Calibration(raw[1]), Cycle(raw[2]), raw)
  }

  function DecodeDustbin(payload: Option<bytes>): Option<DustbinSettings> {
    match payload
    case None => None
    case Some(b) => Some(DecodeDustbinRaw(NormalizedDustbin(b)))
  }

  /** The five known bits replaced, the upper three kept. */
  function ReplacedToggles(prior: byte, t: Toggles): byte {
    FlagsByte([t.binFullDetection, t.allowOverfill, t.keepUpright, t.dumpOverride, t.blockOnFull,
               Flag(prior, 5), Flag(prior, 6), Flag(prior, 7)])
  }

  function PutToggles(prior: byte, t: Toggles): byte {
    if t == TogglesOf(prior) then prior else ReplacedToggles(prior, t)
  }

  function EncodedDustbin(s: DustbinSettings): (r: bytes)
    ensures |r| == DUSTBIN_LENGTH
  {
    var raw := NormalizedDustbin(s.dustbinRaw);
    [PutToggles(raw[0], s.toggles),
     PutNumber(raw[1], Calibration(raw[1]), s.calibration, 0, 3),
     PutNumber(raw[2], Cycle(raw[2]), s.cycleCount, 1, 10)]
  }

  method EncodeDp104(s: DustbinSettings) returns (payload: bytes)
    ensures payload == EncodedDustbin(s)
  {
    var raw := NormalizedDustbin(s.dustbinRaw);
    var out := new byte[DUSTBIN_LENGTH](i requires 0 <= i < DUSTBIN_LENGTH => raw[i]);
    var base := DecodeDustbinRaw(raw);
    if s.toggles != base.toggles {
      out[0] := ReplacedToggles(out[0], s.toggles);
    }
    if s.calibration != base.calibration {
      out[1] := Clamp(s.calibration, 0, 3) as byte;
    }
    if s.cycleCount != base.cycleCount {
      out[2] := Clamp(s.cycleCount, 1, 10) as byte;
    }
    payload := out[..];
  }

  // ------------------------------------------------------------------------------------------
  // The laws of the lens
  // ------------------------------------------------------------------------------------------

  lemma DustbinPutUnchanged(payload: bytes)
    ensures EncodedDustbin(DecodeDustbinRaw(NormalizedDustbin(payload)))
         == NormalizedDustbin(payload)
  {
    var raw := NormalizedDustbin(payload);
    assert NormalizedDustbin(raw) == raw;
  }

  lemma TogglesBack(prior: byte, t: Toggles)
    ensures TogglesOf(PutToggles(prior, t)) == t
    ensures forall k :: 5 <= k < 8 ==> Flag(PutToggles(prior, t), k) == Flag(prior, k)
  {
    hide FlagsByte, BitOf;
    var f := [t.binFullDetection, t.allowOverfill, t.keepUpright, t.dumpOverride, t.blockOnFull,
              Flag(prior, 5), Flag(prior, 6), Flag(prior, 7)];
    FlagsByteBit(f, 0);
    FlagsByteBit(f, 1);
    FlagsByteBit(f, 2);
    FlagsByteBit(f, 3);
    FlagsByteBit(f, 4);
    FlagsByteBit(f, 5);
    FlagsByteBit(f, 6);
    FlagsByteBit(f, 7);
  }

  /** Encoding then decoding gives every field back exactly when the numbers are in range. */
  lemma DustbinGetBackIff(s: DustbinSettings)
    ensures DecodeDustbinRaw(EncodedDustbin(s)) == s.(dustbinRaw := EncodedDustbin(s))
            <==> 0 <= s.calibration <= 3 && 1 <= s.cycleCount <= 10
  {
    hide PutToggles, TogglesOf;
    TogglesBack(NormalizedDustbin(s.dustbinRaw)[0], s.toggles);
  }

  lemma DustbinEncodedTwice(s: DustbinSettings)
    ensures EncodedDustbin(s.(dustbinRaw := EncodedDustbin(s))) == EncodedDustbin(s)
  {
    var out := EncodedDustbin(s);
    assert NormalizedDustbin(out) == out;
    TogglesBack(NormalizedDustbin(s.dustbinRaw)[0], s.toggles);
  }

  lemma ToggleKept(prior: byte, t: Toggles, k: nat)
    requires k < 8 && (k >= 5 || t.Flags()[k] == Flag(prior, k))
    ensures Flag(PutToggles(prior, t), k) == Flag(prior, k)
  {
    TogglesBack(prior, t);
    hide PutToggles;
    if k < 5 {
      assert TogglesOf(PutToggles(prior, t)).Flags()[k] == Flag(PutToggles(prior, t), k);
    }
  }

  /** A toggle keeps its bit unless it changed itself, the upper bits always stay, and a number that
      did not change keeps its byte, also one that decodes by fallback. */
  lemma DustbinOnlyChangedMoves(s: DustbinSettings, k: nat)
    requires k < 8
    ensures var raw, out := NormalizedDustbin(s.dustbinRaw), EncodedDustbin(s);
            && (k >= 5 || s.toggles.Flags()[k] == Flag(raw[0], k) ==>
                  Flag(out[0], k) == Flag(raw[0], k))
            && (s.calibration == Calibration(raw[1]) ==> out[1] == raw[1])
            && (s.cycleCount == Cycle(raw[2]) ==> out[2] == raw[2])
  {
    hide PutToggles, Flag;
    var prior := NormalizedDustbin(s.dustbinRaw)[0];
    if k >= 5 || s.toggles.Flags()[k] == Flag(prior, k) {
      ToggleKept(prior, s.toggles, k);
    }
  }

  // ------------------------------------------------------------------------------------------
  // Partial updates
  // ------------------------------------------------------------------------------------------

  datatype DustbinPatch = DustbinPatch(
    binFullDetection: Option<bool>, allowOverfill: Option<bool>, keepUpright: Option<bool>,
    dumpOverride: Option<bool>, blockOnFull: Option<bool>,
    calibration: Option<int>, cycleCount: Option<int>)

  function ApplyToggles(p: DustbinPatch, t: Toggles): Toggles {
    Toggles(Or(p.binFullDetection, t.binFullDetection), Or(p.allowOverfill, t.allowOverfill),
            Or(p.keepUpright, t.keepUpright), Or(p.dumpOverride, t.dumpOverride),
            Or(p.blockOnFull, t.blockOnFull))
  }

  function ApplyDustbin(p: DustbinPatch, s: DustbinSettings): DustbinSettings {
    DustbinSettings(ApplyToggles(p, s.toggles), Or(p.calibration, s.calibration),
                    Or(p.cycleCount, s.cycleCount), s.dustbinRaw)
  }

  function UpdatedDustbin(p: DustbinPatch, payload: bytes): (r: bytes)
    ensures |r| == DUSTBIN_LENGTH
  {
    EncodedDustbin(ApplyDustbin(p, DecodeDustbinRaw(NormalizedDustbin(payload))))
  }

  predicate DisjointDustbin(p: DustbinPatch, q: DustbinPatch) {
    && (p.binFullDetection.None? || q.binFullDetection.None?)
    && (p.allowOverfill.None? || q.allowOverfill.None?)
    && (p.keepUpright.None? || q.keepUpright.None?)
    && (p.dumpOverride.None? || q.dumpOverride.None?)
    && (p.blockOnFull.None? || q.blockOnFull.None?)
    && (p.calibration.None? || q.calibration.None?)
    && (p.cycleCount.None? || q.cycleCount.None?)
  }

  lemma SameTogglesSameByte(b: byte, c: byte)
    requires TogglesOf(b) == TogglesOf(c) && forall k :: 5 <= k < 8 ==> Flag(b, k) == Flag(c, k)
    ensures b == c
  {
    hide BitOf;
    assert Two(8) == 256;
    var f := seq(8, k requires 0 <= k < 8 => Flag(b, k));
    forall k | 0 <= k < 8 ensures Flag(b, k) == Flag(c, k) {
      assert k >= 5 || k in {0, 1, 2, 3, 4};
    }
    FlagsOfByte(b, f);
    FlagsOfByte(c, f);
  }

  lemma TogglesCommute(p: DustbinPatch, q: DustbinPatch, b: byte)
    requires DisjointDustbin(p, q)
    ensures var c := PutToggles(b, ApplyToggles(p, TogglesOf(b)));
            var d := PutToggles(b, ApplyToggles(q, TogglesOf(b)));
            PutToggles(c, ApplyToggles(q, TogglesOf(c)))
            == PutToggles(d, ApplyToggles(p, TogglesOf(d)))
  {
    hide PutToggles, Flag;
    var c := PutToggles(b, ApplyToggles(p, TogglesOf(b)));
    var d := PutToggles(b, ApplyToggles(q, TogglesOf(b)));
    TogglesBack(b, ApplyToggles(p, TogglesOf(b)));
    TogglesBack(b, ApplyToggles(q, TogglesOf(b)));
    TogglesBack(c, ApplyToggles(q, TogglesOf(c)));
    TogglesBack(d, ApplyToggles(p, TogglesOf(d)));
    SameTogglesSameByte(PutToggles(c, ApplyToggles(q, TogglesOf(c))),
                        PutToggles(d, ApplyToggles(p, TogglesOf(d))));
  }

  /** Dustbin updates without a common field give the same payload in either order. */
  lemma DisjointDustbinUpdatesCommute(p: DustbinPatch, q: DustbinPatch, payload: bytes)
    requires DisjointDustbin(p, q)
    ensures UpdatedDustbin(q, UpdatedDustbin(p, payload))
         == UpdatedDustbin(p, UpdatedDustbin(q, payload))
  {
    hide PutToggles, TogglesOf;
    var raw := NormalizedDustbin(payload);
    var a, b := UpdatedDustbin(p, payload), UpdatedDustbin(q, payload);
    assert NormalizedDustbin(raw) == raw && NormalizedDustbin(a) == a && NormalizedDustbin(b) == b;
    TogglesCommute(p, q, raw[0]);
  }

  // ------------------------------------------------------------------------------------------
  // The layout of the payload
  // ------------------------------------------------------------------------------------------

  /** A short payload is filled up from 5, 1, 5. The toggles are the lowest five bits of the first
      byte; the calibration is brought down to 3; a cycle count out of range reads as 5. */
  lemma DustbinRead(
    payload: bytes, a: bool, b: bool, c: bool, d: bool, e: bool, f: bool, g: bool, h: bool)
    ensures var s := DecodeDustbinRaw(NormalizedDustbin(payload));
            var third := if |payload| > 2 then payload[2] as int else 5;
            && ((payload != [] && payload[0] == Eight(a, b, c, d, e, f, g, h)) ==>
                  s.toggles == Toggles(binFullDetection := a, allowOverfill := b, keepUpright := c,
                                       dumpOverride := d, blockOnFull := e))
            && (payload == [] ==> s.toggles == Toggles(true, false, true, false, false))
            && s.calibration == (if |payload| <= 1 then 1 else if payload[1] > 3 then 3
                                 else payload[1] as int)
            && s.cycleCount == if 1 <= third <= 10 then third else 5
  {
    ToggleBits(a, b, c, d, e, f, g, h);
    ToggleBits(true, false, true, false, false, false, false, false);
    assert Eight(true, false, true, false, false, false, false, false) == 5;
    hide TogglesOf, Eight;
  }

  lemma ToggleBits(a: bool, b: bool, c: bool, d: bool, e: bool, f: bool, g: bool, h: bool)
    ensures TogglesOf(Eight(a, b, c, d, e, f, g, h)) == Toggles(a, b, c, d, e)
  {
    EightBits(a, b, c, d, e, f, g, h);
    hide Eight, BitOf;
  }

  /** Numbers that were changed are written as the nearest in their range. */
  lemma DustbinWritten(s: DustbinSettings)
    ensures var out := EncodedDustbin(s);
            var base := DecodeDustbinRaw(NormalizedDustbin(s.dustbinRaw));
            && (s.calibration != base.calibration ==> Nearest(out[1] as int, s.calibration, 0, 3))
            && (s.cycleCount != base.cycleCount ==> Nearest(out[2] as int, s.cycleCount, 1, 10))
  {
    hide TogglesOf, PutToggles;
  }

  /** What a patch does to the settings, field by field. */
  lemma DustbinPatched(p: DustbinPatch, s: DustbinSettings)
    ensures var t := ApplyDustbin(p, s);
            && (p.binFullDetection.Some? ==> t.toggles.binFullDetection == p.binFullDetection.value)
            && (p.allowOverfill.Some? ==> t.toggles.allowOverfill == p.allowOverfill.value)
            && (p.keepUpright.Some? ==> t.toggles.keepUpright == p.keepUpright.value)
            && (p.dumpOverride.Some? ==> t.toggles.dumpOverride == p.dumpOverride.value)
            && (p.blockOnFull.Some? ==> t.toggles.blockOnFull == p.blockOnFull.value)
            && (p.calibration.Some? ==> t.calibration == p.calibration.value)
            && (p.cycleCount.Some? ==> t.cycleCount == p.cycleCount.value)
            && (p.binFullDetection.None? ==>
                  t.toggles.binFullDetection == s.toggles.binFullDetection)
            && (p.allowOverfill.None? ==> t.toggles.allowOverfill == s.toggles.allowOverfill)
            && (p.keepUpright.None? ==> t.toggles.keepUpright == s.toggles.keepUpright)
            && (p.dumpOverride.None? ==> t.toggles.dumpOverride == s.toggles.dumpOverride)
            && (p.blockOnFull.None? ==> t.toggles.blockOnFull == s.toggles.blockOnFull)
            && (p.calibration.None? ==> t.calibration == s.calibration)
            && (p.cycleCount.None? ==> t.cycleCount == s.cycleCount)
            && t.dustbinRaw == s.dustbinRaw
  {
  }
}
