/** The run-mode report and the normaliser that keeps a map of data points consistent with it. How
    text spells bytes is a parameter: what is proved holds for every such spelling. */
module Dp101 {
  import opened Options
  import opened Bytes

  datatype Value =
    | Raw(data: bytes)
    | Text(text: string)
    | Whole(number: int)
    | Flag(on: bool)
    | Fraction(truncated: int)
    | Items(numbers: seq<Option<int>>)
    | Other(tag: int)

  type DpMap = map<string, Value>
  type Spelling = string -> Option<bytes>

  const BINS: seq<string> :=
    ["unfound", "near_empty", "half_empty", "almost_full", "bin_full", "bin_opned"]
  const RUNNINGS: seq<string> :=
    ["idle", "clean_start", "clean_pause", "manual_clean_completed", "scheduled_clean_completed",
     "auttomatic_clean_completed"]
  const MACHINES: seq<string> := ["power_on", "hibernating", "disturb_mode", "power_off"]
  const CATS: seq<string> := ["no_cat", "cat_exist", "cat_left", "cat_done_business"]
  const START := "clean_start"
  const PAUSE := "clean_pause"

  datatype Report = Report(bin: string, running: string, machine: string, cat: string, countdown: int)

  const DEFAULT := Report("near_empty", "idle", "power_on", "no_cat", 0)

  // ------------------------------------------------------------------------------------------
  // The packed report
  // ------------------------------------------------------------------------------------------

  function Get(m: DpMap, key: string): Option<Value> {
    if key in m then Some(m[key]) else None
  }

  function Numbers(items: seq<Option<int>>): bytes {
    if items == [] then []
    else (match items[0] case None => [] case Some(v) => [(v % 256) as byte]) + Numbers(items[1..])
  }

  function Decode(spell: Spelling, v: Option<Value>): Option<bytes> {
    match v
    case Some(Raw(data)) => Some(data)
    case Some(Text(text)) => spell(text)
    case Some(Items(items)) => if Numbers(items) == [] then None else Some(Numbers(items))
    case _ => None
  }

  function ValueAt(values: seq<string>, i: byte, default: string): string {
    if i as int < |values| then values[i as int] else default
  }

  function IndexOr(values: seq<string>, v: string, default: byte): (r: byte)
    requires |values| < 256
  {
    if v in values then FirstIndex(values, v) as byte else default
  }

  function FirstIndex(values: seq<string>, v: string): (i: nat)
    requires v in values
    ensures i < |values| && values[i] == v && forall j :: 0 <= j < i ==> values[j] != v
  {
    if values[0] == v then 0 else FirstIndex(values[1..], v) + 1
  }

  function Parse(spell: Spelling, v: Option<Value>): Option<Report> {
    if v.Some? && v.value.Text? && v.value.text in MACHINES then
      Some(DEFAULT.(machine := v.value.text))
    else
      match Decode(spell, v)
      case None => None
      case Some(raw) =>
        if |raw| < 5 then None
        else Some(Report(ValueAt(BINS, raw[0], "near_empty"), ValueAt(RUNNINGS, raw[1], "idle"),
                         ValueAt(MACHINES, raw[2], "power_on"), ValueAt(CATS, raw[3], "no_cat"),
                         raw[4] as int))
  }

  function Clamp(v: int): (r: int)
    ensures 0 <= r <= 255
  {
    if v < 0 then 0 else if v > 255 then 255 else v
  }

  function Encode(r: Report): (data: bytes)
    ensures |data| == 5
  {
    [IndexOr(BINS, r.bin, 1), IndexOr(RUNNINGS, r.running, 0), IndexOr(MACHINES, r.machine, 0),
     IndexOr(CATS, r.cat, 0), Clamp(r.countdown) as byte]
  }

  function Known(values: seq<string>, v: string, default: string): string {
    if v in values then v else default
  }

  /** The report with every unknown name replaced and the countdown brought into range. */
  function Canonical(r: Report): Report {
    Report(Known(BINS, r.bin, "near_empty"), Known(RUNNINGS, r.running, "idle"),
           Known(MACHINES, r.machine, "power_on"), Known(CATS, r.cat, "no_cat"), Clamp(r.countdown))
  }

  lemma ParseUndoesEncode(spell: Spelling, r: Report)
    ensures Parse(spell, Some(Raw(Encode(r)))) == Some(Canonical(r))
  {
  }

  /** Which reports come back from their five bytes. */
  lemma ReportReadsBackIff(spell: Spelling, r: Report)
    ensures Parse(spell, Some(Raw(Encode(r)))) == Some(r)
        <==> r.bin in BINS && r.running in RUNNINGS && r.machine in MACHINES && r.cat in CATS
             && 0 <= r.countdown <= 255
  {
    ParseUndoesEncode(spell, r);
    assert "near_empty" == BINS[1] && "idle" == RUNNINGS[0];
    assert "power_on" == MACHINES[0] && "no_cat" == CATS[0];
  }

  lemma ParsedIsCanonical(spell: Spelling, v: Option<Value>)
    ensures Parse(spell, v).Some? ==> Canonical(Parse(spell, v).value) == Parse(spell, v).value
  {
    assert "near_empty" == BINS[1] && "idle" == RUNNINGS[0];
    assert "power_on" == MACHINES[0] && "no_cat" == CATS[0];
  }

  // ------------------------------------------------------------------------------------------
  // The normaliser as a function
  // ------------------------------------------------------------------------------------------

  function ReportOf(spell: Spelling, m: DpMap): Option<Report> {
    Parse(spell, Get(m, "101"))
  }

  function Lowered(c: char): char {
    if 'A' <= c <= 'Z' then c - 'A' + 'a' else c
  }

  predicate SpellsTrue(text: string) {
    |text| == 4 && Lowered(text[0]) == 't' && Lowered(text[1]) == 'r' && Lowered(text[2]) == 'u'
    && Lowered(text[3]) == 'e'
  }

  /** The cleaning switch that the map's entry "1" stands for. */
  function Control(m: DpMap): Option<bool> {
    match Get(m, "1")
    case Some(Flag(on)) => Some(on)
    case Some(Whole(n)) => Some(n != 0)
    case Some(Fraction(n)) => Some(n != 0)
    case Some(Text(text)) => Some(SpellsTrue(text) || text == "1")
    case _ => None
  }

  function Stripped(m: DpMap): DpMap {
    m - {"24", "18"}
  }

  function TextAt(m: DpMap, key: string): Option<string> {
    match Get(m, key)
    case Some(Text(text)) => Some(text)
    case _ => None
  }

  function LegacyCountdown(m: DpMap): Option<int> {
    match Get(m, "18")
    case Some(Whole(n)) => Some(n)
    case _ => None
  }

  function KnownMachine(m: DpMap): Option<string> {
    match TextAt(m, "101")
    case Some(text) => if text in MACHINES then Some(text) else None
    case None => None
  }

  predicate HasLegacy(m: DpMap) {
    TextAt(m, "24").Some? || KnownMachine(m).Some? || LegacyCountdown(m).Some?
  }

  function LegacyReport(m: DpMap): Report {
    Report(Or(TextAt(m, "122"), DEFAULT.bin), Or(TextAt(m, "24"), DEFAULT.running),
           Or(KnownMachine(m), DEFAULT.machine), Or(TextAt(m, "126"), DEFAULT.cat),
           Or(LegacyCountdown(m), DEFAULT.countdown))
  }

  function Migrated(spell: Spelling, m: DpMap): DpMap {
    if Decode(spell, Get(m, "101")).Some? || !HasLegacy(m) then Stripped(m)
    else Stripped(m["101" := Raw(Encode(LegacyReport(m)))])
  }

  /** The running status a switch asks for. */
  function Settled(control: Option<bool>, r: Report): Report {
    if control == Some(true) && r.running == PAUSE then r.(running := START)
    else if control == Some(false) && r.running == START then r.(running := PAUSE)
    else r
  }

  function Reconciled(spell: Spelling, m: DpMap): DpMap {
    match Control(m)
    case None => m
    case Some(on) =>
      var m1 := m["1" := Flag(on)];
      match ReportOf(spell, m1)
      case None => m1
      case Some(report) =>
        var settled := Settled(Some(on), report);
        if settled == report then m1
        else m1["101" := Raw(Encode(settled))]["126" := Text(settled.cat)]
  }

  function Applied(spell: Spelling, m: DpMap): DpMap {
    var migrated := Migrated(spell, m);
    match ReportOf(spell, migrated)
    case None => Stripped(migrated) - {"122"}
    case Some(report) =>
      var m1 := if Decode(spell, Get(migrated, "101")).None?
                then migrated["101" := Raw(Encode(report))] else migrated;
      Reconciled(spell, Stripped(m1["126" := Text(report.cat)]) - {"122"})
  }

  // ------------------------------------------------------------------------------------------
  // The normaliser as the program runs it
  // ------------------------------------------------------------------------------------------

  /** A map of data points that is changed in place. */
  class DpStates {
    var dps: DpMap

    constructor (dps: DpMap)
      ensures this.dps == dps
    {
      this.dps := dps;
    }

    method StripLegacyKeys()
      modifies this
      ensures dps == Stripped(old(dps))
    {
      dps := dps - {"24"};
      dps := dps - {"18"};
    }

    method MigrateLegacyKeys(spell: Spelling)
      modifies this
      ensures dps == Migrated(spell, old(dps))
    {
      if Decode(spell, Get(dps, "101")).Some? {
        StripLegacyKeys();
        return;
      }
      var running := TextAt(dps, "24");
      var machine := TextAt(dps, "101");
      var countdown := LegacyCountdown(dps);
      if running.None? && (machine.None? || machine.value !in MACHINES) && countdown.None? {
        StripLegacyKeys();
        return;
      }
      var bin := Or(TextAt(dps, "122"), DEFAULT.bin);
      if machine.None? || machine.value !in MACHINES {
        machine := Some(DEFAULT.machine);
      }
      var cat := Or(TextAt(dps, "126"), DEFAULT.cat);
      var report := Report(bin, Or(running, DEFAULT.running), machine.value, cat,
                           Or(countdown, DEFAULT.countdown));
      dps := dps["101" := Raw(Encode(report))];
      StripLegacyKeys();
    }

    method ReconcileCleanControl(spell: Spelling)
      modifies this
      ensures dps == Reconciled(spell, old(dps))
    {
      hide Parse, Encode, SpellsTrue;
      var control := Control(dps);
      if control.None? {
        return;
      }
      dps := dps["1" := Flag(control.value)];
      var report := ReportOf(spell, dps);
      if report.None? {
        return;
      }
      var running := None;
      if control.value && report.value.running == PAUSE {
        running := Some(START);
      } else if !control.value && report.value.running == START {
        running := Some(PAUSE);
      }
      if running.None? {
        return;
      }
      var settled := report.value.(running := running.value);
      dps := dps["101" := Raw(Encode(settled))];
      dps := dps["126" := Text(settled.cat)];
    }

    /** Brings the map into normal form without changing what it stands for. */
    method ApplyToMap(spell: Spelling)
      modifies this
      ensures dps == Applied(spell, old(dps))
      ensures Normal(spell, dps)
      ensures ReportOf(spell, dps) == Meaning(spell, old(dps))
    {
      ghost var start := dps;
      AppliedIsNormal(spell, start);
      MigrateLegacyKeys(spell);
      var report := ReportOf(spell, dps);
      if report.None? {
        StripLegacyKeys();
        dps := dps - {"122"};
        return;
      }
      if Decode(spell, Get(dps, "101")).None? {
        dps := dps["101" := Raw(Encode(report.value))];
      }
      dps := dps["126" := Text(report.value.cat)];
      StripLegacyKeys();
      dps := dps - {"122"};
      ReconcileCleanControl(spell);
    }
  }

  // ------------------------------------------------------------------------------------------
  // The normal form
  // ------------------------------------------------------------------------------------------

  /** The switch is a flag, and does not ask for another running status. */
  predicate Agrees(m: DpMap, r: Report) {
    Control(m).Some? ==> Get(m, "1") == Some(Flag(Control(m).value)) && Settled(Control(m), r) == r
  }

  predicate Normal(spell: Spelling, m: DpMap) {
    && "24" !in m && "18" !in m && "122" !in m
    && (ReportOf(spell, m).Some? ==>
          && Decode(spell, Get(m, "101")).Some?
          && Get(m, "126") == Some(Text(ReportOf(spell, m).value.cat))
          && Agrees(m, ReportOf(spell, m).value))
  }

  /** The report a map stands for: its packed report or else its legacy entries, with the running
      status its switch asks for. */
  function Meaning(spell: Spelling, m: DpMap): Option<Report> {
    if Decode(spell, Get(m, "101")).Some? then
      match ReportOf(spell, m)
      case None => None
      case Some(r) => Some(Settled(Control(m), r))
    else if HasLegacy(m) then Some(Settled(Control(m), Canonical(LegacyReport(m))))
    else None
  }

  lemma MigratedMeans(spell: Spelling, m: DpMap)
    ensures ReportOf(spell, Migrated(spell, m)).Some? ==>
              Decode(spell, Get(Migrated(spell, m), "101")).Some?
    ensures Meaning(spell, m) ==
              match ReportOf(spell, Migrated(spell, m))
              case None => None
              case Some(r) => Some(Settled(Control(m), r))
  {
    hide Encode, Canonical, Settled, Numbers, Control;
    ParseUndoesEncode(spell, LegacyReport(m));
    if Decode(spell, Get(m, "101")).None? && HasLegacy(m) {
      hide Parse, LegacyReport;
    }
  }

  lemma SettledReads(spell: Spelling, v: Option<Value>, c: Option<bool>)
    requires Parse(spell, v).Some?
    ensures var r := Settled(c, Parse(spell, v).value);
            Parse(spell, Some(Raw(Encode(r)))) == Some(r) && Settled(c, r) == r
  {
    hide Parse, Encode;
    var r := Parse(spell, v).value;
    ParsedIsCanonical(spell, v);
    ParseUndoesEncode(spell, Settled(c, r));
    assert START == RUNNINGS[1] && PAUSE == RUNNINGS[2];
  }

  /** Settling the switch on a map whose other entries are in order. */
  lemma ReconciledSettles(spell: Spelling, m: DpMap, r: Report)
    requires "24" !in m && "18" !in m && "122" !in m && Get(m, "126") == Some(Text(r.cat))
    requires ReportOf(spell, m) == Some(r) && Decode(spell, Get(m, "101")).Some?
    ensures Normal(spell, Reconciled(spell, m)) && Control(Reconciled(spell, m)) == Control(m)
    ensures ReportOf(spell, Reconciled(spell, m)) == Some(Settled(Control(m), r))
  {
    hide Parse, Encode, Numbers, SpellsTrue;
    SettledReads(spell, Get(m, "101"), Control(m));
    if Control(m).Some? {
      assert Get(m["1" := Flag(Control(m).value)], "101") == Get(m, "101");
    }
  }

  lemma AppliedIsNormal(spell: Spelling, m: DpMap)
    ensures Normal(spell, Applied(spell, m)) && Control(Applied(spell, m)) == Control(m)
    ensures ReportOf(spell, Applied(spell, m)) == Meaning(spell, m)
  {
    hide Parse, Decode, Reconciled, Meaning, Settled, SpellsTrue;
    MigratedMeans(spell, m);
    var migrated := Migrated(spell, m);
    MigratedSwitch(spell, m);
    hide Migrated;
    var report := ReportOf(spell, migrated);
    if report.Some? {
      var ready := Stripped(migrated["126" := Text(report.value.cat)]) - {"122"};
      assert Get(ready, "101") == Get(migrated, "101") && Get(ready, "1") == Get(migrated, "1");
      ReconciledSettles(spell, ready, report.value);
    }
  }

  lemma MigratedSwitch(spell: Spelling, m: DpMap)
    ensures Get(Migrated(spell, m), "1") == Get(m, "1")
  {
    hide Decode, Encode, LegacyReport, HasLegacy;
  }

  /** Without the legacy entries and with bytes in "101", or with no report, migrating does
      nothing. */
  lemma NormalIsMigrated(spell: Spelling, m: DpMap)
    requires Normal(spell, m)
    ensures Migrated(spell, m) == m
  {
    hide Decode, Agrees;
  }

  lemma AgreesIsReconciled(spell: Spelling, m: DpMap, r: Report)
    requires ReportOf(spell, m) == Some(r) && Agrees(m, r)
    ensures Reconciled(spell, m) == m
  {
    hide Parse, Encode, Control, Settled;
    if Control(m).Some? {
      assert m["1" := Flag(Control(m).value)] == m;
    }
  }

  /** The maps the normaliser leaves alone are exactly those in normal form. */
  lemma FixedIffNormal(spell: Spelling, m: DpMap)
    ensures Applied(spell, m) == m <==> Normal(spell, m)
  {
    hide Parse, Decode, Reconciled, Agrees, Migrated;
    AppliedIsNormal(spell, m);
    if Normal(spell, m) {
      NormalIsMigrated(spell, m);
      if ReportOf(spell, m).Some? {
        var report := ReportOf(spell, m).value;
        assert Stripped(m["126" := Text(report.cat)]) - {"122"} == m;
        AgreesIsReconciled(spell, m, report);
      } else {
        assert Stripped(m) - {"122"} == m;
      }
    }
  }

  lemma AppliedTwice(spell: Spelling, m: DpMap)
    ensures Applied(spell, Applied(spell, m)) == Applied(spell, m)
  {
    hide Applied, Normal;
    AppliedIsNormal(spell, m);
    FixedIffNormal(spell, Applied(spell, m));
  }

  /** No other data point is touched. */
  lemma OthersUntouched(spell: Spelling, m: DpMap, key: string)
    requires key !in {"1", "18", "24", "101", "122", "126"}
    ensures Get(Applied(spell, m), key) == Get(m, key)
  {
    hide Parse, Encode, Decode, Control, Settled, LegacyReport, HasLegacy;
  }

  // ------------------------------------------------------------------------------------------
  // Reports that arrive while a cleaning command is pending
  // ------------------------------------------------------------------------------------------

  datatype Change = Change(bin: Option<string>, running: Option<string>, machine: Option<string>,
                           cat: Option<string>, countdown: Option<int>)

  function Changed(c: Change, r: Report): Report {
    Report(Or(c.bin, r.bin), Or(c.running, r.running), Or(c.machine, r.machine), Or(c.cat, r.cat),
           Or(c.countdown, r.countdown))
  }

  function Patched(spell: Spelling, m: DpMap, c: Change): DpMap {
    var report := Changed(c, Or(ReportOf(spell, m), DEFAULT));
    Stripped(m["101" := Raw(Encode(report))])["126" := Text(report.cat)]
  }

  /** A patched map shows the changed report; its cat entry agrees with it exactly if the cat is a
      known one. */
  lemma PatchedShows(spell: Spelling, m: DpMap, c: Change)
    ensures var report := Changed(c, Or(ReportOf(spell, m), DEFAULT));
            var r := ReportOf(spell, Patched(spell, m, c));
            && r == Some(Canonical(report))
            && (Get(Patched(spell, m, c), "126") == Some(Text(r.value.cat))
                <==> c.cat.None? || c.cat.value in CATS)
  {
    hide Parse, Encode;
    var report := Changed(c, Or(ReportOf(spell, m), DEFAULT));
    ParseUndoesEncode(spell, report);
    ParsedIsCanonical(spell, Get(m, "101"));
    assert "no_cat" == CATS[0];
  }

  datatype Action = StartCleaning | ContinueCleaning | PauseCleaning | OtherAction

  predicate Passes(
    spell: Spelling, incoming: DpMap, action: Action, expected: string)
  {
    var running := match ReportOf(spell, incoming) case None => None case Some(r) => Some(r.running);
    incoming == map[] || action.OtherAction? || running == Some(expected)
    || (expected == START && running == Some(PAUSE))
  }

  function Expecting(spell: Spelling, snapshot: DpMap, action: Action, expected: string): Change {
    match ReportOf(spell, snapshot)
    case None => Change(None, Some(expected), None, None, Some(0))
    case Some(s) =>
      Change(Some(s.bin), Some(expected), Some(s.machine), Some(s.cat),
             Some(if action.ContinueCleaning? then 0 else s.countdown))
  }

  function Merged(
    spell: Spelling, incoming: DpMap, snapshot: DpMap, action: Action, expected: string): DpMap
  {
    if Passes(spell, incoming, action, expected) then incoming
    else Applied(spell, Substituted(spell, incoming, snapshot, action, expected))
  }

  function Substituted(
    spell: Spelling, incoming: DpMap, snapshot: DpMap, action: Action, expected: string): DpMap
  {
    var change := Expecting(spell, snapshot, action, expected);
    Patched(spell, incoming, change)["1" := Flag(!action.PauseCleaning?)]
  }

  /** The report a merged map is meant to show. */
  function Substitute(
    spell: Spelling, incoming: DpMap, snapshot: DpMap, action: Action, expected: string): Report
  {
    var base := Or(ReportOf(spell, incoming), DEFAULT);
    Changed(Expecting(spell, snapshot, action, expected), base)
  }

  lemma SubstitutedMeans(
    spell: Spelling, incoming: DpMap, snapshot: DpMap, action: Action, expected: string)
    ensures var m := Substituted(spell, incoming, snapshot, action, expected);
            var report := Substitute(spell, incoming, snapshot, action, expected);
            && Control(m) == Some(!action.PauseCleaning?)
            && Get(m, "101") == Some(Raw(Encode(report)))
            && Meaning(spell, m) == Some(Settled(Control(m), Canonical(report)))
  {
    hide Parse, Encode, Canonical, Settled, Expecting, Changed;
    ParseUndoesEncode(spell, Substitute(spell, incoming, snapshot, action, expected));
  }

  /** What a merged map shows: the expected status over the snapshot's report, unless the switch of
      the command contradicts that status. */
  lemma MergedShows(
    spell: Spelling, incoming: DpMap, snapshot: DpMap, action: Action, expected: string)
    requires !Passes(spell, incoming, action, expected)
    ensures var report := Substitute(spell, incoming, snapshot, action, expected);
            var m := Merged(spell, incoming, snapshot, action, expected);
            && Normal(spell, m) && Control(m) == Some(!action.PauseCleaning?)
            && ReportOf(spell, m) == Some(Settled(Control(m), Canonical(report)))
  {
    hide Applied, Normal, ReportOf, Control, Canonical, Settled, Substitute, Meaning, Patched,
      Expecting, Passes;
    SubstitutedMeans(spell, incoming, snapshot, action, expected);
    AppliedIsNormal(spell, Substituted(spell, incoming, snapshot, action, expected));
  }

  /** The map shows the expected status exactly when the status is one the device knows and the
      command does not ask for its opposite. */
  lemma ExpectedShownIff(
    spell: Spelling, incoming: DpMap, snapshot: DpMap, action: Action, expected: string)
    requires !Passes(spell, incoming, action, expected)
    ensures (var r := ReportOf(spell, Merged(spell, incoming, snapshot, action, expected));
             r.Some? && r.value.running == expected)
        <==> expected in RUNNINGS && expected != (if action.PauseCleaning? then START else PAUSE)
  {
    hide Merged, Parse, Normal, Passes, ReportOf, Control;
    MergedShows(spell, incoming, snapshot, action, expected);
    assert "idle" == RUNNINGS[0] && START == RUNNINGS[1] && PAUSE == RUNNINGS[2];
  }

  // ------------------------------------------------------------------------------------------
  // What the normaliser's result depends on
  // ------------------------------------------------------------------------------------------

  lemma SameEntries(a: DpMap, b: DpMap)
    requires forall key :: Get(a, key) == Get(b, key)
    ensures a == b
  {
    forall key ensures key in a <==> key in b {
      assert Get(a, key) == Get(b, key);
    }
    forall key | key in a ensures a[key] == b[key] {
      assert Get(a, key) == Get(b, key);
    }
  }

  function Repacked(data: bytes, r: Report, control: Option<bool>): bytes {
    if Settled(control, r) == r then data else Encode(Settled(control, r))
  }

  lemma AppliedReport(spell: Spelling, m: DpMap, data: bytes)
    requires Get(m, "101") == Some(Raw(data)) && |data| >= 5
    ensures ReportOf(spell, m).Some?
    ensures ReportOf(spell, Applied(spell, m)).Some?
    ensures Get(Applied(spell, m), "101") == Some(Raw(Repacked(data, ReportOf(spell, m).value,
                                                               Control(m))))
  {
    hide Encode, SpellsTrue, ValueAt;
    AppliedIsNormal(spell, m);
    var migrated := Migrated(spell, m);
    assert migrated == Stripped(m);
    var report := ReportOf(spell, m).value;
    var ready := Stripped(migrated["126" := Text(report.cat)]) - {"122"};
    assert Get(ready, "101") == Get(m, "101") && Get(ready, "1") == Get(m, "1");
    hide Parse;
    assert Applied(spell, m) == Reconciled(spell, ready);
    if Control(m).Some? {
      assert Get(ready["1" := Flag(Control(m).value)], "101") == Get(m, "101");
    }
  }

  /** Maps with one packed report, one switch and the same other data points have one normal form,
      whatever their legacy and derived entries are. */
  lemma AppliedDetermined(spell: Spelling, a: DpMap, b: DpMap, data: bytes)
    requires Get(a, "101") == Some(Raw(data)) == Get(b, "101") && |data| >= 5
    requires Control(a) == Control(b) && Control(a).Some?
    requires forall key :: key !in {"1", "18", "24", "101", "122", "126"} ==> Get(a, key) == Get(b, key)
    ensures Applied(spell, a) == Applied(spell, b)
  {
    hide Applied, Parse, Encode, Settled, Meaning, Control;
    AppliedReport(spell, a, data);
    AppliedReport(spell, b, data);
    AppliedIsNormal(spell, a);
    AppliedIsNormal(spell, b);
    forall key ensures Get(Applied(spell, a), key) == Get(Applied(spell, b), key) {
      if key !in {"1", "18", "24", "101", "122", "126"} {
        OthersUntouched(spell, a, key);
        OthersUntouched(spell, b, key);
      }
    }
    SameEntries(Applied(spell, a), Applied(spell, b));
  }

  lemma DefaultIndices()
    ensures "near_empty" in BINS && FirstIndex(BINS, "near_empty") == 1
    ensures "power_on" in MACHINES && FirstIndex(MACHINES, "power_on") == 0
    ensures "no_cat" in CATS && FirstIndex(CATS, "no_cat") == 0
  {
    assert BINS[1] == "near_empty" && MACHINES[0] == "power_on" && CATS[0] == "no_cat";
    assert BINS[1..][0] == "near_empty";
  }

  lemma SettlesOnlyRunning(control: Option<bool>, r: Report)
    ensures Settled(control, r) == r.(running := Settled(control, r).running)
  {
  }

  lemma SameIndicesSameBytes(r: Report, s: Report)
    requires IndexOr(BINS, r.bin, 1) == IndexOr(BINS, s.bin, 1)
    requires IndexOr(MACHINES, r.machine, 0) == IndexOr(MACHINES, s.machine, 0)
    requires IndexOr(CATS, r.cat, 0) == IndexOr(CATS, s.cat, 0)
    requires r.running == s.running && r.countdown == s.countdown
    ensures Encode(r) == Encode(s)
  {
    hide IndexOr;
  }

  lemma EncodeIgnoresCanonical(c: Change, r: Report, control: Option<bool>)
    requires c.running.Some? && c.countdown.Some?
    ensures Encode(Changed(c, Settled(control, Canonical(Changed(c, r))))) == Encode(Changed(c, r))
  {
    hide IndexOr, Known, Encode, FirstIndex, Settled, Clamp;
    var report := Changed(c, r);
    DefaultIndices();
    IndexKnown(BINS, report.bin, "near_empty", 1);
    IndexKnown(MACHINES, report.machine, "power_on", 0);
    IndexKnown(CATS, report.cat, "no_cat", 0);
    SettlesOnlyRunning(control, Canonical(report));
    SameIndicesSameBytes(Changed(c, Settled(control, Canonical(report))), report);
  }

  lemma IndexKnown(values: seq<string>, v: string, default: string, i: byte)
    requires |values| < 256 && default in values && FirstIndex(values, default) == i as int
    ensures IndexOr(values, Known(values, v, default), i) == IndexOr(values, v, i)
  {
  }

  lemma SubstitutedOthers(
    spell: Spelling, incoming: DpMap, snapshot: DpMap, action: Action, expected: string)
    ensures var a := Substituted(spell, incoming, snapshot, action, expected);
            var b := Substituted(spell, Applied(spell, a), snapshot, action, expected);
            forall key :: key !in {"1", "18", "24", "101", "122", "126"} ==> Get(a, key) == Get(b, key)
  {
    hide Applied, Encode, Parse, Expecting, Changed;
    var a := Substituted(spell, incoming, snapshot, action, expected);
    var b := Substituted(spell, Applied(spell, a), snapshot, action, expected);
    forall key | key !in {"1", "18", "24", "101", "122", "126"}
      ensures Get(a, key) == Get(b, key)
    {
      OthersUntouched(spell, a, key);
    }
  }

  /** Merging again, as the next identical report does, changes nothing. */
  lemma MergedTwice(
    spell: Spelling, incoming: DpMap, snapshot: DpMap, action: Action, expected: string)
    ensures var m := Merged(spell, incoming, snapshot, action, expected);
            Merged(spell, m, snapshot, action, expected) == m
  {
    var m := Merged(spell, incoming, snapshot, action, expected);
    if !Passes(spell, incoming, action, expected) && !Passes(spell, m, action, expected) {
      hide Passes, Applied, Encode, Settled, Canonical, Parse, Normal, Control;
      MergedShows(spell, incoming, snapshot, action, expected);
      SubstitutedMeans(spell, incoming, snapshot, action, expected);
      SubstitutedMeans(spell, m, snapshot, action, expected);
      var a := Substituted(spell, incoming, snapshot, action, expected);
      var b := Substituted(spell, m, snapshot, action, expected);
      EncodeIgnoresCanonical(Expecting(spell, snapshot, action, expected),
                             Or(ReportOf(spell, incoming), DEFAULT), Control(m));
      SubstitutedOthers(spell, incoming, snapshot, action, expected);
      AppliedDetermined(spell, a, b,
                        Encode(Substitute(spell, incoming, snapshot, action, expected)));
    }
  }

  // ------------------------------------------------------------------------------------------
  // What a map shows in the end, entry by entry
  // ------------------------------------------------------------------------------------------

  /** The word an entry holds, if it is one of these. */
  function WordAt(m: DpMap, key: string, words: set<string>, default: string): string {
    if key in m && m[key].Text? && m[key].text in words then m[key].text else default
  }

  /** Which switch an entry "1" of every kind stands for. */
  lemma SwitchIs(m: DpMap)
    ensures Control(m) == Some(true) <==>
              "1" in m
              && (m["1"] == Flag(true)
                  || (m["1"].Whole? && m["1"].number != 0)
                  || (m["1"].Fraction? && m["1"].truncated != 0)
                  || (m["1"].Text?
                      && (m["1"].text == "1"
                          || (|m["1"].text| == 4 && m["1"].text[0] in {'t', 'T'}
                              && m["1"].text[1] in {'r', 'R'} && m["1"].text[2] in {'u', 'U'}
                              && m["1"].text[3] in {'e', 'E'}))))
    ensures Control(m) == None <==>
              "1" !in m || m["1"].Raw? || m["1"].Items? || m["1"].Other?
  {
  }

  /** A map without bytes in "101" but with a running status, a machine status or a countdown from
      older firmware shows a report made of these and of bin and cat status, each from its own
      entry. */
  lemma LegacyShown(spell: Spelling, m: DpMap)
    requires Decode(spell, Get(m, "101")).None?
    requires ("24" in m && m["24"].Text?)
          || ("101" in m && m["101"].Text?
              && m["101"].text in {"power_on", "hibernating", "disturb_mode", "power_off"})
          || ("18" in m && m["18"].Whole?)
    ensures var r := ReportOf(spell, Applied(spell, m));
            && r.Some?
            && r.value.bin == WordAt(m, "122", {"unfound", "near_empty", "half_empty", "almost_full",
                                                "bin_full", "bin_opned"}, "near_empty")
            && r.value.machine == WordAt(m, "101", {"power_on", "hibernating", "disturb_mode",
                                                    "power_off"}, "power_on")
            && r.value.cat == WordAt(m, "126", {"no_cat", "cat_exist", "cat_left",
                                                "cat_done_business"}, "no_cat")
            && r.value.countdown
               == (if "18" in m && m["18"].Whole? then
                     if m["18"].number < 0 then 0
                     else if m["18"].number > 255 then 255 else m["18"].number
                   else 0)
  {
    hide Applied, Normal, Parse, Decode, Control, Settled;
    AppliedIsNormal(spell, m);
    Tables();
    assert HasLegacy(m);
    SettlesOnlyRunning(Control(m), Canonical(LegacyReport(m)));
  }

  /** And its running status follows the switch. */
  lemma LegacyRunningShown(spell: Spelling, m: DpMap)
    requires Decode(spell, Get(m, "101")).None?
    requires ("24" in m && m["24"].Text?)
          || ("101" in m && m["101"].Text?
              && m["101"].text in {"power_on", "hibernating", "disturb_mode", "power_off"})
          || ("18" in m && m["18"].Whole?)
    ensures ReportOf(spell, Applied(spell, m)).Some?
    ensures ReportOf(spell, Applied(spell, m)).value.running ==
              var older := WordAt(m, "24", {"idle", "clean_start", "clean_pause",
                                            "manual_clean_completed", "scheduled_clean_completed",
                                            "auttomatic_clean_completed"}, "idle");
              if older == "clean_pause" && Control(m) == Some(true) then "clean_start"
              else if older == "clean_start" && Control(m) == Some(false) then "clean_pause"
              else older
  {
    hide Applied, Normal, Parse, Decode, Control;
    AppliedIsNormal(spell, m);
    Tables();
    assert HasLegacy(m);
  }

  lemma Tables()
    ensures forall s :: s in BINS <==> s in {"unfound", "near_empty", "half_empty", "almost_full",
                                             "bin_full", "bin_opned"}
    ensures forall s :: s in RUNNINGS <==>
              s in {"idle", "clean_start", "clean_pause", "manual_clean_completed",
                    "scheduled_clean_completed", "auttomatic_clean_completed"}
    ensures forall s :: s in MACHINES <==>
              s in {"power_on", "hibernating", "disturb_mode", "power_off"}
    ensures forall s :: s in CATS <==>
              s in {"no_cat", "cat_exist", "cat_left", "cat_done_business"}
  {
  }

  lemma BinCodes(b: byte)
    ensures ValueAt(BINS, b, "near_empty")
         == if b == 0 then "unfound" else if b == 2 then "half_empty"
            else if b == 3 then "almost_full" else if b == 4 then "bin_full"
            else if b == 5 then "bin_opned" else "near_empty"
  {
  }

  lemma RunningCodes(b: byte)
    ensures ValueAt(RUNNINGS, b, "idle")
         == if b == 1 then "clean_start" else if b == 2 then "clean_pause"
            else if b == 3 then "manual_clean_completed"
            else if b == 4 then "scheduled_clean_completed"
            else if b == 5 then "auttomatic_clean_completed" else "idle"
  {
  }

  lemma MachineCodes(b: byte)
    ensures ValueAt(MACHINES, b, "power_on")
         == if b == 1 then "hibernating" else if b == 2 then "disturb_mode"
            else if b == 3 then "power_off" else "power_on"
  {
  }

  lemma CatCodes(b: byte)
    ensures ValueAt(CATS, b, "no_cat")
         == if b == 1 then "cat_exist" else if b == 2 then "cat_left"
            else if b == 3 then "cat_done_business" else "no_cat"
  {
  }

  lemma PackedReport(spell: Spelling, m: DpMap, raw: bytes)
    requires Get(m, "101") == Some(Raw(raw)) && |raw| >= 5
    ensures ReportOf(spell, Applied(spell, m))
         == Some(Settled(Control(m),
                         Report(ValueAt(BINS, raw[0], "near_empty"), ValueAt(RUNNINGS, raw[1], "idle"),
                                ValueAt(MACHINES, raw[2], "power_on"), ValueAt(CATS, raw[3], "no_cat"),
                                raw[4] as int)))
  {
    hide Applied, Normal, Control, ValueAt, Encode, Settled;
    AppliedIsNormal(spell, m);
  }

  /** A map with at least five bytes in "101" shows what they stand for. */
  lemma PackedShown(spell: Spelling, m: DpMap, raw: bytes)
    requires Get(m, "101") == Some(Raw(raw)) && |raw| >= 5
    ensures var r := ReportOf(spell, Applied(spell, m));
            && r.Some? && r.value.countdown == raw[4] as int
            && r.value.bin == (if raw[0] == 0 then "unfound" else if raw[0] == 2 then "half_empty"
                               else if raw[0] == 3 then "almost_full"
                               else if raw[0] == 4 then "bin_full"
                               else if raw[0] == 5 then "bin_opned" else "near_empty")
            && r.value.machine == (if raw[2] == 1 then "hibernating"
                                   else if raw[2] == 2 then "disturb_mode"
                                   else if raw[2] == 3 then "power_off" else "power_on")
            && r.value.cat == (if raw[3] == 1 then "cat_exist" else if raw[3] == 2 then "cat_left"
                               else if raw[3] == 3 then "cat_done_business" else "no_cat")
  {
    hide ReportOf, Parse, Decode, Control, Applied, ValueAt, BINS, MACHINES, CATS, RUNNINGS;
    BinCodes(raw[0]);
    MachineCodes(raw[2]);
    CatCodes(raw[3]);
    PackedReport(spell, m, raw);
  }

  /** Its running status is that of the second byte, as the switch has it. */
  lemma PackedRunningShown(spell: Spelling, m: DpMap, raw: bytes)
    requires Get(m, "101") == Some(Raw(raw)) && |raw| >= 5
    ensures var r := ReportOf(spell, Applied(spell, m));
            && r.Some?
            && r.value.running ==
                 (if raw[1] == 1 then
                    (if Control(m) == Some(false) then "clean_pause" else "clean_start")
                  else if raw[1] == 2 then
                    (if Control(m) == Some(true) then "clean_start" else "clean_pause")
                  else if raw[1] == 3 then "manual_clean_completed"
                  else if raw[1] == 4 then "scheduled_clean_completed"
                  else if raw[1] == 5 then "auttomatic_clean_completed" else "idle")
  {
    hide ReportOf, Parse, Decode, Control, Applied, ValueAt, BINS, MACHINES, CATS, RUNNINGS;
    RunningCodes(raw[1]);
    PackedReport(spell, m, raw);
  }

  /** When a map shows no report in the end: its "101" holds too few bytes, or neither bytes nor a
      machine status, with no legacy entry beside it. */
  lemma NothingShownIff(spell: Spelling, m: DpMap)
    ensures ReportOf(spell, Applied(spell, m)) == None <==>
              var word := "101" in m && m["101"].Text?
                && m["101"].text in {"power_on", "hibernating", "disturb_mode", "power_off"};
              match Decode(spell, Get(m, "101"))
              case Some(raw) => |raw| < 5 && !word
              case None => !word && !("24" in m && m["24"].Text?) && !("18" in m && m["18"].Whole?)
  {
    hide Applied, Normal, Decode, Canonical;
    AppliedIsNormal(spell, m);
    Tables();
  }

  /** A patched map shows every field that the patch names with its new value, as far as that is
      known, and every other field as it was shown before. */
  lemma PatchedFields(spell: Spelling, m: DpMap, c: Change)
    ensures var before, after := ReportOf(spell, m), ReportOf(spell, Patched(spell, m, c));
            && after.Some?
            && (c.bin.None? ==>
                  after.value.bin == if before.Some? then before.value.bin else "near_empty")
            && (c.running.None? ==>
                  after.value.running == if before.Some? then before.value.running else "idle")
            && (c.machine.None? ==>
                  after.value.machine == if before.Some? then before.value.machine else "power_on")
            && (c.cat.None? ==>
                  after.value.cat == if before.Some? then before.value.cat else "no_cat")
            && (c.countdown.None? ==>
                  after.value.countdown == if before.Some? then before.value.countdown else 0)
            && (c.bin.Some? && c.bin.value in BINS ==> after.value.bin == c.bin.value)
            && (c.running.Some? && c.running.value in RUNNINGS ==>
                  after.value.running == c.running.value)
            && (c.machine.Some? && c.machine.value in MACHINES ==>
                  after.value.machine == c.machine.value)
            && (c.cat.Some? && c.cat.value in CATS ==> after.value.cat == c.cat.value)
            && (c.countdown.Some? && 0 <= c.countdown.value <= 255 ==>
                  after.value.countdown == c.countdown.value)
  {
    PatchedShows(spell, m, c);
    ParsedIsCanonical(spell, Get(m, "101"));
    Tables();
    hide Parse, Encode, Patched;
    hide BINS, RUNNINGS, MACHINES, CATS;
  }

  /** A report that arrives while a command is pending is left as it is in four cases. */
  lemma MergedPasses(
    spell: Spelling, incoming: DpMap, snapshot: DpMap, action: Action, expected: string)
    requires incoming == map[] || action == OtherAction
          || (ReportOf(spell, incoming).Some?
              && (ReportOf(spell, incoming).value.running == expected
                  || (expected == "clean_start"
                      && ReportOf(spell, incoming).value.running == "clean_pause")))
    ensures Merged(spell, incoming, snapshot, action, expected) == incoming
  {
  }

  /** In every other case it shows the snapshot's bin, machine and cat status, or its own without a
      snapshot; no countdown for a continued cleaning and the snapshot's otherwise; and the expected
      status as far as the device knows it and the command allows it. */
  lemma MergedFields(
    spell: Spelling, incoming: DpMap, snapshot: DpMap, action: Action, expected: string)
    requires incoming != map[] && action != OtherAction
    requires ReportOf(spell, incoming).Some? ==>
               && ReportOf(spell, incoming).value.running != expected
               && (expected == "clean_start" ==>
                     ReportOf(spell, incoming).value.running != "clean_pause")
    ensures var m := Merged(spell, incoming, snapshot, action, expected);
            var r, s, own := ReportOf(spell, m), ReportOf(spell, snapshot), ReportOf(spell, incoming);
            && Get(m, "1") == Some(Flag(action != PauseCleaning)) && r.Some?
            && r.value.bin == (if s.Some? then s.value.bin
                               else if own.Some? then own.value.bin else "near_empty")
            && r.value.machine == (if s.Some? then s.value.machine
                                   else if own.Some? then own.value.machine else "power_on")
            && r.value.cat == (if s.Some? then s.value.cat
                               else if own.Some? then own.value.cat else "no_cat")
            && r.value.countdown == (if s.Some? && action != ContinueCleaning then s.value.countdown
                                     else 0)
            && r.value.running ==
                 (if expected == "clean_pause" && action != PauseCleaning then "clean_start"
                  else if expected == "clean_start" && action == PauseCleaning then "clean_pause"
                  else if expected in {"idle", "clean_start", "clean_pause",
                                       "manual_clean_completed", "scheduled_clean_completed",
                                       "auttomatic_clean_completed"} then expected
                  else "idle")
  {
    hide Merged, Parse;
    MergedShows(spell, incoming, snapshot, action, expected);
    ParsedIsCanonical(spell, Get(incoming, "101"));
    ParsedIsCanonical(spell, Get(snapshot, "101"));
    Tables();
  }

  // ------------------------------------------------------------------------------------------
  // Entries that stand for bytes
  // ------------------------------------------------------------------------------------------

  lemma FirstNumber(item: Option<int>, items: seq<Option<int>>)
    ensures Numbers([item] + items) == Numbers([item]) + Numbers(items)
  {
    assert ([item] + items)[1..] == items;
    assert Numbers([item]) == (match item case None => [] case Some(v) => [(v % 256) as byte]) + [];
  }

  lemma {:induction false} NumbersJoin(a: seq<Option<int>>, b: seq<Option<int>>)
    ensures Numbers(a + b) == Numbers(a) + Numbers(b)
    decreases |a|
  {
    if a == [] {
      assert a + b == b;
      assert Numbers(a) == [];
    } else {
      hide Numbers;
      NumbersJoin(a[1..], b);
      FirstNumber(a[0], a[1..]);
      FirstNumber(a[0], a[1..] + b);
      assert a == [a[0]] + a[1..] && a + b == [a[0]] + (a[1..] + b);
    }
  }

  /** Of a list of items the numbers count, in order and by their last byte; an item that is no number
      is passed over wherever it stands. */
  lemma ItemsAreBytes(data: bytes, turns: seq<int>, a: seq<Option<int>>, b: seq<Option<int>>)
    requires |turns| == |data|
    requires a + b == seq(|data|, i requires 0 <= i < |data| => Some(256 * turns[i] + data[i] as int))
    ensures Numbers(a + b) == data && Numbers(a + ([None] + b)) == data
  {
    NumbersOfBytes(data, turns);
    NumbersJoin(a, b);
    NumbersJoin(a, [None] + b);
    NumbersJoin([None], b);
    assert Numbers([None]) == [];
  }

  lemma {:induction false} NumbersOfBytes(data: bytes, turns: seq<int>)
    requires |turns| == |data|
    ensures Numbers(seq(|data|, i requires 0 <= i < |data| => Some(256 * turns[i] + data[i] as int)))
         == data
  {
    if data != [] {
      var items := seq(|data|, i requires 0 <= i < |data| => Some(256 * turns[i] + data[i] as int));
      NumbersOfBytes(data[1..], turns[1..]);
      LastByte(turns[0], data[0]);
      assert items[1..] == seq(|data[1..]|, i requires 0 <= i < |data[1..]| =>
                                 Some(256 * turns[1..][i] + data[1..][i] as int));
      assert data == [data[0]] + data[1..];
    }
  }

  lemma LastByte(q: int, b: byte)
    ensures (256 * q + b as int) % 256 == b as int
  {
  }

  /** What stands for bytes: bytes, text that spells some, and items with at least one number. */
  lemma DecodedIff(spell: Spelling, v: Option<Value>)
    ensures Decode(spell, v).Some? <==>
              && v.Some?
              && (v.value.Raw?
                  || (v.value.Text? && spell(v.value.text).Some?)
                  || (v.value.Items? && exists i :: 0 <= i < |v.value.numbers|
                                                    && v.value.numbers[i].Some?))
  {
    if v.Some? && v.value.Items? {
      SomeNumber(v.value.numbers);
    }
  }

  lemma {:induction false} SomeNumber(items: seq<Option<int>>)
    ensures Numbers(items) != [] <==> exists i :: 0 <= i < |items| && items[i].Some?
  {
    if items != [] {
      SomeNumber(items[1..]);
      if Numbers(items[1..]) != [] {
        var i :| 0 <= i < |items| - 1 && items[1..][i].Some?;
        assert items[i + 1].Some?;
      }
      forall i | 0 < i < |items| && items[i].Some? ensures Numbers(items[1..]) != [] {
        assert items[1..][i - 1].Some?;
      }
    }
  }
}
