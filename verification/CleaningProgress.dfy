/** Progress of a cleaning run, kept from status reports: when it started, what had run before a
    pause, and copies of both for those who only want one of them. */
module CleaningProgress {
  import opened Options

  const START := "clean_start"
  const PAUSE := "clean_pause"
  const DONE: set<string> :=
    {"manual_clean_completed", "scheduled_clean_completed", "auttomatic_clean_completed",
     "device_power_on"}

  /** Metadata of a run; times in milliseconds, durations in seconds. */
  datatype Meta = Meta(
    startedAt: Option<int>, lastPausedAt: Option<int>, elapsed: real, progress: real,
    expected: int, completedAt: Option<int>, lastUpdatedAt: int)

  const EMPTY := Meta(None, None, 0.0, 0.0, 0, None, 0)

  /** A report: the running status and the spread count of the device, and the clock. */
  datatype Report = Report(status: Option<string>, spread: int, now: int)

  /** What is kept for one device: the metadata, the copies of two of its fields, and what is
      persisted. */
  datatype Device = Device(
    meta: Option<Meta>, startCopy: Option<int>, elapsedCopy: Option<real>,
    storedStart: Option<int>, storedMeta: Option<Meta>)

  const UNKNOWN := Device(None, None, None, None, None)

  function Expected(spread: int): (r: int)
    ensures r != 0
  {
    if spread == 7 then 205 else spread * 25 + 80
  }

  function Seconds(from: int, to: int): real {
    (to - from) as real / 1000.0
  }

  lemma RatioSigns(elapsed: real, expected: real)
    requires expected != 0.0
    ensures var value := elapsed / expected * 100.0;
            if expected > 0.0
            then (value >= 100.0 <==> elapsed >= expected) && (value <= 0.0 <==> elapsed <= 0.0)
            else (value >= 100.0 <==> elapsed <= expected) && (value <= 0.0 <==> elapsed >= 0.0)
  {
    var ratio := elapsed / expected;
    assert ratio * expected == elapsed;
    assert (ratio - 1.0) * expected == elapsed - expected;
  }

  /** The progress in per cent, brought between 0 and 100. Over a duration of 0 an elapsed time counts
      as endless, and no elapsed time gives no number. */
  function Percent(elapsed: real, expected: int): (r: Option<real>)
    ensures r == None <==> elapsed == 0.0 && expected == 0
    ensures r.Some? ==> 0.0 <= r.value <= 100.0
    ensures r == Some(100.0) <==>
              if expected > 0 then elapsed >= expected as real
              else if expected < 0 then elapsed <= expected as real else elapsed > 0.0
    ensures r == Some(0.0) <==>
              if expected > 0 then elapsed <= 0.0
              else if expected < 0 then elapsed >= 0.0 else elapsed < 0.0
  {
    if expected == 0 then
      if elapsed > 0.0 then Some(100.0) else if elapsed < 0.0 then Some(0.0) else None
    else
      var value := elapsed / expected as real * 100.0;
      RatioSigns(elapsed, expected as real);
      Some(if value < 0.0 then 0.0 else if value > 100.0 then 100.0 else value)
  }

  predicate IsEmpty(m: Meta) {
    m.startedAt.None? && m.lastPausedAt.None? && m.elapsed <= 0.0 && m.progress <= 0.0
    && m.expected == 0 && m.completedAt.None?
  }

  predicate Recent(m: Meta, now: int) {
    0 < m.lastUpdatedAt && now - m.lastUpdatedAt < 3000
  }

  // ------------------------------------------------------------------------------------------
  // One report, as a function of what is kept
  // ------------------------------------------------------------------------------------------

  function Started(m: Meta, expected: int, now: int): Meta
    requires expected != 0
  {
    if m.completedAt.Some? then
      EMPTY.(startedAt := Some(now), expected := expected, lastUpdatedAt := now)
    else if Recent(m, now) then m.(expected := expected)
    else
      var started := Or(m.startedAt, now);
      var ran := Seconds(started, now) + if m.elapsed > 0.0 then m.elapsed else 0.0;
      m.(startedAt := Some(started), lastPausedAt := None, progress := Percent(ran, expected).value,
         expected := expected, completedAt := None, lastUpdatedAt := now)
  }

  function Paused(m: Meta, expected: int, now: int): Meta
    requires expected != 0
  {
    var ran := Seconds(Or(m.startedAt, now), now) + m.elapsed;
    m.(startedAt := None, lastPausedAt := Some(now), elapsed := ran,
       progress := Percent(ran, expected).value, expected := expected, completedAt := None,
       lastUpdatedAt := now)
  }

  function NewMeta(m: Meta, e: Report): Meta {
    var expected := Expected(e.spread);
    if e.status == Some(START) then Started(m, expected, e.now)
    else if e.status == Some(PAUSE) then Paused(m, expected, e.now)
    else if m.expected != expected then m.(expected := expected, lastUpdatedAt := e.now)
    else m
  }

  function Updated(d: Device, m: Meta, persist: bool): Device {
    if IsEmpty(m) then
      Device(None, None, None, d.storedStart, if persist then None else d.storedMeta)
    else
      Device(Some(m), m.startedAt, if m.elapsed > 0.0 then Some(m.elapsed) else None,
             d.storedStart, if persist then Some(m) else d.storedMeta)
  }

  predicate IsDone(e: Report) {
    e.status.Some? && e.status.value in DONE
  }

  /** The start time is persisted when a completed run is replaced and when a run gets one while no
      copy of a start time is around. */
  function StoredStart(d: Device, e: Report): Option<int> {
    var m := Or(d.meta, EMPTY);
    if e.status != Some(START) then d.storedStart
    else if m.completedAt.Some? then Some(e.now)
    else if !Recent(m, e.now) && d.startCopy.None? then Some(Or(m.startedAt, e.now))
    else d.storedStart
  }

  function Next(d: Device, e: Report): Device {
    if IsDone(e) then d.(meta := None, storedStart := None, storedMeta := None)
    else
      var m := Or(d.meta, EMPTY);
      var d1 := d.(storedStart := StoredStart(d, e));
      if NewMeta(m, e) == m then d1 else Updated(d1, NewMeta(m, e), true)
  }

  function Outcome(h: seq<Report>): Device {
    if h == [] then UNKNOWN else Next(Outcome(h[..|h| - 1]), h[|h| - 1])
  }

  // ------------------------------------------------------------------------------------------
  // The repository as the program keeps it
  // ------------------------------------------------------------------------------------------

  function Kept<T>(m: map<string, T>, dev: string): Option<T> {
    if dev in m then Some(m[dev]) else None
  }

  class DeviceRepository {
    var progress: map<string, Meta>
    var startTimes: map<string, int>
    var elapsedSeconds: map<string, real>
    var storedStarts: map<string, int>
    var storedMetas: map<string, Meta>

    constructor ()
      ensures forall dev :: View(dev) == UNKNOWN
    {
      progress, startTimes, elapsedSeconds := map[], map[], map[];
      storedStarts, storedMetas := map[], map[];
    }

    function View(dev: string): Device
      reads this
    {
      Device(Kept(progress, dev), Kept(startTimes, dev), Kept(elapsedSeconds, dev),
             Kept(storedStarts, dev), Kept(storedMetas, dev))
    }

    method UpdateCleaningProgress(dev: string, m: Meta, persist: bool)
      modifies this
      ensures View(dev) == Updated(old(View(dev)), m, persist)
      ensures forall other :: other != dev ==> View(other) == old(View(other))
    {
      if IsEmpty(m) {
        progress := progress - {dev};
        startTimes := startTimes - {dev};
        elapsedSeconds := elapsedSeconds - {dev};
      } else {
        progress := progress[dev := m];
        if m.startedAt.Some? {
          startTimes := startTimes[dev := m.startedAt.value];
        } else {
          startTimes := startTimes - {dev};
        }
        if m.elapsed > 0.0 {
          elapsedSeconds := elapsedSeconds[dev := m.elapsed];
        } else {
          elapsedSeconds := elapsedSeconds - {dev};
        }
      }
      if !persist {
        return;
      }
      if IsEmpty(m) {
        storedMetas := storedMetas - {dev};
      } else {
        storedMetas := storedMetas[dev := m];
      }
    }

    method RemoveCleaningProgress(dev: string)
      modifies this
      ensures View(dev) == old(View(dev)).(meta := None, storedMeta := None)
      ensures forall other :: other != dev ==> View(other) == old(View(other))
    {
      progress := progress - {dev};
      storedMetas := storedMetas - {dev};
    }

    /** Keeps the device in step with the history of its reports, and no other device moves. */
    method SyncCleaningProgress(dev: string, e: Report, ghost history: seq<Report>)
      requires View(dev) == Outcome(history)
      modifies this
      ensures View(dev) == Outcome(history + [e])
      ensures forall other :: other != dev ==> View(other) == old(View(other))
    {
      assert (history + [e])[..|history|] == history;
      var expected := Expected(e.spread);
      var m := if dev in progress then progress[dev] else EMPTY;
      var m' := m;
      if e.status == Some(START) {
        if m.completedAt.Some? {
          m' := EMPTY.(startedAt := Some(e.now), expected := expected, lastUpdatedAt := e.now);
          storedStarts := storedStarts[dev := e.now];
        } else if Recent(m, e.now) {
          if m.expected != expected {
            m' := m.(expected := expected);
          }
        } else {
          var started := Or(m.startedAt, e.now);
          var ran := Seconds(started, e.now);
          if m.elapsed > 0.0 {
            ran := ran + m.elapsed;
          }
          m' := m.(startedAt := Some(started), lastPausedAt := None,
                   progress := Percent(ran, expected).value, expected := expected, completedAt := None,
                   lastUpdatedAt := e.now);
          if dev !in startTimes {
            storedStarts := storedStarts[dev := started];
          }
        }
      } else if e.status == Some(PAUSE) {
        m' := Paused(m, expected, e.now);
      } else if IsDone(e) {
        storedStarts := storedStarts - {dev};
        RemoveCleaningProgress(dev);
        return;
      } else if m.expected != expected {
        m' := m.(expected := expected, lastUpdatedAt := e.now);
      }
      if m' != m {
        UpdateCleaningProgress(dev, m', true);
      }
    }
  }

  // ------------------------------------------------------------------------------------------
  // The account of a history of reports
  // ------------------------------------------------------------------------------------------

  ghost predicate Ordered(h: seq<Report>) {
    forall i, j :: 0 <= i <= j < |h| ==> h[i].now <= h[j].now
  }

  /** A stretch of cleaning between a start report and a pause report. */
  datatype Run = Run(from: int, to: int)

  /** When tracking began and the finished stretches since. */
  datatype Account = Account(began: int, runs: seq<Run>)

  function AccountOf(h: seq<Report>): Option<Account>
  {
    if h == [] then None
    else
      var n := |h| - 1;
      var e, started := h[n], Or(Outcome(h[..n]).meta, EMPTY).startedAt;
      if IsDone(e) then None
      else
        var a := Or(AccountOf(h[..n]), Account(e.now, []));
        if e.status == Some(PAUSE) && started.Some?
        then Some(Account(a.began, a.runs + [Run(started.value, e.now)]))
        else Some(a)
  }

  function Total(runs: seq<Run>): real {
    if runs == [] then 0.0
    else Total(runs[..|runs| - 1]) + Seconds(runs[|runs| - 1].from, runs[|runs| - 1].to)
  }

  ghost predicate InOrder(from: int, runs: seq<Run>, to: int)
    decreases |runs|
  {
    if runs == [] then from <= to
    else
      var last := runs[|runs| - 1];
      InOrder(from, runs[..|runs| - 1], last.from) && last.from <= last.to <= to
  }

  /** What holds of a tracked device at a time. */
  ghost predicate Sound(m: Meta, a: Account, now: int) {
    && (m.startedAt.None? || m.lastPausedAt.None?)
    && m.completedAt.None?
    && m.expected != 0
    && 0.0 <= m.progress <= 100.0
    && m.elapsed == Total(a.runs)
    && InOrder(a.began, a.runs, Or(m.startedAt, now))
    && Or(m.startedAt, now) <= now
  }

  ghost predicate Copied(d: Device) {
    d.meta.Some? ==>
      && d.startCopy == d.meta.value.startedAt
      && d.elapsedCopy == (if d.meta.value.elapsed > 0.0 then Some(d.meta.value.elapsed) else None)
      && d.storedMeta == d.meta
  }

  lemma {:induction false} InOrderLater(from: int, runs: seq<Run>, to: int, to': int)
    requires InOrder(from, runs, to) && to <= to'
    ensures InOrder(from, runs, to')
  {
  }

  lemma {:induction false} TotalFits(from: int, runs: seq<Run>, to: int)
    requires InOrder(from, runs, to)
    ensures 0.0 <= Total(runs) <= Seconds(from, to)
    decreases |runs|
  {
    if runs != [] {
      var last := runs[|runs| - 1];
      TotalFits(from, runs[..|runs| - 1], last.from);
    }
  }

  /** One report keeps what holds of a tracked device, or of one that is tracked from now on. */
  lemma SoundStep(m: Meta, a: Account, before: int, e: Report)
    requires before <= e.now && (Sound(m, a, before) || (m == EMPTY && a == Account(e.now, [])))
    ensures var m' := NewMeta(m, e);
            var runs := if e.status == Some(PAUSE) && m.startedAt.Some?
                        then a.runs + [Run(m.startedAt.value, e.now)] else a.runs;
            !IsEmpty(m') && Sound(m', Account(a.began, runs), e.now)
  {
    hide Percent, Total, InOrder;
    NoRuns(e.now);
    if m.startedAt.Some? {
      OneMoreRun(a.began, a.runs, m.startedAt.value, e.now);
    } else if m != EMPTY {
      InOrderLater(a.began, a.runs, before, e.now);
    }
  }

  lemma NoRuns(now: int)
    ensures Total([]) == 0.0 && InOrder(now, [], now)
  {
  }

  lemma OneMoreRun(began: int, runs: seq<Run>, from: int, to: int)
    requires from <= to
    ensures Total(runs + [Run(from, to)]) == Total(runs) + Seconds(from, to)
    ensures InOrder(began, runs, from) ==> InOrder(began, runs + [Run(from, to)], to)
  {
    assert (runs + [Run(from, to)])[..|runs|] == runs;
  }

  lemma CopiedStep(d: Device, e: Report)
    requires Copied(d) && (IsDone(e) || !IsEmpty(NewMeta(Or(d.meta, EMPTY), e)))
    requires d.meta.None? && !IsDone(e) ==> NewMeta(EMPTY, e) != EMPTY
    ensures Copied(Next(d, e)) && Next(d, e).meta.Some? == !IsDone(e)
    ensures !IsDone(e) ==> Next(d, e).meta == Some(NewMeta(Or(d.meta, EMPTY), e))
  {
    hide NewMeta;
  }

  /** Over every history under a clock that does not run backwards: the metadata are those of the
      account, the account is in order, and the copies agree with the metadata. */
  lemma {:induction false} OutcomeIsSound(h: seq<Report>)
    requires Ordered(h)
    ensures Outcome(h).meta.Some? == AccountOf(h).Some?
    ensures Copied(Outcome(h))
    ensures h != [] && Outcome(h).meta.Some? ==>
              Sound(Outcome(h).meta.value, AccountOf(h).value, h[|h| - 1].now)
  {
    hide NewMeta, Sound, Next, Copied, IsDone, IsEmpty;
    if h == [] {
      NothingCopied();
    } else {
      var n := |h| - 1;
      var d, e := Outcome(h[..n]), h[n];
      OutcomeIsSound(h[..n]);
      var before := if n == 0 then e.now else h[n - 1].now;
      SoundStep(Or(d.meta, EMPTY), Or(AccountOf(h[..n]), Account(e.now, [])), before, e);
      NotEmpty(EMPTY, e);
      CopiedStep(d, e);
    }
  }

  lemma NothingCopied()
    ensures Copied(UNKNOWN)
  {
  }

  lemma NotEmpty(m: Meta, e: Report)
    requires m == EMPTY
    ensures NewMeta(m, e) != EMPTY
  {
  }

  // ------------------------------------------------------------------------------------------
  // What the account says
  // ------------------------------------------------------------------------------------------

  /** Cleaning time so far: what ran before the last pause and the run that is going on. */
  function Counted(m: Meta, now: int): real {
    m.elapsed + Seconds(Or(m.startedAt, now), now)
  }

  lemma SoundCounted(m: Meta, a: Account, before: int, now: int)
    requires Sound(m, a, before) && before <= now
    ensures 0.0 <= Counted(m, now) <= Seconds(a.began, now)
  {
    TotalFits(a.began, a.runs, Or(m.startedAt, before));
  }

  /** No more cleaning time is counted than has passed since tracking began. */
  lemma CountedWithinWallTime(h: seq<Report>, now: int)
    requires Ordered(h) && h != [] && h[|h| - 1].now <= now && Outcome(h).meta.Some?
    ensures AccountOf(h).Some?
    ensures 0.0 <= Counted(Outcome(h).meta.value, now) <= Seconds(AccountOf(h).value.began, now)
  {
    hide Outcome, AccountOf, Sound, Counted, Ordered;
    OutcomeIsSound(h);
    SoundCounted(Outcome(h).meta.value, AccountOf(h).value, h[|h| - 1].now, now);
  }

  lemma NewMetaKeepsCounted(m: Meta, a: Account, before: int, e: Report)
    requires Sound(m, a, before) && before <= e.now
    ensures Counted(NewMeta(m, e), e.now) == Counted(m, e.now)
    ensures m.elapsed <= NewMeta(m, e).elapsed
  {
    hide Total, InOrder, Percent;
  }

  /** As long as the device is tracked, a report never takes counted time away, and a report alone
      never adds any: only time does. */
  lemma ReportKeepsCounted(h: seq<Report>, e: Report)
    requires Ordered(h + [e]) && Outcome(h).meta.Some? && !IsDone(e)
    ensures Outcome(h + [e]).meta.Some?
    ensures var m, m' := Outcome(h).meta.value, Outcome(h + [e]).meta.value;
            Counted(m', e.now) == Counted(m, e.now) && m.elapsed <= m'.elapsed
  {
    assert (h + [e])[..|h|] == h;
    OrderedFront(h, e);
    OutcomeIsSound(h);
    var m, a, before := Outcome(h).meta.value, AccountOf(h).value, h[|h| - 1].now;
    hide NewMeta, Sound, Copied, Counted, Next, IsEmpty;
    SoundStep(m, a, before, e);
    CopiedStep(Outcome(h), e);
    NewMetaKeepsCounted(m, a, before, e);
  }

  lemma OrderedFront(h: seq<Report>, e: Report)
    requires Ordered(h + [e])
    ensures Ordered(h) && (h != [] ==> h[|h| - 1].now <= e.now)
  {
    var more := h + [e];
    forall i, j | 0 <= i <= j < |h| ensures h[i].now <= h[j].now {
      assert more[i] == h[i] && more[j] == h[j];
    }
    assert h != [] ==> more[|h| - 1].now <= more[|h|].now;
  }

  ghost predicate Reported(h: seq<Report>, t: int, status: string) {
    exists i :: 0 <= i < |h| && h[i].now == t && h[i].status == Some(status)
  }

  ghost predicate RunsReported(h: seq<Report>, runs: seq<Run>) {
    forall i :: 0 <= i < |runs| ==>
      Reported(h, runs[i].from, START) && Reported(h, runs[i].to, PAUSE)
  }

  lemma ReportedLater(h: seq<Report>, e: Report, t: int, status: string)
    requires Reported(h, t, status)
    ensures Reported(h + [e], t, status)
  {
    var i :| 0 <= i < |h| && h[i].now == t && h[i].status == Some(status);
    assert (h + [e])[i] == h[i];
  }

  lemma ReportedNow(h: seq<Report>, e: Report)
    requires e.status.Some?
    ensures Reported(h + [e], e.now, e.status.value)
  {
    assert (h + [e])[|h|] == e;
  }

  lemma RunsReportedLater(h: seq<Report>, e: Report, runs: seq<Run>)
    requires RunsReported(h, runs)
    ensures RunsReported(h + [e], runs)
  {
    hide Reported;
    forall i | 0 <= i < |runs|
      ensures Reported(h + [e], runs[i].from, START) && Reported(h + [e], runs[i].to, PAUSE)
    {
      ReportedLater(h, e, runs[i].from, START);
      ReportedLater(h, e, runs[i].to, PAUSE);
    }
  }

  /** A start time is an old one or that of a start report. */
  lemma StartedAfter(d: Device, e: Report)
    requires Next(d, e).meta.Some? && Next(d, e).meta.value.startedAt.Some?
    ensures var t := Next(d, e).meta.value.startedAt;
            t == Or(d.meta, EMPTY).startedAt || (t == Some(e.now) && e.status == Some(START))
  {
  }

  /** Every counted stretch goes from a start report to a pause report. */
  lemma {:induction false} StretchesAreReported(h: seq<Report>)
    ensures AccountOf(h).Some? ==> RunsReported(h, AccountOf(h).value.runs)
    ensures Outcome(h).meta.Some? && Outcome(h).meta.value.startedAt.Some? ==>
              Reported(h, Outcome(h).meta.value.startedAt.value, START)
  {
    if h != [] {
      var n := |h| - 1;
      var before, e := h[..n], h[n];
      var d := Outcome(before);
      StretchesAreReported(before);
      assert before + [e] == h;
      hide Next, Reported;
      var started := Or(d.meta, EMPTY).startedAt;
      if started.Some? {
        ReportedLater(before, e, started.value, START);
      }
      if e.status.Some? {
        ReportedNow(before, e);
      }
      if AccountOf(before).Some? {
        RunsReportedLater(before, e, AccountOf(before).value.runs);
      }
      if Next(d, e).meta.Some? && Next(d, e).meta.value.startedAt.Some? {
        StartedAfter(d, e);
      }
    }
  }

  /** When a run ends and the next report starts another, the new start time is persisted exactly
      if the ended run was not going on: the copy of an old start time is left behind. */
  lemma NextStartPersistedIff(h: seq<Report>, done: Report, start: Report)
    requires Ordered(h + [done, start]) && Outcome(h).meta.Some?
    requires IsDone(done) && start.status == Some(START)
    ensures var d := Outcome(h + [done, start]);
            && d.meta.Some? && d.meta.value.startedAt == Some(start.now)
            && (d.storedStart == Some(start.now) <==> Outcome(h).meta.value.startedAt.None?)
  {
    var h1 := h + [done];
    assert h1[..|h|] == h;
    assert (h + [done, start])[..|h| + 1] == h1;
    assert (h + [done, start])[|h| + 1] == start;
    forall i, j | 0 <= i <= j < |h| ensures h[i].now <= h[j].now {
      assert (h + [done, start])[i] == h[i] && (h + [done, start])[j] == h[j];
    }
    OutcomeIsSound(h);
  }

  // ------------------------------------------------------------------------------------------
  // What each kind of report does, field by field
  // ------------------------------------------------------------------------------------------

  /** The expected duration is that of the last spread count reported. */
  lemma LastSpreadDecides(h: seq<Report>)
    requires h != [] && Outcome(h).meta.Some?
    ensures var spread := h[|h| - 1].spread;
            Outcome(h).meta.value.expected == if spread == 7 then 205 else 80 + 25 * spread
  {
    hide IsEmpty, NewMeta, IsDone;
    var d, e := Outcome(h[..|h| - 1]), h[|h| - 1];
    if !IsDone(e) {
      NeverEmpty(Or(d.meta, EMPTY), e);
      NotEmpty(EMPTY, e);
    }
  }

  lemma NeverEmpty(m: Meta, e: Report)
    ensures !IsDone(e) ==> !IsEmpty(NewMeta(m, e))
    ensures !IsDone(e) ==> NewMeta(m, e).expected == if e.spread == 7 then 205 else 80 + 25 * e.spread
  {
  }

  predicate Ends(status: Option<string>) {
    status in {Some("manual_clean_completed"), Some("scheduled_clean_completed"),
               Some("auttomatic_clean_completed"), Some("device_power_on")}
  }

  /** A report that a cleaning is over, or that the device came on, ends the tracking; the copies of
      the metadata stay. */
  lemma DoneReport(d: Device, e: Report)
    requires Ends(e.status)
    ensures Next(d, e) == Device(None, d.startCopy, d.elapsedCopy, None, None)
  {
  }

  /** A start report is passed over within three seconds of the last update. Otherwise the run goes on
      from its start time, or from now on, and nothing of what ran before is lost. */
  lemma StartReport(d: Device, e: Report, m: Meta)
    requires e.status == Some("clean_start") && m == (if d.meta.Some? then d.meta.value else EMPTY)
    requires m.completedAt.None?
    ensures var after := Next(d, e).meta;
            var recent := m.lastUpdatedAt > 0 && e.now < m.lastUpdatedAt + 3000;
            && after.Some?
            && after.value.completedAt == None && after.value.elapsed == m.elapsed
            && (recent ==> after.value == m.(expected := after.value.expected))
            && (!recent ==>
                  && after.value.startedAt
                     == Some(if m.startedAt.Some? then m.startedAt.value else e.now)
                  && after.value.lastPausedAt == None && after.value.lastUpdatedAt == e.now)
            && Next(d, e).storedStart
               == (if !recent && d.startCopy == None
                   then Some(if m.startedAt.Some? then m.startedAt.value else e.now)
                   else d.storedStart)
  {
    hide Percent;
  }

  /** Its progress is that of the time that has run, on both sides of the last pause. */
  lemma StartProgress(d: Device, e: Report, m: Meta)
    requires e.status == Some("clean_start") && d.meta == Some(m) && m.completedAt.None?
    requires m.expected != 0 && m.elapsed >= 0.0
    requires m.lastUpdatedAt <= 0 || e.now >= m.lastUpdatedAt + 3000
    ensures var after := Next(d, e).meta;
            var ran := if m.startedAt.Some? then (e.now - m.startedAt.value) as real / 1000.0 else 0.0;
            && after.Some? && after.value.expected != 0
            && Percent(m.elapsed + ran, after.value.expected) == Some(after.value.progress)
  {
    hide Percent;
  }

  /** A start report after a completed run begins a new one. */
  lemma RestartReport(d: Device, e: Report, m: Meta)
    requires e.status == Some("clean_start") && d.meta == Some(m) && m.completedAt.Some?
    ensures var after := Next(d, e);
            && after.meta.Some? && after.meta.value.expected != 0
            && after.meta.value == Meta(Some(e.now), None, 0.0, 0.0, after.meta.value.expected, None,
                                        e.now)
            && after.storedStart == Some(e.now)
  {
  }

  /** A pause report adds what has run since the start. */
  lemma PauseReport(d: Device, e: Report, m: Meta)
    requires e.status == Some("clean_pause") && m == (if d.meta.Some? then d.meta.value else EMPTY)
    ensures var after := Next(d, e).meta;
            var ran := if m.startedAt.Some? then (e.now - m.startedAt.value) as real / 1000.0 else 0.0;
            && Next(d, e).storedStart == d.storedStart && after.Some?
            && after.value.startedAt == None && after.value.lastPausedAt == Some(e.now)
            && after.value.elapsed == m.elapsed + ran
            && after.value.expected != 0
            && Percent(m.elapsed + ran, after.value.expected) == Some(after.value.progress)
            && after.value.completedAt == None && after.value.lastUpdatedAt == e.now
  {
    hide Percent;
  }

  /** Any other report changes the expected duration alone, and counts as an update only then. */
  lemma OtherReport(d: Device, e: Report, m: Meta)
    requires e.status != Some("clean_start") && e.status != Some("clean_pause") && !Ends(e.status)
    requires m == (if d.meta.Some? then d.meta.value else EMPTY)
    ensures var expected := if e.spread == 7 then 205 else 80 + 25 * e.spread;
            && Next(d, e).storedStart == d.storedStart
            && (m.expected == expected ==> Next(d, e) == d)
            && (m.expected != expected ==>
                  Next(d, e).meta == Some(m.(expected := expected, lastUpdatedAt := e.now)))
  {
  }

  /** Metadata are kept exactly if any of their fields says something; then the copies and what is
      persisted are theirs, and nothing is kept otherwise. */
  lemma UpdatedKeepsIff(d: Device, m: Meta, persist: bool)
    ensures var kept := m.startedAt.Some? || m.lastPausedAt.Some? || m.elapsed > 0.0
                        || m.progress > 0.0 || m.expected != 0 || m.completedAt.Some?;
            var after := Updated(d, m, persist);
            && after.meta == (if kept then Some(m) else None)
            && after.startCopy == (if kept then m.startedAt else None)
            && after.elapsedCopy == (if kept && m.elapsed > 0.0 then Some(m.elapsed) else None)
            && after.storedMeta == (if !persist then d.storedMeta else if kept then Some(m) else None)
            && after.storedStart == d.storedStart
  {
  }

  /** Between its ends the progress grows evenly with the time. */
  lemma ProgressIsEven(elapsed: real, expected: int)
    requires 0.0 <= elapsed <= expected as real && expected != 0
    ensures Percent(elapsed, expected).Some?
    ensures Percent(elapsed, expected).value * expected as real == 100.0 * elapsed
  {
    var ratio := elapsed / expected as real;
    assert ratio * expected as real == elapsed;
    RatioSigns(elapsed, expected as real);
  }
}
