/** Which occurrences share an event, and what an event's stored times and window counts are worth. */
module Grouping {
  import opened Clock
  import opened EventIndex
  import opened Options
  import opened Pipeline
  import opened Safety
  import opened Strings
  import opened TimeTexts
  import Erasure
  import F = Fingerprint
  import IsoDates

  // ---- Grouping ----

  /** What the machine promises of each recording: the rules raise its line under its service, with its severity; its
      summary is the line trimmed; its key is the one of both; and its texts are ones the clock gives. */
  predicate WellRecorded(w: World, e: Entry) {
    && w.verdict(e.service, e.line).Raised? && e.severity == w.verdict(e.service, e.line).severity
    && e.summary == TrimSpace(e.line) && e.key == w.key(e.service, e.line)
    && w.stamps(Stamp(e.at, e.dayStart, e.hourStart))
  }

  predicate AllWellRecorded(w: World, history: seq<Entry>) {
    forall i :: 0 <= i < |history| ==> WellRecorded(w, history[i])
  }

  lemma RecordedAppend(w: World, history: seq<Entry>, e: Entry)
    requires AllWellRecorded(w, history) && WellRecorded(w, e)
    ensures AllWellRecorded(w, history + [e])
  {
  }

  lemma StepKeepsRecords(w: World, s: State, step: Step)
    requires AllWellRecorded(w, s.history)
    ensures AllWellRecorded(w, Next(w, s, step).history)
  {
    if step.StoreEvent? && Enabled(w, s, step) {
      hide Store, AllWellRecorded;
      RecordedAppend(w, s.history, EntryFor(w, s.work, step.at, step.dayStart, step.hourStart));
    } else {
      SameHistory(w, s, step);
    }
  }

  lemma SameHistory(w: World, s: State, step: Step)
    requires !(step.StoreEvent? && Enabled(w, s, step))
    ensures Next(w, s, step).history == s.history
  {
  }

  lemma {:induction false} RunKeepsRecords(w: World, steps: seq<Step>)
    ensures AllWellRecorded(w, Run(w, INIT, steps).history)
  {
    if steps != [] {
      RunKeepsRecords(w, steps[..|steps| - 1]);
      StepKeepsRecords(w, Run(w, INIT, steps[..|steps| - 1]), steps[|steps| - 1]);
    }
  }

  ghost predicate Injective(hash: string -> string) {
    forall a, b :: hash(a) == hash(b) ==> a == b
  }

  /** The rules' world, with the events keyed by fingerprint. */
  ghost predicate ByFingerprint(w: World, hash: string -> string) {
    forall service, line :: w.key(service, line) == F.Fingerprint(hash, service, line)
  }

  lemma MarkInLonger(a: string, b: string, x: string, y: string, mark: char)
    requires a + [mark] + x == b + [mark] + y
    ensures |a| < |b| ==> mark in b
  {
    if |a| < |b| {
      assert (a + [mark] + x)[|a|] == mark && (b + [mark] + y)[|a|] == b[|a|];
    }
  }

  /** A separator that occurs in neither left part splits a joined text in one way only. */
  lemma SplitAtMark(a: string, b: string, x: string, y: string, mark: char)
    requires mark !in a && mark !in b && a + [mark] + x == b + [mark] + y
    ensures a == b && x == y
  {
    MarkInLonger(a, b, x, y, mark);
    MarkInLonger(b, a, y, x, mark);
    assert (a + [mark] + x)[..|a|] == a && (b + [mark] + y)[..|a|] == b;
    assert (a + [mark] + x)[|a| + 1..] == x && (b + [mark] + y)[|a| + 1..] == y;
  }

  lemma SameFingerprint(hash: string -> string, s: string, l: string, t: string, m: string)
    requires Injective(hash) && '\0' !in TrimSpace(s) && '\0' !in TrimSpace(t)
    ensures F.Fingerprint(hash, s, l) == F.Fingerprint(hash, t, m) <==>
      TrimSpace(s) == TrimSpace(t) && F.Normalize(l) == F.Normalize(m)
  {
    if F.Fingerprint(hash, s, l) == F.Fingerprint(hash, t, m) {
      assert F.Key(s, l) == F.Key(t, m);
      SplitAtMark(TrimSpace(s), TrimSpace(t), F.Normalize(l), F.Normalize(m), '\0');
    }
  }

  /** In every run, two recorded occurrences belong to one event exactly when their trimmed services
      and their normalised lines are the same. */
  lemma EveryRunGroups(w: World, hash: string -> string, steps: seq<Step>, i: nat, j: nat)
    requires Injective(hash) && ByFingerprint(w, hash)
    requires var h := Run(w, INIT, steps).history;
      i < |h| && j < |h| && '\0' !in TrimSpace(h[i].service) && '\0' !in TrimSpace(h[j].service)
    ensures var s := Run(w, INIT, steps);
      && |s.db.index.rows| == |s.history|
      && (s.db.index.rows[i].event == s.db.index.rows[j].event <==>
            && TrimSpace(s.history[i].service) == TrimSpace(s.history[j].service)
            && F.Normalize(s.db.index.rows[i].line) == F.Normalize(s.db.index.rows[j].line))
  {
    var s := Run(w, INIT, steps);
    var a, b := s.history[i], s.history[j];
    EveryRunKeepsIndex(w, steps);
    RunKeepsRecords(w, steps);
    assert WellRecorded(w, a) && WellRecorded(w, b);
    SameEventIffSameKey(s.db.index, s.history, i, j);
    SameFingerprint(hash, a.service, a.line, b.service, b.line);
    LinesAgree(s.db.index, s.history, i);
    LinesAgree(s.db.index, s.history, j);
  }

  /** So whatever stands around it, a syslog timestamp does not keep two occurrences of a service apart, nor does a date
      with a space and a time, after a text that is not unfinished. */
  lemma TimesDoNotSeparate(w: World, hash: string -> string, steps: seq<Step>, i: nat, j: nat, front: string, t: string,
                           u: string, rest: string)
    requires ByFingerprint(w, hash) && Erasure.Around(front, rest)
    requires (Erasure.IsSyslogStamp(t) && Erasure.IsSyslogStamp(u))
          || (IsoDates.IsIsoStamp(t) && IsoDates.IsIsoStamp(u) && !IsoDates.Unfinished(front))
    requires var h := Run(w, INIT, steps).history;
      && i < |h| && j < |h| && TrimSpace(h[i].service) == TrimSpace(h[j].service)
      && h[i].line == front + t + rest && h[j].line == front + u + rest
    ensures var s := Run(w, INIT, steps);
      |s.db.index.rows| == |s.history| && s.db.index.rows[i].event == s.db.index.rows[j].event
  {
    hide Erasure.IsSyslogStamp, IsoDates.IsIsoStamp, IsoDates.Unfinished, Erasure.Around, TrimSpace, F.Normalize;
    var s := Run(w, INIT, steps);
    EveryRunKeepsIndex(w, steps);
    RunKeepsRecords(w, steps);
    assert WellRecorded(w, s.history[i]) && WellRecorded(w, s.history[j]);
    SameEventIffSameKey(s.db.index, s.history, i, j);
    if Erasure.IsSyslogStamp(t) && Erasure.IsSyslogStamp(u) {
      var p, q := Erasure.SyslogTimesErased(front, t, u, rest);
    } else {
      var p, q := IsoDates.IsoTimesErased(front, t, u, rest);
    }
  }

  /** In every run, each occurrence stored is what the code records of its line: the rules raise it under its service,
      with its severity; its summary is the line trimmed; and its event has the key of both. */
  lemma EveryRunRecords(w: World, steps: seq<Step>, i: nat)
    requires i < |Run(w, INIT, steps).history|
    ensures var s := Run(w, INIT, steps);
      && |s.db.index.rows| == |s.trail| == |s.history|
      && var e, row := s.history[i], s.db.index.rows[i];
         && row.line == e.line == s.trail[i].line.text && row.at == e.at
         && w.verdict(e.service, row.line).Raised? && e.severity == w.verdict(e.service, row.line).severity
         && e.summary == TrimSpace(row.line)
         && w.key(e.service, row.line) in s.db.index.events
         && row.event == s.db.index.events[w.key(e.service, row.line)].id
  {
    var s := Run(w, INIT, steps);
    EveryRunKeepsIndex(w, steps);
    RunKeepsRecords(w, steps);
    assert WellRecorded(w, s.history[i]) && RowAligned(s, i);
    assert RowAgrees(s.db.index.rows[i], s.history[i], s.db.index.events);
  }

  lemma LinesAgree(idx: Index, history: seq<Entry>, i: nat)
    requires RowsAgree(idx, history) && i < |history|
    ensures idx.rows[i].line == history[i].line
  {
    assert RowAgrees(idx.rows[i], history[i], idx.events);
  }

  // ---- Stored times against true times ----

  /** Each text is what the instant at its place prints. */
  predicate Printed(ts: seq<string>, times: seq<Instant>) {
    |ts| == |times| && forall i :: 0 <= i < |ts| ==> ts[i] == Text(times[i])
  }

  /** An event's stored first and last times lie in the very seconds of its earliest and latest occurrences. */
  lemma StoredExtremes(event: Event, key: string, rows: seq<Row>, history: seq<Entry>, times: seq<Instant>,
                       earliest: nat, latest: nat) returns (first: nat, last: nat)
    requires EventAgrees(event, key, rows, history) && Printed(Times(rows, event.id), times)
    requires earliest < |times| && latest < |times|
    requires forall i :: 0 <= i < |times| ==> times[earliest] <= times[i] <= times[latest]
    ensures first < |times| && event.first == Text(times[first]) && Second(times[first]) == Second(times[earliest])
    ensures last < |times| && event.last == Text(times[last]) && Second(times[last]) == Second(times[latest])
  {
    first := WhereMin(Times(rows, event.id), times, event.first);
    last := WhereMax(Times(rows, event.id), times, event.last);
    ExtremesKeepTheirSecond(times, first, earliest, last, latest);
  }

  lemma WhereMin(ts: seq<string>, times: seq<Instant>, m: string) returns (first: nat)
    requires Printed(ts, times) && IsMin(m, ts)
    ensures first < |times| && m == Text(times[first])
    ensures forall i :: 0 <= i < |times| ==> !Less(Text(times[i]), Text(times[first]))
  {
    first :| first < |ts| && ts[first] == m;
    forall i | 0 <= i < |times| ensures !Less(Text(times[i]), m) { assert ts[i] in ts; }
  }

  lemma WhereMax(ts: seq<string>, times: seq<Instant>, m: string) returns (last: nat)
    requires Printed(ts, times) && IsMax(m, ts)
    ensures last < |times| && m == Text(times[last])
    ensures forall i :: 0 <= i < |times| ==> !Less(Text(times[last]), Text(times[i]))
  {
    last :| last < |ts| && ts[last] == m;
    forall i | 0 <= i < |times| ensures !Less(m, Text(times[i])) { assert ts[i] in ts; }
  }

  /** How many of the times are at or after the cutoff. */
  function Since(times: seq<Instant>, cutoff: Instant): nat {
    if times == [] then 0 else
      Since(times[..|times| - 1], cutoff) + if times[|times| - 1] >= cutoff then 1 else 0
  }

  /** How many satisfy a test. */
  function Having(times: seq<Instant>, test: Instant -> bool): nat {
    if times == [] then 0 else
      Having(times[..|times| - 1], test) + if test(times[|times| - 1]) then 1 else 0
  }

  /** Before the cutoff, in its second, and printing a proper prefix of its fraction digits: counted, though early. */
  function TooEarly(cutoff: Instant): Instant -> bool {
    (t: Instant) => Second(t) == Second(cutoff) && t < cutoff && Fraction(t) < Fraction(cutoff)
  }

  /** After the cutoff, in its second, and printing an extension of its fraction digits: left out though in time. */
  function Dropped(cutoff: Instant): Instant -> bool {
    (t: Instant) => Second(t) == Second(cutoff) && cutoff < t && Fraction(cutoff) < Fraction(t)
  }

  /** A window counter is the true count, plus the occurrences wrongly let in, less those wrongly left out;
      both lie in the cutoff's own second. */
  lemma {:induction false} WindowCount(ts: seq<string>, times: seq<Instant>, cutoff: Instant)
    requires Printed(ts, times)
    ensures CountFrom(ts, Text(cutoff)) + Having(times, Dropped(cutoff)) ==
      Since(times, cutoff) + Having(times, TooEarly(cutoff))
  {
    if times != [] {
      var n := |times| - 1;
      WindowCount(ts[..n], times[..n], cutoff);
      CutoffAgreesOutsideItsSecond(times[n], cutoff);
    }
  }

  /** What an event's two window counters are worth: each is the true count since its cutoff, out only by
      occurrences in the cutoff's own second. */
  lemma WindowCounters(event: Event, key: string, rows: seq<Row>, history: seq<Entry>, times: seq<Instant>,
                       midnight: Instant, hourAgo: Instant)
    requires EventAgrees(event, key, rows, history) && Printed(Times(rows, event.id), times)
    requires LatestEntry(history, key).value.dayStart == Text(midnight)
    requires LatestEntry(history, key).value.hourStart == Text(hourAgo)
    ensures event.today + Having(times, Dropped(midnight)) == Since(times, midnight) + Having(times, TooEarly(midnight))
    ensures event.lastHour + Having(times, Dropped(hourAgo)) == Since(times, hourAgo) + Having(times, TooEarly(hourAgo))
    ensures event.total == |times|
  {
    WindowCount(Times(rows, event.id), times, midnight);
    WindowCount(Times(rows, event.id), times, hourAgo);
  }

  // ---- Over every run ----

  /** A stamp some reading of the clock gives: an instant, a midnight, and an hour before another reading. */
  ghost predicate Ticked(t: Stamp) {
    exists at: Instant, midnight: Instant, counted: Reading :: t == TickAt(at, midnight, counted)
  }

  function TickAt(at: Instant, midnight: Instant, counted: Reading): Stamp {
    Stamp(Text(at), Text(midnight), Text(HourBefore(counted)))
  }

  /** The machine's recordings are stamped by the clock. */
  ghost predicate ByClock(w: World) {
    forall t :: w.stamps(t) ==> Ticked(t)
  }

  /** A value of the function. */
  ghost predicate IsValue(f: Instant -> string, t: string) {
    exists x: Instant :: t == f(x)
  }

  ghost predicate IsText(t: string) {
    IsValue(Text, t)
  }

  lemma TickedAt(t: Stamp)
    requires Ticked(t)
    ensures IsText(t.at)
  {
    var at: Instant, midnight: Instant, counted: Reading :| t == TickAt(at, midnight, counted);
  }

  /** Values of a function, as arguments. */
  lemma {:induction false} Arguments(f: Instant -> string, ts: seq<string>) returns (times: seq<Instant>)
    requires forall i :: 0 <= i < |ts| ==> IsValue(f, ts[i])
    ensures |times| == |ts| && forall i :: 0 <= i < |ts| ==> ts[i] == f(times[i])
  {
    if ts == [] {
      times := [];
    } else {
      var n := |ts| - 1;
      var front := Arguments(f, ts[..n]);
      assert IsValue(f, ts[n]);
      var last: Instant :| ts[n] == f(last);
      times := front + [last];
    }
  }

  /** Texts of instants, as instants. */
  lemma Instants(ts: seq<string>) returns (times: seq<Instant>)
    requires forall i :: 0 <= i < |ts| ==> IsText(ts[i])
    ensures Printed(ts, times)
  {
    forall i | 0 <= i < |ts| ensures IsValue(Text, ts[i]) { assert IsText(ts[i]); }
    times := Arguments(Text, ts);
  }

  lemma {:induction false} TimesAreRows(rows: seq<Row>, event: nat, i: nat)
    requires i < |Times(rows, event)|
    ensures exists j :: 0 <= j < |rows| && rows[j].at == Times(rows, event)[i]
    decreases |rows|
  {
    var n := |rows| - 1;
    if i < |Times(rows[..n], event)| {
      TimesAreRows(rows[..n], event, i);
      var j :| 0 <= j < n && rows[..n][j].at == Times(rows[..n], event)[i];
      assert rows[j].at == Times(rows, event)[i];
    } else {
      assert rows[n].at == Times(rows, event)[i];
    }
  }

  lemma RowsAreTexts(w: World, idx: Index, history: seq<Entry>, event: nat)
    requires ByClock(w) && RowsAgree(idx, history) && AllWellRecorded(w, history)
    ensures forall i :: 0 <= i < |Times(idx.rows, event)| ==> IsText(Times(idx.rows, event)[i])
  {
    var ts := Times(idx.rows, event);
    forall i | 0 <= i < |ts| ensures IsText(ts[i]) {
      TimesAreRows(idx.rows, event, i);
      var j :| 0 <= j < |idx.rows| && idx.rows[j].at == ts[i];
      assert RowAgrees(idx.rows[j], history[j], idx.events) && WellRecorded(w, history[j]);
      TickedAt(Stamp(history[j].at, history[j].dayStart, history[j].hourStart));
    }
  }

  lemma {:induction false} Bounds(times: seq<Instant>) returns (earliest: nat, latest: nat)
    requires times != []
    ensures earliest < |times| && latest < |times|
    ensures forall i :: 0 <= i < |times| ==> times[earliest] <= times[i] <= times[latest]
  {
    var n := |times| - 1;
    if n == 0 {
      earliest, latest := 0, 0;
    } else {
      earliest, latest := Bounds(times[..n]);
      assert forall i :: 0 <= i < n ==> times[..n][i] == times[i];
      if times[n] < times[earliest] { earliest := n; }
      if times[n] > times[latest] { latest := n; }
    }
  }

  lemma {:induction false} LatestIsRecorded(w: World, history: seq<Entry>, key: string)
    requires AllWellRecorded(w, history) && LatestEntry(history, key).Some?
    ensures WellRecorded(w, LatestEntry(history, key).value)
  {
    var n := |history| - 1;
    assert WellRecorded(w, history[n]);
    if history[n].key != key { LatestIsRecorded(w, history[..n], key); }
  }

  /** The instants of an event's occurrences, in every run: there are as many as it counts, they print what is stored,
      and its first and last times are in the seconds of the earliest and the latest of them. */
  lemma EveryRunExtremes(w: World, steps: seq<Step>, key: string)
    returns (times: seq<Instant>, earliest: nat, latest: nat, first: nat, last: nat)
    requires ByClock(w) && key in Run(w, INIT, steps).db.index.events
    ensures var idx := Run(w, INIT, steps).db.index;
      var event := idx.events[key];
      && Printed(Times(idx.rows, event.id), times) && |times| == event.total
      && earliest < |times| && latest < |times| && first < |times| && last < |times|
      && (forall i :: 0 <= i < |times| ==> times[earliest] <= times[i] <= times[latest])
      && event.first == Text(times[first]) && Second(times[first]) == Second(times[earliest])
      && event.last == Text(times[last]) && Second(times[last]) == Second(times[latest])
  {
    var s := Run(w, INIT, steps);
    var event := s.db.index.events[key];
    EveryRunKeepsIndex(w, steps);
    RunKeepsRecords(w, steps);
    RowsAreTexts(w, s.db.index, s.history, event.id);
    times := Instants(Times(s.db.index.rows, event.id));
    assert EventAgrees(event, key, s.db.index.rows, s.history);
    earliest, latest := Bounds(times);
    first, last := StoredExtremes(event, key, s.db.index.rows, s.history, times, earliest, latest);
  }

  /** An event's window counters against the true counts since its two cutoffs. */
  predicate Windows(event: Event, times: seq<Instant>, midnight: Instant, hourAgo: Instant) {
    && event.today + Having(times, Dropped(midnight)) == Since(times, midnight) + Having(times, TooEarly(midnight))
    && event.lastHour + Having(times, Dropped(hourAgo)) == Since(times, hourAgo) + Having(times, TooEarly(hourAgo))
  }

  lemma RecordedWindows(w: World, event: Event, key: string, idx: Index, history: seq<Entry>)
    returns (times: seq<Instant>, midnight: Instant, hourAgo: Instant, counted: Reading)
    requires ByClock(w) && AllWellRecorded(w, history) && RowsAgree(idx, history)
    requires EventAgrees(event, key, idx.rows, history)
    ensures Printed(Times(idx.rows, event.id), times) && Windows(event, times, midnight, hourAgo)
    ensures LatestEntry(history, key).value.dayStart == Text(midnight)
    ensures LatestEntry(history, key).value.hourStart == Text(hourAgo) && hourAgo + 3_600_000_000_000 == counted
  {
    RowsAreTexts(w, idx, history, event.id);
    times := Instants(Times(idx.rows, event.id));
    midnight, counted := LatestCutoffs(w, history, key);
    hourAgo := HourBefore(counted);
    SecondBefore(counted);
    WindowCounters(event, key, idx.rows, history, times, midnight, hourAgo);
  }

  /** And its window counters, taken at its latest recording, are the true counts since midnight and of the last 3600
      seconds of the reading it counted from, out only by the occurrences in the cutoffs' own seconds. */
  lemma EveryRunWindows(w: World, steps: seq<Step>, key: string)
    returns (times: seq<Instant>, midnight: Instant, hourAgo: Instant, counted: Reading)
    requires ByClock(w) && key in Run(w, INIT, steps).db.index.events
    ensures var s := Run(w, INIT, steps);
      var event := s.db.index.events[key];
      var latest := LatestEntry(s.history, key);
      && Printed(Times(s.db.index.rows, event.id), times)
      && latest.Some? && latest.value.dayStart == Text(midnight) && latest.value.hourStart == Text(hourAgo)
      && hourAgo + 3_600_000_000_000 == counted && Windows(event, times, midnight, hourAgo)
  {
    var s := Run(w, INIT, steps);
    EveryRunKeepsIndex(w, steps);
    RunKeepsRecords(w, steps);
    times, midnight, hourAgo, counted := RecordedWindows(w, s.db.index.events[key], key, s.db.index, s.history);
  }

  lemma LatestCutoffs(w: World, history: seq<Entry>, key: string) returns (midnight: Instant, counted: Reading)
    requires ByClock(w) && AllWellRecorded(w, history) && LatestEntry(history, key).Some?
    ensures LatestEntry(history, key).value.dayStart == Text(midnight)
    ensures LatestEntry(history, key).value.hourStart == Text(HourBefore(counted))
  {
    LatestIsRecorded(w, history, key);
    var e := LatestEntry(history, key).value;
    var t := Stamp(e.at, e.dayStart, e.hourStart);
    assert Ticked(t);
    var at: Instant;
    at, midnight, counted :| t == TickAt(at, midnight, counted);
  }
}
