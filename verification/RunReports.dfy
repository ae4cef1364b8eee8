/** What a report on the events of a run prints. */
module RunReports {
  import opened Delivery
  import opened EventIndex
  import opened Grouping
  import opened Options
  import opened Pipeline
  import opened Reader
  import opened Reports
  import opened Safety
  import opened Strings
  import Clock
  import Processor
  import Rules

  /** No rule gives a severity with a newline in it. */
  ghost predicate PlainSeverities(w: World) {
    forall service, text :: w.verdict(service, text).Raised? ==> OneLine(w.verdict(service, text).severity)
  }

  /** The processor's severities are such. */
  lemma RuledArePlain(p: Rules.Patterns, rules: seq<Rules.Rule>, w: World)
    requires Processor.Ruled(p, rules, w)
    ensures PlainSeverities(w)
  {
    forall service, text | w.verdict(service, text).Raised? ensures OneLine(w.verdict(service, text).severity) {
      var m := Rules.Decide(p, rules, Processor.Context(service, text));
      assert w.verdict(service, text) == Processor.VerdictFor(m);
      SeverityIsLine(m.value.action);
    }
  }

  lemma SeverityIsLine(action: Rules.Action)
    ensures OneLine(Processor.SeverityForAction(action))
  {
  }

  /** A recorded severity and summary are single lines. */
  predicate Plain(e: Entry) {
    OneLine(e.severity) && OneLine(e.summary)
  }

  predicate AllPlain(history: seq<Entry>) {
    forall i :: 0 <= i < |history| ==> Plain(history[i])
  }

  lemma PlainAppend(history: seq<Entry>, e: Entry)
    requires AllPlain(history) && Plain(e)
    ensures AllPlain(history + [e])
  {
  }

  lemma SliceIsLine(bytes: string, from: nat, to: nat)
    requires from <= to <= |bytes| && forall k :: from <= k < to ==> bytes[k] != '\n'
    ensures OneLine(bytes[from..to])
  {
  }

  lemma StripKeepsLine(s: string)
    requires OneLine(s)
    ensures OneLine(StripCR(s))
  {
  }

  /** A complete line's text has no newline in it. */
  lemma LineIsLine(bytes: string, from: nat)
    requires LinesFrom(bytes, from) != []
    ensures OneLine(LinesFrom(bytes, from)[0].text)
  {
    hide StripCR, OneLine, LinesFrom;
    Unfold(bytes, from);
    var line := LinesFrom(bytes, from)[0];
    SliceIsLine(bytes, from, line.end - 1);
    StripKeepsLine(bytes[from..line.end - 1]);
  }

  lemma InHandIsPlain(w: World, s: State, t: Stamp)
    requires Inv(w, s) && PlainSeverities(w) && AtLine(s) && VerdictOf(w, s.work).Raised?
    requires s.work.file in s.db.logs.files
    ensures Plain(EntryFor(w, s.work, t.at, t.dayStart, t.hourStart))
  {
    hide TrimSpace;
    assert FileOk(w, s, s.work.file);
    LineIsLine(s.work.base, s.db.logs.files[s.work.file].offset);
    TrimmedIsOneLine(s.work.lines[0].text);
  }

  lemma {:induction false} RunKeepsPlain(w: World, steps: seq<Step>)
    requires PlainSeverities(w)
    ensures AllPlain(Run(w, INIT, steps).history)
  {
    if steps != [] {
      var init, step := steps[..|steps| - 1], steps[|steps| - 1];
      var s := Run(w, INIT, init);
      RunKeepsPlain(w, init);
      RunKeeps(w, INIT, init);
      hide Store, Inv, AllPlain, PlainSeverities;
      if step.StoreEvent? && Enabled(w, s, step) {
        InHandIsPlain(w, s, Stamp(step.at, step.dayStart, step.hourStart));
        PlainAppend(s.history, EntryFor(w, s.work, step.at, step.dayStart, step.hourStart));
      } else {
        SameHistory(w, s, step);
      }
    }
  }

  lemma {:induction false} FirstIsPlain(history: seq<Entry>, key: string)
    requires AllPlain(history) && FirstEntry(history, key).Some?
    ensures Plain(FirstEntry(history, key).value)
  {
    var n := |history| - 1;
    assert Plain(history[n]);
    if FirstEntry(history[..n], key).Some? { FirstIsPlain(history[..n], key); }
  }

  /** In every run an event prints a newline only if its service has one. */
  lemma OnlyTheService(w: World, steps: seq<Step>, key: string)
    requires ByClock(w) && PlainSeverities(w) && key in Run(w, INIT, steps).db.index.events
    ensures var e := Run(w, INIT, steps).db.index.events[key]; OneLineEvent(e) <==> OneLine(e.service)
  {
    var s := Run(w, INIT, steps);
    var e := s.db.index.events[key];
    var times, earliest, latest, first, last := EveryRunExtremes(w, steps, key);
    EveryRunKeepsIndex(w, steps);
    RunKeepsPlain(w, steps);
    assert EventAgrees(e, key, s.db.index.rows, s.history);
    FirstIsPlain(s.history, key);
    PrintsPlain(e, times[last]);
  }

  lemma PrintsPlain(e: Event, last: Clock.Instant)
    requires OneLine(e.severity) && OneLine(e.summary) && e.last == Clock.Text(last)
    ensures OneLineEvent(e) <==> OneLine(e.service)
  {
    TextIsOneLine(last);
    TrimmedIsOneLine(e.summary);
  }

  /** So a report on any events of a run reads back as its header and a line for each of them exactly if no service
      among them has a newline in its name. */
  lemma RunReportReadsBack(w: World, steps: seq<Step>, kind: Kind, start: Clock.Instant, end: Clock.Instant,
                           keys: seq<string>, rows: seq<Event>)
    requires ByClock(w) && PlainSeverities(w) && !kind.OtherKind?
    requires RowsOf(Run(w, INIT, steps).db.index.events, keys, rows)
    ensures
      Reports.Cut(Reports.Printed(ReportLines(kind, start, end, rows))) == ReportLines(kind, start, end, rows)
      <==> forall j :: 0 <= j < |rows| ==> OneLine(rows[j].service)
  {
    forall j | 0 <= j < |rows| ensures OneLineEvent(rows[j]) <==> OneLine(rows[j].service) {
      OnlyTheService(w, steps, keys[j]);
    }
    ReportReadsBack(kind, start, end, rows);
  }
}
