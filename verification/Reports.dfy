/** internal/reports/reports.go: the events of a half-open window, in order, as a text. */
module Reports {
  import opened Clock
  import opened EventIndex
  import opened Fates
  import opened Numbers
  import opened Options
  import opened Ordering
  import opened Strings
  import TimeTexts

  datatype Kind = Daily | Weekly | OtherKind(text: string)

  datatype Report = Report(id: nat, kind: Kind, periodStart: string, periodEnd: string, body: string)

  /** Go's RFC 3339 without fraction: the text of the whole second. */
  function SecondText(t: Instant): string {
    Text(Second(t) * NANOS)
  }

  function Rank(severity: string): nat {
    if severity == "critical" then 0 else if severity == "error" then 1 else if severity == "warning" then 2 else 3
  }

  /** `ORDER BY` rank, then total downwards, then last-seen text downwards. */
  predicate Before(a: Event, b: Event) {
    if Rank(a.severity) != Rank(b.severity) then Rank(a.severity) < Rank(b.severity)
    else if a.total != b.total then a.total > b.total
    else Less(b.last, a.last)
  }

  lemma BeforeIsOrder()
    ensures WeakOrder(Before)
  {
    forall a: Event, b: Event | Before(a, b) ensures !Before(b, a) { LessTotal(a.last, b.last); }
    forall a: Event, b: Event, c: Event | !Before(b, a) && !Before(c, b) ensures !Before(c, a) {
      if !Less(a.last, b.last) && !Less(b.last, c.last) { LessTransitive(c.last, b.last, a.last); }
    }
  }

  // ---- Loading ----

  predicate InWindow(e: Event, start: string, end: string) {
    !Less(e.last, start) && Less(e.last, end)
  }

  function Window(events: map<string, Event>, start: string, end: string): set<string> {
    set k | k in events && InWindow(events[k], start, end)
  }

  predicate RowsOf(events: map<string, Event>, keys: seq<string>, rows: seq<Event>) {
    |keys| == |rows| && forall i :: 0 <= i < |keys| ==> keys[i] in events && rows[i] == events[keys[i]]
  }

  /** Each event of a set once: its rows' keys are the set, without repetition. */
  ghost predicate Lists(events: map<string, Event>, keys: seq<string>, within: set<string>, rows: seq<Event>) {
    RowsOf(events, keys, rows) && Distinct(keys) && forall k :: k in keys <==> k in within
  }

  lemma InsertRow(events: map<string, Event>, keys: seq<string>, rows: seq<Event>, p: nat, k: string)
    requires RowsOf(events, keys, rows) && k in events && p <= |rows|
    ensures RowsOf(events, InsertAt(keys, p, k), InsertAt(rows, p, events[k]))
  {
    var ks, rs := InsertAt(keys, p, k), InsertAt(rows, p, events[k]);
    forall i | 0 <= i < |ks| ensures ks[i] in events && rs[i] == events[ks[i]] {
      InsertedAt(keys, p, k, i);
      InsertedAt(rows, p, events[k], i);
    }
  }

  lemma InsertLists(events: map<string, Event>, keys: seq<string>, within: set<string>, rows: seq<Event>, p: nat,
                    k: string)
    requires Lists(events, keys, within, rows) && k in events && k !in within && p <= |rows|
    ensures Lists(events, InsertAt(keys, p, k), within + {k}, InsertAt(rows, p, events[k]))
  {
    InsertRow(events, keys, rows, p, k);
    InsertDistinct(keys, p, k);
    InsertMembers(keys, p, k);
  }

  /** The query: the window's events, each once, in order. */
  method LoadEvents(events: map<string, Event>, start: string, end: string)
    returns (rows: seq<Event>, ghost keys: seq<string>)
    ensures InOrder(Before, rows) && Lists(events, keys, Window(events, start, end), rows)
  {
    var left := Window(events, start, end);
    rows, keys := [], [];
    while left != {}
      invariant left <= Window(events, start, end)
      invariant InOrder(Before, rows) && Lists(events, keys, Window(events, start, end) - left, rows)
      decreases left
    {
      var k :| k in left;
      var p := Place(Before, rows, events[k]);
      BeforeIsOrder();
      PlaceKeepsOrder(Before, rows, events[k]);
      InsertLists(events, keys, Window(events, start, end) - left, rows, p, k);
      rows, keys := InsertAt(rows, p, events[k]), InsertAt(keys, p, k);
      left := left - {k};
      assert Window(events, start, end) - left == Window(events, start, end) - (left + {k}) + {k};
    }
    assert Window(events, start, end) - {} == Window(events, start, end);
  }

  /** Critical events before errors, errors before warnings, these before the rest; of one severity those with more
      occurrences first, and of as many the later seen. */
  predicate ListedFirst(a: Event, b: Event) {
    var more := a.total > b.total || (a.total == b.total && !Less(a.last, b.last));
    if b.severity == "critical" then a.severity == "critical" && more
    else if b.severity == "error" then a.severity == "critical" || (a.severity == "error" && more)
    else if b.severity == "warning" then a.severity in {"critical", "error"} || (a.severity == "warning" && more)
    else a.severity in {"critical", "error", "warning"} || more
  }

  lemma ListedInOrder(rows: seq<Event>, i: nat, j: nat)
    requires InOrder(Before, rows) && i < j < |rows|
    ensures ListedFirst(rows[i], rows[j])
  {
    var a, b := rows[i], rows[j];
    assert !Before(b, a);
    LessTotal(a.last, b.last);
    hide Less;
    RankIs(a.severity);
    RankIs(b.severity);
  }

  lemma RankIs(severity: string)
    ensures Rank(severity) == 0 <==> severity == "critical"
    ensures Rank(severity) == 1 <==> severity == "error"
    ensures Rank(severity) == 2 <==> severity == "warning"
    ensures Rank(severity) <= 3
  {
  }

  // ---- Rendering ----

  function KindText(kind: Kind): string {
    match kind
    case Daily => "daily"
    case Weekly => "weekly"
    case OtherKind(text) => text
  }

  function OrElse(text: string, otherwise: string): string {
    if text == "" then otherwise else text
  }

  function RowParts(e: Event): seq<string> {
    ["- [", e.severity, "] ", OrElse(e.service, "unknown-service"), ": ",
     OrElse(TrimSpace(e.summary), "No summary yet"), " (", Decimal(e.total), " occurrences, last seen ", e.last, ")"]
  }

  /** The parts, joined one by one. */
  function Joint(parts: seq<string>): string {
    if parts == [] then "" else Joint(parts[..|parts| - 1]) + parts[|parts| - 1]
  }

  function RowText(e: Event): string {
    Joint(RowParts(e))
  }

  const NO_EVENTS := "No matching events were recorded during this period."

  function Title(kind: Kind): string {
    "yllmlog " + KindText(kind) + " report"
  }

  function Period(start: Instant, end: Instant): string {
    "Period: " + SecondText(start) + " to " + SecondText(end)
  }

  /** The report, line by line. */
  function ReportLines(kind: Kind, start: Instant, end: Instant, rows: seq<Event>): seq<string> {
    [Title(kind), Period(start, end), ""] + if rows == [] then [NO_EVENTS] else RowTexts(rows)
  }

  /** A text for each row. */
  function Each(rows: seq<Event>, f: Event -> string): (texts: seq<string>)
    ensures |texts| == |rows| && forall i :: 0 <= i < |rows| ==> texts[i] == f(rows[i])
  {
    seq(|rows|, i requires 0 <= i < |rows| => f(rows[i]))
  }

  function RowTexts(rows: seq<Event>): seq<string> {
    Each(rows, RowText)
  }

  /** Each line and its newline. */
  function Printed(lines: seq<string>): string {
    if lines == [] then "" else Printed(lines[..|lines| - 1]) + (lines[|lines| - 1] + "\n")
  }

  lemma PrintedAppend(lines: seq<string>, line: string)
    ensures Printed(lines + [line]) == Printed(lines) + (line + "\n")
  {
    assert (lines + [line])[..|lines|] == lines;
  }

  lemma PrintedHeader(title: string, period: string)
    ensures Printed([title, period, ""]) == title + "\n" + (period + "\n") + "\n"
  {
    var none: seq<string> := [];
    PrintedAppend(none, title);
    PrintedAppend([title], period);
    PrintedAppend([title, period], "");
    assert none + [title] == [title] && [title] + [period] == [title, period];
    assert [title, period] + [""] == [title, period, ""];
    assert "" + (title + "\n") == title + "\n" && "" + "\n" == "\n";
  }

  lemma EachStep(rows: seq<Event>, f: Event -> string, i: nat)
    requires i < |rows|
    ensures Each(rows[..i + 1], f) == Each(rows[..i], f) + [f(rows[i])]
  {
  }

  lemma PrintedMore(header: seq<string>, texts: seq<string>, text: string)
    ensures Printed(header + (texts + [text])) == Printed(header + texts) + (text + "\n")
  {
    assert header + (texts + [text]) == (header + texts) + [text];
    PrintedAppend(header + texts, text);
  }

  method Render(kind: Kind, start: Instant, end: Instant, rows: seq<Event>) returns (body: string)
    ensures body == Printed(ReportLines(kind, start, end, rows))
  {
    ghost var header := [Title(kind), Period(start, end), ""];
    PrintedHeader(Title(kind), Period(start, end));
    body := Title(kind) + "\n";
    body := body + (Period(start, end) + "\n") + "\n";
    if rows == [] {
      PrintedAppend(header, NO_EVENTS);
      body := body + (NO_EVENTS + "\n");
      return;
    }
    assert header + [] == header;
    for i := 0 to |rows|
      invariant body == Printed(header + RowTexts(rows[..i]))
    {
      EachStep(rows, RowText, i);
      PrintedMore(header, RowTexts(rows[..i]), RowText(rows[i]));
      var line := RenderRow(rows[i]);
      body := body + (line + "\n");
    }
    assert rows[..|rows|] == rows;
  }

  method RenderRow(event: Event) returns (line: string)
    ensures line == RowText(event)
  {
    var service := event.service;
    if service == "" {
      service := "unknown-service";
    }
    var summary := TrimSpace(event.summary);
    if summary == "" {
      summary := "No summary yet";
    }
    line := Joint(["- [", event.severity, "] ", service, ": ", summary,
                   " (", Decimal(event.total), " occurrences, last seen ", event.last, ")"]);
  }

  // ---- Generating ----

  /** A report on the events whose last sighting lies in the window. */
  ghost predicate ReportOf(r: Report, events: map<string, Event>, kind: Kind, start: Instant, end: Instant) {
    exists keys: seq<string>, rows: seq<Event> :: Describes(r, events, kind, start, end, keys, rows)
  }

  ghost predicate Describes(r: Report, events: map<string, Event>, kind: Kind, start: Instant, end: Instant,
                            keys: seq<string>, rows: seq<Event>)
  {
    && InOrder(Before, rows) && Lists(events, keys, Window(events, Text(start), Text(end)), rows)
    && r.kind == kind && r.periodStart == SecondText(start) && r.periodEnd == SecondText(end)
    && r.body == Printed(ReportLines(kind, start, end, rows))
  }

  class Generator {
    var events: map<string, Event>
    var reports: map<nat, Report>
    var lastReport: nat

    constructor (events: map<string, Event>)
      ensures this.events == events && reports == map[] && lastReport == 0
    {
      this.events, reports, lastReport := events, map[], 0;
    }

    method Generate(kind: Kind, start: Instant, end: Instant, loads: bool, fate: Fate) returns (r: Option<Report>)
      modifies `reports, `lastReport
      ensures r.Some? <==> !kind.OtherKind? && start < end && loads && fate.Done?
      ensures if !kind.OtherKind? && start < end && loads && !fate.Refused?
        then lastReport == old(lastReport) + 1 && lastReport in reports
          && reports == old(reports)[lastReport := reports[lastReport]]
          && reports[lastReport].id == lastReport && ReportOf(reports[lastReport], events, kind, start, end)
        else reports == old(reports) && lastReport == old(lastReport)
      ensures r.Some? ==> r.value == reports[lastReport]
    {
      hide Text, SecondText, ReportOf;
      if kind != Daily && kind != Weekly {
        return None;
      }
      if !(start < end) {
        return None;
      }
      if !loads {
        return None;
      }
      var report := Compose(lastReport + 1, kind, start, end);
      if fate.Refused? {
        return None;
      }
      lastReport := lastReport + 1;
      reports := reports[lastReport := report];
      return if fate.Done? then Some(report) else None;
    }

    method Compose(id: nat, kind: Kind, start: Instant, end: Instant) returns (report: Report)
      ensures report.id == id && ReportOf(report, events, kind, start, end)
    {
      var rows, keys := LoadEvents(events, Text(start), Text(end));
      var body := Render(kind, start, end, rows);
      report := Report(id, kind, SecondText(start), SecondText(end), body);
      assert Describes(report, events, kind, start, end, keys, rows);
    }
  }

  // ---- Windows ----

  /** Half-open windows over ordered cut points share no event and leave none out. */
  lemma WindowsPartition(events: map<string, Event>, a: string, b: string, c: string)
    requires !Less(b, a) && !Less(c, b)
    ensures Window(events, a, b) !! Window(events, b, c)
    ensures Window(events, a, c) == Window(events, a, b) + Window(events, b, c)
  {
    forall k | k in events
      ensures k in Window(events, a, c) <==> (k in Window(events, a, b) || k in Window(events, b, c))
    {
      WindowSplits(events[k].last, a, b, c);
    }
  }

  lemma WindowSplits(last: string, a: string, b: string, c: string)
    requires !Less(b, a) && !Less(c, b)
    ensures !Less(last, a) && Less(last, c) <==> (!Less(last, a) && Less(last, b)) || (!Less(last, b) && Less(last, c))
  {
    LessTotal(last, b);
    if Less(last, b) { LessTransitive(last, b, c); } else { LessTransitive(a, b, last); }
  }

  /** So of the two reports an event of the whole window is listed in exactly one. */
  lemma ReportsPartition(events: map<string, Event>, a: string, b: string, c: string,
                         early: seq<string>, earlyRows: seq<Event>, late: seq<string>, lateRows: seq<Event>, k: string)
    requires !Less(b, a) && !Less(c, b)
    requires Lists(events, early, Window(events, a, b), earlyRows)
    requires Lists(events, late, Window(events, b, c), lateRows)
    ensures k in Window(events, a, c) <==> k in early || k in late
    ensures !(k in early && k in late)
  {
    WindowsPartition(events, a, b, c);
  }

  /** An event last seen at `t` is in the window of texts exactly as it is in that of time, save that each cut point it
      is misplaced against counts the other way. */
  lemma WindowIsTime(e: Event, t: Instant, start: Instant, end: Instant)
    requires e.last == Text(t)
    ensures InWindow(e, Text(start), Text(end)) <==>
      (start <= t <==> !Misplaced(t, start)) && (t < end <==> !Misplaced(t, end))
  {
    CutoffAgreesOutsideItsSecond(t, start);
    CutoffAgreesOutsideItsSecond(t, end);
  }

  /** The texts of two cut points keep their order unless the later is misplaced against the earlier, in its second. */
  lemma CutPointsOrdered(a: Instant, b: Instant)
    requires a < b
    ensures !Less(Text(b), Text(a)) <==> !Misplaced(b, a)
  {
    CutoffAgreesOutsideItsSecond(b, a);
  }

  /** So reports over periods of time that follow on one another list every event of the whole period in exactly one of
      them, as long as their cut points keep their order as texts. */
  lemma PeriodsPartition(events: map<string, Event>, a: Instant, b: Instant, c: Instant,
                         early: seq<string>, earlyRows: seq<Event>, late: seq<string>, lateRows: seq<Event>, k: string)
    requires a < b < c && !Misplaced(b, a) && !Misplaced(c, b)
    requires Lists(events, early, Window(events, Text(a), Text(b)), earlyRows)
    requires Lists(events, late, Window(events, Text(b), Text(c)), lateRows)
    ensures k in Window(events, Text(a), Text(c)) <==> k in early || k in late
    ensures !(k in early && k in late)
  {
    CutPointsOrdered(a, b);
    CutPointsOrdered(b, c);
    ReportsPartition(events, Text(a), Text(b), Text(c), early, earlyRows, late, lateRows, k);
  }

  lemma ReversedWindowIsEmpty(events: map<string, Event>, a: string, b: string)
    requires Less(b, a)
    ensures Window(events, a, b) == {}
  {
    forall k | k in events ensures !InWindow(events[k], a, b) {
      LessTotal(events[k].last, b);
      LessTotal(b, a);
      if Less(events[k].last, b) { LessTransitive(events[k].last, b, a); }
    }
  }

  /** Where they do not, the period between them lists no event at all. */
  lemma ReversedPeriodIsEmpty(events: map<string, Event>, a: Instant, b: Instant)
    requires a < b && Misplaced(b, a)
    ensures Window(events, Text(a), Text(b)) == {}
  {
    CutPointsOrdered(a, b);
    ReversedWindowIsEmpty(events, Text(a), Text(b));
  }

  // ---- What a report says ----

  lemma JointNext(p: seq<string>, n: nat)
    requires n < |p|
    ensures Joint(p[..n + 1]) == Joint(p[..n]) + p[n]
  {
    assert p[..n + 1][..n] == p[..n];
  }

  /** Eleven parts, joined. */
  lemma JointIs(p: seq<string>)
    requires |p| == 11
    ensures Joint(p) == p[0] + p[1] + p[2] + p[3] + p[4] + p[5] + p[6] + p[7] + p[8] + p[9] + p[10]
  {
    assert Joint(p[..0]) == "" && "" + p[0] == p[0] && p[..11] == p;
    hide Joint;
    forall n | 0 <= n < 11 ensures Joint(p[..n + 1]) == Joint(p[..n]) + p[n] { JointNext(p, n); }
    assert Joint(p[..3]) == p[0] + p[1] + p[2];
    assert Joint(p[..6]) == p[0] + p[1] + p[2] + p[3] + p[4] + p[5];
    assert Joint(p[..9]) == p[0] + p[1] + p[2] + p[3] + p[4] + p[5] + p[6] + p[7] + p[8];
  }

  /** The line of an event: its severity, its service or that it is unknown, its summary without surrounding space or
      that there is none, its total in decimal, and the time it was last seen. */
  lemma RowSays(e: Event) returns (service: string, summary: string)
    ensures RowText(e) ==
      "- [" + e.severity + "] " + service + ": " + summary + " (" + Decimal(e.total) + " occurrences, last seen "
      + e.last + ")"
    ensures service == if e.service == "" then "unknown-service" else e.service
    ensures if TrimSpace(e.summary) == "" then summary == "No summary yet" else summary == TrimSpace(e.summary)
  {
    service, summary := OrElse(e.service, "unknown-service"), OrElse(TrimSpace(e.summary), "No summary yet");
    hide TrimSpace, Decimal, Joint;
    JointIs(RowParts(e));
  }

  /** The text of a second is that of any instant of it without its fraction. */
  lemma SecondTextIs(t: Instant)
    ensures |Text(t)| >= 20 && SecondText(t) == Text(t)[..19] + "Z"
  {
    var u := Second(t) * NANOS;
    assert Second(u) == Second(t) && u % NANOS == 0;
    FractionEmpty(u);
    TimeTexts.Places(t);
    TimeTexts.Places(u);
    hide Text, Fields, Second, Fraction, Digits;
    SameFront(Text(t), Text(u), Fields(Second(t)), FractionText(Fraction(t)));
  }

  lemma SameFront(s: string, r: string, v: seq<nat>, end: string)
    requires TimeTexts.Shown(s, v, end) && TimeTexts.Shown(r, v, "Z")
    ensures r == s[..19] + "Z"
  {
    hide Digits;
    TimeTexts.Pieces(s);
    TimeTexts.Pieces(r);
    assert s[..19] == s[..11] + s[11..13] + [s[13]] + s[14..16] + [s[16]] + s[17..19];
    assert r == r[..11] + r[11..13] + r[13..];
  }

  /** The report's first lines: its kind, and its period in whole seconds. */
  lemma HeaderSays(kind: Kind, start: Instant, end: Instant, rows: seq<Event>)
    ensures var ls := ReportLines(kind, start, end, rows);
      && |ls| == 3 + (if rows == [] then 1 else |rows|) && |Text(start)| >= 20 && |Text(end)| >= 20
      && (kind.Daily? ==> ls[0] == "yllmlog daily report") && (kind.Weekly? ==> ls[0] == "yllmlog weekly report")
      && ls[1] == "Period: " + (Text(start)[..19] + "Z") + " to " + (Text(end)[..19] + "Z") && ls[2] == ""
      && (forall i :: 0 <= i < |rows| ==> ls[3 + i] == RowText(rows[i]))
      && (rows == [] ==> ls[3] == "No matching events were recorded during this period.")
  {
    hide Text, SecondText, RowText;
    SecondTextIs(start);
    SecondTextIs(end);
    TitleSays(kind);
  }

  lemma TitleSays(kind: Kind)
    ensures kind.Daily? ==> Title(kind) == "yllmlog daily report"
    ensures kind.Weekly? ==> Title(kind) == "yllmlog weekly report"
  {
  }

  // ---- Reading a report back ----

  predicate OneLine(s: string) {
    '\n' !in s
  }

  /** The newline-terminated lines of a text. */
  function Cut(s: string): seq<string>
    decreases |s|
  {
    var n := CutAt(s, '\n');
    if n == |s| then [] else [s[..n]] + Cut(s[n + 1..])
  }

  lemma {:induction false} PrintedFirst(line: string, rest: seq<string>)
    ensures Printed([line] + rest) == line + "\n" + Printed(rest)
    decreases |rest|
  {
    if rest == [] {
      assert [line] + rest == [line];
    } else {
      var n := |rest| - 1;
      PrintedFirst(line, rest[..n]);
      assert [line] + rest == ([line] + rest[..n]) + [rest[n]];
      PrintedAppend([line] + rest[..n], rest[n]);
    }
  }

  /** Lines without newlines are read back from the printed text one for one. */
  lemma {:induction false} PrintedReadsBack(lines: seq<string>)
    requires forall i :: 0 <= i < |lines| ==> OneLine(lines[i])
    ensures Cut(Printed(lines)) == lines
  {
    if lines != [] {
      var rest := Printed(lines[1..]);
      assert lines == [lines[0]] + lines[1..];
      PrintedFirst(lines[0], lines[1..]);
      CutAfter(lines[0], '\n', rest);
      PrintedReadsBack(lines[1..]);
      var s := lines[0] + "\n" + rest;
      assert s[..|lines[0]|] == lines[0] && s[|lines[0]| + 1..] == rest;
    }
  }

  lemma {:induction false} JoinedIsOneLine(values: seq<nat>, widths: seq<nat>, seps: seq<char>)
    requires |values| == |widths| == |seps| + 1 && '\n' !in seps
    ensures OneLine(Joined(values, widths, seps))
  {
    if |values| > 1 { JoinedIsOneLine(values[1..], widths[1..], seps[1..]); }
  }

  lemma TextIsOneLine(t: Instant)
    ensures OneLine(Text(t))
  {
    JoinedIsOneLine(Fields(Second(t)), WIDTHS, SEPARATORS);
    FractionIsOneLine(t);
  }

  lemma FractionIsOneLine(t: nat)
    ensures OneLine(FractionText(Fraction(t)))
  {
    assert OneLine(Digits(t % NANOS, 9));
  }

  /** Trimming adds no newline. */
  lemma TrimmedIsOneLine(s: string)
    requires OneLine(s)
    ensures OneLine(TrimSpace(s))
  {
    var left := TrimLeft(s);
    assert forall c :: c in left ==> c in s;
  }

  /** What a row prints of the event is without newlines. */
  predicate OneLineEvent(e: Event) {
    OneLine(e.severity) && OneLine(e.service) && OneLine(TrimSpace(e.summary)) && OneLine(e.last)
  }

  lemma Joins(a: string, b: string)
    ensures OneLine(a + b) <==> OneLine(a) && OneLine(b)
  {
  }

  predicate AllOneLine(parts: seq<string>) {
    forall i :: 0 <= i < |parts| ==> OneLine(parts[i])
  }

  lemma {:induction false} JointIsOneLine(parts: seq<string>)
    ensures OneLine(Joint(parts)) <==> AllOneLine(parts)
  {
    if parts != [] {
      var n := |parts| - 1;
      JointIsOneLine(parts[..n]);
      Joins(Joint(parts[..n]), parts[n]);
      assert AllOneLine(parts) ==> AllOneLine(parts[..n]) && OneLine(parts[n]);
    }
  }

  lemma DecimalIsOneLine(n: nat)
    ensures OneLine(Decimal(n))
  {
    forall i | 0 <= i < |Decimal(n)| ensures Decimal(n)[i] != '\n' { assert IsDigit(Decimal(n)[i]); }
  }

  lemma PartsAreLines(severity: string, service: string, summary: string, total: string, last: string)
    requires OneLine(total)
    ensures
      OneLine(Joint(["- [", severity, "] ", service, ": ", summary,
                     " (", total, " occurrences, last seen ", last, ")"]))
      <==> OneLine(severity) && OneLine(service) && OneLine(summary) && OneLine(last)
  {
    var parts := ["- [", severity, "] ", service, ": ", summary, " (", total, " occurrences, last seen ", last, ")"];
    JointIsOneLine(parts);
    if AllOneLine(parts) {
      assert OneLine(parts[1]) && OneLine(parts[3]) && OneLine(parts[5]) && OneLine(parts[9]);
    }
  }

  lemma OrElseIsLine(text: string, otherwise: string)
    requires OneLine(otherwise)
    ensures OneLine(OrElse(text, otherwise)) <==> OneLine(text)
  {
  }

  lemma RowIsOneLine(e: Event)
    ensures OneLine(RowText(e)) <==> OneLineEvent(e)
  {
    hide TrimSpace, Decimal, Joint, OrElse;
    DecimalIsOneLine(e.total);
    OrElseIsLine(e.service, "unknown-service");
    OrElseIsLine(TrimSpace(e.summary), "No summary yet");
    PartsAreLines(e.severity, OrElse(e.service, "unknown-service"), OrElse(TrimSpace(e.summary), "No summary yet"),
                  Decimal(e.total), e.last);
  }

  lemma HeaderIsLines(kind: Kind, start: Instant, end: Instant)
    requires !kind.OtherKind?
    ensures OneLine(Title(kind)) && OneLine(Period(start, end))
  {
    hide Text;
    Joins("yllmlog ", KindText(kind));
    Joins("yllmlog " + KindText(kind), " report");
    TextIsOneLine(Second(start) * NANOS);
    TextIsOneLine(Second(end) * NANOS);
    PeriodIsLine(SecondText(start), SecondText(end));
  }

  lemma PeriodIsLine(start: string, end: string)
    requires OneLine(start) && OneLine(end)
    ensures OneLine("Period: " + start + " to " + end)
  {
    Joins("Period: ", start);
    Joins("Period: " + start, " to ");
    Joins("Period: " + start + " to ", end);
  }

  /** What is read back is in single lines. */
  lemma {:induction false} CutIsLines(s: string)
    ensures AllOneLine(Cut(s))
    decreases |s|
  {
    var n := CutAt(s, '\n');
    if n < |s| {
      CutIsLines(s[n + 1..]);
    }
  }

  /** Lines are read back as printed exactly if there is no newline in them. */
  lemma ReadsBackIfLines(lines: seq<string>)
    ensures Cut(Printed(lines)) == lines <==> AllOneLine(lines)
  {
    CutIsLines(Printed(lines));
    if AllOneLine(lines) { PrintedReadsBack(lines); }
  }

  lemma ConcatLines(a: seq<string>, b: seq<string>)
    ensures AllOneLine(a + b) <==> AllOneLine(a) && AllOneLine(b)
  {
    if AllOneLine(a + b) {
      forall i | 0 <= i < |a| ensures OneLine(a[i]) { assert (a + b)[i] == a[i]; }
      forall i | 0 <= i < |b| ensures OneLine(b[i]) { assert (a + b)[|a| + i] == b[i]; }
    }
  }

  predicate AllOneLineEvents(rows: seq<Event>) {
    forall j :: 0 <= j < |rows| ==> OneLineEvent(rows[j])
  }

  lemma RowsAreLines(rows: seq<Event>)
    ensures AllOneLine(RowTexts(rows)) <==> AllOneLineEvents(rows)
  {
    forall j | 0 <= j < |rows| ensures OneLine(RowTexts(rows)[j]) <==> OneLineEvent(rows[j]) { RowIsOneLine(rows[j]); }
  }

  lemma NoticeParts()
    ensures NO_EVENTS == "No matching events " + "were recorded " + "during this period."
  {
  }

  lemma NoticeIsLine()
    ensures OneLine(NO_EVENTS)
  {
    NoticeParts();
    var text := "No matching events " + "were recorded " + "during this period.";
    assert OneLine(text);
  }

  lemma ThreeLines(a: string, b: string, c: string)
    ensures AllOneLine([a, b, c]) <==> OneLine(a) && OneLine(b) && OneLine(c)
  {
    var s := [a, b, c];
    assert s[0] == a && s[1] == b && s[2] == c;
  }

  /** A body reads back as its three header lines and then one line for each of its events, in their order, or the
      notice that there is none, exactly if no event prints a newline. */
  lemma ReportReadsBack(kind: Kind, start: Instant, end: Instant, rows: seq<Event>)
    requires !kind.OtherKind?
    ensures Cut(Printed(ReportLines(kind, start, end, rows))) == ReportLines(kind, start, end, rows) <==>
      AllOneLineEvents(rows)
  {
    hide Text, RowText, Title, Period, Printed, Cut;
    var header := [Title(kind), Period(start, end), ""];
    var texts := if rows == [] then [NO_EVENTS] else RowTexts(rows);
    HeaderIsLines(kind, start, end);
    RowsAreLines(rows);
    NoticeIsLine();
    ThreeLines(Title(kind), Period(start, end), "");
    ConcatLines(header, texts);
    ReadsBackIfLines(header + texts);
  }

  /** A service name with a newline inside, which trimming leaves alone, does not read back. */
  lemma InnerNewline(kind: Kind, start: Instant, end: Instant, e: Event)
    requires !kind.OtherKind? && e.service == "disk\narray"
    ensures TrimSpace(e.service) == e.service
    ensures Cut(Printed(ReportLines(kind, start, end, [e]))) != ReportLines(kind, start, end, [e])
  {
    TrimSpaceFixed(e.service);
    assert e.service[4] == '\n';
    assert !OneLineEvent([e][0]);
    ReportReadsBack(kind, start, end, [e]);
  }
}
