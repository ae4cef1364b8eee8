/** internal/events/store.go: the event table as an index over the occurrence table. */
module EventIndex {
  import opened Options
  import opened Strings
  import Sums

  datatype Event = Event(
    id: nat, service: string, severity: string, summary: string,
    first: string, last: string, total: nat, today: nat, lastHour: nat)

  /** A row of `event_occurrences`; `file` is null when no log file is referenced. */
  datatype Row = Row(event: nat, file: Option<nat>, at: string, line: string)

  /** The tables `events` (by their unique fingerprint) and `event_occurrences`. */
  datatype Index = Index(events: map<string, Event>, rows: seq<Row>, lastEvent: nat)

  /** What one recording transaction writes: the fingerprint and the stored columns,
      and the two cutoffs its counters are taken against. */
  datatype Entry = Entry(
    key: string, file: Option<nat>, service: string, severity: string, summary: string, line: string,
    at: string, dayStart: string, hourStart: string)

  /** The texts a recording takes from the clock. */
  datatype Stamp = Stamp(at: string, dayStart: string, hourStart: string)

  const EMPTY := Index(map[], [], 0)

  /** The times of an event's occurrences, in the order they were stored. */
  function Times(rows: seq<Row>, event: nat): seq<string> {
    if rows == [] then [] else
      var n := |rows| - 1;
      Times(rows[..n], event) + if rows[n].event == event then [rows[n].at] else []
  }

  lemma TimesAppend(rows: seq<Row>, row: Row, event: nat)
    ensures Times(rows + [row], event) == Times(rows, event) + if row.event == event then [row.at] else []
  {
    assert (rows + [row])[..|rows|] == rows;
  }

  /** `MIN` in byte order. */
  function MinText(ts: seq<string>): string
    requires ts != []
  {
    var n := |ts| - 1;
    if n == 0 then ts[0] else
      var m := MinText(ts[..n]);
      if Less(ts[n], m) then ts[n] else m
  }

  /** `MAX` in byte order. */
  function MaxText(ts: seq<string>): string
    requires ts != []
  {
    var n := |ts| - 1;
    if n == 0 then ts[0] else
      var m := MaxText(ts[..n]);
      if Less(m, ts[n]) then ts[n] else m
  }

  /** `COUNT(*)` of the times at or after a cutoff. */
  function CountFrom(ts: seq<string>, cutoff: string): nat {
    if ts == [] then 0 else
      CountFrom(ts[..|ts| - 1], cutoff) + if Less(ts[|ts| - 1], cutoff) then 0 else 1
  }

  /** `INSERT INTO events ... ON CONFLICT(fingerprint) DO NOTHING`. */
  function UpsertEvent(idx: Index, e: Entry): Index {
    if e.key in idx.events then idx else
      var event := Event(idx.lastEvent + 1, e.service, e.severity, e.summary, e.at, e.at, 0, 0, 0);
      idx.(events := idx.events[e.key := event], lastEvent := idx.lastEvent + 1)
  }

  /** The row `updateCounters` leaves, given all the event's times. */
  function Counted(event: Event, ts: seq<string>, dayStart: string, hourStart: string): Event
    requires ts != []
  {
    event.(first := MinText(ts), last := MaxText(ts), total := |ts|,
           today := CountFrom(ts, dayStart), lastHour := CountFrom(ts, hourStart))
  }

  /** The recording transaction: upsert the event, insert the occurrence, recount. */
  function Store(idx: Index, e: Entry): Index {
    var upserted := UpsertEvent(idx, e);
    var event := upserted.events[e.key];
    var row := Row(event.id, e.file, e.at, e.line);
    TimesAppend(idx.rows, row, event.id);
    var ts := Times(idx.rows + [row], event.id);
    upserted.(rows := idx.rows + [row], events := upserted.events[e.key := Counted(event, ts, e.dayStart, e.hourStart)])
  }

  // ---- What the index should say, from the history of recordings ----

  function FirstEntry(history: seq<Entry>, key: string): Option<Entry> {
    if history == [] then None else
      var n := |history| - 1;
      var before := FirstEntry(history[..n], key);
      if before.Some? then before else if history[n].key == key then Some(history[n]) else None
  }

  function LatestEntry(history: seq<Entry>, key: string): Option<Entry> {
    if history == [] then None else
      var n := |history| - 1;
      if history[n].key == key then Some(history[n]) else LatestEntry(history[..n], key)
  }

  predicate IsMin(m: string, ts: seq<string>) {
    m in ts && forall t :: t in ts ==> !Less(t, m)
  }

  predicate IsMax(m: string, ts: seq<string>) {
    m in ts && forall t :: t in ts ==> !Less(m, t)
  }

  /** What the event row of `key` must say: counts and extremes of its occurrences, windows by its latest
      recording, service, severity and summary from its first. */
  predicate EventAgrees(event: Event, key: string, rows: seq<Row>, history: seq<Entry>) {
    var ts := Times(rows, event.id);
    var first, latest := FirstEntry(history, key), LatestEntry(history, key);
    && event.total == |ts|
    && IsMin(event.first, ts) && IsMax(event.last, ts)
    && first.Some? && latest.Some?
    && event.today == CountFrom(ts, latest.value.dayStart)
    && event.lastHour == CountFrom(ts, latest.value.hourStart)
    && event.service == first.value.service
    && event.severity == first.value.severity
    && event.summary == first.value.summary
  }

  /** The file reference may later become null, when its log is removed. */
  predicate RowAgrees(row: Row, e: Entry, events: map<string, Event>) {
    e.key in events && row.event == events[e.key].id && row.at == e.at && row.line == e.line
  }

  predicate DistinctIds(idx: Index) {
    && (forall k :: k in idx.events ==> 1 <= idx.events[k].id <= idx.lastEvent)
    && (forall k, l :: k in idx.events && l in idx.events && k != l ==> idx.events[k].id != idx.events[l].id)
  }

  function Totals(events: map<string, Event>): map<string, nat> {
    map k | k in events :: events[k].total
  }

  predicate RowsAgree(idx: Index, history: seq<Entry>) {
    && |idx.rows| == |history|
    && forall i :: 0 <= i < |history| ==> RowAgrees(idx.rows[i], history[i], idx.events)
  }

  predicate EventsAgree(idx: Index, history: seq<Entry>) {
    forall k :: k in idx.events ==> EventAgrees(idx.events[k], k, idx.rows, history)
  }

  /** The index agrees with the whole history of recordings. */
  ghost predicate Agrees(idx: Index, history: seq<Entry>) {
    && DistinctIds(idx)
    && RowsAgree(idx, history)
    && EventsAgree(idx, history)
    && Sums.Sum(Totals(idx.events)) == |idx.rows|
  }

  // ---- Every recording keeps the agreement ----

  lemma {:induction false} MinIsMin(ts: seq<string>)
    requires ts != []
    ensures IsMin(MinText(ts), ts)
  {
    var n := |ts| - 1;
    if n > 0 {
      MinIsMin(ts[..n]);
      forall t | t in ts ensures !Less(t, MinText(ts)) {
        LessTotal(ts[n], MinText(ts[..n]));
        LessTotal(ts[n], ts[n]);
        if t in ts[..n] && Less(ts[n], MinText(ts[..n])) {
          LessTransitive(ts[n], MinText(ts[..n]), t);
        }
      }
    } else {
      LessTotal(ts[0], ts[0]);
    }
  }

  lemma {:induction false} MaxIsMax(ts: seq<string>)
    requires ts != []
    ensures IsMax(MaxText(ts), ts)
  {
    var n := |ts| - 1;
    if n > 0 {
      MaxIsMax(ts[..n]);
      forall t | t in ts ensures !Less(MaxText(ts), t) {
        LessTotal(ts[n], MaxText(ts[..n]));
        LessTotal(ts[n], ts[n]);
        if t in ts[..n] && Less(MaxText(ts[..n]), ts[n]) {
          LessTransitive(t, MaxText(ts[..n]), ts[n]);
        }
      }
    } else {
      LessTotal(ts[0], ts[0]);
    }
  }

  lemma EntriesAppend(history: seq<Entry>, e: Entry, key: string)
    ensures FirstEntry(history + [e], key) ==
      if FirstEntry(history, key).Some? then FirstEntry(history, key) else if e.key == key then Some(e) else None
    ensures LatestEntry(history + [e], key) == if e.key == key then Some(e) else LatestEntry(history, key)
  {
    assert (history + [e])[..|history|] == history;
  }

  lemma {:induction false} NeverRecorded(history: seq<Entry>, key: string)
    requires forall i :: 0 <= i < |history| ==> history[i].key != key
    ensures FirstEntry(history, key).None?
  {
    if history != [] {
      NeverRecorded(history[..|history| - 1], key);
    }
  }

  lemma {:induction false} NoTimes(rows: seq<Row>, event: nat)
    requires forall i :: 0 <= i < |rows| ==> rows[i].event != event
    ensures Times(rows, event) == []
  {
    if rows != [] {
      NoTimes(rows[..|rows| - 1], event);
    }
  }

  /** What the transaction changes: one event row and one new occurrence. */
  lemma StoreFrame(idx: Index, e: Entry)
    ensures var s := Store(idx, e);
      && |s.rows| == |idx.rows| + 1 && s.rows[..|idx.rows|] == idx.rows
      && s.rows[|idx.rows|] == Row(s.events[e.key].id, e.file, e.at, e.line)
      && s.events == idx.events[e.key := s.events[e.key]]
      && s.events[e.key].id == (if e.key in idx.events then idx.events[e.key].id else idx.lastEvent + 1)
      && s.lastEvent == (if e.key in idx.events then idx.lastEvent else idx.lastEvent + 1)
  {
  }

  lemma StoreKeepsRows(idx: Index, history: seq<Entry>, e: Entry)
    requires DistinctIds(idx) && RowsAgree(idx, history)
    ensures DistinctIds(Store(idx, e)) && RowsAgree(Store(idx, e), history + [e])
  {
    StoreFrame(idx, e);
    var s := Store(idx, e);
    var n := |history|;
    forall i | 0 <= i < n + 1 ensures RowAgrees(s.rows[i], (history + [e])[i], s.events) {
      if i < n {
        assert RowAgrees(idx.rows[i], history[i], idx.events);
        assert s.rows[i] == s.rows[..n][i];
      }
    }
  }

  /** An event other than the recorded one is untouched, and so is what is counted for it. */
  lemma StoreKeepsOthers(idx: Index, history: seq<Entry>, e: Entry, key: string)
    requires DistinctIds(idx) && key in idx.events && key != e.key
    requires EventAgrees(idx.events[key], key, idx.rows, history)
    ensures var s := Store(idx, e);
      s.events[key] == idx.events[key] && EventAgrees(s.events[key], key, s.rows, history + [e])
  {
    StoreFrame(idx, e);
    var s := Store(idx, e);
    assert s.rows == idx.rows + [s.rows[|idx.rows|]];
    TimesAppend(idx.rows, s.rows[|idx.rows|], idx.events[key].id);
    assert Times(s.rows, idx.events[key].id) == Times(idx.rows, idx.events[key].id);
    EntriesAppend(history, e, key);
  }

  lemma StoreCountsRecorded(idx: Index, history: seq<Entry>, e: Entry)
    requires DistinctIds(idx) && RowsAgree(idx, history)
    requires e.key in idx.events ==> EventAgrees(idx.events[e.key], e.key, idx.rows, history)
    ensures var s := Store(idx, e);
      && EventAgrees(s.events[e.key], e.key, s.rows, history + [e])
      && s.events[e.key].total == 1 + if e.key in idx.events then idx.events[e.key].total else 0
  {
    var s := Store(idx, e);
    var id := UpsertEvent(idx, e).events[e.key].id;
    TimesAppend(idx.rows, s.rows[|idx.rows|], id);
    EntriesAppend(history, e, e.key);
    if e.key !in idx.events {
      forall i | 0 <= i < |history| ensures history[i].key != e.key && idx.rows[i].event != id {
        assert RowAgrees(idx.rows[i], history[i], idx.events);
      }
      NeverRecorded(history, e.key);
      NoTimes(idx.rows, id);
    }
    var ts := Times(s.rows, id);
    MinIsMin(ts);
    MaxIsMax(ts);
  }

  lemma SumGrows(events: map<string, Event>, key: string, event: Event)
    requires event.total == 1 + if key in events then events[key].total else 0
    ensures Sums.Sum(Totals(events[key := event])) == Sums.Sum(Totals(events)) + 1
  {
    Sums.SumUpdate(Totals(events), key, event.total);
    assert Totals(events[key := event]) == Totals(events)[key := event.total];
  }

  lemma StoreKeepsAgreement(idx: Index, history: seq<Entry>, e: Entry)
    requires Agrees(idx, history)
    ensures Agrees(Store(idx, e), history + [e])
  {
    var s := Store(idx, e);
    StoreKeepsRows(idx, history, e);
    StoreCountsRecorded(idx, history, e);
    StoreFrame(idx, e);
    SumGrows(idx.events, e.key, s.events[e.key]);
    StoreKeepsEvents(idx, history, e);
  }

  lemma StoreKeepsEvents(idx: Index, history: seq<Entry>, e: Entry)
    requires DistinctIds(idx) && RowsAgree(idx, history) && EventsAgree(idx, history)
    ensures EventsAgree(Store(idx, e), history + [e])
  {
    var s := Store(idx, e);
    StoreFrame(idx, e);
    forall k | k in s.events ensures EventAgrees(s.events[k], k, s.rows, history + [e]) {
      if k == e.key { StoreCountsRecorded(idx, history, e); } else { StoreKeepsOthers(idx, history, e, k); }
    }
  }

  /** Two recorded occurrences share an event exactly when their fingerprints are equal. */
  lemma SameEventIffSameKey(idx: Index, history: seq<Entry>, i: nat, j: nat)
    requires DistinctIds(idx) && RowsAgree(idx, history) && i < |history| && j < |history|
    ensures idx.rows[i].event == idx.rows[j].event <==> history[i].key == history[j].key
  {
    assert RowAgrees(idx.rows[i], history[i], idx.events) && RowAgrees(idx.rows[j], history[j], idx.events);
  }

  // ---- Removing a log ----

  /** `ON DELETE SET NULL` on the occurrences of deleted log files. */
  function Orphan(idx: Index, gone: set<nat>): Index {
    idx.(rows := seq(|idx.rows|, i requires 0 <= i < |idx.rows| => OrphanRow(idx.rows[i], gone)))
  }

  function OrphanRow(row: Row, gone: set<nat>): Row {
    if row.file.Some? && row.file.value in gone then row.(file := None) else row
  }

  lemma {:induction false} OrphanKeepsTimes(rows: seq<Row>, orphaned: seq<Row>, event: nat)
    requires |rows| == |orphaned|
    requires forall i :: 0 <= i < |rows| ==> orphaned[i].event == rows[i].event && orphaned[i].at == rows[i].at
    ensures Times(orphaned, event) == Times(rows, event)
  {
    if rows != [] {
      OrphanKeepsTimes(rows[..|rows| - 1], orphaned[..|rows| - 1], event);
    }
  }

  lemma OrphanKeepsEvents(idx: Index, history: seq<Entry>, gone: set<nat>)
    requires EventsAgree(idx, history)
    ensures EventsAgree(Orphan(idx, gone), history)
  {
    var o := Orphan(idx, gone);
    forall k | k in idx.events ensures EventAgrees(o.events[k], k, o.rows, history) {
      OrphanKeepsTimes(idx.rows, o.rows, idx.events[k].id);
    }
  }

  /** Occurrences outlive their log, and the index still agrees with the history. */
  lemma OrphanKeepsAgreement(idx: Index, history: seq<Entry>, gone: set<nat>)
    requires Agrees(idx, history)
    ensures Agrees(Orphan(idx, gone), history)
  {
    OrphanKeepsEvents(idx, history, gone);
    var o := Orphan(idx, gone);
    forall i | 0 <= i < |history| ensures RowAgrees(o.rows[i], history[i], o.events) {
      assert RowAgrees(idx.rows[i], history[i], idx.events);
    }
  }
}
