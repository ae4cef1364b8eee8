/** However a byte stream is cut into appends and polls, what is taken in is the same, times apart. */
module Batches {
  import opened EventIndex
  import opened Files
  import opened Intake
  import opened LogTables
  import opened Pipeline
  import opened Processor
  import opened Reader
  import opened Strings

  // ---- The tables' parts, line by line ----

  function IndexOver(w: World, file: nat, service: string, lines: seq<Line>, ts: seq<Stamp>, index: Index): Index
    requires |ts| == |lines|
  {
    if lines == [] then index else
      var n := |lines| - 1;
      IndexAfter(w, file, service, lines[n].text, IndexOver(w, file, service, lines[..n], ts[..n], index), ts[n])
  }

  function MatchesOver(w: World, service: string, lines: seq<Line>, matches: map<int, nat>): map<int, nat> {
    if lines == [] then matches else
      var n := |lines| - 1;
      MatchesAfter(w.verdict(service, lines[n].text), MatchesOver(w, service, lines[..n], matches))
  }

  /** Where the last line ends, or the start if there is none. */
  function EndOf(lines: seq<Line>, start: nat): nat {
    if lines == [] then start else lines[|lines| - 1].end
  }

  lemma {:induction false} AfterLinesParts(w: World, file: nat, service: string, lines: seq<Line>, ts: seq<Stamp>,
                                           db: Db)
    requires file in db.logs.files && |ts| == |lines|
    ensures AfterLines(w, file, service, lines, ts, db) ==
      Db(UpdateOffset(db.logs, file, EndOf(lines, db.logs.files[file].offset)),
         IndexOver(w, file, service, lines, ts, db.index), MatchesOver(w, service, lines, db.matches))
  {
    AfterLinesLogs(w, file, service, lines, ts, db);
    if lines != [] {
      var n := |lines| - 1;
      AfterLinesParts(w, file, service, lines[..n], ts[..n], db);
    }
  }

  lemma {:induction false} IndexOverConcat(w: World, file: nat, service: string, a: seq<Line>, ts: seq<Stamp>,
                                           b: seq<Line>, us: seq<Stamp>, index: Index)
    requires |ts| == |a| && |us| == |b|
    ensures IndexOver(w, file, service, a + b, ts + us, index) ==
      IndexOver(w, file, service, b, us, IndexOver(w, file, service, a, ts, index))
    decreases |b|
  {
    if b == [] {
      assert a + b == a && ts + us == ts;
    } else {
      var n := |b| - 1;
      assert (a + b)[..|a + b| - 1] == a + b[..n] && (ts + us)[..|a + b| - 1] == ts + us[..n];
      IndexOverConcat(w, file, service, a, ts, b[..n], us[..n], index);
    }
  }

  lemma {:induction false} MatchesOverConcat(w: World, service: string, a: seq<Line>, b: seq<Line>,
                                             matches: map<int, nat>)
    ensures MatchesOver(w, service, a + b, matches) == MatchesOver(w, service, b, MatchesOver(w, service, a, matches))
    decreases |b|
  {
    if b == [] {
      assert a + b == a;
    } else {
      var n := |b| - 1;
      assert (a + b)[..|a + b| - 1] == a + b[..n];
      MatchesOverConcat(w, service, a, b[..n], matches);
    }
  }

  // ---- Times do not matter to the rest ----

  predicate SameRow(r: Row, q: Row) {
    r.event == q.event && r.file == q.file && r.line == q.line
  }

  predicate SameRows(a: seq<Row>, b: seq<Row>) {
    |a| == |b| && forall i :: 0 <= i < |a| ==> SameRow(a[i], b[i])
  }

  predicate SameEvent(e: Event, f: Event) {
    e.id == f.id && e.service == f.service && e.severity == f.severity && e.summary == f.summary && e.total == f.total
  }

  predicate SameEvents(a: map<string, Event>, b: map<string, Event>) {
    a.Keys == b.Keys && forall k :: k in a ==> SameEvent(a[k], b[k])
  }

  /** Equal but for times and what is counted from times. */
  predicate SameButTimes(a: Index, b: Index) {
    SameRows(a.rows, b.rows) && SameEvents(a.events, b.events) && a.lastEvent == b.lastEvent
  }

  lemma {:induction false} SameCount(a: seq<Row>, b: seq<Row>, event: nat)
    requires SameRows(a, b)
    ensures |Times(a, event)| == |Times(b, event)|
  {
    if a != [] {
      var n := |a| - 1;
      assert SameRow(a[n], b[n]);
      SameCount(a[..n], b[..n], event);
    }
  }

  predicate SameEntry(e: Entry, f: Entry) {
    e.key == f.key && e.file == f.file && e.service == f.service && e.severity == f.severity
      && e.summary == f.summary && e.line == f.line
  }

  lemma StoreRows(idx: Index, e: Entry)
    ensures Store(idx, e).rows == idx.rows + [Row(UpsertEvent(idx, e).events[e.key].id, e.file, e.at, e.line)]
    ensures Store(idx, e).lastEvent == UpsertEvent(idx, e).lastEvent
  {
  }

  lemma StoreEvents(idx: Index, e: Entry)
    ensures Store(idx, e).events.Keys == idx.events.Keys + {e.key}
    ensures forall k :: k in idx.events && k != e.key ==> Store(idx, e).events[k] == idx.events[k]
  {
  }

  lemma StoredEvent(idx: Index, e: Entry)
    ensures var u, s := UpsertEvent(idx, e).events[e.key], Store(idx, e);
      && e.key in s.events
      && SameEvent(s.events[e.key], u.(total := |Times(s.rows, u.id)|))
  {
  }

  lemma SameUpsert(a: Index, b: Index, e: Entry, f: Entry)
    requires SameButTimes(a, b) && SameEntry(e, f)
    ensures SameEvent(UpsertEvent(a, e).events[e.key], UpsertEvent(b, f).events[f.key])
    ensures UpsertEvent(a, e).lastEvent == UpsertEvent(b, f).lastEvent
  {
    if e.key in a.events { assert SameEvent(a.events[e.key], b.events[e.key]); }
  }

  lemma SameStore(a: Index, b: Index, e: Entry, f: Entry)
    requires SameButTimes(a, b) && SameEntry(e, f)
    ensures SameButTimes(Store(a, e), Store(b, f))
  {
    var id := UpsertEvent(a, e).events[e.key].id;
    SameUpsert(a, b, e, f);
    StoreRows(a, e);
    StoreRows(b, f);
    StoredEvent(a, e);
    StoredEvent(b, f);
    StoreEvents(a, e);
    StoreEvents(b, f);
    hide Store, UpsertEvent, Times, SameEvents, SameRows;
    var s, t := Store(a, e), Store(b, f);
    SameRowsAppend(a.rows, b.rows, s.rows[|a.rows|], t.rows[|a.rows|]);
    SameCount(s.rows, t.rows, id);
    SameEventsWith(a.events, b.events, s.events, t.events, e.key);
  }

  lemma SameEventsWith(a: map<string, Event>, b: map<string, Event>, c: map<string, Event>, d: map<string, Event>,
                       key: string)
    requires SameEvents(a, b) && c.Keys == a.Keys + {key} && d.Keys == b.Keys + {key} && SameEvent(c[key], d[key])
    requires forall k :: k in a && k != key ==> c[k] == a[k]
    requires forall k :: k in b && k != key ==> d[k] == b[k]
    ensures SameEvents(c, d)
  {
    forall k | k in c ensures SameEvent(c[k], d[k]) {
      if k != key { assert SameEvent(a[k], b[k]); }
    }
  }

  lemma SameRowsAppend(a: seq<Row>, b: seq<Row>, r: Row, q: Row)
    requires SameRows(a, b) && SameRow(r, q)
    ensures SameRows(a + [r], b + [q])
  {
  }

  lemma {:induction false} SameOver(w: World, file: nat, service: string, lines: seq<Line>, ts: seq<Stamp>,
                                    us: seq<Stamp>, index: Index)
    requires |ts| == |us| == |lines|
    ensures SameButTimes(IndexOver(w, file, service, lines, ts, index), IndexOver(w, file, service, lines, us, index))
  {
    if lines != [] {
      var n := |lines| - 1;
      SameOver(w, file, service, lines[..n], ts[..n], us[..n], index);
      hide Store, SameButTimes, TrimSpace;
      var v, text, t, u := w.verdict(service, lines[n].text), lines[n].text, ts[n], us[n];
      if v.Raised? {
        SameStore(IndexOver(w, file, service, lines[..n], ts[..n], index),
                  IndexOver(w, file, service, lines[..n], us[..n], index),
                  LineEntry(w, file, service, text, v.severity, t.at, t.dayStart, t.hourStart),
                  LineEntry(w, file, service, text, v.severity, u.at, u.dayStart, u.hourStart));
      }
    }
  }

  // ---- One poll ----

  /** Where a poll starts to read, given what it finds. */
  function From(t: Logs, id: nat, ident: Identity, size: nat): nat {
    if id in t.files then RefreshedRow(t.files[id], ident, size).offset else 0
  }

  /** The tables with these lines taken in from `a` at some times, the file now `size` bytes long. */
  predicate TakenIn(w: World, file: nat, row: FileRow, service: string, lines: seq<Line>, ts: seq<Stamp>, from: nat,
                    a: Db, b: Db)
  {
    && |ts| == |lines|
    && b.logs == a.logs.(files := a.logs.files[file := row.(offset := EndOf(lines, from))],
                         lastFile := if file > a.logs.lastFile then file else a.logs.lastFile)
    && b.index == IndexOver(w, file, service, lines, ts, a.index)
    && b.matches == MatchesOver(w, service, lines, a.matches)
  }

  /** A poll keeps the tables' constraints. */
  lemma PollKeeps(w: World, d: OnDisk, log: nat, path: string, service: string, id: nat, ts: seq<Stamp>, a: Db, b: Db)
    requires WellFormed(a.logs) && Polled(w, d, log, path, service, id, ts, a, b)
    ensures WellFormed(b.logs)
  {
    var mid := a.(logs := LogTables.RefreshFile(a.logs, log, path, id, d.ident, |d.bytes|));
    var lines := LinesFrom(d.bytes, mid.logs.files[id].offset);
    RefreshKeepsWellFormed(a.logs, log, path, id, d.ident, |d.bytes|);
    AfterLinesLogs(w, id, service, lines, ts, mid);
    UpdateKeepsWellFormed(mid.logs, id, if lines == [] then mid.logs.files[id].offset else lines[|lines| - 1].end);
  }

  /** The row a refresh leaves. */
  lemma RefreshedIs(t: Logs, log: nat, path: string, id: nat, ident: Identity, size: nat)
    requires RefreshTarget(t, log, path, id) && WellFormed(t)
    ensures LogTables.RefreshFile(t, log, path, id, ident, size).files[id]
      == FileRow(log, path, ident, size, From(t, id, ident, size))
  {
    RefreshWithin(t, log, path, id, ident, size);
  }

  lemma OnePoll(w: World, d: OnDisk, log: nat, path: string, service: string, id: nat, ts: seq<Stamp>, a: Db, b: Db)
    requires WellFormed(a.logs) && Polled(w, d, log, path, service, id, ts, a, b)
    ensures var from := From(a.logs, id, d.ident, |d.bytes|);
      TakenIn(w, id, FileRow(log, path, d.ident, |d.bytes|, 0), service, LinesFrom(d.bytes, from), ts, from, a, b)
  {
    RefreshedIs(a.logs, log, path, id, d.ident, |d.bytes|);
    hide WellFormed, RefreshTarget;
    var mid := a.(logs := LogTables.RefreshFile(a.logs, log, path, id, d.ident, |d.bytes|));
    AfterLinesParts(w, id, service, LinesFrom(d.bytes, mid.logs.files[id].offset), ts, mid);
  }

  /** Lines of a longer stream: those of the shorter, then those from where they end. */
  lemma GrownLines(bytes: string, more: string, from: nat)
    ensures LinesFrom(bytes + more, from) ==
      LinesFrom(bytes, from) + LinesFrom(bytes + more, EndOf(LinesFrom(bytes, from), from))
  {
    var a, c := LinesFrom(bytes, from), LinesFrom(bytes + more, from);
    AppendExtends(bytes, more, from);
    if a != [] {
      Reread(bytes + more, from, |a| - 1);
      assert c == a + c[|a|..];
    }
  }

  lemma EndWithin(bytes: string, from: nat)
    requires from <= |bytes|
    ensures EndOf(LinesFrom(bytes, from), from) <= |bytes|
  {
    var ls := LinesFrom(bytes, from);
    LineLaws(bytes, from);
    if ls != [] {
      assert LineAt(bytes, Start(ls, from, |ls| - 1), ls[|ls| - 1]);
    }
  }

  lemma TakenInOn(w: World, file: nat, row: FileRow, service: string, a: seq<Line>, ts: seq<Stamp>, from: nat,
                  db: Db, mid: Db,
                  b: seq<Line>, us: seq<Stamp>, more: FileRow, after: Db)
    requires TakenIn(w, file, row, service, a, ts, from, db, mid)
    requires TakenIn(w, file, more, service, b, us, EndOf(a, from), mid, after)
    ensures TakenIn(w, file, more, service, a + b, ts + us, from, db, after)
  {
    IndexOverConcat(w, file, service, a, ts, b, us, db.index);
    MatchesOverConcat(w, service, a, b, db.matches);
  }

  // ---- Polling a growing file ----

  /** A file of this identity at a log's path, under the log's service. */
  datatype Tail = Tail(log: nat, path: string, service: string, ident: Identity)

  function RowAt(t: Tail, bytes: string): FileRow {
    FileRow(t.log, t.path, t.ident, |bytes|, 0)
  }

  /** Some undisturbed poll of the file, when it holds these bytes. */
  ghost predicate PolledAs(w: World, t: Tail, bytes: string, a: Db, b: Db) {
    exists d, id, ts :: PollOf(w, t, d, bytes, id, ts, a, b)
  }

  predicate PollOf(w: World, t: Tail, d: OnDisk, bytes: string, id: nat, ts: seq<Stamp>, a: Db, b: Db) {
    d.ident == t.ident && d.bytes == bytes && Polled(w, d, t.log, t.path, t.service, id, ts, a, b)
  }

  /** Each is the one before it with something appended, or nothing. */
  predicate Growing(contents: seq<string>) {
    forall i, j :: 0 <= i < j < |contents| ==> contents[i] <= contents[j]
  }

  /** A poll at each of these contents. */
  ghost predicate PolledEach(w: World, t: Tail, contents: seq<string>, dbs: seq<Db>) {
    && |dbs| == |contents| + 1
    && forall k :: 0 <= k < |contents| ==> PolledAs(w, t, contents[k], dbs[k], dbs[k + 1])
  }

  /** The first poll does not find the file cut short. */
  predicate NotCut(logs: Logs, t: Tail, size: nat) {
    forall id :: id in logs.files && SameFile(logs.files[id], RowAt(t, "")) && logs.files[id].ident == t.ident ==>
      logs.files[id].offset <= size
  }

  /** The row a poll takes in is the one for its path. */
  lemma SameTarget(logs: Logs, log: nat, path: string, i: nat, j: nat)
    requires WellFormed(logs) && RefreshTarget(logs, log, path, i) && RefreshTarget(logs, log, path, j)
    ensures i == j
  {
    if !FileFree(logs, log, path) { assert SameFile(logs.files[i], logs.files[j]); }
  }

  /** A later poll of a grown file goes on where the earlier ended. */
  lemma GoesOn(w: World, t: Tail, a: Db, mid: Db, bytes: string, more: string, id: nat, from: nat, ts: seq<Stamp>,
               j: nat)
    requires WellFormed(mid.logs) && RefreshTarget(mid.logs, t.log, t.path, j) && from <= |bytes|
    requires TakenIn(w, id, RowAt(t, bytes), t.service, LinesFrom(bytes, from), ts, from, a, mid)
    ensures j == id && From(mid.logs, j, t.ident, |bytes + more|) == EndOf(LinesFrom(bytes, from), from)
  {
    EndWithin(bytes, from);
    assert SameFile(mid.logs.files[id], mid.logs.files[j]);
  }

  /** Not cut short, a file is read from the same place however much longer it is found. */
  lemma FromStays(logs: Logs, t: Tail, id: nat, size: nat, some: nat, more: nat)
    requires RefreshTarget(logs, t.log, t.path, id) && NotCut(logs, t, size) && WellFormed(logs)
    requires size <= some <= more
    ensures From(logs, id, t.ident, some) == From(logs, id, t.ident, more) <= some
  {
  }

  /** A poll takes in the lines past where it starts to read. */
  predicate TookFrom(w: World, t: Tail, bytes: string, id: nat, ts: seq<Stamp>, a: Db, b: Db) {
    var from := From(a.logs, id, t.ident, |bytes|);
    TakenIn(w, id, RowAt(t, bytes), t.service, LinesFrom(bytes, from), ts, from, a, b)
  }

  lemma FirstPoll(w: World, t: Tail, d: OnDisk, bytes: string, a: Db, b: Db, id: nat, j: nat, us: seq<Stamp>)
    requires PollOf(w, t, d, bytes, j, us, a, b) && WellFormed(a.logs) && RefreshTarget(a.logs, t.log, t.path, id)
    ensures WellFormed(b.logs) && TookFrom(w, t, bytes, id, us, a, b)
  {
    SameTarget(a.logs, t.log, t.path, id, j);
    OnePoll(w, d, t.log, t.path, t.service, j, us, a, b);
    PollKeeps(w, d, t.log, t.path, t.service, j, us, a, b);
  }

  lemma OneMorePoll(w: World, t: Tail, d: OnDisk, bytes: string, more: string, first: Db, mid: Db, last: Db, id: nat,
                    j: nat, ts: seq<Stamp>, us: seq<Stamp>) returns (all: seq<Stamp>)
    requires PollOf(w, t, d, bytes + more, j, us, mid, last) && WellFormed(mid.logs)
    requires TookFrom(w, t, bytes, id, ts, first, mid)
    requires From(first.logs, id, t.ident, |bytes|) == From(first.logs, id, t.ident, |bytes + more|) <= |bytes|
    ensures WellFormed(last.logs) && TookFrom(w, t, bytes + more, id, all, first, last)
  {
    var from := From(first.logs, id, t.ident, |bytes|);
    GoesOn(w, t, first, mid, bytes, more, id, from, ts, j);
    FirstPoll(w, t, d, bytes + more, mid, last, j, j, us);
    GrownLines(bytes, more, from);
    var here := EndOf(LinesFrom(bytes, from), from);
    TakenInOn(w, id, RowAt(t, bytes), t.service, LinesFrom(bytes, from), ts, from, first, mid,
              LinesFrom(bytes + more, here), us, RowAt(t, bytes + more), last);
    all := ts + us;
  }

  lemma AllButLast(w: World, t: Tail, contents: seq<string>, dbs: seq<Db>)
    requires |contents| > 1 && Growing(contents) && PolledEach(w, t, contents, dbs)
    ensures var n := |contents| - 1;
      && Growing(contents[..n]) && PolledEach(w, t, contents[..n], dbs[..n + 1])
      && contents[0] <= contents[n - 1] <= contents[n]
  {
    hide PolledAs;
    var n := |contents| - 1;
    forall k | 0 <= k < n ensures PolledAs(w, t, contents[..n][k], dbs[..n + 1][k], dbs[..n + 1][k + 1]) {
      assert PolledAs(w, t, contents[k], dbs[k], dbs[k + 1]);
    }
  }

  lemma LastPoll(w: World, t: Tail, contents: seq<string>, dbs: seq<Db>) returns (d: OnDisk, j: nat, us: seq<Stamp>)
    requires contents != [] && PolledEach(w, t, contents, dbs)
    ensures var n := |contents| - 1; PollOf(w, t, d, contents[n], j, us, dbs[n], dbs[n + 1])
  {
    hide PollOf;
    var n := |contents| - 1;
    assert PolledAs(w, t, contents[n], dbs[n], dbs[n + 1]);
    d, j, us :| PollOf(w, t, d, contents[n], j, us, dbs[n], dbs[n + 1]);
  }

  /** Polls of a growing file, one after another, take in what it holds in the end. */
  lemma {:induction false} EachPoll(w: World, t: Tail, contents: seq<string>, dbs: seq<Db>, id: nat)
    returns (ts: seq<Stamp>)
    requires contents != [] && Growing(contents) && PolledEach(w, t, contents, dbs) && WellFormed(dbs[0].logs)
    requires NotCut(dbs[0].logs, t, |contents[0]|) && RefreshTarget(dbs[0].logs, t.log, t.path, id)
    ensures WellFormed(dbs[|contents|].logs)
    ensures TookFrom(w, t, contents[|contents| - 1], id, ts, dbs[0], dbs[|contents|])
    decreases |contents|
  {
    var n := |contents| - 1;
    var d, j, us := LastPoll(w, t, contents, dbs);
    hide *;
    if n == 0 {
      ts := us;
      FirstPoll(w, t, d, contents[0], dbs[0], dbs[1], id, j, us);
    } else {
      AllButLast(w, t, contents, dbs);
      hide PolledEach;
      ts := EachPoll(w, t, contents[..n], dbs[..n + 1], id);
      var bytes, more := contents[n - 1], contents[n][|contents[n - 1]|..];
      assert bytes + more == contents[n];
      FromStays(dbs[0].logs, t, id, |contents[0]|, |bytes|, |contents[n]|);
      ts := OneMorePoll(w, t, d, bytes, more, dbs[0], dbs[n], dbs[n + 1], id, j, ts, us);
    }
  }

  /** Batch independence: polls of a growing file, the first of which may find it new or replaced, end as one poll of it
      as it is in the end: same rows, offset and size, same match counts, same occurrence lines in the same order, same
      events and totals. */
  lemma BatchIndependence(w: World, t: Tail, contents: seq<string>, dbs: seq<Db>, once: Db)
    requires contents != [] && Growing(contents) && PolledEach(w, t, contents, dbs) && WellFormed(dbs[0].logs)
    requires NotCut(dbs[0].logs, t, |contents[0]|)
    requires PolledAs(w, t, contents[|contents| - 1], dbs[0], once)
    ensures SameOutcome(dbs[|contents|], once)
  {
    var bytes := contents[|contents| - 1];
    var d, id, us :| PollOf(w, t, d, bytes, id, us, dbs[0], once);
    var ts := EachPoll(w, t, contents, dbs, id);
    OnePoll(w, d, t.log, t.path, t.service, id, us, dbs[0], once);
    SameOver(w, id, t.service, LinesFrom(bytes, From(dbs[0].logs, id, t.ident, |bytes|)), ts, us, dbs[0].index);
  }

  /** The same rows, match counts, occurrences and events, times apart. */
  predicate SameOutcome(a: Db, b: Db) {
    a.logs == b.logs && a.matches == b.matches && SameButTimes(a.index, b.index)
  }

  // ---- Cycles ----

  /** Only this log is enabled, under this service, and it stands for one path, where these bytes are. */
  predicate OneFile(s: State, globs: (string, string) -> bool, t: Tail, bytes: string) {
    && Sole(s.db.logs, t.log) && s.db.logs.watched[t.log].service == t.service
    && Expansion(s.disk, globs, s.db.logs.watched[t.log].path) == {t.path}
    && t.path in s.disk && s.disk[t.path].ident == t.ident && s.disk[t.path].bytes == bytes
  }

  lemma CyclePolls(w: World, a: State, globs: (string, string) -> bool, t: Tail, bytes: string, b: Db)
    requires OneFile(a, globs, t, bytes) && SolePolled(w, a, globs, b, t.log)
    ensures PolledAs(w, t, bytes, a.db, b)
  {
    var p, id, ts :| p in a.disk && Stands(globs, a.db.logs.watched[t.log].path, p)
      && Polled(w, a.disk[p], t.log, p, t.service, id, ts, a.db, b);
    assert p in Expansion(a.disk, globs, a.db.logs.watched[t.log].path);
    assert PollOf(w, t, a.disk[p], bytes, id, ts, a.db, b);
  }

  /** A cycle that is left alone, from these tables to those, while the file holds these bytes. */
  ghost predicate CycleOf(w: World, globs: (string, string) -> bool, t: Tail, s: State, bytes: string, a: Db, b: Db) {
    s.db == a && OneFile(s, globs, t, bytes) && SolePolled(w, s, globs, b, t.log)
  }

  /** Batch independence of cycles: one at each of these contents, or one at the last. */
  lemma CyclesAreBatchIndependent(w: World, globs: (string, string) -> bool, t: Tail, contents: seq<string>,
                                  starts: seq<State>, dbs: seq<Db>, start: State, once: Db)
    requires contents != [] && Growing(contents) && |starts| == |contents| && |dbs| == |contents| + 1
    requires WellFormed(dbs[0].logs) && NotCut(dbs[0].logs, t, |contents[0]|)
    requires forall k :: 0 <= k < |contents| ==> CycleOf(w, globs, t, starts[k], contents[k], dbs[k], dbs[k + 1])
    requires CycleOf(w, globs, t, start, contents[|contents| - 1], dbs[0], once)
    ensures SameOutcome(dbs[|contents|], once)
  {
    forall k | 0 <= k < |contents| ensures PolledAs(w, t, contents[k], dbs[k], dbs[k + 1]) {
      assert CycleOf(w, globs, t, starts[k], contents[k], dbs[k], dbs[k + 1]);
      CyclePolls(w, starts[k], globs, t, contents[k], dbs[k + 1]);
    }
    CyclePolls(w, start, globs, t, contents[|contents| - 1], once);
    BatchIndependence(w, t, contents, dbs, once);
  }
}
