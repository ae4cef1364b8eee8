/** What processing lines does to the tables when nothing interferes, as a function of the tables. */
module Intake {
  import opened LogTables
  import opened Pipeline
  import opened Reader
  import EventIndex

  function MatchesAfter(v: Verdict, matches: map<int, nat>): map<int, nat> {
    if v.Unmatched? then matches else BumpMatch(matches, v.rule)
  }

  function IndexAfter(w: World, file: nat, service: string, text: string, index: EventIndex.Index, t: EventIndex.Stamp)
    : EventIndex.Index
  {
    match w.verdict(service, text)
    case Raised(_, severity) =>
      EventIndex.Store(index, LineEntry(w, file, service, text, severity, t.at, t.dayStart, t.hourStart))
    case _ => index
  }

  /** One line: its match counted, its event recorded, its end committed. */
  function AfterLine(w: World, file: nat, service: string, line: Line, t: EventIndex.Stamp, db: Db): (after: Db)
    requires file in db.logs.files
    ensures file in after.logs.files
  {
    Db(UpdateOffset(db.logs, file, line.end),
       IndexAfter(w, file, service, line.text, db.index, t),
       MatchesAfter(w.verdict(service, line.text), db.matches))
  }

  function AfterLines(w: World, file: nat, service: string, lines: seq<Line>, ts: seq<EventIndex.Stamp>, db: Db)
    : (after: Db)
    requires file in db.logs.files && |ts| == |lines|
    ensures file in after.logs.files
  {
    if lines == [] then db else
      var n := |lines| - 1;
      AfterLine(w, file, service, lines[n], ts[n], AfterLines(w, file, service, lines[..n], ts[..n], db))
  }

  lemma AfterOneMore(w: World, file: nat, service: string, lines: seq<Line>, ts: seq<EventIndex.Stamp>, db: Db,
                     line: Line, t: EventIndex.Stamp)
    requires file in db.logs.files && |ts| == |lines|
    ensures AfterLines(w, file, service, lines + [line], ts + [t], db) ==
      AfterLine(w, file, service, line, t, AfterLines(w, file, service, lines, ts, db))
  {
    assert (lines + [line])[..|lines|] == lines && (ts + [t])[..|ts|] == ts;
  }

  /** Of the log tables, processing lines moves one offset: to the end of the last of them. */
  lemma {:induction false} AfterLinesLogs(w: World, file: nat, service: string, lines: seq<Line>,
                                          ts: seq<EventIndex.Stamp>, db: Db)
    requires file in db.logs.files && |ts| == |lines|
    ensures AfterLines(w, file, service, lines, ts, db).logs ==
      UpdateOffset(db.logs, file, if lines == [] then db.logs.files[file].offset else lines[|lines| - 1].end)
  {
    if lines != [] {
      var n := |lines| - 1;
      AfterLinesLogs(w, file, service, lines[..n], ts[..n], db);
    } else {
      assert db.logs.files[file].(offset := db.logs.files[file].offset) == db.logs.files[file];
    }
  }

  /** One undisturbed poll of one path: its row refreshed, then the lines past the row's offset taken in. */
  predicate Polled(w: World, d: OnDisk, log: nat, path: string, service: string, id: nat, ts: seq<EventIndex.Stamp>,
                   a: Db, b: Db)
  {
    && log in a.logs.watched && RefreshTarget(a.logs, log, path, id)
    && var mid := a.(logs := RefreshFile(a.logs, log, path, id, d.ident, |d.bytes|));
       var lines := LinesFrom(d.bytes, mid.logs.files[id].offset);
       |ts| == |lines| && b == AfterLines(w, id, service, lines, ts, mid)
  }
}
