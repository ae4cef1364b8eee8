/** The database: its tables as fields, and the statements that internal/logs, internal/events and internal/rules
    run on them, each against its meaning as a function of the tables. */
module Database {
  import opened Clock
  import opened Fates
  import opened LogTables
  import opened Options
  import opened Ordering
  import opened Pipeline
  import opened Strings
  import EventIndex
  import F = Fingerprint
  import TimeTexts

  /** `stat`: no regular file there (or an error), or its identity and size. */
  datatype Stat = NoFile | Regular(ident: Identity, size: nat)

  datatype FileState = FileState(
    id: nat, log: nat, path: string, ident: Identity, size: nat, offset: nat, rotation: Rotation)

  datatype Watched = Watched(id: nat, path: string, service: string, enabled: bool)

  /** What `events.Record` is given. `at` None is Go's zero time. */
  datatype Occurrence = Occurrence(
    logFile: int, service: string, severity: string, summary: string, line: string, at: Option<Instant>)

  /** The clock as one recording sees it: the time it uses when none is given, the time it counts from,
      and the local midnight before that. */
  datatype Readings = Readings(now: Reading, counted: Reading, midnight: Instant)

  function NormalizePath(path: string, clean: string -> string): Option<string> {
    var p := TrimSpace(path);
    if p == "" || p[0] != '/' then None else Some(clean(p))
  }

  /** The occurrence's time printed in UTC, and the two cutoffs its event is counted from. */
  function StampOf(o: Occurrence, r: Readings): EventIndex.Stamp {
    EventIndex.Stamp(Text(if o.at.Some? then o.at.value else r.now), Text(r.midnight), Text(HourBefore(r.counted)))
  }

  /** A recording's time is the occurrence's own or the first reading; its day's cutoff is the midnight read, its hour's
      3600 seconds before the reading it counts from. */
  lemma StampReads(o: Occurrence, r: Readings) returns (hourAgo: Instant)
    ensures var t := StampOf(o, r);
      && t.at == Text(if o.at.Some? then o.at.value else r.now) && t.dayStart == Text(r.midnight)
      && t.hourStart == Text(hourAgo) && hourAgo + 3_600_000_000_000 == r.counted
  {
    hide Text;
    hourAgo := HourBefore(r.counted);
    TimeTexts.SecondBefore(r.counted);
  }

  /** What a recording writes, defaults filled in. */
  function EntryOf(fingerprint: string, o: Occurrence, t: EventIndex.Stamp): EventIndex.Entry {
    EventIndex.Entry(
      fingerprint, if o.logFile > 0 then Some(o.logFile) else None,
      o.service, if o.severity == "" then "unknown" else o.severity, o.summary, o.line, t.at, t.dayStart, t.hourStart)
  }

  function StateOf(id: nat, row: FileRow, rotation: Rotation): FileState {
    FileState(id, row.log, row.path, row.ident, row.size, row.offset, rotation)
  }

  /** How a refresh classifies what it finds at a path under a log. */
  function Classified(t: Logs, log: nat, path: string, id: nat, ident: Identity, size: nat): Rotation {
    if FileFree(t, log, path) || id !in t.files then New else RotationOf(t.files[id], ident, size)
  }

  /** A path under which the log has no file is found new; one of a tracked file unchanged, replaced or truncated by its
      identity and its offset. */
  lemma ClassifiedMeans(t: Logs, log: nat, path: string, id: nat, ident: Identity, size: nat)
    requires RefreshTarget(t, log, path, id) && WellFormed(t)
    ensures var c := Classified(t, log, path, id, ident, size);
      && (c == New <==> forall f :: f in t.files ==> t.files[f].log != log || t.files[f].path != path)
      && (c == Replaced <==> id in t.files && t.files[id].ident != ident)
      && (c == Truncated <==> id in t.files && t.files[id].ident == ident && size < t.files[id].offset)
      && c != Missing
  {
  }

  /** A path is refused if it is nothing but space, or if what is left without it does not begin with a slash. */
  lemma PathRefused(path: string, clean: string -> string)
    ensures NormalizePath(path, clean).None? <==> forall a, b :: !(path == a + "/" + b && AllSpace(a))
  {
    var front, back := TrimSpaceIs(path);
    var p := TrimSpace(path);
    hide TrimSpace;
    if p != "" && p[0] == '/' {
      assert path == front + "/" + (p[1..] + back);
    }
    if a, b :| path == a + "/" + b && AllSpace(a) { SlashFirst(path, front, p, back, a, b); }
  }

  /** And what is watched is the path without the space, cleaned. */
  lemma PathTaken(front: string, p: string, back: string, clean: string -> string)
    requires AllSpace(front) && AllSpace(back) && p != "" && p[0] == '/' && !IsSpace(p[|p| - 1])
    ensures NormalizePath(front + p + back, clean) == Some(clean(p))
  {
    TrimSpaceAround(front, p, back);
  }

  lemma SlashFirst(path: string, front: string, p: string, back: string, a: string, b: string)
    requires path == front + p + back && AllSpace(front) && AllSpace(back) && (p != "" ==> !IsSpace(p[0]))
    requires path == a + "/" + b && AllSpace(a)
    ensures p != "" && p[0] == '/'
  {
    assert path[|a|] == '/' && !IsSpace(path[|a|]);
    assert forall i :: 0 <= i < |front| ==> path[i] == front[i];
    assert forall i :: 0 <= i < |a| ==> path[i] == a[i];
    assert |a| >= |front|;
    SpaceJoins(front, back);
    assert p == "" ==> path == front + back;
    assert p != "" && path[|front|] == p[0];
  }

  lemma SpaceJoins(a: string, b: string)
    requires AllSpace(a) && AllSpace(b)
    ensures AllSpace(a + b)
  {
  }

  /** Each row of the log whose path was not observed, once, as it stands. */
  predicate MissingOf(t: Logs, log: nat, observed: seq<string>, missing: seq<FileState>) {
    && (forall i, j :: 0 <= i < j < |missing| ==> missing[i].id != missing[j].id)
    && (forall i :: 0 <= i < |missing| ==> IsMissing(t, log, observed, missing[i]))
    && (forall id :: id in FilesOf(t, log) && t.files[id].path !in observed ==>
          exists i :: 0 <= i < |missing| && missing[i].id == id)
  }

  predicate IsMissing(t: Logs, log: nat, observed: seq<string>, m: FileState) {
    m.id in t.files && t.files[m.id].log == log && t.files[m.id].path !in observed
      && m == StateOf(m.id, t.files[m.id], Missing)
  }

  /** A recording writes what it is given; a severity left out is unknown, and no file is referred to where none is
      named. */
  lemma RecordingReads(fingerprint: string, o: Occurrence, t: EventIndex.Stamp)
    ensures var e := EntryOf(fingerprint, o, t);
      && e.key == fingerprint && e.service == o.service && e.summary == o.summary && e.line == o.line
      && (o.severity == "" ==> e.severity == "unknown") && (o.severity != "" ==> e.severity == o.severity)
      && (o.logFile <= 0 ==> e.file == None) && (o.logFile > 0 ==> e.file == Some(o.logFile))
      && e.at == t.at && e.dayStart == t.dayStart && e.hourStart == t.hourStart
  {
  }

  // ---- What each statement does to the tables ----

  predicate Added(before: Db, after: Db, path: Option<string>, service: string, id: nat) {
    && path.Some? && AddTarget(before.logs, path.value, id)
    && after == before.(logs := AddLog(before.logs, id, path.value, service))
  }

  predicate Watches(t: Logs, path: Option<string>) {
    path.Some? && !PathFree(t, path.value)
  }

  predicate Removed(before: Db, after: Db, path: Option<string>, id: nat) {
    && id in before.logs.watched && path == Some(before.logs.watched[id].path)
    && after == before.(logs := RemoveLog(before.logs, id),
                        index := EventIndex.Orphan(before.index, FilesOf(before.logs, id)))
  }

  predicate OffsetSet(before: Db, after: Db, fileId: int, offset: int) {
    && fileId > 0 && offset >= 0 && fileId in before.logs.files
    && after == before.(logs := UpdateOffset(before.logs, fileId, offset))
  }

  predicate FileRefreshed(before: Db, after: Db, log: nat, path: string, stat: Stat, id: nat) {
    && stat.Regular? && log in before.logs.watched && RefreshTarget(before.logs, log, path, id)
    && after == before.(logs := RefreshFile(before.logs, log, path, id, stat.ident, stat.size))
  }

  predicate MatchCounted(before: Db, after: Db, rule: int) {
    rule > 0 && after == before.(matches := BumpMatch(before.matches, rule))
  }

  predicate Recorded(before: Db, after: Db, e: EventIndex.Entry) {
    && (e.file.Some? ==> e.file.value in before.logs.files)
    && after == before.(index := EventIndex.Store(before.index, e))
  }

  predicate IsRow(rows: map<nat, WatchedLog>, log: Watched) {
    log.id in rows && log == Watched(log.id, rows[log.id].path, rows[log.id].service, rows[log.id].enabled)
  }

  /** `ORDER BY path`. */
  predicate ByPath(a: Watched, b: Watched) {
    Less(a.path, b.path)
  }

  lemma ByPathIsOrder()
    ensures WeakOrder(ByPath)
  {
    forall a: Watched, b: Watched | ByPath(a, b) ensures !ByPath(b, a) { LessTotal(a.path, b.path); }
    forall a: Watched, b: Watched, c: Watched | !ByPath(b, a) && !ByPath(c, b) ensures !ByPath(c, a) {
      LessTransitive(a.path, b.path, c.path);
    }
  }

  /** `SELECT ... WHERE id = ?`. */
  function RowOf(rows: map<nat, WatchedLog>, id: int): Option<Watched> {
    if id >= 0 && id in rows then Some(Watched(id, rows[id].path, rows[id].service, rows[id].enabled)) else None
  }

  /** Every row, once. */
  predicate ListOf(rows: map<nat, WatchedLog>, logs: seq<Watched>) {
    && (forall i, j :: 0 <= i < j < |logs| ==> logs[i].id != logs[j].id)
    && (forall i :: 0 <= i < |logs| ==> IsRow(rows, logs[i]))
    && (forall id :: id in rows ==> exists i :: 0 <= i < |logs| && logs[i].id == id)
  }

  function Without(rows: map<nat, WatchedLog>, left: set<nat>): map<nat, WatchedLog> {
    map id | id in rows && id !in left :: rows[id]
  }

  lemma ListMore(rows: map<nat, WatchedLog>, logs: seq<Watched>, p: nat, log: Watched, more: map<nat, WatchedLog>)
    requires ListOf(rows, logs) && p <= |logs| && log.id !in rows
    requires more == rows[log.id := WatchedLog(log.path, log.service, log.enabled)]
    ensures ListOf(more, InsertAt(logs, p, log))
  {
    var all := InsertAt(logs, p, log);
    forall i, j | 0 <= i < j < |all| ensures all[i].id != all[j].id {
      InsertedAt(logs, p, log, i);
      InsertedAt(logs, p, log, j);
    }
    forall i | 0 <= i < |all| ensures IsRow(more, all[i]) { InsertedAt(logs, p, log, i); }
    forall id | id in more ensures exists i :: 0 <= i < |all| && all[i].id == id {
      if id != log.id {
        var i :| 0 <= i < |logs| && logs[i].id == id;
        InsertMembers(logs, p, log);
        Somewhere(all, logs[i]);
      } else {
        Somewhere(all, log);
      }
    }
  }

  lemma Somewhere(logs: seq<Watched>, log: Watched)
    requires log in logs
    ensures exists i :: 0 <= i < |logs| && logs[i].id == log.id
  {
    var i :| 0 <= i < |logs| && logs[i] == log;
  }

  // ---- The last insert id ----

  /** A row inserted into some table on a connection of the pool, in a transaction rolled back later or not. */
  datatype Insert = Insert(conn: nat, id: nat)

  /** SQLite's last insert id on a connection: that of its latest insertion, into whatever table; 0 before any. */
  function LastOn(inserts: seq<Insert>, conn: nat): nat {
    if inserts == [] then 0
    else if inserts[|inserts| - 1].conn == conn then inserts[|inserts| - 1].id
    else LastOn(inserts[..|inserts| - 1], conn)
  }

  /** One row more, on some connection. */
  ghost predicate Inserted(before: seq<Insert>, after: seq<Insert>, id: nat) {
    exists conn :: InsertedOn(before, after, conn, id)
  }

  predicate InsertedOn(before: seq<Insert>, after: seq<Insert>, conn: nat, id: nat) {
    after == before + [Insert(conn, id)]
  }

  lemma {:induction false} LastOnAfter(inserts: seq<Insert>, more: seq<Insert>, conn: nat)
    ensures LastOn(inserts + more, conn) ==
      if exists i :: 0 <= i < |more| && more[i].conn == conn then LastOn(more, conn) else LastOn(inserts, conn)
    decreases |more|
  {
    if more == [] {
      assert inserts + more == inserts;
    } else {
      var n := |more| - 1;
      assert (inserts + more)[..|inserts + more| - 1] == inserts + more[..n];
      if more[n].conn == conn {
        assert more[n].conn == conn;
      } else {
        LastOnAfter(inserts, more[..n], conn);
        if i :| 0 <= i < |more| && more[i].conn == conn { assert more[..n][i].conn == conn; }
        if i :| 0 <= i < n && more[..n][i].conn == conn { assert more[i].conn == conn; }
      }
    }
  }

  /** The id whose row an addition tells of: the last insert id, unless there is none. An upsert that updates a row does
      not set it. */
  function ToldId(inserts: seq<Insert>, conn: nat, id: nat): nat {
    if LastOn(inserts, conn) > 0 then LastOn(inserts, conn) else id
  }

  /** Adding a path again on the connection that first inserted its row, as `id`: the row told of is its own if and only
      if the connection has inserted nothing since, or last a row, of whatever table, with the same id. */
  lemma ToldAgain(rows: map<nat, WatchedLog>, before: seq<Insert>, conn: nat, id: nat, since: seq<Insert>)
    requires id > 0 && id in rows && forall i :: 0 <= i < |since| ==> since[i].id > 0
    ensures RowOf(rows, ToldId(before + [Insert(conn, id)] + since, conn, id)) == RowOf(rows, id) <==>
      (forall i :: 0 <= i < |since| ==> since[i].conn != conn) || LastOn(since, conn) == id
  {
    var own := before + [Insert(conn, id)];
    assert own[|own| - 1] == Insert(conn, id);
    LastOnAfter(own, since, conn);
    LastOnFrom(since, conn);
  }

  /** The last insert id is of some insertion on the connection. */
  lemma {:induction false} LastOnFrom(inserts: seq<Insert>, conn: nat)
    requires forall i :: 0 <= i < |inserts| ==> inserts[i].id > 0
    ensures LastOn(inserts, conn) == 0 <==> forall i :: 0 <= i < |inserts| ==> inserts[i].conn != conn
  {
    if inserts != [] { LastOnFrom(inserts[..|inserts| - 1], conn); }
  }

  class Database {
    var watched: map<nat, WatchedLog>
    var files: map<nat, FileRow>
    var lastLog: nat
    var lastFile: nat
    var events: map<string, EventIndex.Event>
    var occurrences: seq<EventIndex.Row>
    var lastEvent: nat
    var matches: map<int, nat>
    /** Every row inserted, on which connection. */
    var inserts: seq<Insert>

    function LogRows(): Logs reads this { Logs(watched, files, lastLog, lastFile) }

    function IndexRows(): EventIndex.Index reads this { EventIndex.Index(events, occurrences, lastEvent) }

    function Tables(): Db reads this { Db(LogRows(), IndexRows(), matches) }

    constructor ()
      ensures Tables() == INIT.db && inserts == []
    {
      watched, files, lastLog, lastFile := map[], map[], 0, 0;
      events, occurrences, lastEvent, matches, inserts := map[], [], 0, map[], [];
    }

    // Each statement is told its fate; `ok` says whether it was carried out and answered.

    // ---- internal/logs/store.go ----

    /** Adds a log, or enables the one that has the path and gives it the service. The row is then looked up by the
        last insert id of the connection. */
    method Add(path: string, service: string, clean: string -> string, conn: nat, fate: Fate)
      returns (row: Option<Watched>, ghost id: nat)
      requires WellFormed(LogRows())
      modifies `watched, `lastLog, `inserts
      ensures inserts == if NormalizePath(path, clean).Some? && !fate.Refused? && id !in old(watched)
        then old(inserts) + [Insert(conn, id)]
        else old(inserts)
      ensures if NormalizePath(path, clean).Some? && !fate.Refused?
        then Added(old(Tables()), Tables(), NormalizePath(path, clean), TrimSpace(service), id)
        else Tables() == old(Tables())
      ensures row == if NormalizePath(path, clean).Some? && fate.Done?
        then RowOf(watched, ToldId(inserts, conn, id))
        else None
    {
      var p := NormalizePath(path, clean);
      if p.None? {
        return None, 0;
      }
      row, id := UpsertLog(p.value, TrimSpace(service), conn, fate);
    }

    method UpsertLog(path: string, service: string, conn: nat, fate: Fate)
      returns (row: Option<Watched>, ghost id: nat)
      requires WellFormed(LogRows())
      modifies `watched, `lastLog, `inserts
      ensures inserts ==
        if !fate.Refused? && id !in old(watched) then old(inserts) + [Insert(conn, id)] else old(inserts)
      ensures if fate.Refused? then Tables() == old(Tables())
        else Added(old(Tables()), Tables(), Some(path), service, id)
      ensures row == if fate.Done?
        then RowOf(watched, ToldId(inserts, conn, id))
        else None
    {
      if fate.Refused? {
        return None, 0;
      }
      var written := lastLog + 1;
      if j :| j in watched && watched[j].path == path {
        written := j;
      } else {
        inserts := inserts + [Insert(conn, written)];
      }
      var last := LastOn(inserts, conn);
      var told := if last > 0 then last else written;
      id := written;
      watched := watched[written := WatchedLog(path, service, true)];
      lastLog := if written > lastLog then written else lastLog;
      row := if fate.Done? then RowOf(watched, told) else None;
    }

    /** Deletes a log with its files; the occurrences lose their reference to them. */
    method Remove(path: string, clean: string -> string, fate: Fate) returns (ok: bool, ghost id: nat)
      modifies `watched, `files, `occurrences
      ensures ok <==> Watches(old(LogRows()), NormalizePath(path, clean)) && fate.Done?
      ensures if Watches(old(LogRows()), NormalizePath(path, clean)) && !fate.Refused?
        then Removed(old(Tables()), Tables(), NormalizePath(path, clean), id)
        else Tables() == old(Tables())
    {
      var p := NormalizePath(path, clean);
      if p.None? {
        return false, 0;
      }
      ok, id := DeleteLog(p.value, fate);
    }

    method DeleteLog(path: string, fate: Fate) returns (ok: bool, ghost id: nat)
      modifies `watched, `files, `occurrences
      ensures ok <==> !PathFree(old(LogRows()), path) && fate.Done?
      ensures if PathFree(old(LogRows()), path) || fate.Refused? then Tables() == old(Tables())
        else Removed(old(Tables()), Tables(), Some(path), id)
    {
      if fate.Refused? {
        return false, 0;
      }
      if j :| j in watched && watched[j].path == path {
        var gone := FilesOf(LogRows(), j);
        occurrences := EventIndex.Orphan(IndexRows(), gone).rows;
        watched, files := watched - {j}, files - gone;
        return fate.Done?, j;
      }
      return false, 0;
    }

    /** The watched logs, by path. */
    method List() returns (logs: seq<Watched>)
      ensures ListOf(watched, logs) && InOrder(ByPath, logs)
    {
      var left := watched.Keys;
      logs := [];
      while left != {}
        invariant left <= watched.Keys && InOrder(ByPath, logs)
        invariant ListOf(Without(watched, left), logs)
        decreases left
      {
        var id :| id in left;
        var log := Watched(id, watched[id].path, watched[id].service, watched[id].enabled);
        ByPathIsOrder();
        PlaceKeepsOrder(ByPath, logs, log);
        ListMore(Without(watched, left), logs, Place(ByPath, logs, log), log, Without(watched, left - {id}));
        logs := InsertAt(logs, Place(ByPath, logs, log), log);
        left := left - {id};
      }
      assert Without(watched, left) == watched;
    }

    // ---- internal/logs/files.go ----

    method UpdateOffset(fileId: int, offset: int, fate: Fate) returns (ok: bool)
      modifies `files
      ensures ok <==> fileId > 0 && offset >= 0 && fileId in old(files) && fate.Done?
      ensures if fileId > 0 && offset >= 0 && fileId in old(files) && !fate.Refused?
        then OffsetSet(old(Tables()), Tables(), fileId, offset)
        else Tables() == old(Tables())
    {
      if fileId <= 0 || offset < 0 {
        return false;
      }
      if fate.Refused? || fileId !in files {
        return false;
      }
      files := files[fileId := files[fileId].(offset := offset)];
      return fate.Done?;
    }

    /** Looks the path up under its log and writes what was found there, judging rotation. */
    method RefreshFile(log: nat, path: string, stat: Stat, fate: Fate) returns (state: Option<FileState>, ghost id: nat)
      requires WellFormed(LogRows())
      modifies `files, `lastFile, `inserts
      ensures state.Some? <==> stat.Regular? && log in watched && fate.Done?
      ensures if stat.Regular? && log in watched && !fate.Refused?
        then FileRefreshed(old(Tables()), Tables(), log, path, stat, id) && id in files
        else Tables() == old(Tables())
      ensures state.Some? ==>
        state.value == StateOf(id, files[id], Classified(old(LogRows()), log, path, id, stat.ident, stat.size))
    {
      id := 0;
      if stat.NoFile? {
        return None, 0;
      }
      if j :| j in files && files[j].log == log && files[j].path == path {
        id := j;
        var current := files[j];
        var rotation, offset := NoRotation, current.offset;
        if current.ident != stat.ident {
          rotation, offset := Replaced, 0;
        } else if stat.size < current.offset {
          rotation, offset := Truncated, 0;
        }
        if fate.Refused? {
          return None, j;
        }
        files := files[j := current.(ident := stat.ident, size := stat.size, offset := offset)];
        return if fate.Done? then Some(StateOf(j, files[j], rotation)) else None, j;
      }
      state, id := InsertFile(log, path, stat, fate);
    }

    method InsertFile(log: nat, path: string, stat: Stat, fate: Fate) returns (state: Option<FileState>, ghost id: nat)
      requires WellFormed(LogRows()) && stat.Regular? && FileFree(LogRows(), log, path)
      modifies `files, `lastFile, `inserts
      ensures if log in watched && !fate.Refused? then Inserted(old(inserts), inserts, id) else inserts == old(inserts)
      ensures state.Some? <==> log in watched && fate.Done?
      ensures if log in watched && !fate.Refused?
        then FileRefreshed(old(Tables()), Tables(), log, path, stat, id) && id in files
        else Tables() == old(Tables())
      ensures state.Some? ==> state.value == StateOf(id, files[id], New)
    {
      id := 0;
      if fate.Refused? || log !in watched {
        return None, 0;
      }
      var row := lastFile + 1;
      files := files[row := NewFileRow(log, path, stat.ident, stat.size)];
      lastFile := row;
      LeaveId(row);
      return if fate.Done? then Some(StateOf(row, files[row], New)) else None, row;
    }

    /** The tracked files of the log that were not observed. */
    method MissingFiles(log: nat, observed: seq<string>) returns (missing: seq<FileState>)
      ensures MissingOf(LogRows(), log, observed, missing)
    {
      var seen: set<string> := {};
      for i := 0 to |observed|
        invariant forall p :: p in seen <==> p in observed[..i]
      {
        seen := seen + {observed[i]};
      }
      assert observed[..|observed|] == observed;
      var rows := FilesOf(LogRows(), log);
      missing := [];
      while rows != {}
        invariant rows <= FilesOf(LogRows(), log)
        invariant forall i, j :: 0 <= i < j < |missing| ==> missing[i].id != missing[j].id
        invariant forall i :: 0 <= i < |missing| ==>
                    IsMissing(LogRows(), log, observed, missing[i]) && missing[i].id !in rows
        invariant forall id :: id in FilesOf(LogRows(), log) - rows && files[id].path !in observed ==>
                    exists i :: 0 <= i < |missing| && missing[i].id == id
        decreases rows
      {
        var id :| id in rows;
        ghost var before := missing;
        if files[id].path !in seen {
          missing := missing + [StateOf(id, files[id], Missing)];
          assert missing[|before|].id == id;
        }
        assert forall i :: 0 <= i < |before| ==> missing[i] == before[i];
        rows := rows - {id};
      }
    }

    // ---- internal/rules/performance.go ----

    method RecordMatch(ruleId: int, fate: Fate) returns (ok: bool)
      modifies `matches, `inserts
      ensures ok <==> ruleId > 0 && fate.Done?
      ensures if ruleId > 0 && !fate.Refused? && ruleId !in old(matches) then Inserted(old(inserts), inserts, ruleId)
        else inserts == old(inserts)
      ensures if ruleId > 0 && !fate.Refused? then MatchCounted(old(Tables()), Tables(), ruleId)
        else Tables() == old(Tables())
    {
      if ruleId <= 0 {
        return false;
      }
      if fate.Refused? {
        return false;
      }
      if ruleId in matches {
        matches := matches[ruleId := matches[ruleId] + 1];
      } else {
        matches := matches[ruleId := 1];
        LeaveId(ruleId);
      }
      return fate.Done?;
    }

    // ---- internal/events/store.go ----

    method Record(hash: string -> string, o: Occurrence, r: Readings, fate: Fate)
      returns (ok: bool, ghost t: EventIndex.Stamp)
      modifies `events, `occurrences, `lastEvent, `inserts
      ensures t == StampOf(o, r)
      ensures ok <==> (o.logFile > 0 ==> o.logFile in files) && fate.Done?
      ensures if (o.logFile > 0 ==> o.logFile in files) && !fate.Refused?
        then Recorded(old(Tables()), Tables(), EntryOf(F.Fingerprint(hash, o.service, o.line), o, t))
        else Tables() == old(Tables())
    {
      var stamp := StampOf(o, r);
      ok := Transact(EntryOf(F.Fingerprint(hash, o.service, o.line), o, stamp), fate);
      t := stamp;
    }

    /** The recording transaction: the event is made if its fingerprint is new, the occurrence inserted,
        and the event's counters taken again. */
    method Transact(e: EventIndex.Entry, fate: Fate) returns (ok: bool)
      modifies `events, `occurrences, `lastEvent, `inserts
      ensures ok <==> (e.file.Some? ==> e.file.value in files) && fate.Done?
      ensures if (e.file.Some? ==> e.file.value in files) && !fate.Refused?
        then Recorded(old(Tables()), Tables(), e)
        else Tables() == old(Tables())
    {
      var tx := EventIndex.UpsertEvent(IndexRows(), e);  // the transaction's view, thrown away by a rollback
      if e.file.Some? && e.file.value !in files {
        return false;
      }
      tx := InsertOccurrence(tx, e);
      RecordingStores(IndexRows(), e);
      tx := UpdateCounters(tx, e.key, e.dayStart, e.hourStart);
      Commit(tx, fate);
      return fate.Done?;
    }

    method Commit(tx: EventIndex.Index, fate: Fate)
      modifies `events, `occurrences, `lastEvent, `inserts
      ensures Tables() == if fate.Refused? then old(Tables()) else old(Tables()).(index := tx)
    {
      if !fate.Refused? {
        events, occurrences, lastEvent := tx.events, tx.rows, tx.lastEvent;
        LeaveId(|tx.rows|);
      } else if * {
        LeaveId(|tx.rows|);
      }
    }

    /** The pool decides. */
    method AnyConnection() returns (conn: nat) {
      conn := *;
    }

    /** An insertion leaves its id on whichever connection made it. */
    method LeaveId(id: nat)
      modifies `inserts
      ensures Inserted(old(inserts), inserts, id)
    {
      var conn := AnyConnection();
      inserts := inserts + [Insert(conn, id)];
      assert InsertedOn(old(inserts), inserts, conn, id);
    }
  }

  // ---- An addition that tells of another row ----

  method AddNew(db: Database, path: string, service: string, clean: string -> string, conn: nat)
    requires WellFormed(db.LogRows()) && PathFree(db.LogRows(), path)
    requires NormalizePath(path, clean) == Some(path) && TrimSpace(service) == service
    modifies db
    ensures WellFormed(db.LogRows()) && db.lastLog == old(db.lastLog) + 1 == LastOn(db.inserts, conn)
    ensures db.watched == old(db.watched)[db.lastLog := WatchedLog(path, service, true)]
  {
    hide NormalizePath, TrimSpace;
    ghost var before := db.LogRows();
    var row, id := db.Add(path, service, clean, conn, Done);
    AddKeepsWellFormed(before, id, path, service);
    hide WellFormed;
    assert db.LogRows() == AddLog(before, id, path, service);
  }

  /** A path added again: the row told of is that of the connection's last insert id, whatever it is. */
  method AddKnown(db: Database, path: string, service: string, clean: string -> string, conn: nat)
    returns (row: Option<Watched>)
    requires WellFormed(db.LogRows()) && !PathFree(db.LogRows(), path) && LastOn(db.inserts, conn) > 0
    requires NormalizePath(path, clean) == Some(path) && TrimSpace(service) == service
    modifies db
    ensures row == RowOf(db.watched, old(LastOn(db.inserts, conn)))
    ensures forall id :: id in old(db.watched) && old(db.watched)[id].path != path ==>
      id in db.watched && db.watched[id] == old(db.watched)[id]
  {
    hide NormalizePath, TrimSpace, WellFormed, LastOn, RowOf;
    ghost var id;
    row, id := db.Add(path, service, clean, conn, Done);
    assert id in old(db.watched);
  }

  /** Two logs are added on one connection, and then the first again: the row told of is the second's. */
  method AddAgain(a: string, b: string, service: string, clean: string -> string) returns (row: Option<Watched>)
    requires NormalizePath(a, clean) == Some(a) && NormalizePath(b, clean) == Some(b) && a != b
    requires TrimSpace(service) == service
    ensures row == Some(Watched(2, b, service, true))
  {
    hide NormalizePath, TrimSpace, WellFormed, LastOn;
    var db := new Database();
    EmptyIsWellFormed(db.LogRows());
    AddNew(db, a, service, clean, 0);
    AddNew(db, b, service, clean, 0);
    assert db.watched[1].path == a && db.watched[2].path == b;
    row := AddKnown(db, a, service, clean, 0);
  }

  lemma EmptyIsWellFormed(t: Logs)
    requires t == EMPTY
    ensures WellFormed(t)
  {
  }

  // ---- The statements of the recording transaction ----

  /** `INSERT INTO event_occurrences`, under the id just looked up. */
  function InsertOccurrence(tx: EventIndex.Index, e: EventIndex.Entry): (r: EventIndex.Index)
    requires e.key in tx.events
    ensures r.events == tx.events
  {
    tx.(rows := tx.rows + [EventIndex.Row(tx.events[e.key].id, e.file, e.at, e.line)])
  }

  /** `UPDATE events SET first_seen_at = (SELECT MIN ...), ...`. */
  function UpdateCounters(tx: EventIndex.Index, key: string, dayStart: string, hourStart: string): EventIndex.Index
    requires key in tx.events && EventIndex.Times(tx.rows, tx.events[key].id) != []
  {
    var event := tx.events[key];
    tx.(events := tx.events[key := EventIndex.Counted(event, EventIndex.Times(tx.rows, event.id), dayStart, hourStart)])
  }

  /** One after another they make the index's step. */
  lemma RecordingStores(idx: EventIndex.Index, e: EventIndex.Entry)
    ensures var tx := InsertOccurrence(EventIndex.UpsertEvent(idx, e), e);
      && EventIndex.Times(tx.rows, tx.events[e.key].id) != []
      && UpdateCounters(tx, e.key, e.dayStart, e.hourStart) == EventIndex.Store(idx, e)
  {
    var event := EventIndex.UpsertEvent(idx, e).events[e.key];
    EventIndex.TimesAppend(idx.rows, EventIndex.Row(event.id, e.file, e.at, e.line), event.id);
  }
}
