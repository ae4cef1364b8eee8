/** The tables `watched_logs` and `log_files`, and the statements of internal/logs on them as functions. */
module LogTables {

  /** Device and inode, as text. */
  datatype Identity = Identity(device: string, inode: string)

  datatype WatchedLog = WatchedLog(path: string, service: string, enabled: bool)

  datatype FileRow = FileRow(log: nat, path: string, ident: Identity, size: nat, offset: nat)

  /** Both tables by primary key, and the AUTOINCREMENT counters: no id is handed out twice. */
  datatype Logs = Logs(watched: map<nat, WatchedLog>, files: map<nat, FileRow>, lastLog: nat, lastFile: nat)

  const EMPTY := Logs(map[], map[], 0, 0)

  datatype Rotation = NoRotation | New | Missing | Replaced | Truncated

  predicate SameFile(r: FileRow, q: FileRow) {
    r.log == q.log && r.path == q.path
  }

  /** The schema's constraints: primary keys, unique paths, the foreign key to `watched_logs`. */
  predicate WellFormed(t: Logs) {
    && (forall id :: id in t.watched ==> 1 <= id <= t.lastLog)
    && (forall id :: id in t.files ==> 1 <= id <= t.lastFile)
    && (forall id :: id in t.files ==> t.files[id].log in t.watched)
    && (forall i, j :: i in t.watched && j in t.watched && t.watched[i].path == t.watched[j].path ==> i == j)
    && (forall i, j :: i in t.files && j in t.files && SameFile(t.files[i], t.files[j]) ==> i == j)
  }

  predicate PathFree(t: Logs, path: string) {
    forall id :: id in t.watched ==> t.watched[id].path != path
  }

  predicate FileFree(t: Logs, log: nat, path: string) {
    forall id :: id in t.files ==> !(t.files[id].log == log && t.files[id].path == path)
  }

  /** The row an `INSERT ... ON CONFLICT(path)` writes: the one holding the path, or the next new one. */
  predicate AddTarget(t: Logs, path: string, id: nat) {
    if PathFree(t, path) then id == t.lastLog + 1 else id in t.watched && t.watched[id].path == path
  }

  function AddLog(t: Logs, id: nat, path: string, service: string): Logs {
    t.(watched := t.watched[id := WatchedLog(path, service, true)],
       lastLog := if id > t.lastLog then id else t.lastLog)
  }

  function FilesOf(t: Logs, log: nat): set<nat> {
    set id | id in t.files && t.files[id].log == log
  }

  /** `DELETE FROM watched_logs`, cascading to `log_files`. */
  function RemoveLog(t: Logs, id: nat): Logs {
    t.(watched := t.watched - {id}, files := t.files - FilesOf(t, id))
  }

  /** How `refreshFile` classifies what it finds at a tracked path. */
  function RotationOf(row: FileRow, ident: Identity, size: nat): Rotation {
    if row.ident != ident then Replaced
    else if size < row.offset then Truncated
    else NoRotation
  }

  function RefreshedRow(row: FileRow, ident: Identity, size: nat): FileRow {
    row.(ident := ident, size := size, offset := if RotationOf(row, ident, size).NoRotation? then row.offset else 0)
  }

  function NewFileRow(log: nat, path: string, ident: Identity, size: nat): FileRow {
    FileRow(log, path, ident, size, 0)
  }

  /** The row a refresh of `path` under `log` writes: the tracked one, or the next new one. */
  predicate RefreshTarget(t: Logs, log: nat, path: string, id: nat) {
    if FileFree(t, log, path) then id == t.lastFile + 1
    else id in t.files && t.files[id].log == log && t.files[id].path == path
  }

  function RefreshFile(t: Logs, log: nat, path: string, id: nat, ident: Identity, size: nat): Logs {
    var row := if id in t.files then RefreshedRow(t.files[id], ident, size) else NewFileRow(log, path, ident, size);
    t.(files := t.files[id := row], lastFile := if id > t.lastFile then id else t.lastFile)
  }

  function UpdateOffset(t: Logs, id: nat, offset: nat): Logs
    requires id in t.files
  {
    t.(files := t.files[id := t.files[id].(offset := offset)])
  }

  // ---- The constraints are kept ----

  lemma AddKeepsWellFormed(t: Logs, id: nat, path: string, service: string)
    requires WellFormed(t) && AddTarget(t, path, id)
    ensures WellFormed(AddLog(t, id, path, service))
  {
  }

  lemma RemoveKeepsWellFormed(t: Logs, id: nat)
    requires WellFormed(t)
    ensures WellFormed(RemoveLog(t, id))
  {
  }

  lemma RefreshKeepsWellFormed(t: Logs, log: nat, path: string, id: nat, ident: Identity, size: nat)
    requires WellFormed(t) && log in t.watched && RefreshTarget(t, log, path, id)
    ensures WellFormed(RefreshFile(t, log, path, id, ident, size))
  {
    var n := RefreshFile(t, log, path, id, ident, size);
    assert n.files[id].log == log && n.files[id].path == path;
  }

  lemma UpdateKeepsWellFormed(t: Logs, id: nat, offset: nat)
    requires WellFormed(t) && id in t.files
    ensures WellFormed(UpdateOffset(t, id, offset))
  {
  }

  /** Adding a path leaves it with one row, enabled and under the service given, whichever it had before: its own if it
      was watched, a new one if not. Nothing else changes. */
  lemma AddedRow(t: Logs, id: nat, path: string, service: string)
    requires WellFormed(t) && AddTarget(t, path, id)
    ensures var n := AddLog(t, id, path, service);
      && id in n.watched && n.watched[id].path == path && n.watched[id].service == service && n.watched[id].enabled
      && (forall j :: j in n.watched && n.watched[j].path == path ==> j == id)
      && (forall j :: j in t.watched && t.watched[j].path == path ==> j == id)
      && (forall j :: j != id ==> (j in n.watched <==> j in t.watched))
      && (forall j :: j in t.watched && j != id ==> n.watched[j] == t.watched[j])
      && n.files == t.files && n.lastFile == t.lastFile && t.lastLog <= n.lastLog
  {
  }

  /** A tracked file is found replaced if and only if it has another identity, truncated if and only if it has its own
      and is shorter than the offset. */
  lemma RotationMeans(row: FileRow, ident: Identity, size: nat)
    ensures var r := RotationOf(row, ident, size);
      && (r == Replaced <==> row.ident != ident)
      && (r == Truncated <==> row.ident == ident && row.offset > size)
      && (r == NoRotation <==> row.ident == ident && row.offset <= size)
      && r != New && r != Missing
  {
  }

  /** After a refresh the offset lies within the size observed, and it is the old one or zero;
      zero unless the file still has its identity and has not shrunk below the offset. */
  lemma RefreshedOffset(row: FileRow, ident: Identity, size: nat)
    ensures var r := RefreshedRow(row, ident, size);
      && r.offset <= r.size == size
      && r.offset == (if ident == row.ident && row.offset <= size then row.offset else 0)
  {
  }

  /** The row a refresh writes is the path's row under its log, as observed, its offset within its size. */
  lemma RefreshWithin(t: Logs, log: nat, path: string, id: nat, ident: Identity, size: nat)
    requires WellFormed(t) && RefreshTarget(t, log, path, id)
    ensures var r := RefreshFile(t, log, path, id, ident, size).files[id];
      id >= 1 && r.log == log && r.path == path && r.ident == ident && r.offset <= r.size == size
  {
    if id in t.files { RefreshedOffset(t.files[id], ident, size); }
  }
}
