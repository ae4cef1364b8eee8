/** internal/logs/files.go: the files of one watched log, found, refreshed and accounted for. */
module Files {
  import opened Database
  import opened LogTables
  import opened Machine
  import opened Options
  import opened Ordering
  import opened Pipeline
  import opened Reader
  import opened Strings

  predicate HasGlobMeta(path: string) {
    '*' in path || '?' in path || '[' in path
  }

  /** A watched path stands for itself, or, if it is a pattern, for what matches it. */
  predicate Stands(globs: (string, string) -> bool, path: string, p: string) {
    if HasGlobMeta(path) then globs(path, p) else p == path
  }

  /** The paths on disk that a watched path stands for. */
  function Expansion(disk: map<string, OnDisk>, globs: (string, string) -> bool, path: string): set<string> {
    set p | p in disk && Stands(globs, path, p)
  }

  /** A path with an asterisk, a question mark or an opening bracket in it stands for what on disk it matches; any other
      for itself, if it is there. */
  lemma ExpansionIs(disk: map<string, OnDisk>, globs: (string, string) -> bool, path: string)
    ensures (exists a, b :: path == a + "*" + b || path == a + "?" + b || path == a + "[" + b) ==>
      forall p :: p in Expansion(disk, globs, path) <==> p in disk && globs(path, p)
    ensures (forall i :: 0 <= i < |path| ==> path[i] != '*' && path[i] != '?' && path[i] != '[') ==>
      Expansion(disk, globs, path) == if path in disk then {path} else {}
  {
    if a, b :| path == a + "*" + b || path == a + "?" + b || path == a + "[" + b {
      assert path[|a|] == '*' || path[|a|] == '?' || path[|a|] == '[';
    }
  }

  lemma LessIsOrder()
    ensures WeakOrder(Less)
  {
    forall a: string, b: string | Less(a, b) ensures !Less(b, a) { LessTotal(a, b); }
    forall a: string, b: string, c: string | !Less(b, a) && !Less(c, b) ensures !Less(c, a) { LessTransitive(a, b, c); }
  }

  /** What the path stands for on disk, each once, in order; it may fail. */
  method ExpandPath(host: Host, path: string) returns (paths: Option<seq<string>>)
    ensures host.quiet ==> paths.Some?
    ensures paths.Some? ==> Distinct(paths.value) && InOrder(Less, paths.value)
    ensures paths.Some? ==> forall p :: p in paths.value <==> p in Expansion(host.disk, host.globs, path)
  {
    var fails := host.Fails();
    if fails {
      return None;
    }
    var left, found := Expansion(host.disk, host.globs, path), [];
    while left != {}
      invariant left <= Expansion(host.disk, host.globs, path)
      invariant forall p :: p in found <==> p in Expansion(host.disk, host.globs, path) - left
      invariant Distinct(found) && InOrder(Less, found)
      decreases left
    {
      var p :| p in left;
      var at := Place(Less, found, p);
      LessIsOrder();
      PlaceKeepsOrder(Less, found, p);
      InsertDistinct(found, at, p);
      InsertMembers(found, at, p);
      found, left := InsertAt(found, at, p), left - {p};
    }
    return Some(found);
  }

  // ---- One file ----

  predicate IsHeld(s: State, service: string, file: FileState) {
    file.id in s.held && s.held[file.id] == Held(service, file.path, file.offset)
  }

  /** The file's row, while it is tracked, is as told; and it is tracked as long as its log is watched. */
  predicate Told(s: State, file: FileState, kept: set<nat>) {
    && (file.id in s.db.logs.files ==> file == StateOf(file.id, s.db.logs.files[file.id], file.rotation))
    && (file.log in kept ==> file.id in s.db.logs.files)
  }

  /** A refresh's answer: the file's state under its log, its offset within its size, and it waits to be read. */
  predicate Refreshed(s: State, log: nat, service: string, path: string, file: FileState, kept: set<nat>) {
    && file.id >= 1 && file.log == log && file.path == path && file.offset <= file.size && !file.rotation.Missing?
    && IsHeld(s, service, file) && Told(s, file, kept)
  }

  /** Others leave a row as it was told, or take it away with its log. */
  lemma ToldOn(a: State, b: State, file: FileState, other: nat, kept: set<nat>, still: set<nat>)
    requires Told(a, file, kept) && still <= kept && Spared(a, b, other, still) && other != file.id
    ensures Told(b, file, still)
  {
  }

  lemma LeftAloneSpares(a: State, b: State, other: nat, kept: set<nat>)
    requires LeftAlone(a, b, kept)
    ensures Spared(a, b, other, kept)
  {
  }

  /** A refresh writes one row, of its own log, and no other's. */
  lemma RefreshWrites(a: State, b: State, log: nat, path: string, stat: Stat, id: nat, kept: set<nat>)
    requires WellFormed(a.db.logs) && FileRefreshed(a.db, b.db, log, path, stat, id) && SeenBut(a, b, id)
    ensures id in b.db.logs.files
    ensures var r := b.db.logs.files[id]; id >= 1 && r.log == log && r.path == path && r.offset <= r.size
    ensures Spared(a, b, id, kept)
  {
    RefreshWithin(a.db.logs, log, path, id, stat.ident, stat.size);
  }

  /** What is at a path, after whatever others did before the call; it may fail. */
  method StatFile(host: Host, path: string) returns (stat: Stat)
    requires host.Valid()
    modifies host`disk, host`nextGen, host`s, host`past, host.db
    ensures host.Valid() && Later(old(host.past), host.past)
    ensures Undisturbed(old(host.s), host.s) && LeftAlone(old(host.s), host.s, host.past.kept)
    ensures host.quiet ==> host.s == old(host.s) && (stat.Regular? <==> path in host.disk)
    ensures stat.Regular? ==> path in host.disk && stat == Regular(host.disk[path].ident, |host.disk[path].bytes|)
  {
    host.Meanwhile();
    var fails := host.Fails();
    if fails || path !in host.disk {
      return NoFile;
    }
    return Regular(host.disk[path].ident, |host.disk[path].bytes|);
  }

  /** Undisturbed, the tables hold the path's row as a refresh of what is on disk leaves it. */
  predicate RefreshedTo(a: State, b: State, log: nat, path: string, id: nat) {
    path in a.disk && FileRefreshed(a.db, b.db, log, path, Regular(a.disk[path].ident, |a.disk[path].bytes|), id)
  }

  /** Stats one path and refreshes its row. */
  method RefreshFile(host: Host, log: nat, service: string, path: string) returns (state: Option<FileState>)
    requires host.Valid() && host.s.work.Idle? && forall f :: f in host.s.held ==> host.s.held[f].path != path
    modifies host`disk, host`nextGen, host`s, host`past, host.db
    ensures host.Valid() && Later(old(host.past), host.past) && host.s.work.Idle? && SameTotals(old(host.s), host.s)
    ensures host.quiet && path in host.past.stayed && log in host.past.kept ==> state.Some?
    ensures state.Some? ==> Refreshed(host.s, log, service, path, state.value, host.past.kept)
    ensures state.Some? ==> state.value.id !in old(host.s).held
    ensures state.Some? ==> host.s.held == old(host.s).held[state.value.id := Held(service, path, state.value.offset)]
    ensures state.Some? ==> Spared(old(host.s), host.s, state.value.id, host.past.kept)
    ensures state.Some? ==> state.value.id in host.s.db.logs.files
    ensures state.Some? && host.quiet ==> RefreshedTo(old(host.s), host.s, log, path, state.value.id)
  {
    var stat := StatFile(host, path);
    var fate := host.Fated();
    ghost var before, kept := host.s, host.past.kept;
    host.Constraints();
    ghost var id;
    state, id := host.RefreshFile(log, path, service, stat, fate);
    if state.Some? {
      RefreshAnswers(old(host.s), before, host.s, log, service, path, stat, id, kept, host.past.kept, state.value);
    }
  }

  lemma RefreshAnswers(a: State, b: State, c: State, log: nat, service: string, path: string, stat: Stat, id: nat,
                       kept: set<nat>, still: set<nat>, file: FileState)
    requires LeftAlone(a, b, kept) && still <= kept && WellFormed(b.db.logs)
    requires FileRefreshed(b.db, c.db, log, path, stat, id) && SeenBut(b, c, id) && id in c.db.logs.files
    requires id in c.held && c.held[id] == Held(service, path, c.db.logs.files[id].offset)
    requires file == StateOf(id, c.db.logs.files[id], Classified(b.db.logs, log, path, id, stat.ident, stat.size))
    ensures Refreshed(c, log, service, path, file, still) && Spared(a, c, id, still)
  {
    LeftAloneSpares(a, b, id, kept);
    RefreshWrites(b, c, log, path, stat, id, still);
    SparedOn(a, b, c, id, kept, still);
  }

  // ---- All files of a log ----

  function Ids(states: seq<FileState>): set<nat> {
    set i | 0 <= i < |states| :: states[i].id
  }

  lemma IdsAppend(states: seq<FileState>, x: FileState)
    ensures Ids(states + [x]) == Ids(states) + {x.id}
  {
    var all := states + [x];
    assert all[|states|] == x;
    forall id | id in Ids(states) ensures id in Ids(all) {
      var i :| 0 <= i < |states| && states[i].id == id;
      assert all[i].id == id;
    }
  }

  predicate OnceEach(states: seq<FileState>) {
    forall i, j :: 0 <= i < j < |states| ==> states[i].id != states[j].id
  }

  /** Each path refreshed, in order, and just these waiting to be read. */
  predicate AllRefreshed(s: State, log: nat, service: string, paths: seq<string>, states: seq<FileState>,
                         kept: set<nat>)
  {
    && |states| == |paths| && OnceEach(states) && s.held.Keys == Ids(states)
    && forall i :: 0 <= i < |states| ==> Refreshed(s, log, service, paths[i], states[i], kept)
  }

  lemma OneMoreRefreshed(a: State, b: State, log: nat, service: string, paths: seq<string>, states: seq<FileState>,
                         path: string, x: FileState, kept: set<nat>, still: set<nat>)
    requires AllRefreshed(a, log, service, paths, states, kept) && still <= kept
    requires Refreshed(b, log, service, path, x, still) && Spared(a, b, x.id, still)
    requires x.id !in a.held && b.held == a.held[x.id := Held(service, path, x.offset)]
    ensures AllRefreshed(b, log, service, paths + [path], states + [x], still)
  {
    IdsAppend(states, x);
    forall i | 0 <= i < |states|
      ensures Refreshed(b, log, service, paths[i], states[i], still) && states[i].id != x.id
    {
      assert Refreshed(a, log, service, paths[i], states[i], kept);
      ToldOn(a, b, states[i], x.id, kept, still);
    }
  }

  lemma AllRefreshedOn(a: State, b: State, log: nat, service: string, paths: seq<string>, states: seq<FileState>,
                       kept: set<nat>, still: set<nat>)
    requires AllRefreshed(a, log, service, paths, states, kept) && still <= kept
    requires Undisturbed(a, b) && LeftAlone(a, b, still)
    ensures AllRefreshed(b, log, service, paths, states, still)
  {
    forall i | 0 <= i < |states| ensures Refreshed(b, log, service, paths[i], states[i], still) {
      assert Refreshed(a, log, service, paths[i], states[i], kept);
      LeftAloneSpares(a, b, states[i].id + 1, still);
      ToldOn(a, b, states[i], states[i].id + 1, kept, still);
    }
  }

  /** Nothing of other logs' files has changed, save by others, nor what was last seen of them. */
  predicate LogSpared(a: State, b: State, log: nat, kept: set<nat>) {
    && FilesStay(a, b, kept) && a.excused <= b.excused
    && forall f :: f in b.db.logs.files && b.db.logs.files[f].log != log ==>
         && f in a.db.logs.files && b.db.logs.files[f] == a.db.logs.files[f]
         && (f in a.seen ==> f in b.seen && b.seen[f] == a.seen[f])
  }

  lemma SparesLog(a: State, b: State, file: nat, log: nat, kept: set<nat>)
    requires Spared(a, b, file, kept) && (file in b.db.logs.files ==> b.db.logs.files[file].log == log)
    ensures LogSpared(a, b, log, kept)
  {
  }

  lemma LogSparedSelf(a: State, log: nat, kept: set<nat>)
    ensures LogSpared(a, a, log, kept)
  {
  }

  lemma LogSparedOn(a: State, b: State, c: State, log: nat, kept: set<nat>, still: set<nat>)
    requires LogSpared(a, b, log, kept) && LogSpared(b, c, log, still) && still <= kept
    ensures LogSpared(a, c, log, still)
  {
  }

  /** Rows other than these are what they were. */
  predicate RowsOnly(a: State, b: State, ids: set<nat>) {
    forall f :: f in b.db.logs.files && f !in ids ==> f in a.db.logs.files && b.db.logs.files[f] == a.db.logs.files[f]
  }

  lemma RowsOnlyOn(a: State, b: State, c: State, ids: set<nat>, file: nat, kept: set<nat>)
    requires RowsOnly(a, b, ids) && Spared(b, c, file, kept)
    ensures RowsOnly(a, c, ids + {file})
  {
  }

  method RefreshNext(host: Host, log: nat, service: string, paths: seq<string>, k: nat, found: seq<FileState>)
    returns (states: Option<seq<FileState>>)
    requires host.Valid() && host.s.work.Idle? && k < |paths| && Distinct(paths)
    requires AllRefreshed(host.s, log, service, paths[..k], found, host.past.kept)
    modifies host`disk, host`nextGen, host`s, host`past, host.db
    ensures host.Valid() && Later(old(host.past), host.past) && host.s.work.Idle? && SameTotals(old(host.s), host.s)
    ensures host.quiet && paths[k] in host.past.stayed && log in host.past.kept ==> states.Some?
    ensures states.Some? ==> AllRefreshed(host.s, log, service, paths[..k + 1], states.value, host.past.kept)
    ensures states.Some? ==> LogSpared(old(host.s), host.s, log, host.past.kept)
    ensures states.Some? ==> |states.value| == k + 1 && Ids(states.value) == Ids(found) + {states.value[k].id}
    ensures states.Some? ==> Spared(old(host.s), host.s, states.value[k].id, host.past.kept)
    ensures states.Some? && host.quiet ==> RefreshedTo(old(host.s), host.s, log, paths[k], states.value[k].id)
  {
    NotYetHeld(host.s, log, service, paths, k, found, host.past.kept);
    ghost var before, kept := host.s, host.past.kept;
    var state := RefreshFile(host, log, service, paths[k]);
    if state.None? {
      return None;
    }
    OneMoreRefreshed(before, host.s, log, service, paths[..k], found, paths[k], state.value, kept, host.past.kept);
    assert paths[..k + 1] == paths[..k] + [paths[k]];
    IdsAppend(found, state.value);
    SparesLog(before, host.s, state.value.id, log, host.past.kept);
    return Some(found + [state.value]);
  }

  lemma NotYetHeld(s: State, log: nat, service: string, paths: seq<string>, k: nat, states: seq<FileState>,
                   kept: set<nat>)
    requires k < |paths| && Distinct(paths) && AllRefreshed(s, log, service, paths[..k], states, kept)
    ensures forall f :: f in s.held ==> s.held[f].path != paths[k]
  {
    forall f | f in s.held ensures s.held[f].path != paths[k] {
      assert f in Ids(states);
      var i :| 0 <= i < |states| && states[i].id == f;
      assert Refreshed(s, log, service, paths[i], states[i], kept);
    }
  }

  /** Undisturbed, nothing is written for no path, and for one path its row. */
  predicate FirstRefreshed(a: State, b: State, log: nat, paths: seq<string>, states: seq<FileState>) {
    && (paths == [] ==> b.db == a.db)
    && (|paths| == |states| == 1 ==> RefreshedTo(a, b, log, paths[0], states[0].id))
  }

  /** Refreshes every path of a log. */
  method RefreshPaths(host: Host, log: nat, service: string, paths: seq<string>)
    returns (states: Option<seq<FileState>>)
    requires host.Valid() && host.s.work.Idle? && host.s.held == map[] && Distinct(paths)
    modifies host`disk, host`nextGen, host`s, host`past, host.db
    ensures host.Valid() && Later(old(host.past), host.past) && host.s.work.Idle? && SameTotals(old(host.s), host.s)
    ensures host.quiet && log in host.past.kept && (forall p :: p in paths ==> p in host.past.stayed) ==> states.Some?
    ensures states.Some? ==> AllRefreshed(host.s, log, service, paths, states.value, host.past.kept)
    ensures states.Some? ==> LogSpared(old(host.s), host.s, log, host.past.kept)
    ensures states.Some? ==> RowsOnly(old(host.s), host.s, Ids(states.value))
    ensures states.Some? && host.quiet ==> FirstRefreshed(old(host.s), host.s, log, paths, states.value)
  {
    states := Some([]);
    for k := 0 to |paths|
      invariant host.Valid() && Later(old(host.past), host.past) && host.s.work.Idle? && SameTotals(old(host.s), host.s)
      invariant states.Some? && AllRefreshed(host.s, log, service, paths[..k], states.value, host.past.kept)
      invariant LogSpared(old(host.s), host.s, log, host.past.kept)
      invariant RowsOnly(old(host.s), host.s, Ids(states.value))
      invariant host.quiet ==> FirstRefreshed(old(host.s), host.s, log, paths[..k], states.value)
    {
      ghost var before, kept, ids := host.s, host.past.kept, Ids(states.value);
      states := RefreshNext(host, log, service, paths, k, states.value);
      if states.None? {
        return;
      }
      LogSparedOn(old(host.s), before, host.s, log, kept, host.past.kept);
      RowsOnlyOn(old(host.s), before, host.s, ids, states.value[k].id, host.past.kept);
    }
    assert paths[..|paths|] == paths;
  }

  // ---- The answer of `RefreshFiles` ----

  /** Observed files first, each path's once, then the missing ones, each row as it stands and as it stood before. */
  predicate Answer(a: State, s: State, watched: Watched, paths: seq<string>, states: seq<FileState>, kept: set<nat>) {
    && |paths| <= |states|
    && AllRefreshed(s, watched.id, watched.service, paths, states[..|paths|], kept)
    && forall i :: |paths| <= i < |states| ==> IsMissingRow(a, s, watched.id, states[i])
  }

  predicate IsMissingRow(a: State, s: State, log: nat, m: FileState) {
    && m.id in s.db.logs.files && m.id in a.db.logs.files && s.db.logs.files[m.id] == a.db.logs.files[m.id]
    && m == StateOf(m.id, a.db.logs.files[m.id], Missing) && m.log == log
  }

  /** No row is told of twice; and while the log is watched none is left out. */
  predicate Complete(s: State, log: nat, states: seq<FileState>, kept: set<nat>) {
    && OnceEach(states)
    && (log in kept ==> forall f :: f in FilesOf(s.db.logs, log) ==> exists i :: 0 <= i < |states| && states[i].id == f)
  }

  lemma ObservedOrMissing(s: State, watched: Watched, paths: seq<string>, observed: seq<FileState>, m: FileState,
                          kept: set<nat>)
    requires AllRefreshed(s, watched.id, watched.service, paths, observed, kept)
    requires IsMissing(s.db.logs, watched.id, paths, m)
    ensures m.id !in Ids(observed)
  {
    forall i | 0 <= i < |observed| ensures observed[i].id != m.id {
      assert Refreshed(s, watched.id, watched.service, paths[i], observed[i], kept);
    }
  }

  /** A tracked row whose path was observed is the row observed there. */
  lemma ObservedRow(s: State, watched: Watched, paths: seq<string>, observed: seq<FileState>, f: nat, kept: set<nat>)
    returns (i: nat)
    requires WellFormed(s.db.logs) && AllRefreshed(s, watched.id, watched.service, paths, observed, kept)
    requires watched.id in kept && f in FilesOf(s.db.logs, watched.id) && s.db.logs.files[f].path in paths
    ensures i < |observed| && observed[i].id == f
  {
    i :| 0 <= i < |paths| && paths[i] == s.db.logs.files[f].path;
    assert Refreshed(s, watched.id, watched.service, paths[i], observed[i], kept);
    assert SameFile(s.db.logs.files[f], s.db.logs.files[observed[i].id]);
  }

  lemma EveryRowOnce(s: State, watched: Watched, paths: seq<string>, observed: seq<FileState>, missing: seq<FileState>,
                     kept: set<nat>)
    requires WellFormed(s.db.logs) && AllRefreshed(s, watched.id, watched.service, paths, observed, kept)
    requires MissingOf(s.db.logs, watched.id, paths, missing)
    ensures Complete(s, watched.id, observed + missing, kept)
  {
    var all, n := observed + missing, |observed|;
    forall f | watched.id in kept && f in FilesOf(s.db.logs, watched.id)
      ensures exists i :: 0 <= i < |all| && all[i].id == f
    {
      if s.db.logs.files[f].path in paths {
        var i := ObservedRow(s, watched, paths, observed, f, kept);
        assert all[i].id == f;
      } else {
        var i :| 0 <= i < |missing| && missing[i].id == f;
        assert all[n + i].id == f;
      }
    }
    forall j | 0 <= j < |missing| ensures missing[j].id !in Ids(observed) {
      ObservedOrMissing(s, watched, paths, observed, missing[j], kept);
    }
    forall i, j | 0 <= i < j < |all| ensures all[i].id != all[j].id {
      if i < n { assert observed[i].id in Ids(observed); }
    }
  }

  lemma MissingAreUntouched(a: State, s: State, watched: Watched, paths: seq<string>, observed: seq<FileState>,
                            missing: seq<FileState>, kept: set<nat>)
    requires AllRefreshed(s, watched.id, watched.service, paths, observed, kept)
    requires MissingOf(s.db.logs, watched.id, paths, missing) && RowsOnly(a, s, Ids(observed))
    ensures Answer(a, s, watched, paths, observed + missing, kept)
  {
    var all := observed + missing;
    assert all[..|paths|] == observed;
    forall i | |paths| <= i < |all| ensures IsMissingRow(a, s, watched.id, all[i]) {
      assert IsMissing(s.db.logs, watched.id, paths, missing[i - |paths|]);
      ObservedOrMissing(s, watched, paths, observed, missing[i - |paths|], kept);
    }
  }

  /** Every path of the list is one the log stands for, and all that stayed on disk are in it. */
  predicate Covers(globs: (string, string) -> bool, path: string, paths: seq<string>, stayed: set<string>) {
    && Distinct(paths) && InOrder(Less, paths)
    && (forall p :: p in paths ==> Stands(globs, path, p))
    && forall p :: p in stayed && Stands(globs, path, p) ==> p in paths
  }

  /** Others act before the refreshes and after them. */
  lemma Between(a: State, b: State, c: State, d: State, log: nat, ids: set<nat>, k: set<nat>, l: set<nat>, m: set<nat>)
    requires LeftAlone(a, b, k) && LogSpared(b, c, log, l) && RowsOnly(b, c, ids) && LeftAlone(c, d, m) && m <= l <= k
    ensures LogSpared(a, d, log, m) && RowsOnly(a, d, ids)
  {
  }

  lemma AnswerIs(a: State, b: State, c: State, d: State, watched: Watched, paths: seq<string>, observed: seq<FileState>,
                 missing: seq<FileState>, k: set<nat>, l: set<nat>, m: set<nat>)
    requires LeftAlone(a, b, k) && LogSpared(b, c, watched.id, l) && RowsOnly(b, c, Ids(observed)) && m <= l <= k
    requires AllRefreshed(c, watched.id, watched.service, paths, observed, l)
    requires Undisturbed(c, d) && LeftAlone(c, d, m) && WellFormed(d.db.logs)
    requires MissingOf(d.db.logs, watched.id, paths, missing)
    ensures Answer(a, d, watched, paths, observed + missing, m) && Complete(d, watched.id, observed + missing, m)
    ensures LogSpared(a, d, watched.id, m)
  {
    AllRefreshedOn(c, d, watched.id, watched.service, paths, observed, l, m);
    Between(a, b, c, d, watched.id, Ids(observed), k, l, m);
    EveryRowOnce(d, watched, paths, observed, missing, m);
    MissingAreUntouched(a, d, watched, paths, observed, missing, m);
  }

  /** The paths, as they are when others have acted. */
  method FindPaths(host: Host, path: string) returns (paths: Option<seq<string>>)
    requires host.Valid()
    modifies host`disk, host`nextGen, host`s, host`past, host.db
    ensures host.Valid() && Later(old(host.past), host.past)
    ensures Undisturbed(old(host.s), host.s) && LeftAlone(old(host.s), host.s, host.past.kept)
    ensures host.quiet ==> host.s == old(host.s) && paths.Some? && forall p :: p in paths.value ==> p in host.disk
    ensures paths.Some? ==> Covers(host.globs, path, paths.value, host.past.stayed)
  {
    host.Meanwhile();
    host.Since();
    paths := ExpandPath(host, path);
  }

  /** Expands the path, refreshes what is there, and adds the tracked files that are not. Whatever others do meanwhile,
      every row of a log that stays watched is told of exactly once, as it stands. */
  method RefreshFiles(host: Host, watched: Watched) returns (states: Option<seq<FileState>>, ghost paths: seq<string>)
    requires host.Valid() && host.s.work.Idle? && host.s.held == map[]
    modifies host`disk, host`nextGen, host`s, host`past, host.db
    ensures host.Valid() && Later(old(host.past), host.past) && host.s.work.Idle? && SameTotals(old(host.s), host.s)
    ensures host.quiet && watched.id in host.past.kept ==> states.Some?
    ensures states.Some? ==> Answer(old(host.s), host.s, watched, paths, states.value, host.past.kept)
    ensures states.Some? ==> Complete(host.s, watched.id, states.value, host.past.kept)
    ensures states.Some? ==> Covers(host.globs, watched.path, paths, host.past.stayed)
    ensures states.Some? ==> LogSpared(old(host.s), host.s, watched.id, host.past.kept)
    ensures states.Some? && host.quiet ==> forall p :: p in paths ==> p in host.disk
    ensures states.Some? && host.quiet ==>
      FirstRefreshed(old(host.s), host.s, watched.id, paths, states.value[..|paths|])
  {
    paths := [];
    var expanded := FindPaths(host, watched.path);
    if expanded.None? {
      return None, [];
    }
    ghost var first, kept := host.s, host.past.kept;
    paths := expanded.value;
    var observed := RefreshPaths(host, watched.id, watched.service, expanded.value);
    if observed.None? {
      return None, paths;
    }
    ghost var before, still := host.s, host.past.kept;
    var missing := QueryMissing(host, watched.id, expanded.value);
    if missing.None? {
      return None, paths;
    }
    host.Constraints();
    AnswerIs(old(host.s), first, before, host.s, watched, paths, observed.value, missing.value, kept, still,
             host.past.kept);
    assert (observed.value + missing.value)[..|paths|] == observed.value;
    return Some(observed.value + missing.value), paths;
  }

  /** The query for missing files; others may act before it, and it may fail. */
  method QueryMissing(host: Host, log: nat, observed: seq<string>) returns (missing: Option<seq<FileState>>)
    requires host.Valid()
    modifies host`disk, host`nextGen, host`s, host`past, host.db
    ensures host.Valid() && Later(old(host.past), host.past)
    ensures Undisturbed(old(host.s), host.s) && LeftAlone(old(host.s), host.s, host.past.kept)
    ensures host.quiet ==> host.s == old(host.s) && missing.Some?
    ensures missing.Some? ==> MissingOf(host.s.db.logs, log, observed, missing.value)
  {
    host.Meanwhile();
    var fails := host.Fails();
    if fails {
      return None;
    }
    var rows := host.db.MissingFiles(log, observed);
    return Some(rows);
  }

  // ---- Working through the answer ----

  /** The log tracks the path, it has been read since `a`, and no complete line read is left past the offset. */
  predicate Settled(a: State, s: State, log: nat, path: string, f: nat) {
    && f in s.db.logs.files && s.db.logs.files[f].log == log && s.db.logs.files[f].path == path
    && f in s.seen && ReadSince(a, s.seen[f], path)
    && LinesFrom(s.seen[f].bytes, s.db.logs.files[f].offset) == []
  }

  /** That, if the log was watched and the path on disk all along. */
  predicate FileDone(a: State, s: State, past: Past, file: FileState) {
    file.log in past.kept && file.path in past.stayed ==> Settled(a, s, file.log, file.path, file.id)
  }

  lemma FileStaysDone(a: State, b: State, c: State, past: Past, later: Past, file: FileState, other: nat)
    requires FileDone(a, b, past, file) && Later(past, later) && Spared(b, c, other, later.kept) && other != file.id
    ensures FileDone(a, c, later, file)
  {
  }

  /** The first `j` files are done, and the rest are as told. */
  predicate Progress(a: State, s: State, past: Past, observed: seq<FileState>, j: nat) {
    && j <= |observed|
    && (forall i :: 0 <= i < j ==> FileDone(a, s, past, observed[i]))
    && (forall i :: j <= i < |observed| ==> Told(s, observed[i], past.kept))
  }

  lemma ProgressOn(a: State, b: State, c: State, past: Past, later: Past, observed: seq<FileState>, j: nat)
    requires Progress(a, b, past, observed, j) && j < |observed| && OnceEach(observed)
    requires Later(past, later) && Spared(b, c, observed[j].id, later.kept) && FileDone(a, c, later, observed[j])
    ensures Progress(a, c, later, observed, j + 1)
  {
    forall i | 0 <= i < j ensures FileDone(a, c, later, observed[i]) {
      FileStaysDone(a, b, c, past, later, observed[i], observed[j].id);
    }
    forall i | j < i < |observed| ensures Told(c, observed[i], later.kept) {
      ToldOn(b, c, observed[i], observed[j].id, past.kept, later.kept);
    }
  }

  /** The files from the `j`th on wait to be read, and no others. */
  predicate Waiting(s: State, service: string, observed: seq<FileState>, j: nat) {
    && j <= |observed| && s.held.Keys == Ids(observed[j..])
    && forall i :: j <= i < |observed| ==> IsHeld(s, service, observed[i])
  }

  lemma NoneWait(s: State, service: string, observed: seq<FileState>)
    requires Waiting(s, service, observed, |observed|)
    ensures s.held == map[]
  {
    assert s.held.Keys == {};
  }

  lemma WaitingOn(a: State, b: State, service: string, observed: seq<FileState>, j: nat)
    requires Waiting(a, service, observed, j) && j < |observed| && OnceEach(observed)
    requires b.held == a.held - {observed[j].id}
    ensures Waiting(b, service, observed, j + 1)
  {
    var rest, tail := observed[j..], observed[j + 1..];
    assert rest == [observed[j]] + tail;
    forall i | 0 <= i < |tail| ensures tail[i].id != observed[j].id { assert tail[i] == observed[j + 1 + i]; }
    forall id | id in Ids(tail) ensures id in Ids(rest) {
      var i :| 0 <= i < |tail| && tail[i].id == id;
      assert rest[i + 1].id == id;
    }
    forall id | id in Ids(rest) && id != observed[j].id ensures id in Ids(tail) {
      var i :| 0 <= i < |rest| && rest[i].id == id;
      assert tail[i - 1].id == id;
    }
  }

  /** The first `n` files are present ones of the log, the rest missing. */
  predicate Shape(log: nat, n: nat, files: seq<FileState>) {
    && n <= |files| && OnceEach(files[..n])
    && (forall i :: 0 <= i < n ==> files[i].id >= 1 && files[i].log == log)
    && forall i :: 0 <= i < |files| ==> (files[i].rotation.Missing? <==> i >= n)
  }

  lemma AnswerStarts(a: State, s: State, began: State, watched: Watched, paths: seq<string>, files: seq<FileState>,
                     past: Past)
    requires Answer(a, s, watched, paths, files, past.kept)
    ensures Shape(watched.id, |paths|, files) && Waiting(s, watched.service, files[..|paths|], 0)
    ensures Progress(began, s, past, files[..|paths|], 0)
    ensures forall i :: 0 <= i < |paths| ==> files[i].path == paths[i]
  {
    var observed := files[..|paths|];
    assert observed[0..] == observed;
    forall i | 0 <= i < |paths|
      ensures Refreshed(s, watched.id, watched.service, paths[i], files[i], past.kept)
    {
      assert Refreshed(s, watched.id, watched.service, paths[i], observed[i], past.kept);
    }
  }

  /** Every path that was there all along and that the log, watched all along, stands for, has been read and drained. */
  predicate LogDone(a: State, s: State, past: Past, globs: (string, string) -> bool, log: nat, path: string) {
    log in past.kept ==> forall p :: p in past.stayed && Stands(globs, path, p) ==> PathDone(a, s, log, p)
  }

  predicate PathDone(a: State, s: State, log: nat, path: string) {
    exists f :: f in s.db.logs.files && Settled(a, s, log, path, f)
  }

  lemma LogIsDone(a: State, s: State, past: Past, globs: (string, string) -> bool, log: nat, path: string,
                  paths: seq<string>, observed: seq<FileState>)
    requires Progress(a, s, past, observed, |observed|) && |observed| == |paths|
    requires forall i :: 0 <= i < |paths| ==> observed[i].path == paths[i] && observed[i].log == log
    requires forall p :: p in past.stayed && Stands(globs, path, p) ==> p in paths
    ensures LogDone(a, s, past, globs, log, path)
  {
    forall p | log in past.kept && p in past.stayed && Stands(globs, path, p) ensures PathDone(a, s, log, p) {
      var i :| 0 <= i < |paths| && paths[i] == p;
      assert FileDone(a, s, past, observed[i]);
    }
  }

  lemma LogStaysDone(a: State, b: State, c: State, past: Past, later: Past, globs: (string, string) -> bool,
                     log: nat, path: string, other: nat)
    requires LogDone(a, b, past, globs, log, path) && Later(past, later)
    requires log != other && LogSpared(b, c, other, later.kept)
    ensures LogDone(a, c, later, globs, log, path)
  {
    forall p | log in later.kept && p in later.stayed && Stands(globs, path, p) ensures PathDone(a, c, log, p) {
      assert PathDone(a, b, log, p);
      var f :| f in b.db.logs.files && Settled(a, b, log, p, f);
      assert Settled(a, c, log, p, f);
    }
  }
}
