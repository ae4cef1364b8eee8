/** internal/app/processor.go: one polling cycle. */
module Processor {
  import opened Clock
  import opened Database
  import opened Intake
  import opened LogTables
  import opened Machine
  import opened Options
  import opened Ordering
  import opened Pipeline
  import opened Reader
  import opened Rules
  import opened Runs
  import Delivery
  import opened EventIndex
  import opened Files
  import F = Fingerprint
  import Strings
  import Sums

  class CycleResult {
    var watchedLogs: nat
    var files: nat
    var lines: nat
    var matched: nat
    var ignored: nat
    var events: nat

    constructor (watchedLogs: nat)
      ensures this.watchedLogs == watchedLogs
      ensures files == 0 && lines == 0 && matched == 0 && ignored == 0 && events == 0
    {
      this.watchedLogs := watchedLogs;
      files, lines, matched, ignored, events := 0, 0, 0, 0, 0;
    }
  }

  function SeverityForAction(action: Action): string {
    match action
    case Escalate => "critical"
    case Report => "warning"
    case Analyze => "error"
    case _ => "unknown"
  }

  /** What the processor does about the rule that matched. */
  function VerdictFor(m: Option<Rule>): Verdict {
    if m.None? then Unmatched
    else if m.value.action.Ignore? then Ignored(m.value.id)
    else Raised(m.value.id, SeverityForAction(m.value.action))
  }

  /** The processor gives `Match` no fields. */
  function Context(service: string, text: string): LineContext {
    LineContext(text, service, map[])
  }

  /** An engine answers as the machine's rules do, and names rules by their ids. */
  ghost predicate Answers(p: Patterns, engine: seq<Rule>, w: World) {
    && (forall service, text :: w.verdict(service, text) == VerdictFor(FirstMatch(p, engine, Context(service, text))))
    && (forall service, text :: Named(w.verdict(service, text)))
  }

  predicate Named(v: Verdict) {
    !v.Unmatched? ==> v.rule > 0
  }

  ghost predicate Keys(hash: string -> string, w: World) {
    forall service, text :: w.key(service, text) == F.Fingerprint(hash, service, text)
  }

  // ---- The books of a cycle ----

  /** The counters, the size of the occurrence table, and the sum of all match counts. */
  datatype Books = Books(lines: nat, matched: nat, ignored: nat, events: nat, rows: nat, counts: nat)

  ghost function BooksOf(r: CycleResult, s: State): Books
    reads r
  {
    Books(r.lines, r.matched, r.ignored, r.events, |s.db.index.rows|, Sums.Sum(s.db.matches))
  }

  /** Every match was ignored or recorded, and exactly the recorded and the counted ones were added to the tables. */
  predicate Balanced(b: Books, rows: nat, counts: nat) {
    b.matched == b.ignored + b.events <= b.lines && b.rows == rows + b.events && b.counts == counts + b.matched
  }

  /** A failure leaves each equality off by at most one. */
  predicate NearlyBalanced(b: Books, rows: nat, counts: nat) {
    && b.ignored + b.events <= b.matched <= b.ignored + b.events + 1 && b.matched <= b.lines
    && rows + b.events <= b.rows <= rows + b.events + 1
    && b.counts <= counts + b.matched <= b.counts + 1
  }

  /** While a matched line is neither ignored nor recorded yet. */
  predicate Owing(b: Books, rows: nat, counts: nat) {
    b.matched == b.ignored + b.events + 1 <= b.lines && b.rows == rows + b.events && b.counts == counts + b.matched
  }

  lemma BumpSum(m: map<int, nat>, rule: int)
    ensures Sums.Sum(BumpMatch(m, rule)) == Sums.Sum(m) + 1
  {
    Sums.SumUpdate(m, rule, 1 + if rule in m then m[rule] else 0);
  }

  // ---- The line in hand ----

  predicate InHand(s: State, file: nat, service: string, line: Line) {
    s.work.Busy? && s.work.lines != [] && s.work.file == file && s.work.service == service && s.work.lines[0] == line
  }

  /** The cycle is abandoned: whatever was in memory is gone. */
  predicate GivenUp(s: State) {
    s.work.Idle? && s.held == map[]
  }

  /** From `a` to `b` nothing moved but the stage of the line in hand and, when nobody else acts, the tables named. */
  predicate Staged(a: State, b: State, stage: Stage)
    requires a.work.Busy?
  {
    b.work == a.work.(stage := stage) && b.held == a.held
  }

  /** The line in hand is done with. */
  predicate Passed(a: State, b: State)
    requires AtLine(a)
  {
    b.work == a.work.(lines := a.work.lines[1..], stage := Top) && b.held == a.held
  }

  /** Nothing but this file's offset has changed of the files and of what was last seen of them, save by others. */
  predicate OffsetOnly(a: State, b: State, file: nat, kept: set<nat>) {
    && Spared(a, b, file, kept) && OwnRow(a, b, file)
    && (file in a.seen ==> file in b.seen && b.seen[file] == a.seen[file])
  }

  /** The file's row is not a new one, nor another log's. */
  predicate OwnRow(a: State, b: State, file: nat) {
    file in b.db.logs.files ==> file in a.db.logs.files && b.db.logs.files[file].log == a.db.logs.files[file].log
  }

  lemma OffsetOnlyOn(a: State, b: State, c: State, file: nat, kept: set<nat>, still: set<nat>)
    requires OffsetOnly(a, b, file, kept) && OffsetOnly(b, c, file, still) && still <= kept
    ensures OffsetOnly(a, c, file, still)
  {
  }

  /** Others act, and then a statement leaves the file rows alone. */
  lemma RowsAlone(a: State, b: State, c: State, file: nat, kept: set<nat>, still: set<nat>)
    requires LeftAlone(a, b, kept) && still <= kept && SameSight(b, c) && c.db.logs == b.db.logs
    ensures OffsetOnly(a, c, file, still)
  {
  }

  /** Others act, and then a statement writes the file's offset. */
  lemma OffsetAlone(a: State, b: State, c: State, file: nat, offset: nat, kept: set<nat>, still: set<nat>)
    requires LeftAlone(a, b, kept) && still <= kept && SameSight(b, c) && OffsetSet(b.db, c.db, file, offset)
    ensures OffsetOnly(a, c, file, still)
  {
  }

  /** The tables with a line's event recorded and its end committed. */
  predicate EventCommitted(w: World, a: Db, b: Db, file: nat, service: string, line: Line, severity: string, t: Stamp) {
    && file in a.logs.files
    && b == Db(UpdateOffset(a.logs, file, line.end),
               Store(a.index, LineEntry(w, file, service, line.text, severity, t.at, t.dayStart, t.hourStart)),
               a.matches)
  }

  /** The file, read as `base`, is being processed and `lines` of it are left; or it was gone, and nothing is. */
  predicate LeftOf(s: State, file: nat, service: string, base: Option<string>, lines: seq<Line>) {
    if base.Some? then s.work == Busy(file, service, base.value, lines, Top) else s.work.Idle? && lines == []
  }

  /** What a file's processing did to the tables: its lines past the offset were taken in, in order. */
  predicate TookIn(w: World, file: FileState, service: string, ts: seq<Stamp>, a: State, b: State) {
    file.path in a.disk && file.id in a.db.logs.files &&
    var lines := LinesFrom(a.disk[file.path].bytes, file.offset);
    |ts| == |lines| && b.db == AfterLines(w, file.id, service, lines, ts, a.db)
  }

  /** How many of the first `n` are among the first `j`. */
  function Reached(j: nat, n: nat): nat {
    if j < n then j else n
  }

  /** Every log that was enabled and watched all along is done: each path it stands for that was there all along has
      been read since the cycle began, and no complete line read is left past its offset. */
  predicate CycleDone(a: State, s: State, past: Past, globs: (string, string) -> bool) {
    forall id :: id in past.kept && id in a.db.logs.watched && a.db.logs.watched[id].enabled ==>
      LogDone(a, s, past, globs, id, a.db.logs.watched[id].path)
  }

  /** The same, of the first `j` logs of the list. */
  predicate ListDone(a: State, s: State, past: Past, globs: (string, string) -> bool, list: seq<Watched>, j: nat)
    requires j <= |list|
  {
    forall i :: 0 <= i < j && list[i].enabled ==> LogDone(a, s, past, globs, list[i].id, list[i].path)
  }

  /** The list has the logs watched since `a`. */
  predicate Listed(a: State, list: seq<Watched>, kept: set<nat>) {
    && (forall i, j :: 0 <= i < j < |list| ==> list[i].id != list[j].id)
    && forall id :: id in kept ==>
         id in a.db.logs.watched && exists i :: 0 <= i < |list| && Lists(a.db.logs, id, list[i])
  }

  predicate Lists(t: Logs, id: nat, log: Watched)
    requires id in t.watched
  {
    log.id == id && log.path == t.watched[id].path && (t.watched[id].enabled ==> log.enabled)
  }

  lemma ListsKept(a: State, s: State, list: seq<Watched>, kept: set<nat>)
    requires ListOf(s.db.logs.watched, list) && kept <= a.db.logs.watched.Keys && kept <= s.db.logs.watched.Keys
    requires forall id :: id in kept ==> SameLog(a.db.logs.watched[id], s.db.logs.watched[id])
    ensures Listed(a, list, kept)
  {
    forall id | id in kept ensures exists i :: 0 <= i < |list| && Lists(a.db.logs, id, list[i]) {
      var i :| 0 <= i < |list| && list[i].id == id;
      assert IsRow(s.db.logs.watched, list[i]) && Lists(a.db.logs, id, list[i]);
    }
  }

  lemma ListStaysDone(a: State, b: State, c: State, past: Past, later: Past, globs: (string, string) -> bool,
                      list: seq<Watched>, j: nat)
    requires j < |list| && (forall i :: 0 <= i < j ==> list[i].id != list[j].id)
    requires ListDone(a, b, past, globs, list, j) && Later(past, later) && LogSpared(b, c, list[j].id, later.kept)
    requires LogDone(a, c, later, globs, list[j].id, list[j].path)
    ensures ListDone(a, c, later, globs, list, j + 1)
  {
    forall i | 0 <= i < j && list[i].enabled ensures LogDone(a, c, later, globs, list[i].id, list[i].path) {
      LogStaysDone(a, b, c, past, later, globs, list[i].id, list[i].path, list[j].id);
    }
  }

  predicate AllKept(list: seq<Watched>, kept: set<nat>) {
    forall i :: 0 <= i < |list| ==> list[i].id in kept
  }

  lemma ListStarts(a: State, s: State, past: Past, w: World, globs: (string, string) -> bool, list: seq<Watched>,
                   db: Db)
    requires ListOf(s.db.logs.watched, list)
    ensures ListDone(a, s, past, globs, list, 0) && Effect(w, a.disk, globs, list, 0, db, db)
    ensures past.kept == s.db.logs.watched.Keys ==> AllKept(list, past.kept)
  {
    forall i | 0 <= i < |list| ensures list[i].id in s.db.logs.watched { assert IsRow(s.db.logs.watched, list[i]); }
  }

  lemma ListIsDone(a: State, s: State, past: Past, globs: (string, string) -> bool, list: seq<Watched>)
    requires Listed(a, list, past.kept) && ListDone(a, s, past, globs, list, |list|)
    ensures CycleDone(a, s, past, globs)
  {
    forall id | id in past.kept && a.db.logs.watched[id].enabled
      ensures LogDone(a, s, past, globs, id, a.db.logs.watched[id].path)
    {
      var i :| 0 <= i < |list| && Lists(a.db.logs, id, list[i]);
    }
  }

  // ---- What an undisturbed cycle does to the tables where one log stands for one path ----

  ghost predicate PolledOnce(w: World, disk: map<string, OnDisk>, globs: (string, string) -> bool, log: Watched,
                             a: Db, b: Db)
  {
    exists p, id, ts ::
      p in disk && Stands(globs, log.path, p) && Polled(w, disk[p], log.id, p, log.service, id, ts, a, b)
  }

  predicate NoneOf(list: seq<Watched>, j: nat) {
    forall i :: 0 <= i < j <= |list| ==> !list[i].enabled
  }

  /** Of the first `j` only the `i`th is enabled. */
  predicate OnlyOne(list: seq<Watched>, i: nat, j: nat) {
    i < j <= |list| && list[i].enabled && forall k :: 0 <= k < j && k != i ==> !list[k].enabled
  }

  ghost predicate Effect(w: World, disk: map<string, OnDisk>, globs: (string, string) -> bool, list: seq<Watched>,
                         j: nat,
                         a: Db, b: Db)
  {
    && (NoneOf(list, j) ==> b == a)
    && forall i: nat :: OnlyOne(list, i, j) && |Expansion(disk, globs, list[i].path)| == 1 ==>
         PolledOnce(w, disk, globs, list[i], a, b)
  }

  lemma EffectOn(w: World, disk: map<string, OnDisk>, globs: (string, string) -> bool, list: seq<Watched>, j: nat,
                 a: Db, b: Db, c: Db)
    requires j < |list| && Effect(w, disk, globs, list, j, a, b)
    requires if list[j].enabled
      then |Expansion(disk, globs, list[j].path)| == 1 ==> PolledOnce(w, disk, globs, list[j], b, c)
      else c == b
    ensures Effect(w, disk, globs, list, j + 1, a, c)
  {
    forall i: nat | OnlyOne(list, i, j + 1) && |Expansion(disk, globs, list[i].path)| == 1
      ensures PolledOnce(w, disk, globs, list[i], a, c)
    {
      if i == j { assert NoneOf(list, j); } else { assert OnlyOne(list, i, j); }
    }
    if NoneOf(list, j + 1) { assert !list[j].enabled && NoneOf(list, j); }
  }

  /** No log but this one is enabled. */
  predicate Sole(t: Logs, log: nat) {
    log in t.watched && t.watched[log].enabled && forall id :: id in t.watched && t.watched[id].enabled ==> id == log
  }

  /** A cycle in which only this log is enabled, and it stands for one path, polls that path. */
  ghost predicate SolePolled(w: World, a: State, globs: (string, string) -> bool, b: Db, log: nat) {
    Sole(a.db.logs, log) && |Expansion(a.disk, globs, a.db.logs.watched[log].path)| == 1 ==>
      PolledOnce(w, a.disk, globs, ListedAs(a.db.logs, log), a.db, b)
  }

  function ListedAs(t: Logs, log: nat): Watched
    requires log in t.watched
  {
    Watched(log, t.watched[log].path, t.watched[log].service, t.watched[log].enabled)
  }

  lemma SoleEffect(w: World, a: State, globs: (string, string) -> bool, list: seq<Watched>, b: Db)
    requires ListOf(a.db.logs.watched, list) && Effect(w, a.disk, globs, list, |list|, a.db, b)
    ensures forall log :: SolePolled(w, a, globs, b, log)
  {
    forall log | Sole(a.db.logs, log) ensures SolePolled(w, a, globs, b, log) {
      var i :| 0 <= i < |list| && list[i].id == log;
      assert IsRow(a.db.logs.watched, list[i]) && list[i] == ListedAs(a.db.logs, log);
      forall k | 0 <= k < |list| && k != i ensures !list[k].enabled {
        assert IsRow(a.db.logs.watched, list[k]);
        assert list[k].id != log;
      }
      assert OnlyOne(list, i, |list|);
    }
  }

  lemma ListSize(rows: map<nat, WatchedLog>, list: seq<Watched>)
    requires ListOf(rows, list)
    ensures |list| == |rows|
  {
    var ids := seq(|list|, i requires 0 <= i < |list| => list[i].id);
    forall id ensures id in ids <==> id in rows.Keys {
      if id in rows.Keys {
        var i :| 0 <= i < |list| && list[i].id == id;
        assert ids[i] == id;
      }
    }
    DistinctSize(ids, rows.Keys);
  }

  /** The machine's rules are these. */
  ghost predicate Ruled(p: Patterns, rules: seq<Rule>, w: World) {
    forall service, text :: w.verdict(service, text) == VerdictFor(Decide(p, rules, Context(service, text)))
  }

  /** An engine built from the enabled rules, loaded in any order, answers for the machine. */
  lemma EngineAnswers(p: Patterns, rules: seq<Rule>, loaded: seq<Rule>, engine: seq<Rule>, w: World)
    requires Ruled(p, rules, w) && RuleIds(rules) && multiset(loaded) == multiset(EnabledOnly(rules))
    requires engine == StableSort(EnabledOnly(loaded))
    ensures Answers(p, engine, w)
  {
    forall service, text
      ensures w.verdict(service, text) == VerdictFor(FirstMatch(p, engine, Context(service, text)))
    {
      EngineDecides(p, rules, loaded, Context(service, text));
    }
    forall service, text ensures Named(w.verdict(service, text)) {
      DecideIsBest(p, rules, Context(service, text));
    }
  }

  /** What the schema says of rule ids. */
  predicate RuleIds(rules: seq<Rule>) {
    Rules.DistinctIds(rules) && forall i :: 0 <= i < |rules| ==> rules[i].id >= 1
  }

  lemma RecordsLine(w: World, hash: string -> string, k: Work, o: Occurrence)
    requires k.Busy? && k.lines != [] && VerdictOf(w, k).Raised? && VerdictOf(w, k).severity == o.severity != ""
    requires o.logFile == k.file >= 1 && o.service == k.service && o.line == k.lines[0].text
    requires o.summary == Strings.TrimSpace(o.line) && Keys(hash, w)
    ensures Writes(w, hash, k, o)
  {
  }

  // ---- A file read and drained ----

  /** The file on disk is in hand, with its complete lines from the offset. */
  predicate ReadWhole(s: State, file: FileState, lines: seq<Line>) {
    && s.work.Busy? && file.path in s.disk && s.work.base == s.disk[file.path].bytes
    && lines == LinesFrom(s.work.base, file.offset)
  }

  /** The row and the files of others stay as they are when nothing of the tables changes. */
  lemma RowsButNone(a: State, b: State, file: nat, kept: set<nat>)
    requires b.db == a.db && SeenBut(a, b, file)
    ensures Spared(a, b, file, kept)
  {
  }

  /** `a` before the read, `b` after it, `c` after the last line, `d` once the file is out of hand. */
  lemma ReadAndDrained(a: State, b: State, c: State, d: State, began: State, file: FileState,
                       p: Past, q: Past, r: Past, still: set<nat>)
    requires Told(a, file, p.kept) && Spared(a, b, file.id, q.kept) && OwnRow(a, b, file.id)
    requires OffsetOnly(b, c, file.id, still)
    requires d == c.(work := Idle) && Later(p, q) && Later(q, r) && r.kept <= still <= q.kept
    requires file.path in q.stayed && file.id in b.db.logs.files ==>
      file.id in b.seen && ReadSince(began, b.seen[file.id], file.path) && b.work.Busy?
    requires b.work.Busy? && file.id in d.db.logs.files ==>
      file.id in d.seen && LinesFrom(d.seen[file.id].bytes, d.db.logs.files[file.id].offset) == []
    ensures Spared(a, d, file.id, r.kept) && OwnRow(a, d, file.id) && FileDone(began, d, r, file)
  {
    SparedOn(a, b, c, file.id, q.kept, still);
    if file.log in r.kept && file.path in r.stayed {
      assert file.id in a.db.logs.files && file.id in b.db.logs.files && file.id in c.db.logs.files;
      assert Settled(began, d, file.log, file.path, file.id);
    }
  }

  lemma ToldSparesLog(a: State, b: State, file: FileState, kept: set<nat>, still: set<nat>)
    requires Told(a, file, kept) && Spared(a, b, file.id, still) && OwnRow(a, b, file.id) && still <= kept
    ensures LogSpared(a, b, file.log, still)
  {
  }

  /** The log is still watched and every path on disk. */
  predicate AllThere(observed: seq<FileState>, past: Past) {
    forall i :: 0 <= i < |observed| ==> observed[i].log in past.kept && observed[i].path in past.stayed
  }

  lemma AllAreThere(log: nat, paths: seq<string>, files: seq<FileState>, past: Past)
    requires |paths| <= |files| && log in past.kept && Shape(log, |paths|, files)
    requires forall i :: 0 <= i < |paths| ==> files[i].path == paths[i] && paths[i] in past.stayed
    ensures AllThere(files[..|paths|], past)
  {
  }

  /** One path, refreshed and then taken in. */
  lemma PolledThere(w: World, a: State, b: State, c: State, globs: (string, string) -> bool, watched: Watched,
                    paths: seq<string>, files: seq<FileState>, ts: seq<Stamp>, kept: set<nat>)
    requires |paths| == 1 && Answer(a, b, watched, paths, files, kept) && watched.id in kept && b.disk == a.disk
    requires FirstRefreshed(a, b, watched.id, paths, files[..|paths|]) && Stands(globs, watched.path, paths[0])
    requires TookIn(w, files[0], watched.service, ts, b, c)
    ensures PolledOnce(w, a.disk, globs, watched, a.db, c.db)
  {
    var observed := files[..1];
    assert Files.Refreshed(b, watched.id, watched.service, paths[0], observed[0], kept);
    assert Polled(w, a.disk[paths[0]], watched.id, paths[0], watched.service, files[0].id, ts, a.db, c.db);
  }

  /** Where one file is present: nothing is done until it is reached, and then its lines are taken in. */
  predicate FirstTaken(w: World, files: seq<FileState>, service: string, ts: seq<Stamp>, a: State, b: State, j: nat,
                       n: nat)
  {
    n == 1 && files != [] ==> if j == 0 then b == a else TookIn(w, files[0], service, ts, a, b)
  }

  method ReadClock() returns (at: Instant, r: Readings) {
    var now: Reading, counted: Reading, midnight: Instant := *, *, *;
    at := *;
    r := Readings(now, counted, midnight);
  }

  class Processor {
    const host: Host
    const db: Database
    const rules: seq<Rule>
    const patterns: Patterns
    const hash: string -> string

    ghost predicate Valid()
      reads this, host, host.db
    {
      db == host.db && host.Valid() && Keys(hash, host.w) && Stamping(host.w)
    }

    constructor (host: Host, rules: seq<Rule>, patterns: Patterns, hash: string -> string)
      requires host.Valid() && Keys(hash, host.w) && Stamping(host.w)
      ensures Valid() && this.host == host && this.rules == rules && this.patterns == patterns && this.hash == hash
    {
      this.host, this.db, this.rules, this.patterns, this.hash := host, host.db, rules, patterns, hash;
    }

    // ---- One line ----

    // Before each statement others may act.

    /** Counts the match of the line in hand. */
    method CountLine(rule: int) returns (ok: bool)
      requires Valid() && AtLine(host.s) && host.s.work.stage.Top?
      requires var v := VerdictOf(host.w, host.s.work); !v.Unmatched? && v.rule == rule
      modifies host`disk, host`nextGen, host`s, host`past, db
      ensures Valid() && Later(old(host.past), host.past) && |host.s.db.index.rows| == |old(host.s).db.index.rows|
      ensures host.quiet && rule > 0 ==> ok
      ensures ok ==> Staged(old(host.s), host.s, Counted)
      ensures ok ==> host.s.db.matches == BumpMatch(old(host.s).db.matches, rule)
      ensures ok ==> OffsetOnly(old(host.s), host.s, old(host.s).work.file, host.past.kept)
      ensures ok && host.quiet ==> host.s.db == old(host.s).db.(matches := host.s.db.matches)
      ensures host.s.db.matches in {old(host.s).db.matches, BumpMatch(old(host.s).db.matches, rule)}
    {
      host.Meanwhile();
      var fate := host.Fated();
      ghost var before, kept := host.s, host.past.kept;
      ok := host.RecordMatch(rule, fate);
      if ok { RowsAlone(old(host.s), before, host.s, before.work.file, kept, host.past.kept); }
    }

    /** Records the event of the line in hand. */
    method StoreLine(file: nat, service: string, severity: string, line: Line) returns (ok: bool, ghost t: Stamp)
      requires Valid() && InHand(host.s, file, service, line) && host.s.work.stage.Counted? && file >= 1
      requires var v := VerdictOf(host.w, host.s.work); v.Raised? && v.severity == severity != ""
      modifies host`disk, host`nextGen, host`s, host`past, db
      ensures Valid() && Later(old(host.past), host.past) && host.s.db.matches == old(host.s).db.matches
      ensures host.quiet && file in old(host.s).db.logs.files ==> ok
      ensures ok ==> Staged(old(host.s), host.s, Stored) && |host.s.db.index.rows| == |old(host.s).db.index.rows| + 1
      ensures ok ==> OffsetOnly(old(host.s), host.s, file, host.past.kept)
      ensures ok && host.quiet ==> EventStored(host.w, old(host.s), host.s, t)
      ensures |host.s.db.index.rows| - |old(host.s).db.index.rows| in {0, 1}
    {
      hide PastOf, Runs.Leads, Keys, Stamping, Store, LineEntry, OffsetOnly;
      host.Meanwhile();
      ghost var before, kept := host.s, host.past.kept;
      ok, t := TryStore(file, service, severity, line);
      if ok { RowsAlone(old(host.s), before, host.s, file, kept, host.past.kept); }
    }

    method TryStore(file: nat, service: string, severity: string, line: Line) returns (ok: bool, ghost t: Stamp)
      requires Valid() && InHand(host.s, file, service, line) && host.s.work.stage.Counted? && file >= 1
      requires var v := VerdictOf(host.w, host.s.work); v.Raised? && v.severity == severity != ""
      modifies host`s, host`past, db
      ensures Valid() && Later(old(host.past), host.past)
      ensures if ok || host.s != old(host.s)
        then EventStored(host.w, old(host.s), host.s, t) && |host.s.db.index.rows| == |old(host.s).db.index.rows| + 1
        else host.s == old(host.s)
      ensures host.quiet && file in old(host.s).db.logs.files ==> ok
    {
      hide PastOf, Runs.Leads, Keys, Stamping, Store, LineEntry, EntryFor, Writes, StampOf, Strings.TrimSpace;
      var at, r := ReadClock();
      var o := Occurrence(file, service, severity, Strings.TrimSpace(line.text), line.text, Some(at));
      RecordsLine(host.w, hash, host.s.work, o);
      var fate := host.Fated();
      ok, t := host.Record(hash, o, r, fate);
      if host.s != old(host.s) {
        StoredGrows(host.w, old(host.s), host.s, t);
      }
    }

    /** Commits the end of the line in hand. */
    method CommitLine(file: nat, line: Line) returns (ok: bool)
      requires Valid() && AtLine(host.s) && MayCommit(host.w, host.s) && file >= 1
      requires host.s.work.file == file && host.s.work.lines[0] == line
      modifies host`disk, host`nextGen, host`s, host`past, db
      ensures Valid() && Later(old(host.past), host.past) && host.s.db.matches == old(host.s).db.matches
      ensures |host.s.db.index.rows| == |old(host.s).db.index.rows|
      ensures host.quiet && file in old(host.s).db.logs.files ==> ok
      ensures ok ==> Passed(old(host.s), host.s) && OffsetOnly(old(host.s), host.s, file, host.past.kept)
      ensures ok && host.quiet ==> OffsetSet(old(host.s).db, host.s.db, file, line.end)
    {
      host.Meanwhile();
      var fate := host.Fated();
      ghost var before, kept := host.s, host.past.kept;
      ok := host.UpdateOffset(file, line.end, fate);
      if ok { OffsetAlone(old(host.s), before, host.s, file, line.end, kept, host.past.kept); }
    }

    /** The body of the loop over a file's lines. */
    method ProcessLine(file: nat, service: string, line: Line, engine: seq<Rule>, result: CycleResult,
                       ghost rows: nat, ghost counts: nat) returns (ok: bool, ghost t: Stamp)
      requires Valid() && InHand(host.s, file, service, line) && host.s.work.stage.Top? && file >= 1
      requires Answers(patterns, engine, host.w) && Balanced(BooksOf(result, host.s), rows, counts)
      modifies host`disk, host`nextGen, host`s, host`past, db
      modifies result`lines, result`matched, result`ignored, result`events
      ensures Valid() && Later(old(host.past), host.past) && result.lines == old(result.lines) + 1
      ensures host.quiet && file in old(host.s).db.logs.files ==> ok
      ensures ok ==> Balanced(BooksOf(result, host.s), rows, counts)
      ensures ok ==> Passed(old(host.s), host.s) && OffsetOnly(old(host.s), host.s, file, host.past.kept)
      ensures !ok ==> NearlyBalanced(BooksOf(result, host.s), rows, counts)
      ensures ok && host.quiet ==> file in old(host.s).db.logs.files
      ensures ok && host.quiet ==> host.s.db == AfterLine(host.w, file, service, line, t, old(host.s).db)
    {
      result.lines := result.lines + 1;
      var m := Match(patterns, engine, Context(service, line.text));
      assert host.w.verdict(service, line.text) == VerdictFor(m) && Named(VerdictFor(m));
      if m.None? {
        ok := CommitLine(file, line);
        t := Stamp("", "", "");
      } else {
        ok, t := ProcessMatch(file, service, line, m.value, result, rows, counts);
      }
    }

    /** A line that a rule matched. */
    method ProcessMatch(file: nat, service: string, line: Line, rule: Rule, result: CycleResult,
                        ghost rows: nat, ghost counts: nat) returns (ok: bool, ghost t: Stamp)
      requires Valid() && InHand(host.s, file, service, line) && host.s.work.stage.Top? && file >= 1
      requires host.w.verdict(service, line.text) == VerdictFor(Some(rule)) && rule.id > 0
      requires Balanced(BooksOf(result, host.s), rows, counts) && result.matched < result.lines
      modifies host`disk, host`nextGen, host`s, host`past, db, result`matched, result`ignored, result`events
      ensures Valid() && Later(old(host.past), host.past)
      ensures host.quiet && file in old(host.s).db.logs.files ==> ok
      ensures ok ==> Balanced(BooksOf(result, host.s), rows, counts)
      ensures ok ==> Passed(old(host.s), host.s) && OffsetOnly(old(host.s), host.s, file, host.past.kept)
      ensures !ok ==> NearlyBalanced(BooksOf(result, host.s), rows, counts)
      ensures ok && host.quiet ==> file in old(host.s).db.logs.files
      ensures ok && host.quiet ==> host.s.db == AfterLine(host.w, file, service, line, t, old(host.s).db)
    {
      hide PastOf, Runs.Leads, Keys, Stamping, OffsetOnly, Store, LineEntry;
      result.matched := result.matched + 1;
      t := Stamp("", "", "");
      BumpSum(host.s.db.matches, rule.id);
      ok := CountLine(rule.id);
      if ok {
        ghost var before, kept := host.s, host.past.kept;
        if rule.action.Ignore? {
          ok := IgnoreLine(file, line, result, rows, counts);
        } else {
          ok, t := RaiseLine(file, service, line, SeverityForAction(rule.action), result, rows, counts);
        }
        if ok { OffsetOnlyOn(old(host.s), before, host.s, file, kept, host.past.kept); }
      }
    }

    method IgnoreLine(file: nat, line: Line, result: CycleResult, ghost rows: nat, ghost counts: nat) returns (ok: bool)
      requires Valid() && AtLine(host.s) && MayCommit(host.w, host.s) && file >= 1
      requires host.s.work.file == file && host.s.work.lines[0] == line
      requires Owing(BooksOf(result, host.s), rows, counts)
      modifies host`disk, host`nextGen, host`s, host`past, db, result`ignored
      ensures Valid() && Later(old(host.past), host.past) && Balanced(BooksOf(result, host.s), rows, counts)
      ensures host.quiet && file in old(host.s).db.logs.files ==> ok
      ensures ok ==> Passed(old(host.s), host.s) && OffsetOnly(old(host.s), host.s, file, host.past.kept)
      ensures ok && host.quiet ==> OffsetSet(old(host.s).db, host.s.db, file, line.end)
    {
      result.ignored := result.ignored + 1;
      ok := CommitLine(file, line);
    }

    method RaiseLine(file: nat, service: string, line: Line, severity: string, result: CycleResult,
                     ghost rows: nat, ghost counts: nat) returns (ok: bool, ghost t: Stamp)
      requires Valid() && InHand(host.s, file, service, line) && host.s.work.stage.Counted? && file >= 1
      requires var v := host.w.verdict(service, line.text); v.Raised? && v.severity == severity != ""
      requires Owing(BooksOf(result, host.s), rows, counts)
      modifies host`disk, host`nextGen, host`s, host`past, db, result`events
      ensures Valid() && Later(old(host.past), host.past)
      ensures host.quiet && file in old(host.s).db.logs.files ==> ok
      ensures ok ==> Balanced(BooksOf(result, host.s), rows, counts)
      ensures ok ==> Passed(old(host.s), host.s) && OffsetOnly(old(host.s), host.s, file, host.past.kept)
      ensures !ok ==> NearlyBalanced(BooksOf(result, host.s), rows, counts)
      ensures ok && host.quiet ==> file in old(host.s).db.logs.files
      ensures ok && host.quiet ==> EventCommitted(host.w, old(host.s).db, host.s.db, file, service, line, severity, t)
    {
      hide PastOf, Runs.Leads, Keys, Stamping, OffsetOnly, Store, LineEntry;
      ok, t := StoreLine(file, service, severity, line);
      if ok {
        ghost var before, kept := host.s, host.past.kept;
        result.events := result.events + 1;
        ok := CommitLine(file, line);
        if ok { OffsetOnlyOn(old(host.s), before, host.s, file, kept, host.past.kept); }
      }
    }

    // ---- One file ----

    /** Opens and reads the file from its offset. A tracked file whose path has been there all along is read as it is
        now, which is no less than it was when the cycle began. */
    method ReadFile(service: string, file: FileState) returns (r: ReadResult)
      requires Valid() && host.s.work.Idle? && IsHeld(host.s, service, file) && !file.rotation.Missing?
      modifies host`disk, host`nextGen, host`s, host`past, db
      ensures Valid() && Later(old(host.past), host.past) && SameTotals(old(host.s), host.s)
      ensures host.quiet ==> r.Lines? && host.s.db == old(host.s).db
      ensures r.Lines? ==> host.s.held == old(host.s).held - {file.id}
      ensures r.Lines? ==> Spared(old(host.s), host.s, file.id, host.past.kept) && OwnRow(old(host.s), host.s, file.id)
      ensures r.Lines? ==> if host.s.work.Busy?
        then host.s.work == Busy(file.id, service, host.s.work.base, r.lines, Top)
        else r.lines == [] && host.s.work.Idle?
      ensures r.Lines? && file.path in host.past.stayed ==> ReadWhole(host.s, file, r.lines)
      ensures r.Lines? && file.path in host.past.stayed && file.id in host.s.db.logs.files ==>
        file.id in host.s.seen && ReadSince(host.began, host.s.seen[file.id], file.path)
    {
      host.Meanwhile();
      ghost var before, kept := host.s, host.past.kept;
      var found := Absent;
      if file.path in host.disk {
        found := Content(host.disk[file.path].bytes);
      }
      var fails := host.Fails();
      if fails {
        found := Failed;
      }
      r := ReadCompleteLines(file.rotation.Missing?, file.offset, found);
      if r.Lines? {
        ReadNow(file.id, file.path);
        LeftAloneSpares(old(host.s), before, file.id, kept);
        RowsButNone(before, host.s, file.id, host.past.kept);
        SparedOn(old(host.s), before, host.s, file.id, kept, host.past.kept);
      }
    }

    ghost method ReadNow(f: nat, path: string)
      requires Valid() && host.s.work.Idle? && f in host.s.held && host.s.held[f].path == path
      modifies host`s, host`past
      ensures Valid() && Later(old(host.past), host.past) && host.s.held == old(host.s).held - {f}
      ensures host.s.db == old(host.s).db && SeenBut(old(host.s), host.s, f)
      ensures var h := old(host.s).held[f];
        host.s.work == if h.path !in host.disk then Idle
          else Busy(f, h.service, host.disk[h.path].bytes, LinesFrom(host.disk[h.path].bytes, h.offset), Top)
      ensures host.past.stayed <= host.disk.Keys
      ensures path in host.disk && f in host.s.db.logs.files ==>
        f in host.s.seen && ReadSince(host.began, host.s.seen[f], path)
    {
      host.Known();
      host.TakeRead(f);
      host.Since();
      if path in host.s.disk && f in host.s.db.logs.files { host.SeenSince(f, path); }
    }

    /** The loop over a file's lines. */
    method ProcessLines(service: string, file: nat, lines: seq<Line>, engine: seq<Rule>, result: CycleResult,
                        ghost base: Option<string>, ghost rows: nat, ghost counts: nat)
      returns (ok: bool, ghost ts: seq<Stamp>)
      requires Valid() && LeftOf(host.s, file, service, base, lines) && file >= 1
      requires host.quiet ==> file in host.s.db.logs.files
      requires Answers(patterns, engine, host.w) && Balanced(BooksOf(result, host.s), rows, counts)
      modifies host`disk, host`nextGen, host`s, host`past, db
      modifies result`lines, result`matched, result`ignored, result`events
      ensures Valid() && Later(old(host.past), host.past) && |ts| == |lines|
      ensures ok ==> Balanced(BooksOf(result, host.s), rows, counts)
      ensures host.quiet ==> ok
      ensures ok ==> result.lines == old(result.lines) + |lines|
      ensures ok ==> LeftOf(host.s, file, service, base, []) && host.s.held == old(host.s).held
      ensures ok ==> OffsetOnly(old(host.s), host.s, file, host.past.kept)
      ensures !ok ==> NearlyBalanced(BooksOf(result, host.s), rows, counts)
      ensures ok && host.quiet ==> host.s.db == AfterLines(host.w, file, service, lines, ts, old(host.s).db)
    {
      hide PastOf, Runs.Leads, Answers, Keys, Stamping, Balanced, NearlyBalanced;
      ghost var held, tables := host.s.held, host.s.db;
      ts := [];
      for i := 0 to |lines|
        invariant Valid() && Later(old(host.past), host.past)
        invariant LeftOf(host.s, file, service, base, lines[i..]) && host.s.held == held
        invariant Balanced(BooksOf(result, host.s), rows, counts) && |ts| == i
        invariant result.lines == old(result.lines) + i
        invariant OffsetOnly(old(host.s), host.s, file, host.past.kept)
        invariant host.quiet ==> host.s.db == AfterLines(host.w, file, service, lines[..i], ts, tables)
      {
        ghost var before, kept := host.s, host.past.kept;
        ghost var t;
        ok, t := ProcessLine(file, service, lines[i], engine, result, rows, counts);
        if !ok {
          ts := seq(|lines|, _ => t);
          return;
        }
        OffsetOnlyOn(old(host.s), before, host.s, file, kept, host.past.kept);
        assert lines[i..][1..] == lines[i + 1..] && lines[..i + 1] == lines[..i] + [lines[i]];
        if host.quiet {
          AfterOneMore(host.w, file, service, lines[..i], ts, tables, lines[i], t);
        }
        ts := ts + [t];
      }
      ok := true;
      assert lines[..|lines|] == lines;
    }

    /** Nothing of the file is left in memory; and then no complete line of what was read lies past its offset. */
    ghost method FinishFile(file: nat, service: string, base: Option<string>)
      requires Valid() && LeftOf(host.s, file, service, base, [])
      modifies host`s, host`past
      ensures Valid() && Later(old(host.past), host.past) && host.s == old(host.s).(work := Idle)
      ensures base.Some? && file in host.s.db.logs.files ==>
        file in host.s.seen && LinesFrom(host.s.seen[file].bytes, host.s.db.logs.files[file].offset) == []
    {
      if base.Some? {
        if file in host.s.db.logs.files {
          host.Known();
          assert Delivery.FileOk(host.w, host.s, file);
        }
        host.TakeFinish();
      }
    }

    /** Reads one refreshed file and processes what it holds past its offset. Whatever others do meanwhile, no complete
        line of what was read is left, if its log stays watched and its path stays on disk. */
    method ProcessFile(service: string, file: FileState, engine: seq<Rule>, result: CycleResult,
                       ghost rows: nat, ghost counts: nat) returns (ok: bool, ghost ts: seq<Stamp>)
      requires Valid() && host.s.work.Idle? && IsHeld(host.s, service, file) && !file.rotation.Missing? && file.id >= 1
      requires Told(host.s, file, host.past.kept)
      requires host.quiet ==> file.log in host.past.kept && file.path in host.past.stayed
      requires Answers(patterns, engine, host.w) && Balanced(BooksOf(result, host.s), rows, counts)
      modifies host`disk, host`nextGen, host`s, host`past, db
      modifies result`lines, result`matched, result`ignored, result`events
      ensures Valid() && Later(old(host.past), host.past)
      ensures ok ==> Balanced(BooksOf(result, host.s), rows, counts)
      ensures host.quiet ==> ok
      ensures ok ==> result.lines == old(result.lines) + |ts|
      ensures ok ==> host.s.work.Idle? && host.s.held == old(host.s).held - {file.id}
      ensures ok ==> Spared(old(host.s), host.s, file.id, host.past.kept) && OwnRow(old(host.s), host.s, file.id)
      ensures ok ==> FileDone(host.began, host.s, host.past, file)
      ensures !ok ==> NearlyBalanced(BooksOf(result, host.s), rows, counts)
      ensures ok && host.quiet ==> TookIn(host.w, file, service, ts, old(host.s), host.s)
    {
      hide PastOf, Runs.Leads, Answers, Keys, Stamping, OffsetOnly, FileDone;
      ts := [];
      var r := ReadFile(service, file);
      if r.ReadError? {
        return false, ts;
      }
      ghost var first, kept, past := host.s, host.past.kept, host.past;
      ghost var base := if first.work.Busy? then Some(first.work.base) else None;
      ok, ts := ProcessLines(service, file.id, r.lines, engine, result, base, rows, counts);
      if ok {
        ghost var before, still := host.s, host.past.kept;
        FinishFile(file.id, service, base);
        ReadAndDrained(old(host.s), first, before, host.s, host.began, file, old(host.past), past, host.past, still);
      }
    }

    // ---- One log ----

    method ProcessLog(watched: Watched, engine: seq<Rule>, result: CycleResult, ghost rows: nat, ghost counts: nat)
      returns (ok: bool)
      requires Valid() && GivenUp(host.s) && (host.quiet ==> watched.id in host.past.kept)
      requires Answers(patterns, engine, host.w) && Balanced(BooksOf(result, host.s), rows, counts)
      modifies host`disk, host`nextGen, host`s, host`past, db
      modifies result`files, result`lines, result`matched, result`ignored, result`events
      ensures Valid() && Later(old(host.past), host.past)
      ensures ok ==> Balanced(BooksOf(result, host.s), rows, counts) && GivenUp(host.s)
      ensures !ok ==> NearlyBalanced(BooksOf(result, host.s), rows, counts)
      ensures ok ==> LogSpared(old(host.s), host.s, watched.id, host.past.kept)
      ensures ok ==> LogDone(host.began, host.s, host.past, host.globs, watched.id, watched.path)
      ensures host.quiet ==> ok
      ensures ok && host.quiet ==> result.files == old(result.files) + |Expansion(host.disk, host.globs, watched.path)|
      ensures ok && host.quiet && |Expansion(host.disk, host.globs, watched.path)| == 1 ==>
        PolledOnce(host.w, host.disk, host.globs, watched, old(host.s).db, host.s.db)
    {
      hide PastOf, Runs.Leads, Answers, Keys, Stamping, LogSpared, LogDone, Complete;
      var files, paths := RefreshFiles(host, watched);
      if files.None? {
        return false;
      }
      ghost var first, kept := host.s, host.past.kept;
      AnswerStarts(old(host.s), first, host.began, watched, paths, files.value, host.past);
      if host.quiet { AllAreThere(watched.id, paths, files.value, host.past); }
      ghost var ts;
      ok, ts := ProcessFiles(watched, files.value, engine, result, |paths|, rows, counts);
      if ok {
        LogSparedOn(old(host.s), first, host.s, watched.id, kept, host.past.kept);
        LogIsDone(host.began, host.s, host.past, host.globs, watched.id, watched.path, paths, files.value[..|paths|]);
      }
      if ok && host.quiet {
        DistinctSize(paths, Expansion(host.disk, host.globs, watched.path));
        if |paths| == 1 {
          PolledThere(host.w, old(host.s), first, host.s, host.globs, watched, paths, files.value, ts, kept);
        }
      }
    }

    /** The loop over a log's files, of which the first `n` are present. */
    method ProcessFiles(watched: Watched, files: seq<FileState>, engine: seq<Rule>, result: CycleResult,
                        ghost n: nat, ghost rows: nat, ghost counts: nat) returns (ok: bool, ghost ts: seq<Stamp>)
      requires Valid() && host.s.work.Idle? && Shape(watched.id, n, files)
      requires Waiting(host.s, watched.service, files[..n], 0)
      requires Progress(host.began, host.s, host.past, files[..n], 0)
      requires host.quiet ==> AllThere(files[..n], host.past)
      requires Answers(patterns, engine, host.w) && Balanced(BooksOf(result, host.s), rows, counts)
      modifies host`disk, host`nextGen, host`s, host`past, db
      modifies result`files, result`lines, result`matched, result`ignored, result`events
      ensures Valid() && Later(old(host.past), host.past)
      ensures ok ==> Balanced(BooksOf(result, host.s), rows, counts) && GivenUp(host.s)
      ensures !ok ==> NearlyBalanced(BooksOf(result, host.s), rows, counts)
      ensures ok ==> LogSpared(old(host.s), host.s, watched.id, host.past.kept)
      ensures host.quiet ==> ok
      ensures ok ==> result.files == old(result.files) + n
      ensures ok ==> Progress(host.began, host.s, host.past, files[..n], n)
      ensures ok && host.quiet && n == 1 ==> TookIn(host.w, files[0], watched.service, ts, old(host.s), host.s)
    {
      hide PastOf, Runs.Leads, Answers, Keys, Stamping, Balanced, NearlyBalanced, TookIn, LogSpared,
        Progress, Waiting;
      ghost var observed := files[..n];
      LogSparedSelf(host.s, watched.id, host.past.kept);
      ok, ts := true, [];
      for j := 0 to |files|
        invariant ok && Valid() && host.s.work.Idle? && Balanced(BooksOf(result, host.s), rows, counts)
        invariant Later(old(host.past), host.past) && result.files == old(result.files) + Reached(j, n)
        invariant Waiting(host.s, watched.service, observed, Reached(j, n))
        invariant Progress(host.began, host.s, host.past, observed, Reached(j, n))
        invariant LogSpared(old(host.s), host.s, watched.id, host.past.kept)
        invariant host.quiet ==> AllThere(observed, host.past)
        invariant host.quiet ==> FirstTaken(host.w, files, watched.service, ts, old(host.s), host.s, j, n)
      {
        ghost var before, kept := host.s, host.past.kept;
        ghost var us;
        ok, us := ProcessAt(watched, files, j, engine, result, n, rows, counts);
        if !ok {
          return;
        }
        LogSparedOn(old(host.s), before, host.s, watched.id, kept, host.past.kept);
        if j == 0 { ts := us; }
      }
      NoneWait(host.s, watched.service, observed);
    }

    /** The loop's body: a missing file is passed over. */
    method ProcessAt(watched: Watched, files: seq<FileState>, j: nat, engine: seq<Rule>, result: CycleResult,
                     ghost n: nat, ghost rows: nat, ghost counts: nat) returns (ok: bool, ghost ts: seq<Stamp>)
      requires Valid() && host.s.work.Idle? && j < |files| && Shape(watched.id, n, files)
      requires Waiting(host.s, watched.service, files[..n], Reached(j, n))
      requires Progress(host.began, host.s, host.past, files[..n], Reached(j, n))
      requires host.quiet ==> AllThere(files[..n], host.past)
      requires Answers(patterns, engine, host.w) && Balanced(BooksOf(result, host.s), rows, counts)
      modifies host`disk, host`nextGen, host`s, host`past, db
      modifies result`files, result`lines, result`matched, result`ignored, result`events
      ensures Valid() && Later(old(host.past), host.past)
      ensures result.files == old(result.files) + if files[j].rotation.Missing? then 0 else 1
      ensures ok ==> host.s.work.Idle? && Balanced(BooksOf(result, host.s), rows, counts)
      ensures ok ==> Waiting(host.s, watched.service, files[..n], Reached(j + 1, n))
      ensures !ok ==> NearlyBalanced(BooksOf(result, host.s), rows, counts)
      ensures host.quiet ==> ok
      ensures ok ==> Progress(host.began, host.s, host.past, files[..n], Reached(j + 1, n))
      ensures ok ==> LogSpared(old(host.s), host.s, watched.id, host.past.kept)
      ensures ok && host.quiet ==> if files[j].rotation.Missing? then host.s == old(host.s)
        else TookIn(host.w, files[j], watched.service, ts, old(host.s), host.s)
    {
      ts := [];
      if files[j].rotation.Missing? {
        return true, ts;
      }
      result.files := result.files + 1;
      ok, ts := ProcessNext(watched, files[j], engine, result, files[..n], j, rows, counts);
    }

    method ProcessNext(watched: Watched, file: FileState, engine: seq<Rule>, result: CycleResult,
                       ghost observed: seq<FileState>, ghost j: nat, ghost rows: nat, ghost counts: nat)
      returns (ok: bool, ghost ts: seq<Stamp>)
      requires Valid() && host.s.work.Idle? && j < |observed| && observed[j] == file && OnceEach(observed)
      requires Waiting(host.s, watched.service, observed, j) && !file.rotation.Missing? && file.id >= 1
      requires file.log == watched.id && Progress(host.began, host.s, host.past, observed, j)
      requires host.quiet ==> AllThere(observed, host.past)
      requires Answers(patterns, engine, host.w) && Balanced(BooksOf(result, host.s), rows, counts)
      modifies host`disk, host`nextGen, host`s, host`past, db
      modifies result`lines, result`matched, result`ignored, result`events
      ensures Valid() && Later(old(host.past), host.past)
      ensures ok ==> host.s.work.Idle? && Balanced(BooksOf(result, host.s), rows, counts)
      ensures ok ==> Waiting(host.s, watched.service, observed, j + 1)
      ensures !ok ==> NearlyBalanced(BooksOf(result, host.s), rows, counts)
      ensures host.quiet ==> ok
      ensures ok ==> Progress(host.began, host.s, host.past, observed, j + 1)
      ensures ok ==> LogSpared(old(host.s), host.s, watched.id, host.past.kept)
      ensures ok && host.quiet ==> TookIn(host.w, file, watched.service, ts, old(host.s), host.s)
    {
      ghost var before, past := host.s, host.past;
      ok, ts := ProcessFile(watched.service, file, engine, result, rows, counts);
      if ok {
        WaitingOn(before, host.s, watched.service, observed, j);
        ProgressOn(host.began, before, host.s, past, host.past, observed, j);
        ToldSparesLog(before, host.s, file, past.kept, host.past.kept);
      }
    }

    // ---- One cycle ----

    /** The enabled rules, in whatever order the query gives them. */
    method LoadEnabled() returns (loaded: Option<seq<Rule>>)
      ensures host.quiet ==> loaded.Some?
      ensures loaded.Some? ==> multiset(loaded.value) == multiset(EnabledOnly(rules))
    {
      var fails := host.Fails();
      if fails {
        return None;
      }
      return Some(EnabledOnly(rules));
    }

    /** The enabled rules as an engine; None where they cannot be loaded or one does not compile. */
    method BuildEngine() returns (engine: Option<seq<Rule>>, none: bool)
      requires Ruled(patterns, rules, host.w) && RuleIds(rules)
      ensures none ==> EnabledOnly(rules) == []
      ensures host.quiet && AllCompile(patterns, rules) ==> none || engine.Some?
      ensures engine.Some? ==> EnabledOnly(rules) != [] && Answers(patterns, engine.value, host.w)
    {
      engine, none := None, false;
      var loaded := LoadEnabled();
      if loaded.None? {
        return;
      }
      if |loaded.value| == 0 {
        assert |multiset(EnabledOnly(rules))| == 0;
        return None, true;
      }
      LoadedCompile(patterns, rules, loaded.value);
      engine := NewEngine(patterns, loaded.value);
      if engine.Some? {
        EngineAnswers(patterns, rules, loaded.value, engine.value, host.w);
      }
    }

    /** One cycle is a run of the machine, whatever others do meanwhile. Its books balance; and if it succeeds, then
        every path that was there all along, of every log that was enabled and watched all along, has been read since
        the cycle began and drained of what was read. */
    method RunCycle() returns (result: CycleResult, ok: bool)
      requires Valid() && GivenUp(host.s) && Ruled(patterns, rules, host.w) && RuleIds(rules)
      modifies host`disk, host`nextGen, host`s, host`began, host`past, db
      ensures fresh(result) && Valid() && GivenUp(host.s)
      ensures host.began == old(host.s) && host.s == Run(host.w, old(host.s), host.past.steps)
      ensures ok ==> Balanced(BooksOf(result, host.s), |old(host.s).db.index.rows|, Sums.Sum(old(host.s).db.matches))
      ensures !ok ==>
        NearlyBalanced(BooksOf(result, host.s), |old(host.s).db.index.rows|, Sums.Sum(old(host.s).db.matches))
      ensures ok && EnabledOnly(rules) != [] ==> CycleDone(old(host.s), host.s, host.past, host.globs)
      ensures ok && host.quiet && EnabledOnly(rules) == [] ==> host.s == old(host.s)
      ensures host.quiet && AllCompile(patterns, rules) ==> ok
      ensures ok && host.quiet ==> result.watchedLogs == |old(host.s).db.logs.watched|
      ensures ok && host.quiet && EnabledOnly(rules) != [] ==>
        forall log :: SolePolled(host.w, old(host.s), host.globs, host.s.db, log)
    {
      host.Begin();
      host.Meanwhile();
      result := new CycleResult(0);
      ok := Cycle(result);
      if !ok {
        host.TakeCut();
      }
    }

    method Cycle(result: CycleResult) returns (ok: bool)
      requires Valid() && GivenUp(host.s) && Ruled(patterns, rules, host.w) && RuleIds(rules)
      requires BooksOf(result, host.s) == Books(0, 0, 0, 0, |host.s.db.index.rows|, Sums.Sum(host.s.db.matches))
      modifies host`disk, host`nextGen, host`s, host`past, db, result
      ensures Valid()
      ensures ok ==> GivenUp(host.s)
      ensures ok ==> Balanced(BooksOf(result, host.s), |old(host.s).db.index.rows|, Sums.Sum(old(host.s).db.matches))
      ensures !ok ==>
        NearlyBalanced(BooksOf(result, host.s), |old(host.s).db.index.rows|, Sums.Sum(old(host.s).db.matches))
      ensures EnabledOnly(rules) == [] ==> host.s == old(host.s)
      ensures host.quiet && AllCompile(patterns, rules) ==> ok
      ensures ok ==> result.watchedLogs == |old(host.s).db.logs.watched|
      ensures ok && EnabledOnly(rules) != [] ==> CycleDone(host.began, host.s, host.past, host.globs)
      ensures ok && host.quiet && EnabledOnly(rules) != [] ==>
        forall log :: SolePolled(host.w, old(host.s), host.globs, host.s.db, log)
    {
      hide PastOf, Runs.Leads, Answers, Keys, Stamping, Ruled, CycleDone, SolePolled;
      var fails := host.Fails();
      if fails {
        return false;
      }
      var watchedLogs := db.List();
      ListSize(db.watched, watchedLogs);
      var engine, none := BuildEngine();
      if none {
        result.watchedLogs := |watchedLogs|;
        return true;
      }
      if engine.None? {
        return false;
      }
      result.watchedLogs := |watchedLogs|;
      ok := ProcessLogs(watchedLogs, engine.value, result, |host.s.db.index.rows|, Sums.Sum(host.s.db.matches));
    }

    /** The loop over the watched logs. */
    method ProcessLogs(list: seq<Watched>, engine: seq<Rule>, result: CycleResult, ghost rows: nat, ghost counts: nat)
      returns (ok: bool)
      requires Valid() && GivenUp(host.s) && ListOf(host.s.db.logs.watched, list)
      requires Answers(patterns, engine, host.w) && Balanced(BooksOf(result, host.s), rows, counts)
      modifies host`disk, host`nextGen, host`s, host`past, db
      modifies result`files, result`lines, result`matched, result`ignored, result`events
      ensures Valid()
      ensures ok ==> Balanced(BooksOf(result, host.s), rows, counts) && GivenUp(host.s)
      ensures !ok ==> NearlyBalanced(BooksOf(result, host.s), rows, counts)
      ensures host.quiet ==> ok
      ensures ok ==> CycleDone(host.began, host.s, host.past, host.globs)
      ensures ok && host.quiet ==> forall log :: SolePolled(host.w, old(host.s), host.globs, host.s.db, log)
    {
      hide PastOf, Runs.Leads, Answers, Keys, Stamping, Balanced, NearlyBalanced, ListDone,
        Effect, CycleDone, SolePolled;
      host.Since();
      ListsKept(host.began, host.s, list, host.past.kept);
      ListStarts(host.began, host.s, host.past, host.w, host.globs, list, host.s.db);
      ok := true;
      for j := 0 to |list|
        invariant ok && Valid() && GivenUp(host.s) && Balanced(BooksOf(result, host.s), rows, counts)
        invariant Later(old(host.past), host.past) && (host.quiet ==> AllKept(list, host.past.kept))
        invariant ListDone(host.began, host.s, host.past, host.globs, list, j)
        invariant host.quiet ==> Effect(host.w, host.began.disk, host.globs, list, j, old(host.s).db, host.s.db)
      {
        ghost var before := host.s;
        ok := ProcessListed(list, j, engine, result, rows, counts);
        if !ok {
          return;
        }
        if host.quiet {
          EffectOn(host.w, host.began.disk, host.globs, list, j, old(host.s).db, before.db, host.s.db);
        }
      }
      ListIsDone(host.began, host.s, host.past, host.globs, list);
      if host.quiet {
        SoleEffect(host.w, old(host.s), host.globs, list, host.s.db);
      }
    }

    /** The loop's body: a disabled log is passed over. */
    method ProcessListed(list: seq<Watched>, j: nat, engine: seq<Rule>, result: CycleResult,
                         ghost rows: nat, ghost counts: nat) returns (ok: bool)
      requires Valid() && GivenUp(host.s) && j < |list| && (forall i :: 0 <= i < j ==> list[i].id != list[j].id)
      requires ListDone(host.began, host.s, host.past, host.globs, list, j)
      requires host.quiet ==> AllKept(list, host.past.kept)
      requires Answers(patterns, engine, host.w) && Balanced(BooksOf(result, host.s), rows, counts)
      modifies host`disk, host`nextGen, host`s, host`past, db
      modifies result`files, result`lines, result`matched, result`ignored, result`events
      ensures Valid() && Later(old(host.past), host.past)
      ensures ok ==> Balanced(BooksOf(result, host.s), rows, counts) && GivenUp(host.s)
      ensures !ok ==> NearlyBalanced(BooksOf(result, host.s), rows, counts)
      ensures host.quiet ==> ok
      ensures ok ==> ListDone(host.began, host.s, host.past, host.globs, list, j + 1)
      ensures ok && host.quiet ==> if list[j].enabled
        then |Expansion(host.disk, host.globs, list[j].path)| == 1 ==>
          PolledOnce(host.w, host.disk, host.globs, list[j], old(host.s).db, host.s.db)
        else host.s == old(host.s)
    {
      if !list[j].enabled {
        return true;
      }
      ghost var before, past := host.s, host.past;
      ok := ProcessLog(list[j], engine, result, rows, counts);
      if ok {
        ListStaysDone(host.began, before, host.s, past, host.past, host.globs, list, j);
      }
    }
  }
}
