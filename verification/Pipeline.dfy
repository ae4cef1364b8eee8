/** The log intake as a state machine. Its atomic steps are the writers' changes to the files, the durable
    database statements of internal/app/processor.go and internal/logs, and the loss of the process's memory
    by a crash or an abandoned cycle. Every interleaving of them is a run. */
module Pipeline {
  import opened LogTables
  import opened Options
  import opened Reader
  import EventIndex
  import Strings

  /** What the rules say about a line: no match, an ignored match, or a match that raises an event. */
  datatype Verdict = Unmatched | Ignored(rule: int) | Raised(rule: int, severity: string)

  /** The loaded rules and the event fingerprint, as functions of service and line, and the texts
      the clock can give to a recording. */
  datatype World = World(
    verdict: (string, string) -> Verdict, key: (string, string) -> string, stamps: EventIndex.Stamp -> bool)

  /** A file on disk. `gen` numbers the successive files that have lived at some path;
      the program cannot see it. */
  datatype OnDisk = OnDisk(ident: Identity, bytes: string, gen: nat)

  datatype Db = Db(logs: Logs, index: EventIndex.Index, matches: map<int, nat>)

  /** A refreshed file waiting to be read: the in-memory `FileState`, with the service of its watched log. */
  datatype Held = Held(service: string, path: string, offset: nat)

  /** How far the current line has got: nothing written, match counted, event stored. */
  datatype Stage = Top | Counted | Stored

  /** The file being processed, and the lines read from it that are not yet committed. */
  datatype Work = Idle | Busy(file: nat, service: string, base: string, lines: seq<Line>, stage: Stage)

  /** History only: what the last refresh or read saw of a tracked file. One pass over a generation goes on as long
      as its offset is carried on; `start` is the offset the present pass began at. */
  datatype Seen = Seen(gen: nat, bytes: string, pass: nat, start: nat)

  /** History only: one stored occurrence, with the generation, the pass and the line it came from. */
  datatype Origin = Origin(file: nat, gen: nat, pass: nat, line: Line)

  /** History only: a line whose end was committed, and whether the rules raised it then, under the service in hand. */
  datatype Judged = Judged(origin: Origin, raised: bool)

  datatype State = State(
    disk: map<string, OnDisk>, nextGen: nat,
    db: Db,
    held: map<nat, Held>, work: Work,
    // history
    seen: map<nat, Seen>, nextPass: nat, excused: set<(nat, nat)>, swapped: set<(nat, nat)>,
    trail: seq<Origin>, history: seq<EventIndex.Entry>, judged: seq<Judged>, cuts: nat)

  const INIT :=
    State(map[], 1, Db(LogTables.EMPTY, EventIndex.EMPTY, map[]), map[], Idle, map[], 1, {}, {}, [], [], [], 0)

  datatype Step =
    // the writers
    | Append(path: string, more: string)
    | Replace(path: string, ident: Identity, bytes: string)
    | Unlink(path: string)
    // the socket handlers
    | Add(id: nat, path: string, service: string)
    | Remove(id: nat)
    // the processor
    | Refresh(file: nat, log: nat, path: string, service: string)
    | Read(file: nat)
    | CountMatch
    | StoreEvent(at: string, dayStart: string, hourStart: string)
    | Commit
    | Finish
    // a crash, or any error that abandons the cycle
    | Cut

  function VerdictOf(w: World, k: Work): Verdict
    requires k.Busy? && k.lines != []
  {
    w.verdict(k.service, k.lines[0].text)
  }

  predicate Worthy(w: World, service: string, line: Line) {
    w.verdict(service, line.text).Raised?
  }

  predicate AtLine(s: State) {
    s.work.Busy? && s.work.lines != []
  }

  /** The current line is done with and its end may be committed. */
  predicate MayCommit(w: World, s: State)
    requires AtLine(s)
  {
    match VerdictOf(w, s.work)
    case Unmatched => s.work.stage.Top?
    case Ignored(_) => s.work.stage.Counted?
    case Raised(_, _) => s.work.stage.Stored?
  }

  predicate Enabled(w: World, s: State, step: Step) {
    match step
    case Append(path, _) => path in s.disk
    case Replace(_, _, _) => true
    case Unlink(_) => true
    case Add(id, path, _) => AddTarget(s.db.logs, path, id)
    case Remove(id) => id in s.db.logs.watched
    case Refresh(file, log, path, _) =>
      && path in s.disk && log in s.db.logs.watched && RefreshTarget(s.db.logs, log, path, file)
      && file !in s.held && !(s.work.Busy? && s.work.file == file)
    case Read(file) => file in s.held && s.work.Idle?
    case CountMatch =>
      AtLine(s) && s.work.stage.Top? && !VerdictOf(w, s.work).Unmatched? && VerdictOf(w, s.work).rule > 0
    case StoreEvent(at, dayStart, hourStart) =>
      && AtLine(s) && s.work.stage.Counted? && VerdictOf(w, s.work).Raised? && s.work.file in s.db.logs.files
      && w.stamps(EventIndex.Stamp(at, dayStart, hourStart))
    case Commit => AtLine(s) && MayCommit(w, s) && s.work.file in s.db.logs.files
    case Finish => s.work.Busy? && s.work.lines == []
    case Cut => true
  }

  /** A generation the processor cannot tell from the one it was reading: same identity, and not shorter than
      the stored offset. */
  predicate Unnoticed(s: State, file: nat, disk: OnDisk)
    requires file in s.db.logs.files && file in s.seen
  {
    var row := s.db.logs.files[file];
    disk.gen != s.seen[file].gen && row.offset > 0 && RotationOf(row, disk.ident, |disk.bytes|).NoRotation?
  }

  /** The refresh carries on the pass it finds: the same generation, and no reset. */
  predicate CarriesOn(s: State, file: nat, disk: OnDisk) {
    && file in s.db.logs.files && file in s.seen && s.seen[file].gen == disk.gen
    && RotationOf(s.db.logs.files[file], disk.ident, |disk.bytes|).NoRotation?
  }

  /** The rules find the same lines worthy under both services. */
  ghost predicate SameWorth(w: World, a: string, b: string) {
    forall text :: w.verdict(a, text).Raised? == w.verdict(b, text).Raised?
  }

  /** The service the database now gives a tracked file's log. */
  function ServiceOf(t: Logs, file: nat): string
    requires file in t.files && t.files[file].log in t.watched
  {
    t.watched[t.files[file].log].service
  }

  ghost function Refreshed(w: World, s: State, file: nat, log: nat, path: string, service: string): State
    requires path in s.disk && log in s.db.logs.watched
  {
    var d := s.disk[path];
    var logs := RefreshFile(s.db.logs, log, path, file, d.ident, |d.bytes|);
    var offset := logs.files[file].offset;
    var same := CarriesOn(s, file, d);
    var pass := if same then s.seen[file].pass else s.nextPass;
    s.(db := s.db.(logs := logs),
       held := s.held[file := Held(service, path, offset)],
       seen := s.seen[file := Seen(d.gen, d.bytes, pass, if same then s.seen[file].start else offset)],
       nextPass := s.nextPass + 1,
       excused := s.excused + if SameWorth(w, service, s.db.logs.watched[log].service) then {} else {(file, pass)})
  }

  /** Another generation has taken the place of the one that was refreshed. */
  predicate Swapped(s: State, file: nat)
    requires file in s.held && s.held[file].path in s.disk
  {
    file in s.db.logs.files && file in s.seen && s.seen[file].gen != s.disk[s.held[file].path].gen
  }

  /** What reading sees of a tracked file: it carries on the pass, or begins one at the offset in hand. */
  function SeenByRead(s: State, file: nat): Seen
    requires file in s.held && s.held[file].path in s.disk && file in s.seen
  {
    var h := s.held[file];
    var d := s.disk[h.path];
    if Swapped(s, file) then Seen(d.gen, d.bytes, s.nextPass, h.offset) else s.seen[file].(bytes := d.bytes)
  }

  /** The service in hand is one for which the rules find other lines worthy than for the one its log has now. */
  ghost predicate Outdated(w: World, s: State, file: nat)
    requires file in s.held
  {
    && file in s.db.logs.files && s.db.logs.files[file].log in s.db.logs.watched
    && !SameWorth(w, s.held[file].service, ServiceOf(s.db.logs, file))
  }

  ghost function ReadFile(w: World, s: State, file: nat): State
    requires file in s.held
  {
    var h := s.held[file];
    var rest := s.held - {file};
    if h.path !in s.disk then s.(held := rest) else
      var d := s.disk[h.path];
      var tracked := file in s.db.logs.files && file in s.seen;
      s.(held := rest,
         work := Busy(file, h.service, d.bytes, LinesFrom(d.bytes, h.offset), Top),
         seen := if tracked then s.seen[file := SeenByRead(s, file)] else s.seen,
         nextPass := s.nextPass + 1,
         excused := s.excused + if tracked && Outdated(w, s, file) then {(file, SeenByRead(s, file).pass)} else {},
         swapped := s.swapped + if Swapped(s, file) then {(file, d.gen)} else {})
  }

  function BumpMatch(m: map<int, nat>, rule: int): map<int, nat> {
    m[rule := 1 + if rule in m then m[rule] else 0]
  }

  /** One rule's count is one more, from nothing if need be, and no other is changed. */
  lemma OneMoreMatch(m: map<int, nat>, rule: int)
    ensures var n := BumpMatch(m, rule);
      && rule in n && n[rule] == (if rule in m then m[rule] + 1 else 1)
      && forall r :: r != rule ==> (r in n <==> r in m) && (r in m ==> n[r] == m[r])
  {
  }

  /** What recording a line of a file stores. */
  function LineEntry(w: World, file: nat, service: string, text: string, severity: string,
                     at: string, dayStart: string, hourStart: string): EventIndex.Entry {
    EventIndex.Entry(w.key(service, text), if file > 0 then Some(file) else None,
                     service, severity, Strings.TrimSpace(text), text, at, dayStart, hourStart)
  }

  function EntryFor(w: World, k: Work, at: string, dayStart: string, hourStart: string): EventIndex.Entry
    requires k.Busy? && k.lines != [] && VerdictOf(w, k).Raised?
  {
    LineEntry(w, k.file, k.service, k.lines[0].text, VerdictOf(w, k).severity, at, dayStart, hourStart)
  }

  /** Where the line in hand comes from. */
  function OriginOf(s: State): Origin
    requires AtLine(s)
  {
    var f := s.work.file;
    if f in s.seen then Origin(f, s.seen[f].gen, s.seen[f].pass, s.work.lines[0]) else Origin(f, 0, 0, s.work.lines[0])
  }

  ghost function Apply(w: World, s: State, step: Step): State
    requires Enabled(w, s, step)
  {
    match step
    case Append(path, more) => s.(disk := s.disk[path := s.disk[path].(bytes := s.disk[path].bytes + more)])
    case Replace(path, ident, bytes) =>
      s.(disk := s.disk[path := OnDisk(ident, bytes, s.nextGen)], nextGen := s.nextGen + 1)
    case Unlink(path) => s.(disk := s.disk - {path})
    case Add(id, path, service) =>
      var renamed := id in s.db.logs.watched && !SameWorth(w, s.db.logs.watched[id].service, service);
      s.(db := s.db.(logs := AddLog(s.db.logs, id, path, service)),
         excused := s.excused + if renamed then CurrentOf(s, id) else {})
    case Remove(id) =>
      s.(db := s.db.(logs := RemoveLog(s.db.logs, id), index := EventIndex.Orphan(s.db.index, FilesOf(s.db.logs, id))))
    case Refresh(file, log, path, service) => Refreshed(w, s, file, log, path, service)
    case Read(file) => ReadFile(w, s, file)
    case CountMatch =>
      s.(db := s.db.(matches := BumpMatch(s.db.matches, VerdictOf(w, s.work).rule)), work := s.work.(stage := Counted))
    case StoreEvent(at, dayStart, hourStart) =>
      var e := EntryFor(w, s.work, at, dayStart, hourStart);
      s.(db := s.db.(index := EventIndex.Store(s.db.index, e)),
         history := s.history + [e],
         trail := s.trail + [OriginOf(s)],
         work := s.work.(stage := Stored))
    case Commit =>
      s.(db := s.db.(logs := UpdateOffset(s.db.logs, s.work.file, s.work.lines[0].end)),
         judged := s.judged + [Judged(OriginOf(s), VerdictOf(w, s.work).Raised?)],
         work := s.work.(lines := s.work.lines[1..], stage := Top))
    case Finish => s.(work := Idle)
    case Cut => s.(held := map[], work := Idle, cuts := s.cuts + 1)
  }

  /** The passes under way over a log's files. */
  function CurrentOf(s: State, log: nat): set<(nat, nat)> {
    set f | f in s.db.logs.files && s.db.logs.files[f].log == log && f in s.seen :: (f, s.seen[f].pass)
  }

  /** A step that is not enabled changes nothing, so every sequence of steps is a run. */
  ghost function Next(w: World, s: State, step: Step): State {
    if Enabled(w, s, step) then Apply(w, s, step) else s
  }

  ghost function Run(w: World, s: State, steps: seq<Step>): State {
    if steps == [] then s else Next(w, Run(w, s, steps[..|steps| - 1]), steps[|steps| - 1])
  }

  lemma {:induction false} RunConcat(w: World, s: State, first: seq<Step>, second: seq<Step>)
    ensures Run(w, s, first + second) == Run(w, Run(w, s, first), second)
    decreases |second|
  {
    if second == [] {
      assert first + second == first;
    } else {
      var n := |second| - 1;
      assert (first + second)[..|first + second| - 1] == first + second[..n];
      RunConcat(w, s, first, second[..n]);
    }
  }
}
