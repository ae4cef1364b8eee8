/** The running program beside the pipeline's state machine: the database and the files it works on, and the
    machine state they amount to. Each durable statement is taken as one step of the machine, and between any
    two of them the log writers and the socket handlers may act. */
module Machine {
  import opened Database
  import opened Fates
  import opened LogTables
  import opened Options
  import opened Pipeline
  import opened Reader
  import opened Runs
  import Delivery
  import EventIndex
  import F = Fingerprint
  import Strings

  /** The run since the cycle began, and what was there all along: paths on disk, watched logs. */
  datatype Past = Past(steps: seq<Step>, stayed: set<string>, kept: set<nat>)

  predicate Later(a: Past, b: Past) {
    a.steps <= b.steps && b.stayed <= a.stayed && b.kept <= a.kept
  }

  ghost predicate PastOf(w: World, a: State, past: Past, s: State) {
    && s == Run(w, a, past.steps)
    && past.stayed == Stayed(w, a, past.steps) && past.kept == Kept(w, a, past.steps)
  }

  lemma PastOn(w: World, a: State, past: Past, s: State, step: Step)
    requires PastOf(w, a, past, s)
    ensures PastOf(w, a, LongerPast(past, step, Next(w, s, step)), Next(w, s, step))
    ensures Later(past, LongerPast(past, step, Next(w, s, step)))
  {
    StayedOn(w, a, past.steps, step);
    RunOn(w, a, past.steps, step);
  }

  function LongerPast(past: Past, step: Step, n: State): Past {
    Past(past.steps + [step], past.stayed * n.disk.Keys, past.kept * n.db.logs.watched.Keys)
  }

  /** Nobody has changed the files or the watched logs. */
  predicate CalmOf(a: State, past: Past, s: State) {
    Still(a, s) && past.stayed == s.disk.Keys && past.kept == s.db.logs.watched.Keys
  }

  lemma CalmOn(a: State, past: Past, s: State, step: Step, n: State)
    requires CalmOf(a, past, s) && Still(s, n)
    ensures CalmOf(a, LongerPast(past, step, n), n)
  {
  }

  // ---- What is left alone ----

  /** The processor's own position, the match counts, the number of occurrences. */
  predicate Undisturbed(a: State, b: State) {
    b.work == a.work && b.held == a.held && SameTotals(a, b)
  }

  predicate SameTotals(a: State, b: State) {
    b.db.matches == a.db.matches && |b.db.index.rows| == |a.db.index.rows|
  }

  /** The files and the watched logs: what only others change. */
  predicate Still(a: State, b: State) {
    b.disk == a.disk && b.nextGen == a.nextGen && b.db.logs.watched == a.db.logs.watched
  }

  /** What was last seen of the files. */
  predicate SameSight(a: State, b: State) {
    b.seen == a.seen && b.excused == a.excused
  }

  /** The rows of the files of logs that were watched all along. */
  predicate FilesStay(a: State, b: State, kept: set<nat>) {
    forall f :: f in a.db.logs.files && a.db.logs.files[f].log in kept ==>
      && f in b.db.logs.files && b.db.logs.files[f].log == a.db.logs.files[f].log
      && b.db.logs.files[f].path == a.db.logs.files[f].path
  }

  /** Rows other than this one: none is new or changed. */
  predicate RowsBut(a: State, b: State, file: nat) {
    forall f :: f in b.db.logs.files && f != file ==> f in a.db.logs.files && b.db.logs.files[f] == a.db.logs.files[f]
  }

  /** What was last seen of other files, and no pass is excused less. */
  predicate SeenBut(a: State, b: State, file: nat) {
    a.excused <= b.excused && forall f :: f in a.seen && f != file ==> f in b.seen && b.seen[f] == a.seen[f]
  }

  /** Everything but this file. */
  predicate Spared(a: State, b: State, file: nat, kept: set<nat>) {
    FilesStay(a, b, kept) && RowsBut(a, b, file) && SeenBut(a, b, file)
  }

  lemma SparedOn(a: State, b: State, c: State, file: nat, kept: set<nat>, still: set<nat>)
    requires Spared(a, b, file, kept) && Spared(b, c, file, still) && still <= kept
    ensures Spared(a, c, file, still)
  {
  }

  /** Of the file rows, everything: others only take rows away, with their logs. */
  predicate LeftAlone(a: State, b: State, kept: set<nat>) {
    && FilesStay(a, b, kept) && b.seen == a.seen && a.excused <= b.excused
    && forall f :: f in b.db.logs.files ==> f in a.db.logs.files && b.db.logs.files[f] == a.db.logs.files[f]
  }

  lemma LeftAloneOn(a: State, b: State, c: State, kept: set<nat>, still: set<nat>)
    requires LeftAlone(a, b, kept) && LeftAlone(b, c, still) && still <= kept
    ensures LeftAlone(a, c, still)
  {
  }

  // ---- Recording ----

  /** `n` is `s` with the line in hand recorded. */
  predicate EventStored(w: World, s: State, n: State, t: EventIndex.Stamp)
    requires AtLine(s) && VerdictOf(w, s.work).Raised?
  {
    && n.db == s.db.(index := EventIndex.Store(s.db.index, EntryFor(w, s.work, t.at, t.dayStart, t.hourStart)))
    && n.work == s.work.(stage := Stored) && n.held == s.held && Still(s, n) && SameSight(s, n)
  }

  lemma StoredGrows(w: World, s: State, n: State, t: EventIndex.Stamp)
    requires AtLine(s) && VerdictOf(w, s.work).Raised? && EventStored(w, s, n, t)
    ensures |n.db.index.rows| == |s.db.index.rows| + 1 && n.db.matches == s.db.matches
  {
    EventIndex.StoreFrame(s.db.index, EntryFor(w, s.work, t.at, t.dayStart, t.hourStart));
  }

  lemma StoreStep(w: World, s: State, t: EventIndex.Stamp)
    requires Enabled(w, s, StoreEvent(t.at, t.dayStart, t.hourStart))
    ensures EventStored(w, s, Next(w, s, StoreEvent(t.at, t.dayStart, t.hourStart)), t)
  {
  }

  /** Recording the occurrence writes what the machine stores for the line in hand, whatever the clock says. */
  ghost predicate Writes(w: World, hash: string -> string, k: Work, o: Occurrence)
    requires k.Busy? && k.lines != [] && VerdictOf(w, k).Raised?
  {
    && o.logFile == k.file >= 1
    && forall u ::
         EntryOf(F.Fingerprint(hash, o.service, o.line), o, u) == EntryFor(w, k, u.at, u.dayStart, u.hourStart)
  }

  /** Every reading of the clock gives the machine a stamp it knows. */
  ghost predicate Stamping(w: World) {
    forall o: Occurrence, r: Readings :: w.stamps(StampOf(o, r))
  }

  /** What is at the path is what was last seen of the file. */
  predicate Sees(s: State, f: nat, path: string)
    requires path in s.disk
  {
    f in s.seen && s.seen[f].gen == s.disk[path].gen && s.seen[f].bytes == s.disk[path].bytes
  }

  /** What was seen at a path is no less than what was there at `a`. */
  predicate ReadSince(a: State, seen: Seen, path: string) {
    path in a.disk ==>
      a.disk[path].gen <= seen.gen && (a.disk[path].gen == seen.gen ==> a.disk[path].bytes <= seen.bytes)
  }

  class Host {
    const db: Database
    /** `filepath.Clean`, and whether a glob matches a path. */
    const clean: string -> string
    const globs: (string, string) -> bool
    /** Nobody but the processor acts, and nothing it asks of the database or the files fails. */
    var quiet: bool
    var disk: map<string, OnDisk>
    var nextGen: nat

    ghost const w: World
    ghost var began: State
    ghost var s: State
    ghost var past: Past

    /** Where the machine is, is where a run from the beginning of the cycle has led. */
    ghost predicate Led() reads this {
      Leads(w, INIT, began) && PastOf(w, began, past, s) && (quiet ==> CalmOf(began, past, s))
    }

    ghost predicate Synced() reads this, db {
      s.db == db.Tables() && s.disk == disk && s.nextGen == nextGen
    }

    ghost predicate Valid() reads this, db {
      Led() && Synced()
    }

    constructor (clean: string -> string, globs: (string, string) -> bool, ghost w: World)
      ensures Valid() && fresh(db) && s == INIT && !quiet
      ensures this.clean == clean && this.globs == globs && this.w == w
    {
      db := new Database();
      this.clean, this.globs := clean, globs;
      quiet, disk, nextGen := false, map[], 1;
      this.w, began, s, past := w, INIT, INIT, Past([], {}, {});
      new;
      LeadsNowhere(w, INIT);
    }

    ghost method Begin()
      requires Valid()
      modifies `began, `past
      ensures Valid() && began == s && CalmOf(began, past, s)
    {
      LeadsOn(w, INIT, began, past.steps);
      began, past := s, Past([], s.disk.Keys, s.db.logs.watched.Keys);
    }

    /** From here on the processor is left alone, or is not. */
    method Settle(quiet: bool)
      requires Valid()
      modifies `quiet, `began, `past
      ensures Valid() && this.quiet == quiet
    {
      Begin();
      this.quiet := quiet;
    }

    /** The invariant of all runs holds here. */
    lemma Known()
      requires Led()
      ensures Delivery.Inv(w, s)
    {
      LeadsOn(w, INIT, began, past.steps);
      var steps: seq<Step> :| Run(w, INIT, steps) == s;
      Delivery.RunKeeps(w, INIT, steps);
    }

    lemma Constraints()
      requires Led()
      ensures WellFormed(s.db.logs)
    {
      Known();
    }

    /** What was there all along is there now, and the files have only grown since. */
    lemma Since()
      requires Led()
      ensures past.stayed <= s.disk.Keys && past.stayed <= began.disk.Keys
      ensures past.kept <= s.db.logs.watched.Keys && past.kept <= began.db.logs.watched.Keys
      ensures forall id :: id in past.kept ==> SameLog(began.db.logs.watched[id], s.db.logs.watched[id])
      ensures Grown(began, s)
    {
      StayedWithin(w, began, past.steps);
      var steps: seq<Step> :| Run(w, INIT, steps) == began;
      Delivery.RunKeeps(w, INIT, steps);
      RunGrows(w, began, past.steps);
      KeptLogs(w, began, past.steps);
    }

    /** What has just been seen at a path is no less than what was there when the cycle began. */
    lemma SeenSince(f: nat, path: string)
      requires Led() && path in s.disk && Sees(s, f, path)
      ensures ReadSince(began, s.seen[f], path)
    {
      var steps: seq<Step> :| Run(w, INIT, steps) == began;
      Delivery.RunKeeps(w, INIT, steps);
      RunGrows(w, began, past.steps);
      assert GrownAt(began, s, path);
    }

    // ---- One step of the machine ----

    ghost method Take(step: Step)
      requires Led() && (quiet ==> Still(s, Next(w, s, step)))
      modifies `s, `past
      ensures Led() && s == Next(w, old(s), step) && Later(old(past), past)
    {
      var n := Next(w, s, step);
      PastOn(w, began, past, s, step);
      if quiet { CalmOn(began, past, s, step, n); }
      past, s := LongerPast(past, step, n), n;
    }

    ghost method TakeAppend(path: string, more: string)
      requires Led() && path in s.disk && !quiet
      modifies `s, `past
      ensures Led() && Later(old(past), past)
      ensures s == old(s).(disk := old(s).disk[path := old(s).disk[path].(bytes := old(s).disk[path].bytes + more)])
    {
      Take(Pipeline.Append(path, more));
    }

    ghost method TakeReplace(path: string, ident: Identity, bytes: string)
      requires Led() && !quiet
      modifies `s, `past
      ensures Led() && Later(old(past), past)
      ensures s == old(s).(disk := old(s).disk[path := OnDisk(ident, bytes, old(s).nextGen)],
                           nextGen := old(s).nextGen + 1)
    {
      Take(Replace(path, ident, bytes));
    }

    ghost method TakeUnlink(path: string)
      requires Led() && !quiet
      modifies `s, `past
      ensures Led() && Later(old(past), past) && s == old(s).(disk := old(s).disk - {path})
    {
      Take(Unlink(path));
    }

    ghost method TakeAdd(id: nat, path: string, service: string)
      requires Led() && AddTarget(s.db.logs, path, id) && !quiet
      modifies `s, `past
      ensures Led() && Later(old(past), past) && Added(old(s).db, s.db, Some(path), service, id)
      ensures s.disk == old(s).disk && s.nextGen == old(s).nextGen
      ensures Undisturbed(old(s), s) && LeftAlone(old(s), s, past.kept)
    {
      Take(Pipeline.Add(id, path, service));
    }

    ghost method TakeRemove(id: nat)
      requires Led() && id in s.db.logs.watched && !quiet
      modifies `s, `past
      ensures Led() && Later(old(past), past)
      ensures Removed(old(s).db, s.db, Some(old(s).db.logs.watched[id].path), id)
      ensures s.disk == old(s).disk && s.nextGen == old(s).nextGen
      ensures Undisturbed(old(s), s) && LeftAlone(old(s), s, past.kept)
    {
      Take(Pipeline.Remove(id));
      Since();
    }

    ghost method TakeRefresh(f: nat, log: nat, path: string, service: string)
      requires Led() && s.work.Idle? && f !in s.held
      requires path in s.disk && log in s.db.logs.watched && RefreshTarget(s.db.logs, log, path, f)
      modifies `s, `past
      ensures Led() && Later(old(past), past) && f in s.db.logs.files && Still(old(s), s) && s.work == old(s).work
      ensures var d := old(s).disk[path];
        FileRefreshed(old(s).db, s.db, log, path, Regular(d.ident, |d.bytes|), f)
      ensures s.held == old(s).held[f := Held(service, path, s.db.logs.files[f].offset)]
      ensures SeenBut(old(s), s, f) && Sees(s, f, path)
    {
      Take(Refresh(f, log, path, service));
    }

    ghost method TakeRead(f: nat)
      requires Led() && s.work.Idle? && f in s.held
      modifies `s, `past
      ensures Led() && Later(old(past), past) && s.held == old(s).held - {f}
      ensures s.db == old(s).db && Still(old(s), s) && SeenBut(old(s), s, f)
      ensures var h := old(s).held[f];
        s.work == if h.path !in s.disk then Idle
                  else Busy(f, h.service, s.disk[h.path].bytes, LinesFrom(s.disk[h.path].bytes, h.offset), Top)
      ensures old(s).held[f].path in s.disk && f in s.db.logs.files && f in old(s).seen ==>
        Sees(s, f, old(s).held[f].path)
    {
      Take(Read(f));
    }

    ghost method TakeCount()
      requires Led() && AtLine(s) && s.work.stage.Top?
      requires !VerdictOf(w, s.work).Unmatched? && VerdictOf(w, s.work).rule > 0
      modifies `s, `past
      ensures Led() && Later(old(past), past) && MatchCounted(old(s).db, s.db, VerdictOf(w, old(s).work).rule)
      ensures s.work == old(s).work.(stage := Counted) && s.held == old(s).held
      ensures Still(old(s), s) && SameSight(old(s), s)
    {
      Take(CountMatch);
    }

    ghost method TakeStore(t: EventIndex.Stamp)
      requires Led() && Enabled(w, s, StoreEvent(t.at, t.dayStart, t.hourStart))
      modifies `s, `past
      ensures Led() && Later(old(past), past) && EventStored(w, old(s), s, t)
    {
      StoreStep(w, s, t);
      Take(StoreEvent(t.at, t.dayStart, t.hourStart));
    }

    ghost method TakeCommit()
      requires Led() && AtLine(s) && MayCommit(w, s) && s.work.file in s.db.logs.files
      modifies `s, `past
      ensures Led() && Later(old(past), past) && Still(old(s), s) && SameSight(old(s), s)
      ensures s.db ==
        old(s).db.(logs := LogTables.UpdateOffset(old(s).db.logs, old(s).work.file, old(s).work.lines[0].end))
      ensures s.work == old(s).work.(lines := old(s).work.lines[1..], stage := Top) && s.held == old(s).held
    {
      Take(Pipeline.Commit);
    }

    ghost method TakeFinish()
      requires Led() && s.work.Busy? && s.work.lines == []
      modifies `s, `past
      ensures Led() && Later(old(past), past) && s == old(s).(work := Idle)
    {
      Take(Finish);
    }

    ghost method TakeCut()
      requires Led()
      modifies `s, `past
      ensures Led() && Later(old(past), past) && s.work.Idle? && s.held == map[]
      ensures s.db == old(s).db && Still(old(s), s)
    {
      Take(Cut);
    }

    // ---- Durable statements, each one step ----

    method RecordMatch(rule: int, fate: Fate) returns (ok: bool)
      requires Valid() && AtLine(s) && s.work.stage.Top?
      requires !VerdictOf(w, s.work).Unmatched? && VerdictOf(w, s.work).rule == rule
      modifies `s, `past, db
      ensures Valid() && Later(old(past), past) && Still(old(s), s) && SameSight(old(s), s) && s.held == old(s).held
      ensures ok <==> rule > 0 && fate.Done?
      ensures if rule > 0 && !fate.Refused?
        then s.work == old(s).work.(stage := Counted) && MatchCounted(old(s).db, s.db, rule)
        else s == old(s)
    {
      ok := db.RecordMatch(rule, fate);
      if rule > 0 && !fate.Refused? {
        TakeCount();
      }
    }

    method Record(hash: string -> string, o: Occurrence, r: Readings, fate: Fate)
      returns (ok: bool, ghost t: EventIndex.Stamp)
      requires Valid() && AtLine(s) && s.work.stage.Counted? && VerdictOf(w, s.work).Raised?
      requires Writes(w, hash, s.work, o) && Stamping(w)
      modifies `s, `past, db
      ensures Valid() && Later(old(past), past) && t == StampOf(o, r)
      ensures ok <==> o.logFile in old(s).db.logs.files && fate.Done?
      ensures if o.logFile in old(s).db.logs.files && !fate.Refused? then EventStored(w, old(s), s, t) else s == old(s)
    {
      var tracked := o.logFile in db.files;
      ok, t := db.Record(hash, o, r, fate);
      if tracked && !fate.Refused? {
        TakeStore(t);
      }
    }

    method UpdateOffset(file: nat, offset: nat, fate: Fate) returns (ok: bool)
      requires Valid() && AtLine(s) && MayCommit(w, s) && s.work.file == file >= 1 && s.work.lines[0].end == offset
      modifies `s, `past, db
      ensures Valid() && Later(old(past), past) && Still(old(s), s) && SameSight(old(s), s) && s.held == old(s).held
      ensures ok <==> file in old(s).db.logs.files && fate.Done?
      ensures if file in old(s).db.logs.files && !fate.Refused?
        then s.work == old(s).work.(lines := old(s).work.lines[1..], stage := Top)
          && OffsetSet(old(s).db, s.db, file, offset)
        else s == old(s)
    {
      var tracked := file in db.files;
      ok := db.UpdateOffset(file, offset, fate);
      if tracked && !fate.Refused? {
        TakeCommit();
      }
    }

    /** No file waiting to be read has the id a refresh of another path gives. */
    lemma NotHeld(log: nat, path: string, id: nat)
      requires Led() && RefreshTarget(s.db.logs, log, path, id)
      requires forall f :: f in s.held ==> s.held[f].path != path
      ensures id !in s.held
    {
      Known();
      if id in s.db.logs.files { assert Delivery.FileOk(w, s, id); }
    }

    method RefreshFile(log: nat, path: string, ghost service: string, stat: Stat, fate: Fate)
      returns (state: Option<FileState>, ghost id: nat)
      requires Valid() && s.work.Idle? && forall f :: f in s.held ==> s.held[f].path != path
      requires stat.Regular? ==> path in disk && stat == Regular(disk[path].ident, |disk[path].bytes|)
      modifies `s, `past, db
      ensures Valid() && Later(old(past), past) && Still(old(s), s) && s.work.Idle?
      ensures state.Some? <==> stat.Regular? && log in old(s).db.logs.watched && fate.Done?
      ensures if stat.Regular? && log in old(s).db.logs.watched && !fate.Refused?
        then FileRefreshed(old(s).db, s.db, log, path, stat, id) && id in s.db.logs.files && id !in old(s).held
          && s.held == old(s).held[id := Held(service, path, s.db.logs.files[id].offset)]
          && SeenBut(old(s), s, id) && Sees(s, id, path)
        else s == old(s)
      ensures state.Some? ==>
        state.value ==
          StateOf(id, s.db.logs.files[id], Classified(old(s).db.logs, log, path, id, stat.ident, stat.size))
    {
      Constraints();
      state, id := db.RefreshFile(log, path, stat, fate);
      if stat.Regular? && log in db.watched && !fate.Refused? {
        NotHeld(log, path, id);
        TakeRefresh(id, log, path, service);
      }
    }

    /** Whether a call that may fail does. */
    method Fails() returns (fails: bool)
      ensures quiet ==> !fails
    {
      if * { fails := !quiet; } else { fails := false; }
    }

    method Fated() returns (fate: Fate)
      ensures quiet ==> fate.Done?
    {
      fate := Attempt();
      if quiet { fate := Done; }
    }

    // ---- Everybody else ----

    /** Whatever log writers and socket handlers do before the processor's next statement. */
    method Meanwhile()
      requires Valid()
      modifies `disk, `nextGen, `s, `past, db
      ensures Valid() && Later(old(past), past) && Undisturbed(old(s), s) && LeftAlone(old(s), s, past.kept)
      ensures quiet ==> s == old(s) && disk == old(disk)
    {
      if quiet {
        return;
      }
      var n: nat := *;
      while n > 0
        invariant Valid() && Later(old(past), past) && Undisturbed(old(s), s) && LeftAlone(old(s), s, past.kept)
      {
        n := n - 1;
        OneActs(old(s));
      }
    }

    /** One of them does one thing. */
    method OneActs(ghost since: State)
      requires Valid() && !quiet && Undisturbed(since, s) && LeftAlone(since, s, past.kept)
      modifies `disk, `nextGen, `s, `past, db
      ensures Valid() && Later(old(past), past) && Undisturbed(since, s) && LeftAlone(since, s, past.kept)
    {
      if * { WriterActs(); } else { HandlerActs(); }
      LeftAloneOn(since, old(s), s, old(past).kept, past.kept);
    }

    /** A program appends to a log, or a rotation puts another file at its path or takes it away. */
    method WriterActs()
      requires Valid() && !quiet
      modifies `disk, `nextGen, `s, `past
      ensures Valid() && Later(old(past), past) && Undisturbed(old(s), s) && LeftAlone(old(s), s, past.kept)
    {
      var path: string, bytes: string, device: string, inode: string := *, *, *, *;
      if * {
        if path in disk {
          Append(path, bytes);
        }
      } else if * {
        Put(path, Identity(device, inode), bytes);
      } else {
        TakeUnlink(path);
        disk := disk - {path};
      }
    }

    method Append(path: string, more: string)
      requires Valid() && !quiet && path in disk
      modifies `disk, `s, `past
      ensures Valid() && Later(old(past), past)
      ensures s == old(s).(disk := old(s).disk[path := old(s).disk[path].(bytes := old(s).disk[path].bytes + more)])
    {
      TakeAppend(path, more);
      disk := disk[path := disk[path].(bytes := disk[path].bytes + more)];
    }

    method Put(path: string, ident: Identity, bytes: string)
      requires Valid() && !quiet
      modifies `disk, `nextGen, `s, `past
      ensures Valid() && Later(old(past), past)
      ensures s == old(s).(disk := old(s).disk[path := OnDisk(ident, bytes, old(s).nextGen)],
                           nextGen := old(s).nextGen + 1)
    {
      TakeReplace(path, ident, bytes);
      disk, nextGen := disk[path := OnDisk(ident, bytes, nextGen)], nextGen + 1;
    }

    /** `logs.add` or `logs.remove` over the socket. */
    method HandlerActs()
      requires Valid() && !quiet
      modifies `s, `past, db
      ensures Valid() && Later(old(past), past) && Undisturbed(old(s), s) && LeftAlone(old(s), s, past.kept)
    {
      var path: string, service: string, conn: nat := *, *, *;
      var fate := Attempt();
      if * {
        Watch(path, service, conn, fate);
      } else {
        var hit := Watches(db.LogRows(), NormalizePath(path, clean));
        var ok, id := db.Remove(path, clean, fate);
        if hit && !fate.Refused? {
          TakeRemove(id);
        }
      }
    }

    method Watch(path: string, service: string, conn: nat, fate: Fate)
      requires Valid() && !quiet
      modifies `s, `past, db
      ensures Valid() && Later(old(past), past) && Undisturbed(old(s), s) && LeftAlone(old(s), s, past.kept)
      ensures if NormalizePath(path, clean).Some? && !fate.Refused?
        then WatchedAs(old(s), s, NormalizePath(path, clean), Strings.TrimSpace(service))
        else s == old(s)
    {
      Constraints();
      var row, id := db.Add(path, service, clean, conn, fate);
      if NormalizePath(path, clean).Some? && !fate.Refused? {
        TakeAdd(id, NormalizePath(path, clean).value, Strings.TrimSpace(service));
      }
    }
  }

  /** The path is watched under the service, and nothing else has changed but by that. */
  ghost predicate WatchedAs(a: State, b: State, path: Option<string>, service: string) {
    && b.disk == a.disk && b.nextGen == a.nextGen
    && exists id :: Added(a.db, b.db, path, service, id)
  }
}
