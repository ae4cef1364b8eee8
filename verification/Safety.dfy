/** What else holds in every run: offsets, the event index, and the tables under `logs.add` and `logs.remove`. */
module Safety {
  import opened Delivery
  import opened LogTables
  import opened Options
  import opened Pipeline
  import opened Reader
  import opened Standings
  import EventIndex

  // ---- Offsets ----

  /** Steps other than a refresh of the file or a commit leave its offset alone. */
  lemma OffsetStays(w: World, s: State, step: Step, f: nat)
    requires f in s.db.logs.files && f in Next(w, s, step).db.logs.files
    requires !step.Commit? && !(step.Refresh? && step.file == f)
    ensures Next(w, s, step).db.logs.files[f].offset == s.db.logs.files[f].offset
  {
  }

  /** A tracked file's offset only grows, except that a refresh that detects a rotation resets it to zero. */
  lemma OffsetMoves(w: World, s: State, step: Step, f: nat)
    requires Inv(w, s) && f in s.db.logs.files && f in Next(w, s, step).db.logs.files
    ensures var before, after := s.db.logs.files[f], Next(w, s, step).db.logs.files[f];
      || after.offset >= before.offset
      || (after.offset == 0 && step.Refresh? && step.file == f && before.path in s.disk
          && !RotationOf(before, s.disk[before.path].ident, |s.disk[before.path].bytes|).NoRotation?)
  {
    if step.Commit? && Enabled(w, s, step) {
      InHandIsNext(w, s);
    } else if !(step.Refresh? && step.file == f) && !step.Commit? {
      OffsetStays(w, s, step, f);
    }
  }

  /** In every run a tracked file's committed offset is where its pass began or just after a newline of its present
      generation; and so within it, at zero or just after a newline, where the pass began at the first byte. */
  lemma OffsetsAreBoundaries(w: World, steps: seq<Step>, f: nat)
    requires f in Run(w, INIT, steps).db.logs.files
    ensures var s := Run(w, INIT, steps);
      && f in s.seen
      && var seen, offset := s.seen[f], s.db.logs.files[f].offset;
         Stop(seen.bytes, seen.start, offset)
         && (seen.start == 0 ==> offset <= |seen.bytes| && Boundary(seen.bytes, offset))
  {
    RunStands(w, steps);
    assert Stands(Run(w, INIT, steps), f);
  }

  // ---- The event index ----

  /** The recordings so far, the occurrences, and where each came from, side by side; an occurrence refers to
      its file exactly while that file is tracked. */
  predicate Aligned(s: State) {
    && |s.history| == |s.trail| == |s.db.index.rows|
    && forall i :: 0 <= i < |s.trail| ==> RowAligned(s, i)
  }

  predicate RowAligned(s: State, i: nat)
    requires i < |s.history| == |s.trail| == |s.db.index.rows|
  {
    && 0 < s.trail[i].file <= s.db.logs.lastFile
    && s.history[i].line == s.trail[i].line.text
    && s.db.index.rows[i].file == if s.trail[i].file in s.db.logs.files then Some(s.trail[i].file) else None
  }

  lemma StepKeepsAgreement(w: World, s: State, step: Step)
    requires EventIndex.Agrees(s.db.index, s.history)
    ensures EventIndex.Agrees(Next(w, s, step).db.index, Next(w, s, step).history)
  {
    if Enabled(w, s, step) {
      match step
      case StoreEvent(at, dayStart, hourStart) =>
        EventIndex.StoreKeepsAgreement(s.db.index, s.history, EntryFor(w, s.work, at, dayStart, hourStart));
      case Remove(id) => EventIndex.OrphanKeepsAgreement(s.db.index, s.history, FilesOf(s.db.logs, id));
      case _ => SameIndex(w, s, step);
    }
  }

  lemma SameIndex(w: World, s: State, step: Step)
    requires Enabled(w, s, step) && !step.StoreEvent? && !step.Remove?
    ensures var n := Apply(w, s, step); n.db.index == s.db.index && n.history == s.history && n.trail == s.trail
  {
  }

  lemma StoreKeepsAligned(w: World, s: State, at: string, dayStart: string, hourStart: string)
    requires WellFormed(s.db.logs) && Aligned(s) && Enabled(w, s, StoreEvent(at, dayStart, hourStart))
    ensures Aligned(Apply(w, s, StoreEvent(at, dayStart, hourStart)))
  {
    var e := EntryFor(w, s.work, at, dayStart, hourStart);
    EventIndex.StoreFrame(s.db.index, e);
    var n := Apply(w, s, StoreEvent(at, dayStart, hourStart));
    AlignedAppend(s, n, e);
  }

  lemma AlignedAppend(s: State, n: State, e: EventIndex.Entry)
    requires Aligned(s) && n.db.logs == s.db.logs && n.history == s.history + [e]
    requires |n.trail| == |n.db.index.rows| == |s.trail| + 1
    requires n.trail[..|s.trail|] == s.trail && n.db.index.rows[..|s.trail|] == s.db.index.rows
    requires var d, r := n.trail[|s.trail|], n.db.index.rows[|s.trail|];
      && 0 < d.file <= s.db.logs.lastFile && d.file in s.db.logs.files
      && e.line == d.line.text && r.file == Some(d.file)
    ensures Aligned(n)
  {
    forall i | 0 <= i < |n.trail| ensures RowAligned(n, i) {
      if i < |s.trail| {
        assert RowAligned(s, i);
        assert n.db.index.rows[i] == n.db.index.rows[..|s.trail|][i] && n.trail[i] == n.trail[..|s.trail|][i];
      }
    }
  }

  lemma RemoveKeepsAligned(w: World, s: State, id: nat)
    requires Aligned(s) && Enabled(w, s, Remove(id))
    ensures Aligned(Apply(w, s, Remove(id)))
  {
    var n := Apply(w, s, Remove(id));
    forall i | 0 <= i < |n.trail| ensures RowAligned(n, i) { assert RowAligned(s, i); }
  }

  lemma RefreshKeepsAligned(w: World, s: State, f: nat, log: nat, path: string, service: string)
    requires Aligned(s) && Enabled(w, s, Refresh(f, log, path, service))
    ensures Aligned(Refreshed(w, s, f, log, path, service))
  {
    var n := Refreshed(w, s, f, log, path, service);
    forall i | 0 <= i < |n.trail| ensures RowAligned(n, i) { assert RowAligned(s, i); }
  }

  /** Steps that leave the index and the set of tracked files alone. */
  lemma OthersKeepAligned(s: State, n: State)
    requires Aligned(s) && n.db.index == s.db.index && n.history == s.history && n.trail == s.trail
    requires n.db.logs.files.Keys == s.db.logs.files.Keys && n.db.logs.lastFile >= s.db.logs.lastFile
    ensures Aligned(n)
  {
    forall i | 0 <= i < |n.trail| ensures RowAligned(n, i) { assert RowAligned(s, i); }
  }

  lemma StepKeepsAligned(w: World, s: State, step: Step)
    requires WellFormed(s.db.logs) && Aligned(s)
    ensures Aligned(Next(w, s, step))
  {
    if Enabled(w, s, step) {
      match step
      case StoreEvent(at, dayStart, hourStart) => StoreKeepsAligned(w, s, at, dayStart, hourStart);
      case Remove(id) => RemoveKeepsAligned(w, s, id);
      case Refresh(f, log, path, service) => RefreshKeepsAligned(w, s, f, log, path, service);
      case _ => OthersKeepAligned(s, Apply(w, s, step));
    }
  }

  /** In every state of every run the event index agrees with everything ever recorded. */
  lemma {:induction false} EveryRunKeepsIndex(w: World, steps: seq<Step>)
    ensures var s := Run(w, INIT, steps); EventIndex.Agrees(s.db.index, s.history) && Aligned(s)
  {
    if steps != [] {
      var init := steps[..|steps| - 1];
      EveryRunKeepsIndex(w, init);
      RunKeeps(w, INIT, init);
      StepKeepsAgreement(w, Run(w, INIT, init), steps[|steps| - 1]);
      StepKeepsAligned(w, Run(w, INIT, init), steps[|steps| - 1]);
    } else {
      assert EventIndex.Totals(map[]) == map[];
    }
  }

  // ---- Adding and removing logs between any two statements ----

  /** In every run, no tracked file lacks a watched log, and the tables' other constraints hold. */
  lemma EveryRunKeepsTables(w: World, steps: seq<Step>)
    ensures WellFormed(Run(w, INIT, steps).db.logs)
  {
    RunKeeps(w, INIT, steps);
  }

  predicate SameOccurrence(r: EventIndex.Row, q: EventIndex.Row) {
    r.event == q.event && r.at == q.at && r.line == q.line
  }

  predicate Survive(before: seq<EventIndex.Row>, after: seq<EventIndex.Row>) {
    |before| <= |after| && forall i :: 0 <= i < |before| ==> SameOccurrence(before[i], after[i])
  }

  lemma StepSurvives(w: World, s: State, step: Step)
    ensures Survive(s.db.index.rows, Next(w, s, step).db.index.rows)
  {
    if Enabled(w, s, step) {
      match step
      case StoreEvent(at, dayStart, hourStart) =>
        EventIndex.StoreFrame(s.db.index, EntryFor(w, s.work, at, dayStart, hourStart));
        PrefixSurvives(s.db.index.rows, Apply(w, s, step).db.index.rows);
      case Remove(_) =>
      case _ => SameIndex(w, s, step);
    }
  }

  lemma PrefixSurvives(before: seq<EventIndex.Row>, after: seq<EventIndex.Row>)
    requires |before| <= |after| && after[..|before|] == before
    ensures Survive(before, after)
  {
    forall i | 0 <= i < |before| ensures SameOccurrence(before[i], after[i]) {
      assert after[..|before|][i] == before[i];
    }
  }

  lemma SurviveTransitive(a: seq<EventIndex.Row>, b: seq<EventIndex.Row>, c: seq<EventIndex.Row>)
    requires Survive(a, b) && Survive(b, c)
    ensures Survive(a, c)
  {
    forall i | 0 <= i < |a| ensures SameOccurrence(a[i], c[i]) {
      assert SameOccurrence(a[i], b[i]) && SameOccurrence(b[i], c[i]);
    }
  }

  /** No step loses or changes a stored occurrence, save for its file reference. */
  lemma {:induction false} OccurrencesSurvive(w: World, s: State, steps: seq<Step>)
    ensures Survive(s.db.index.rows, Run(w, s, steps).db.index.rows)
  {
    if steps != [] {
      var init := steps[..|steps| - 1];
      var m := Run(w, s, init);
      OccurrencesSurvive(w, s, init);
      StepSurvives(w, m, steps[|steps| - 1]);
      SurviveTransitive(s.db.index.rows, m.db.index.rows, Next(w, m, steps[|steps| - 1]).db.index.rows);
    }
  }

  predicate Gone(s: State, f: nat) {
    f <= s.db.logs.lastFile && f !in s.db.logs.files
  }

  lemma StepKeepsGone(w: World, s: State, step: Step, f: nat)
    requires Gone(s, f)
    ensures Gone(Next(w, s, step), f)
  {
  }

  /** A file id that has been handed out and is no longer tracked never returns. */
  lemma {:induction false} IdsAreNotReused(w: World, s: State, steps: seq<Step>, f: nat)
    requires Gone(s, f)
    ensures Gone(Run(w, s, steps), f)
  {
    if steps != [] {
      var init := steps[..|steps| - 1];
      IdsAreNotReused(w, s, init, f);
      StepKeepsGone(w, Run(w, s, init), steps[|steps| - 1], f);
    }
  }

  /** Once the log of the file in hand is removed, whatever is added or refreshed meanwhile, nothing that file's
      lines still cause is stored or committed. */
  lemma RemovedFileIsInert(w: World, s: State, steps: seq<Step>, step: Step)
    requires Inv(w, s) && s.work.Busy? && s.work.file !in s.db.logs.files
    requires step.Commit? || step.StoreEvent?
    ensures var n := Run(w, s, steps);
      n.work.Busy? && n.work.file == s.work.file ==> Next(w, n, step) == n
  {
    IdsAreNotReused(w, s, steps, s.work.file);
  }

  /** While a file is in hand its log may be removed and added again, and its path found again under a new row:
      no step the file in hand still causes changes that row, or any row but its own. */
  lemma OtherRowsAreUntouched(w: World, s: State, steps: seq<Step>, step: Step, g: nat)
    requires Inv(w, s) && s.work.Busy?
    requires step.Commit? || step.StoreEvent? || step.CountMatch? || step.Finish?
    requires var n := Run(w, s, steps);
      n.work.Busy? && n.work.file == s.work.file && g in n.db.logs.files && g !in s.db.logs.files
    ensures var n := Run(w, s, steps);
      g in Next(w, n, step).db.logs.files && Next(w, n, step).db.logs.files[g] == n.db.logs.files[g]
  {
    if s.work.file !in s.db.logs.files {
      IdsAreNotReused(w, s, steps, s.work.file);
    }
    HandTouchesOneRow(w, Run(w, s, steps), step, g);
  }

  lemma HandTouchesOneRow(w: World, s: State, step: Step, g: nat)
    requires step.Commit? || step.StoreEvent? || step.CountMatch? || step.Finish?
    requires g in s.db.logs.files && s.work.Busy? && g != s.work.file
    ensures g in Next(w, s, step).db.logs.files && Next(w, s, step).db.logs.files[g] == s.db.logs.files[g]
  {
  }
}
