/** Passes that do not begin at the first byte: after a rotation nobody notices, or one between stat and read.
    What such a pass stores, over every continuation, and exactly when that is still all there was to store. */
module Passes {
  import opened Delivery
  import opened LogTables
  import opened Pipeline
  import opened Reader
  import opened Runs

  // ---- Where passes begin ----

  /** The refresh takes another generation for the one it was reading, and keeps the offset. */
  predicate Slips(s: State, step: Step, f: nat) {
    && step.Refresh? && step.file == f && step.path in s.disk
    && f in s.db.logs.files && f in s.seen && Unnoticed(s, f, s.disk[step.path])
  }

  /** The read finds another generation than the refresh did. */
  predicate Swaps(s: State, step: Step, f: nat) {
    step.Read? && step.file == f && f in s.held && s.held[f].path in s.disk && Swapped(s, f)
  }

  /** A step leaves a pass and its start alone, or begins a pass never seen before: at the first byte,
      save where a generation slips in or is swapped in, and then at the offset in hand. */
  lemma PassStarts(w: World, s: State, step: Step, f: nat)
    requires Inv(w, s) && f in Next(w, s, step).seen
    ensures var n := Next(w, s, step);
      if f in s.seen && n.seen[f].pass == s.seen[f].pass then n.seen[f].start == s.seen[f].start
      else n.seen[f].pass == s.nextPass && (n.seen[f].start == 0 || Slips(s, step, f) || Swaps(s, step, f))
    ensures Enabled(w, s, step) && (Slips(s, step, f) || Swaps(s, step, f)) ==>
      Next(w, s, step).seen[f].start == s.db.logs.files[f].offset
  {
    if Enabled(w, s, step) && (step.Refresh? || step.Read?) && step.file == f {
      if f in s.db.logs.files { assert FileOk(w, s, f); }
      if step.Refresh? { RefreshStarts(w, s, step, f); } else { ReadStarts(w, s, f); }
    } else {
      OtherFilesPass(w, s, step, f);
    }
  }

  lemma RefreshStarts(w: World, s: State, step: Step, f: nat)
    requires step.Refresh? && step.file == f && Enabled(w, s, step)
    requires f in s.db.logs.files ==> f in s.seen
    ensures var n := Apply(w, s, step);
      && (if CarriesOn(s, f, s.disk[step.path])
          then n.seen[f].pass == s.seen[f].pass && n.seen[f].start == s.seen[f].start
          else n.seen[f].pass == s.nextPass && (n.seen[f].start == 0 || Slips(s, step, f)))
      && (Slips(s, step, f) ==> n.seen[f].start == s.db.logs.files[f].offset)
  {
  }

  lemma ReadStarts(w: World, s: State, f: nat)
    requires f in s.held && (f in s.db.logs.files ==> FileOk(w, s, f))
    requires f in ReadFile(w, s, f).seen
    ensures var n := ReadFile(w, s, f);
      && (if Swaps(s, Read(f), f) then n.seen[f].pass == s.nextPass
          else f in s.seen && n.seen[f].pass == s.seen[f].pass && n.seen[f].start == s.seen[f].start)
      && (Swaps(s, Read(f), f) ==> n.seen[f].start == s.db.logs.files[f].offset)
  {
  }

  lemma OtherFilesPass(w: World, s: State, step: Step, f: nat)
    requires !(Enabled(w, s, step) && (step.Refresh? || step.Read?) && step.file == f)
    ensures (f in Next(w, s, step).seen) == (f in s.seen)
    ensures f in s.seen ==> Next(w, s, step).seen[f] == s.seen[f]
  {
  }

  /** Through any run a file's passes only follow one another, and a pass keeps its start. */
  lemma {:induction false} PassKeepsStart(w: World, s: State, steps: seq<Step>, f: nat)
    requires Inv(w, s) && f in s.seen
    ensures var n := Run(w, s, steps);
      f in n.seen && n.seen[f].pass >= s.seen[f].pass
      && (n.seen[f].pass == s.seen[f].pass ==> n.seen[f].start == s.seen[f].start)
  {
    if steps != [] {
      var init, last := steps[..|steps| - 1], steps[|steps| - 1];
      var m := Run(w, s, init);
      PassKeepsStart(w, s, init, f);
      RunKeeps(w, s, init);
      SeenStays(w, m, last, f);
      PassStarts(w, m, last, f);
    }
  }

  lemma SeenStays(w: World, s: State, step: Step, f: nat)
    requires f in s.seen
    ensures f in Next(w, s, step).seen
  {
  }

  // ---- What a pass stores, and when that is everything ----

  /** Nothing at or before the start is ever stored in the pass. */
  lemma StoredAfterStart(w: World, service: string, stored: seq<Line>, bytes: string, start: nat, offset: nat, l: Line)
    requires DeliveredFrom(w, service, stored, bytes, start, offset) && l in stored
    ensures l.end > start
  {
    CollapsedHas(stored, l);
    DueEnds(w, service, bytes, start, offset);
    Unfold(bytes, offset);
  }

  /** From here on reading from the start and reading from the first byte cut the same lines: the start, if it is
      a line boundary; otherwise the end of the line it falls in. */
  function StepPoint(bytes: string, start: nat): nat {
    if Boundary(bytes, start) || LinesFrom(bytes, start) == [] then start else LinesFrom(bytes, start)[0].end
  }

  /** Up to there, the two readings find the same worthy lines. For a start at a line boundary: no worthy line
      before it. */
  predicate NothingSkipped(w: World, service: string, bytes: string, start: nat)
    requires StepPoint(bytes, start) <= |bytes|
  {
    var e := StepPoint(bytes, start);
    WorthyLines(w, service, LinesFrom(bytes[..e], 0)) == WorthyLines(w, service, LinesFrom(bytes[..e], start))
  }

  /** The offset has reached the point from which the two readings agree. */
  predicate InStep(bytes: string, start: nat, offset: nat) {
    offset <= |bytes| && (Boundary(bytes, start) || offset > start)
  }

  lemma StepPointWithin(bytes: string, start: nat, offset: nat)
    requires Stop(bytes, start, offset) && InStep(bytes, start, offset)
    ensures var e := StepPoint(bytes, start); start <= e <= offset && Boundary(bytes, e) && Stop(bytes, start, e)
  {
    Unfold(bytes, start);
    if !Boundary(bytes, start) {
      assert bytes[offset - 1] == '\n';
      assert LinesFrom(bytes, start) != [];
      var l := LinesFrom(bytes, start)[0];
      assert LineAt(bytes, start, l);
    }
  }

  lemma {:induction false} WorthyConcat(w: World, service: string, a: seq<Line>, b: seq<Line>)
    ensures WorthyLines(w, service, a + b) == WorthyLines(w, service, a) + WorthyLines(w, service, b)
    decreases |b|
  {
    if b == [] {
      assert a + b == a;
    } else {
      var n := |b| - 1;
      assert (a + b)[..|a + b| - 1] == a + b[..n];
      WorthyConcat(w, service, a, b[..n]);
    }
  }

  /** What is due from a place splits at any point where reading may stand. */
  lemma DueSplits(w: World, service: string, bytes: string, from: nat, e: nat, offset: nat)
    requires Stop(bytes, from, e) && e <= offset <= |bytes|
    ensures Due(w, service, bytes, from, offset) ==
      WorthyLines(w, service, LinesFrom(bytes[..e], from)) + Due(w, service, bytes, e, offset)
  {
    var upTo := bytes[..offset];
    assert upTo[..e] == bytes[..e];
    SplitAt(upTo, from, e);
    WorthyConcat(w, service, LinesFrom(bytes[..e], from), LinesFrom(upTo, e));
  }

  lemma SameFront<T>(a: seq<T>, b: seq<T>, rest: seq<T>)
    ensures a + rest == b + rest <==> a == b
  {
    if a + rest == b + rest {
      assert |a| == |b|;
      assert (a + rest)[..|a|] == a && (b + rest)[..|a|] == b;
    }
  }

  lemma DueAgree(w: World, service: string, bytes: string, start: nat, offset: nat)
    requires Stop(bytes, start, offset) && InStep(bytes, start, offset)
    ensures StepPoint(bytes, start) <= |bytes|
    ensures Due(w, service, bytes, 0, offset) == Due(w, service, bytes, start, offset) <==>
      NothingSkipped(w, service, bytes, start)
  {
    StepPointWithin(bytes, start, offset);
    var e := StepPoint(bytes, start);
    DueSplits(w, service, bytes, 0, e, offset);
    DueSplits(w, service, bytes, start, e, offset);
    SameFront(WorthyLines(w, service, LinesFrom(bytes[..e], 0)), WorthyLines(w, service, LinesFrom(bytes[..e], start)),
              Due(w, service, bytes, e, offset));
  }

  /** A list of lines that end by the offset is told from one with a later line at its end. */
  lemma NextIsLater(w: World, service: string, bytes: string, from: nat, offset: nat, ls: seq<Line>, next: Line)
    requires next.end > offset
    ensures Due(w, service, bytes, from, offset) != ls + [next]
  {
    DueEnds(w, service, bytes, from, offset);
    assert (ls + [next])[|ls|] == next;
  }

  /** Once in step, what a pass has stored is all there was to store of the file if and only if nothing was skipped. */
  lemma WholeIff(w: World, service: string, stored: seq<Line>, bytes: string, start: nat, offset: nat)
    requires DeliveredFrom(w, service, stored, bytes, start, offset) && InStep(bytes, start, offset)
    ensures StepPoint(bytes, start) <= |bytes|
    ensures DeliveredUpTo(w, service, stored, bytes, offset) <==> NothingSkipped(w, service, bytes, start)
  {
    StepPointWithin(bytes, start, offset);
    DueAgree(w, service, bytes, start, offset);
    Unfold(bytes, offset);
    if LinesFrom(bytes, offset) != [] {
      var next := LinesFrom(bytes, offset)[0];
      NextIsLater(w, service, bytes, 0, offset, Due(w, service, bytes, start, offset), next);
      NextIsLater(w, service, bytes, start, offset, Due(w, service, bytes, 0, offset), next);
      SameFront(Due(w, service, bytes, 0, offset), Due(w, service, bytes, start, offset), [next]);
    }
  }

  /** For a start at a line boundary: if and only if there is no worthy line before it. */
  lemma NothingSkippedAtBoundary(w: World, service: string, bytes: string, start: nat)
    requires start <= |bytes| && Boundary(bytes, start)
    ensures NothingSkipped(w, service, bytes, start) <==> WorthyLines(w, service, LinesFrom(bytes[..start], 0)) == []
  {
    FoldEmpty(bytes[..start], start);
  }

  // ---- Over every run ----

  /** What holds of a pass from `start`: what it stores is exactly what is due from there, nothing before the start
      ever is, and once in step that is the whole file's due if and only if nothing worthy was skipped. */
  ghost predicate PassFrom(w: World, n: State, f: nat, start: nat)
    requires Covered(n, f)
  {
    var svc, seen, offset := ServiceOf(n.db.logs, f), n.seen[f], n.db.logs.files[f].offset;
    var stored := Mine(n.trail, f, seen.pass);
    && seen.start == start && DeliveredFrom(w, svc, stored, seen.bytes, start, offset)
    && (forall l :: l in stored ==> l.end > start)
    && (InStep(seen.bytes, start, offset) ==>
          && StepPoint(seen.bytes, start) <= |seen.bytes|
          && (DeliveredUpTo(w, svc, stored, seen.bytes, offset) <==> NothingSkipped(w, svc, seen.bytes, start)))
  }

  lemma EveryPass(w: World, n: State, f: nat)
    requires Inv(w, n) && Covered(n, f)
    ensures PassFrom(w, n, f, n.seen[f].start)
  {
    var svc, seen, offset := ServiceOf(n.db.logs, f), n.seen[f], n.db.logs.files[f].offset;
    var stored := Mine(n.trail, f, seen.pass);
    assert FileOk(w, n, f);
    forall l | l in stored ensures l.end > seen.start {
      StoredAfterStart(w, svc, stored, seen.bytes, seen.start, offset, l);
    }
    if InStep(seen.bytes, seen.start, offset) {
      WholeIff(w, svc, stored, seen.bytes, seen.start, offset);
    }
  }

  /** A rotation nobody notices, or one between stat and read: whatever follows, the pass it begins is one from
      the offset in hand. */
  lemma LatePass(w: World, s: State, step: Step, steps: seq<Step>, f: nat)
    requires Inv(w, s) && Enabled(w, s, step) && (Slips(s, step, f) || Swaps(s, step, f))
    requires var m, n := Next(w, s, step), Run(w, Next(w, s, step), steps);
      Covered(n, f) && f in m.seen && n.seen[f].pass == m.seen[f].pass
    ensures PassFrom(w, Run(w, Next(w, s, step), steps), f, s.db.logs.files[f].offset)
  {
    var m := Next(w, s, step);
    StepKeeps(w, s, step);
    PassStarts(w, s, step, f);
    RunKeeps(w, m, steps);
    PassKeepsStart(w, m, steps, f);
    EveryPass(w, Run(w, m, steps), f);
  }

  // ---- A run that loses a line ----

  /** A log with one file, between two steps of a run without interruptions. */
  predicate Shows(s: State, d: OnDisk, row: FileRow, held: map<nat, Held>, work: Work, seen: Seen, trail: seq<Origin>) {
    && s.disk == map["/l" := d] && s.nextGen == d.gen + 1
    && s.db.logs == Logs(map[1 := WatchedLog("/l", "", true)], map[1 := row], 1, 1)
    && s.held == held && s.work == work && s.seen == map[1 := seen] && seen.pass < s.nextPass
    && s.trail == trail && s.cuts == 0 && s.excused == {}
  }

  /** The file waits to be read from this offset. */
  function Ready(offset: nat): map<nat, Held> {
    map[1 := Held("", "/l", offset)]
  }

  lemma WitnessLines()
    ensures LinesFrom("a\n", 0) == [Line("a", 2)]
    ensures LinesFrom("b\na\n", 2) == [Line("a", 4)]
    ensures LinesFrom("b\na\n", 0) == [Line("b", 2), Line("a", 4)]
    ensures LinesFrom("b\na\n", 4) == [] && LinesFrom("a\n", 2) == []
  {
    OneLine("a\n", 0, "a");
    OneLine("b\na\n", 2, "a");
    OneLine("b\na\n", 0, "b");
    FoldEmpty("a\n", 2);
    FoldEmpty("b\na\n", 4);
  }

  lemma OneLine(b: string, from: nat, text: string)
    requires |text| == 1 && from + 1 < |b| && b[from] == text[0] != '\n' && b[from] != '\r' && b[from + 1] == '\n'
    ensures LinesFrom(b, from) == [Line(text, from + 2)] + LinesFrom(b, from + 2)
  {
    assert b[from..from + 1] == text;
    Fold(b, from, Line(text, from + 2));
  }

  /** A file is found at a log's path. */
  lemma FindFile(w: World, ident: Identity, bytes: string) returns (steps: seq<Step>, seen: Seen)
    ensures seen.gen == 1 && seen.bytes == bytes
    ensures Shows(Run(w, INIT, steps), OnDisk(ident, bytes, 1), FileRow(1, "/l", ident, |bytes|, 0), Ready(0), Idle,
                  seen, [])
  {
    steps := [];
    RunOn(w, INIT, steps, Add(1, "/l", ""));
    steps := steps + [Add(1, "/l", "")];
    RunOn(w, INIT, steps, Replace("/l", ident, bytes));
    steps := steps + [Replace("/l", ident, bytes)];
    RunOn(w, INIT, steps, Refresh(1, 1, "/l", ""));
    steps := steps + [Refresh(1, 1, "/l", "")];
    seen := Run(w, INIT, steps).seen[1];
  }

  /** A waiting file with one line left, an unmatched one, is read, committed and done with. */
  lemma ReadOn(w: World, steps: seq<Step>, d: OnDisk, row: FileRow, end: nat, seen: Seen) returns (more: seq<Step>)
    requires w.verdict("", "a").Unmatched? && LinesFrom(d.bytes, row.offset) == [Line("a", end)]
    requires seen.gen == d.gen && seen.bytes == d.bytes && row.path == "/l"
    requires Shows(Run(w, INIT, steps), d, row, Ready(row.offset), Idle, seen, [])
    ensures Shows(Run(w, INIT, more), d, row.(offset := end), map[], Idle, seen, [])
  {
    hide Run;
    var ls := [Line("a", end)];
    RunOn(w, INIT, steps, Read(1));
    more := steps + [Read(1)];
    assert Shows(Run(w, INIT, more), d, row, map[], Busy(1, "", d.bytes, ls, Top), seen, []);
    RunOn(w, INIT, more, Commit);
    more := more + [Commit];
    assert Shows(Run(w, INIT, more), d, row.(offset := end), map[], Busy(1, "", d.bytes, [], Top), seen, []);
    RunOn(w, INIT, more, Finish);
    more := more + [Finish];
  }

  /** A file takes the place of the first under its identity, and is grown past the offset when it is next looked at. */
  lemma SlipIn(w: World, ident: Identity, first: seq<Step>, seen: Seen) returns (steps: seq<Step>, now: Seen)
    requires seen.gen == 1
    requires Shows(Run(w, INIT, first), OnDisk(ident, "a\n", 1), FileRow(1, "/l", ident, 2, 2), map[], Idle, seen, [])
    ensures now.gen == 2 && now.bytes == "b\na\n"
    ensures Shows(Run(w, INIT, steps), OnDisk(ident, "b\na\n", 2), FileRow(1, "/l", ident, 4, 2), Ready(2), Idle, now,
                  [])
  {
    hide Run;
    RunOn(w, INIT, first, Replace("/l", ident, "b\na\n"));
    steps := first + [Replace("/l", ident, "b\na\n")];
    RunOn(w, INIT, steps, Refresh(1, 1, "/l", ""));
    steps := steps + [Refresh(1, 1, "/l", "")];
    now := Run(w, INIT, steps).seen[1];
  }

  /** So there is a run that ends with a file read to its end, the worthy line it begins with not stored. */
  lemma LostLine(w: World, ident: Identity) returns (steps: seq<Step>)
    requires w.verdict("", "a").Unmatched? && w.verdict("", "b").Raised?
    ensures var s := Run(w, INIT, steps);
      && Covered(s, 1) && s.work.Idle? && s.seen[1].bytes == "b\na\n" && s.db.logs.files[1].offset == 4
      && WorthyLines(w, "", LinesFrom("b\na\n", 0)) == [Line("b", 2)] && s.trail == []
    ensures !DeliveredUpTo(w, "", [], "b\na\n", 4)
  {
    hide Run;
    WitnessLines();
    var first, second: Seen;
    steps, first := FindFile(w, ident, "a\n");
    steps := ReadOn(w, steps, OnDisk(ident, "a\n", 1), FileRow(1, "/l", ident, 2, 0), 2, first);
    steps, second := SlipIn(w, ident, steps, first);
    steps := ReadOn(w, steps, OnDisk(ident, "b\na\n", 2), FileRow(1, "/l", ident, 4, 2), 4, second);
    WorthyBOnly(w);
    assert "b\na\n"[..4] == "b\na\n";
  }

  lemma WorthyBOnly(w: World)
    requires w.verdict("", "a").Unmatched? && w.verdict("", "b").Raised?
    ensures WorthyLines(w, "", [Line("b", 2), Line("a", 4)]) == [Line("b", 2)]
  {
    var none: seq<Line> := [];
    WorthyAppend(w, "", none, Line("b", 2));
    WorthyAppend(w, "", [Line("b", 2)], Line("a", 4));
    assert none + [Line("b", 2)] == [Line("b", 2)] && [Line("b", 2)] + [Line("a", 4)] == [Line("b", 2), Line("a", 4)];
  }
}
