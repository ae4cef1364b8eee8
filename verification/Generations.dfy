/** In how many passes one generation of a file is read, and so how often one of its lines is stored. */
module Generations {
  import opened Delivery
  import opened LogTables
  import opened Passes
  import opened Pipeline
  import opened Reader
  import opened Repeats
  import opened Runs
  import EventIndex

  // ---- A generation is read in one pass ----

  predicate Unswapped(s: State, f: nat, gen: nat) {
    (f, gen) !in s.swapped
  }

  /** The file is not shorter than its offset nor, while this generation stays on disk, of another identity than its
      row's: no refresh will reset it. */
  predicate Settled(s: State, f: nat)
    requires f in s.db.logs.files && f in s.seen
  {
    var row := s.db.logs.files[f];
    && row.offset <= |s.seen[f].bytes|
    && (row.path in s.disk && s.disk[row.path].gen == s.seen[f].gen ==> s.disk[row.path].ident == row.ident)
  }

  /** A generation that was not swapped in between stat and read is settled. */
  predicate Steady(s: State, f: nat)
    requires f in s.db.logs.files
  {
    f in s.seen && Unswapped(s, f, s.seen[f].gen) ==> Settled(s, f)
  }

  predicate AllSteady(s: State) {
    forall f :: f in s.db.logs.files ==> Steady(s, f)
  }

  /** What was stored of a generation was stored in its one pass. */
  predicate InOnePass(s: State, d: Origin) {
    && d.file in s.seen && d.gen <= s.seen[d.file].gen
    && (d.gen == s.seen[d.file].gen && Unswapped(s, d.file, d.gen) ==> d.pass == s.seen[d.file].pass)
  }

  predicate OnePass(s: State) {
    && (forall d :: d in s.trail ==> InOnePass(s, d))
    && (forall d, e ::
          d in s.trail && e in s.trail && d.file == e.file && d.gen == e.gen && Unswapped(s, d.file, d.gen) ==>
            d.pass == e.pass)
  }

  lemma RefreshKeepsSteady(w: World, s: State, f: nat, log: nat, path: string, service: string)
    requires Inv(w, s) && AllSteady(s) && Enabled(w, s, Refresh(f, log, path, service))
    ensures AllSteady(Refreshed(w, s, f, log, path, service))
  {
    var n := Refreshed(w, s, f, log, path, service);
    RefreshWithin(s.db.logs, log, path, f, s.disk[path].ident, |s.disk[path].bytes|);
    forall g | g in n.db.logs.files ensures Steady(n, g) {
      if g != f { assert Steady(s, g); }
    }
  }

  lemma ReadKeepsSteady(w: World, s: State, f: nat)
    requires Inv(w, s) && AllSteady(s) && Enabled(w, s, Read(f))
    ensures AllSteady(ReadFile(w, s, f))
  {
    var n := ReadFile(w, s, f);
    forall g | g in n.db.logs.files ensures Steady(n, g) {
      assert Steady(s, g) && FileOk(w, s, g);
    }
  }

  lemma CommitKeepsSteady(w: World, s: State)
    requires Inv(w, s) && AllSteady(s) && Enabled(w, s, Commit)
    ensures AllSteady(Apply(w, s, Commit))
  {
    var n := Apply(w, s, Commit);
    var f := s.work.file;
    assert FileOk(w, s, f);
    Unfold(s.work.base, s.db.logs.files[f].offset);
    forall g | g in n.db.logs.files ensures Steady(n, g) { assert Steady(s, g); }
  }

  /** Steps of writers: generations come and grow, and keep their identity. */
  lemma WriterKeepsSteady(w: World, s: State, step: Step)
    requires Inv(w, s) && AllSteady(s) && Enabled(w, s, step) && (step.Append? || step.Replace? || step.Unlink?)
    ensures AllSteady(Apply(w, s, step))
  {
    var n := Apply(w, s, step);
    forall g | g in n.db.logs.files ensures Steady(n, g) { assert Steady(s, g) && FileOk(w, s, g); }
  }

  lemma OthersKeepSteady(w: World, s: State, step: Step)
    requires AllSteady(s) && Enabled(w, s, step)
    requires step.Add? || step.Remove? || step.CountMatch? || step.StoreEvent? || step.Finish? || step.Cut?
    ensures AllSteady(Apply(w, s, step))
  {
    var n := Apply(w, s, step);
    forall g | g in n.db.logs.files ensures Steady(n, g) { assert Steady(s, g); }
  }

  lemma StepKeepsSteady(w: World, s: State, step: Step)
    requires Inv(w, s) && AllSteady(s)
    ensures AllSteady(Next(w, s, step))
  {
    if Enabled(w, s, step) {
      match step
      case Refresh(file, log, path, service) => RefreshKeepsSteady(w, s, file, log, path, service);
      case Read(file) => ReadKeepsSteady(w, s, file);
      case Commit => CommitKeepsSteady(w, s);
      case Append(_, _) => WriterKeepsSteady(w, s, step);
      case Replace(_, _, _) => WriterKeepsSteady(w, s, step);
      case Unlink(_) => WriterKeepsSteady(w, s, step);
      case _ => OthersKeepSteady(w, s, step);
    }
  }

  /** `n` has the same trail, and where what was last seen differs the pass goes on, the generation is a later one
      or it was swapped in. */
  lemma SameTrailOnePass(s: State, n: State)
    requires OnePass(s) && n.trail == s.trail && s.swapped <= n.swapped
    requires forall f :: f in s.seen ==> f in n.seen && (SamePass(s, n, f) || n.seen[f].gen > s.seen[f].gen)
    ensures OnePass(n)
  {
    forall d | d in n.trail ensures InOnePass(n, d) { assert InOnePass(s, d); }
  }

  predicate SamePass(s: State, n: State, f: nat)
    requires f in s.seen && f in n.seen
  {
    n.seen[f].gen == s.seen[f].gen && (Unswapped(n, f, s.seen[f].gen) ==> n.seen[f].pass == s.seen[f].pass)
  }

  lemma RefreshKeepsOnePass(w: World, s: State, f: nat, log: nat, path: string, service: string)
    requires Inv(w, s) && AllSteady(s) && OnePass(s) && Enabled(w, s, Refresh(f, log, path, service))
    ensures OnePass(Refreshed(w, s, f, log, path, service))
  {
    var n := Refreshed(w, s, f, log, path, service);
    if f in s.db.logs.files {
      assert Steady(s, f) && FileOk(w, s, f);
    }
    SameTrailOnePass(s, n);
  }

  lemma ReadKeepsOnePass(w: World, s: State, f: nat)
    requires Inv(w, s) && OnePass(s) && Enabled(w, s, Read(f))
    ensures OnePass(ReadFile(w, s, f))
  {
    if f in s.db.logs.files { assert FileOk(w, s, f); }
    SameTrailOnePass(s, ReadFile(w, s, f));
  }

  lemma StoreKeepsOnePass(s: State, n: State)
    requires Numbered(s) && OnePass(s) && AtLine(s) && AfterStore(s, n)
    ensures OnePass(n)
  {
    var d := OriginOf(s);
    assert n.trail == s.trail + [d];
    forall e | e in n.trail ensures InOnePass(n, e) {
      if e in s.trail { assert InOnePass(s, e); }
    }
  }

  lemma StepKeepsOnePass(w: World, s: State, step: Step)
    requires Inv(w, s) && AllSteady(s) && OnePass(s)
    ensures OnePass(Next(w, s, step))
  {
    hide EventIndex.Store, OnePass, LineEntry;
    if Enabled(w, s, step) {
      match step
      case Refresh(file, log, path, service) => RefreshKeepsOnePass(w, s, file, log, path, service);
      case Read(file) => ReadKeepsOnePass(w, s, file);
      case StoreEvent(at, dayStart, hourStart) => StoreKeepsOnePass(s, Apply(w, s, step));
      case _ => SameTrailOnePass(s, Apply(w, s, step));
    }
  }

  /** In every run, a generation that was not swapped in between stat and read is read in one pass. */
  lemma {:induction false} GenerationsAreOnePass(w: World, steps: seq<Step>)
    ensures AllSteady(Run(w, INIT, steps)) && OnePass(Run(w, INIT, steps))
  {
    if steps != [] {
      var init := steps[..|steps| - 1];
      GenerationsAreOnePass(w, init);
      RunKeeps(w, INIT, init);
      StepKeepsSteady(w, Run(w, INIT, init), steps[|steps| - 1]);
      StepKeepsOnePass(w, Run(w, INIT, init), steps[|steps| - 1]);
    }
  }

  // ---- One that was swapped in, in two at most ----

  /** No three lines stored of one generation are of three passes. */
  predicate AtMostTwo(trail: seq<Origin>) {
    forall c, d, e :: c in trail && d in trail && e in trail && OfOne(c, d) && OfOne(d, e) ==>
      c.pass == d.pass || d.pass == e.pass || c.pass == e.pass
  }

  /** Of the same generation of the same file. */
  predicate OfOne(d: Origin, e: Origin) {
    d.file == e.file && d.gen == e.gen
  }

  /** The line is of what was last seen of its file. */
  predicate OfLast(s: State, d: Origin) {
    d.file in s.seen && d.gen == s.seen[d.file].gen
  }

  /** Until a generation is settled what was stored of it is of the present pass; then of that and one other. */
  predicate PassesOfLast(s: State) {
    && (forall d :: d in s.trail ==> d.file in s.seen && d.gen <= s.seen[d.file].gen)
    && (forall d :: d in s.trail && OfLast(s, d) && d.file in s.db.logs.files && !Settled(s, d.file) ==>
          d.pass == s.seen[d.file].pass)
    && (forall d, e :: d in s.trail && e in s.trail && OfLast(s, d) && OfOne(d, e) ==>
          d.pass == e.pass || d.pass == s.seen[d.file].pass || e.pass == s.seen[d.file].pass)
  }

  predicate TwoPasses(s: State) {
    PassesOfLast(s) && AtMostTwo(s.trail)
  }

  /** `n` has the same trail; a file's pass goes on and it is settled if it was, or it begins a new pass over a
      generation that was not settled and now is, or over a later generation. */
  predicate TurnsOver(s: State, n: State, f: nat)
    requires f in s.seen && f in n.seen
  {
    || n.seen[f].gen > s.seen[f].gen
    || (n.seen[f].gen == s.seen[f].gen && n.seen[f].pass == s.seen[f].pass
        && (f in n.db.logs.files ==> f in s.db.logs.files && (Settled(s, f) ==> Settled(n, f))))
    || (n.seen[f].gen == s.seen[f].gen && f in s.db.logs.files && !Settled(s, f)
        && f in n.db.logs.files && Settled(n, f))
  }

  lemma SameTrailTwoPasses(s: State, n: State)
    requires TwoPasses(s) && n.trail == s.trail
    requires forall f :: f in s.seen ==> f in n.seen && TurnsOver(s, n, f)
    ensures TwoPasses(n)
  {
    forall d | d in n.trail ensures d.file in n.seen && d.gen <= n.seen[d.file].gen {
      assert d.file in s.seen && TurnsOver(s, n, d.file);
    }
    forall d | d in n.trail && OfLast(n, d) && d.file in n.db.logs.files && !Settled(n, d.file)
      ensures d.pass == n.seen[d.file].pass
    {
      assert TurnsOver(s, n, d.file) && OfLast(s, d);
    }
    forall d, e | d in n.trail && e in n.trail && OfLast(n, d) && OfOne(d, e)
      ensures d.pass == e.pass || d.pass == n.seen[d.file].pass || e.pass == n.seen[d.file].pass
    {
      assert TurnsOver(s, n, d.file) && OfLast(s, d) && OfLast(s, e);
    }
  }

  lemma RefreshTurnsOver(w: World, s: State, f: nat, log: nat, path: string, service: string, g: nat)
    requires Inv(w, s) && Enabled(w, s, Refresh(f, log, path, service)) && g in s.seen
    ensures g in Refreshed(w, s, f, log, path, service).seen
    ensures TurnsOver(s, Refreshed(w, s, f, log, path, service), g)
  {
    if f in s.db.logs.files { assert FileOk(w, s, f); }
    RefreshWithin(s.db.logs, log, path, f, s.disk[path].ident, |s.disk[path].bytes|);
  }

  lemma ReadTurnsOver(w: World, s: State, f: nat, g: nat)
    requires Inv(w, s) && Enabled(w, s, Read(f)) && g in s.seen
    ensures g in ReadFile(w, s, f).seen && TurnsOver(s, ReadFile(w, s, f), g)
  {
    if f in s.db.logs.files { assert FileOk(w, s, f); }
  }

  lemma CommitTurnsOver(w: World, s: State, g: nat)
    requires Inv(w, s) && Enabled(w, s, Commit) && g in s.seen
    ensures TurnsOver(s, Apply(w, s, Commit), g)
  {
    var f := s.work.file;
    assert FileOk(w, s, f);
    Unfold(s.work.base, s.db.logs.files[f].offset);
  }

  lemma OthersTurnOver(w: World, s: State, step: Step, g: nat)
    requires Inv(w, s) && Enabled(w, s, step) && g in s.seen
    requires !step.Refresh? && !step.Read? && !step.Commit? && !step.StoreEvent?
    ensures g in Apply(w, s, step).seen && TurnsOver(s, Apply(w, s, step), g)
  {
    if g in s.db.logs.files { assert FileOk(w, s, g); }
  }

  lemma StoreKeepsTwoPasses(s: State, n: State)
    requires Numbered(s) && TwoPasses(s) && AtLine(s) && AfterStore(s, n)
    ensures TwoPasses(n)
  {
    var d := OriginOf(s);
    assert n.trail == s.trail + [d];
    assert forall f :: f in n.db.logs.files && f in n.seen ==> Settled(n, f) == Settled(s, f);
    assert PassesOfLast(n);
    hide Settled;
    assert AtMostTwo(n.trail);
  }

  lemma StepKeepsTwoPasses(w: World, s: State, step: Step)
    requires Inv(w, s) && TwoPasses(s)
    ensures TwoPasses(Next(w, s, step))
  {
    hide EventIndex.Store, TwoPasses, TurnsOver, Inv, LineEntry;
    if Enabled(w, s, step) {
      if step.StoreEvent? {
        StoreTwoPasses(w, s, step);
      } else {
        var n := Apply(w, s, step);
        forall g | g in s.seen ensures g in n.seen && TurnsOver(s, n, g) {
          match step
          case Refresh(file, log, path, service) => RefreshTurnsOver(w, s, file, log, path, service, g);
          case Read(file) => ReadTurnsOver(w, s, file, g);
          case Commit => CommitTurnsOver(w, s, g);
          case _ => OthersTurnOver(w, s, step, g);
        }
        SameTrailTwoPasses(s, n);
      }
    }
  }

  lemma StoreTwoPasses(w: World, s: State, step: Step)
    requires Inv(w, s) && TwoPasses(s) && step.StoreEvent? && Enabled(w, s, step)
    ensures TwoPasses(Apply(w, s, step))
  {
    hide EventIndex.Store, TwoPasses, LineEntry;
    StoreKeepsTwoPasses(s, Apply(w, s, step));
  }

  /** In every run no generation's lines are stored in more than two passes. */
  lemma {:induction false} RunKeepsTwoPasses(w: World, steps: seq<Step>)
    ensures TwoPasses(Run(w, INIT, steps))
  {
    if steps != [] {
      var init := steps[..|steps| - 1];
      RunKeepsTwoPasses(w, init);
      RunKeeps(w, INIT, init);
      StepKeepsTwoPasses(w, Run(w, INIT, init), steps[|steps| - 1]);
    }
  }

  // ---- How often a line of a generation is stored ----

  /** A line of a generation of a file. */
  datatype Place = Place(file: nat, gen: nat, line: Line)

  function PlaceOf(d: Origin): Place {
    Place(d.file, d.gen, d.line)
  }

  predicate StoredBefore(trail: seq<Origin>, d: Origin) {
    exists i :: 0 <= i < |trail| && PlaceOf(trail[i]) == PlaceOf(d)
  }

  /** The occurrences whose line of a file generation was stored before, in whatever pass. */
  function RestoredCount(trail: seq<Origin>): nat {
    if trail == [] then 0 else
      var n := |trail| - 1;
      RestoredCount(trail[..n]) + if StoredBefore(trail[..n], trail[n]) then 1 else 0
  }

  /** The lines stored in two passes. */
  function Twice(trail: seq<Origin>): set<Place> {
    set i, j | 0 <= i < |trail| && 0 <= j < |trail| && PlaceOf(trail[i]) == PlaceOf(trail[j])
               && trail[i].pass != trail[j].pass :: PlaceOf(trail[i])
  }

  lemma InTwice(trail: seq<Origin>, d: Origin, e: Origin)
    requires d in trail && e in trail && PlaceOf(d) == PlaceOf(e) && d.pass != e.pass
    ensures PlaceOf(d) in Twice(trail)
  {
    var i :| 0 <= i < |trail| && trail[i] == d;
    var j :| 0 <= j < |trail| && trail[j] == e;
    assert PlaceOf(trail[i]) == PlaceOf(trail[j]);
  }

  lemma OfTwice(trail: seq<Origin>, p: Place) returns (d: Origin, e: Origin)
    requires p in Twice(trail)
    ensures d in trail && e in trail && PlaceOf(d) == p == PlaceOf(e) && d.pass != e.pass
  {
    var i, j :| 0 <= i < |trail| && 0 <= j < |trail| && PlaceOf(trail[i]) == PlaceOf(trail[j])
                && trail[i].pass != trail[j].pass && PlaceOf(trail[i]) == p;
    d, e := trail[i], trail[j];
  }

  lemma TwiceGrows(front: seq<Origin>, trail: seq<Origin>)
    requires front <= trail
    ensures Twice(front) <= Twice(trail)
  {
    forall p | p in Twice(front) ensures p in Twice(trail) {
      var a, b := OfTwice(front, p);
      InTwice(trail, a, b);
    }
  }

  lemma SecondPassIsNew(trail: seq<Origin>, d: Origin)
    requires trail != [] && AtMostTwo(trail) && d == trail[|trail| - 1] && d !in trail[..|trail| - 1]
    ensures PlaceOf(d) !in Twice(trail[..|trail| - 1])
  {
    var front := trail[..|trail| - 1];
    if PlaceOf(d) in Twice(front) {
      var a, b := OfTwice(front, PlaceOf(d));
      assert a in trail && b in trail && OfOne(a, b) && OfOne(b, d);
    }
  }

  /** Stored before but not in this pass: it is now stored in two, for the first time. */
  lemma SecondPass(trail: seq<Origin>, d: Origin)
    requires trail != [] && AtMostTwo(trail) && d == trail[|trail| - 1] && d !in trail[..|trail| - 1]
    requires StoredBefore(trail[..|trail| - 1], d)
    ensures |Twice(trail[..|trail| - 1])| < |Twice(trail)|
  {
    var front := trail[..|trail| - 1];
    var i :| 0 <= i < |front| && PlaceOf(front[i]) == PlaceOf(d);
    assert front[i] in front && front[i].pass != d.pass;
    InTwice(trail, front[i], d);
    SecondPassIsNew(trail, d);
    TwiceGrows(front, trail);
    SubsetSize(Twice(front) + {PlaceOf(d)}, Twice(trail));
  }

  /** Storing a line again repeats it in its pass, or stores it in a second pass. */
  lemma {:induction false} RestoredSplit(trail: seq<Origin>)
    requires AtMostTwo(trail)
    ensures RestoredCount(trail) <= RepeatCount(trail) + |Twice(trail)|
  {
    if trail != [] {
      var n := |trail| - 1;
      var front, d := trail[..n], trail[n];
      FrontAtMostTwo(trail, front);
      hide Twice, AtMostTwo, StoredBefore;
      RestoredSplit(front);
      TwiceGrows(front, trail);
      SubsetSize(Twice(front), Twice(trail));
      if StoredBefore(front, d) && d !in front { SecondPass(trail, d); }
    }
  }

  lemma FrontAtMostTwo(trail: seq<Origin>, front: seq<Origin>)
    requires AtMostTwo(trail) && front <= trail
    ensures AtMostTwo(front)
  {
    assert forall e :: e in front ==> e in trail;
  }

  /** Only of a generation that was swapped in between stat and read is a line stored in two passes. */
  lemma TwiceAreSwapped(s: State)
    requires OnePass(s)
    ensures forall p :: p in Twice(s.trail) ==> (p.file, p.gen) in s.swapped
  {
    forall p | p in Twice(s.trail) ensures (p.file, p.gen) in s.swapped {
      var d, e := OfTwice(s.trail, p);
    }
  }

  /** So over every run, of all the occurrences whose line of its generation was stored before there are at most as many
      as interruptions, and one more for each line stored in two passes; those are of generations swapped in between
      stat and read, and no line is stored in three. */
  lemma RestoredAreBounded(w: World, steps: seq<Step>)
    ensures var s := Run(w, INIT, steps);
      && RestoredCount(s.trail) <= s.cuts + |Twice(s.trail)| && AtMostTwo(s.trail)
      && forall p :: p in Twice(s.trail) ==> (p.file, p.gen) in s.swapped
  {
    RepeatsAreBounded(w, steps);
    GenerationsAreOnePass(w, steps);
    RunKeepsTwoPasses(w, steps);
    RestoredSplit(Run(w, INIT, steps).trail);
    TwiceAreSwapped(Run(w, INIT, steps));
  }

  // ---- A run that stores a line twice though nothing interrupts it ----

  lemma LineB()
    ensures LinesFrom("b\n", 0) == [Line("b", 2)]
  {
    assert "b\n"[0..1] == "b";
    Fold("b\n", 0, Line("b", 2));
    FoldEmpty("b\n", 2);
  }

  /** The file waiting to be read holds one line; it is read, ... */
  lemma ReadB(w: World, s: State, d: OnDisk, row: FileRow, seen: Seen, trail: seq<Origin>) returns (now: Seen)
    requires Shows(s, d, row, Ready(0), Idle, seen, trail) && d.bytes == "b\n" && row.path == "/l"
    ensures now.gen == d.gen && now.pass == (if seen.gen == d.gen then seen.pass else s.nextPass)
    ensures Shows(Next(w, s, Read(1)), d, row, map[], Busy(1, "", "b\n", [Line("b", 2)], Top), now, trail)
  {
    LineB();
    assert Ready(0) - {1} == map[];
    now := Next(w, s, Read(1)).seen[1];
  }

  /** ... counted and stored, ... */
  lemma StoreB(w: World, s: State, t: EventIndex.Stamp, d: OnDisk, row: FileRow, seen: Seen, trail: seq<Origin>)
    requires Shows(s, d, row, map[], Busy(1, "", "b\n", [Line("b", 2)], Top), seen, trail) && w.stamps(t)
    requires w.verdict("", "b").Raised? && w.verdict("", "b").rule > 0
    ensures Shows(Next(w, Next(w, s, CountMatch), StoreEvent(t.at, t.dayStart, t.hourStart)), d, row, map[],
                  Busy(1, "", "b\n", [Line("b", 2)], Stored), seen,
                  trail + [Origin(1, seen.gen, seen.pass, Line("b", 2))])
  {
    hide EventIndex.Store, LineEntry;
    var n := Next(w, s, CountMatch);
    assert Shows(n, d, row, map[], Busy(1, "", "b\n", [Line("b", 2)], Counted), seen, trail);
  }

  /** ... and committed. */
  lemma CommitB(w: World, s: State, d: OnDisk, row: FileRow, seen: Seen, trail: seq<Origin>)
    requires Shows(s, d, row, map[], Busy(1, "", "b\n", [Line("b", 2)], Stored), seen, trail)
    requires w.verdict("", "b").Raised?
    ensures Shows(Next(w, Next(w, s, Commit), Finish), d, row.(offset := 2), map[], Idle, seen, trail)
  {
    var n := Next(w, s, Commit);
    assert Shows(n, d, row.(offset := 2), map[], Busy(1, "", "b\n", [], Top), seen, trail);
  }

  lemma ReadAndStoreB(w: World, steps: seq<Step>, t: EventIndex.Stamp, d: OnDisk, row: FileRow, seen: Seen,
                      trail: seq<Origin>) returns (more: seq<Step>, now: Seen)
    requires Shows(Run(w, INIT, steps), d, row, Ready(0), Idle, seen, trail) && d.bytes == "b\n" && row.path == "/l"
    requires w.verdict("", "b").Raised? && w.verdict("", "b").rule > 0 && w.stamps(t)
    ensures now.gen == d.gen
    ensures now.pass == if seen.gen == d.gen then seen.pass else Run(w, INIT, steps).nextPass
    ensures Shows(Run(w, INIT, more), d, row, map[], Busy(1, "", "b\n", [Line("b", 2)], Stored), now,
                  trail + [Origin(1, d.gen, now.pass, Line("b", 2))])
  {
    hide Run;
    var s := Run(w, INIT, steps);
    now := ReadB(w, s, d, row, seen, trail);
    RunOn(w, INIT, steps, Read(1));
    more := steps + [Read(1)];
    StoreB(w, Run(w, INIT, more), t, d, row, now, trail);
    RunOn(w, INIT, more, CountMatch);
    RunOn(w, INIT, more + [CountMatch], StoreEvent(t.at, t.dayStart, t.hourStart));
    more := more + [CountMatch] + [StoreEvent(t.at, t.dayStart, t.hourStart)];
  }

  /** A file is found empty, and gives way to another before it is read. */
  lemma SwapIn(w: World, was: Identity, ident: Identity) returns (steps: seq<Step>, seen: Seen)
    ensures seen.gen == 1
    ensures Shows(Run(w, INIT, steps), OnDisk(ident, "b\n", 2), FileRow(1, "/l", was, 0, 0), Ready(0), Idle, seen, [])
  {
    hide Run;
    steps, seen := FindFile(w, was, "");
    RunOn(w, INIT, steps, Replace("/l", ident, "b\n"));
    steps := steps + [Replace("/l", ident, "b\n")];
  }

  /** The next refresh finds another identity than its row's, and begins again. */
  lemma BeginAgain(w: World, s: State, d: OnDisk, row: FileRow, seen: Seen, trail: seq<Origin>) returns (now: Seen)
    requires Shows(s, d, row, map[], Idle, seen, trail) && row.log == 1 && row.path == "/l" && row.ident != d.ident
    ensures now.gen == d.gen && now.pass == s.nextPass
    ensures Shows(Next(w, s, Refresh(1, 1, "/l", "")), d, FileRow(1, "/l", d.ident, |d.bytes|, 0), Ready(0), Idle, now,
                  trail)
  {
    now := Next(w, s, Refresh(1, 1, "/l", "")).seen[1];
  }

  /** So there is a run without interruptions in which a line of a generation swapped in is stored in two passes. */
  lemma StoredTwice(w: World, t: EventIndex.Stamp, was: Identity, ident: Identity) returns (steps: seq<Step>)
    requires w.verdict("", "b").Raised? && w.verdict("", "b").rule > 0 && w.stamps(t) && was != ident
    ensures var s := Run(w, INIT, steps);
      && s.cuts == 0 && RestoredCount(s.trail) == 1 && Twice(s.trail) == {Place(1, 2, Line("b", 2))}
  {
    hide Run;
    var d, row := OnDisk(ident, "b\n", 2), FileRow(1, "/l", was, 0, 0);
    var empty, first, second: Seen;
    steps, empty := SwapIn(w, was, ident);
    steps, first := ReadAndStoreB(w, steps, t, d, row, empty, []);
    var trail := [] + [Origin(1, 2, first.pass, Line("b", 2))];
    CommitB(w, Run(w, INIT, steps), d, row, first, trail);
    RunOn(w, INIT, steps, Commit);
    RunOn(w, INIT, steps + [Commit], Finish);
    steps := steps + [Commit] + [Finish];
    var again := BeginAgain(w, Run(w, INIT, steps), d, row.(offset := 2), first, trail);
    RunOn(w, INIT, steps, Refresh(1, 1, "/l", ""));
    steps := steps + [Refresh(1, 1, "/l", "")];
    steps, second := ReadAndStoreB(w, steps, t, d, FileRow(1, "/l", ident, 2, 0), again, trail);
    CountTwo(Origin(1, 2, first.pass, Line("b", 2)), Origin(1, 2, second.pass, Line("b", 2)));
  }

  lemma CountTwo(d: Origin, e: Origin)
    requires PlaceOf(d) == PlaceOf(e) && d.pass != e.pass
    ensures RestoredCount([] + [d] + [e]) == 1 && Twice([] + [d] + [e]) == {PlaceOf(d)}
  {
    var one, two := [d], [] + [d] + [e];
    var none: seq<Origin> := [];
    assert one[..0] == none && RestoredCount(one) == 0;
    assert two[..1] == one && two == [d, e] && two[1] == e;
    assert PlaceOf(one[0]) == PlaceOf(e);
    assert StoredBefore(one, e);
    InTwice(two, d, e);
  }
}
