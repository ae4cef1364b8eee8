/** How often a line can be stored again: over any run, at most once per interruption. */
module Repeats {
  import opened Delivery
  import opened LogTables
  import opened Pipeline
  import opened Reader
  import opened Standings

  /** The stored occurrences that repeat an earlier one of the same pass. */
  function RepeatCount(trail: seq<Origin>): nat {
    if trail == [] then 0 else
      var n := |trail| - 1;
      RepeatCount(trail[..n]) + if trail[n] in trail[..n] then 1 else 0
  }

  /** Stored, not yet committed, and no longer in hand: the next cycle may store it again. */
  predicate IsDangling(s: State, d: Origin) {
    && d.file in s.db.logs.files && d.file in s.seen && d.pass == s.seen[d.file].pass
    && d.line.end > s.db.logs.files[d.file].offset
    && !(s.work.Busy? && s.work.file == d.file && s.work.stage.Stored?)
  }

  function Dangling(s: State): set<Origin> {
    set d | d in s.trail && IsDangling(s, d)
  }

  predicate Bounded(s: State) {
    RepeatCount(s.trail) + |Dangling(s)| <= s.cuts
  }

  lemma {:induction false} SubsetSize<T>(a: set<T>, b: set<T>)
    requires a <= b
    ensures |a| <= |b|
  {
    if a != {} {
      var x :| x in a;
      SubsetSize(a - {x}, b - {x});
    }
  }

  /** A step that stores nothing and leaves no new line dangling. */
  lemma QuietStep(s: State, n: State)
    requires Bounded(s) && n.trail == s.trail && n.cuts >= s.cuts
    requires forall d :: d in s.trail && IsDangling(n, d) ==> IsDangling(s, d)
    ensures Bounded(n)
  {
    SubsetSize(Dangling(n), Dangling(s));
  }

  // ---- Stored lines and the committed offset ----

  /** Past the committed offset only the line starting there can have been stored. */
  lemma OnlyNextIsUncommitted(s: State, d: Origin)
    requires Standing(s) && d in s.trail && d.file in s.db.logs.files
    requires d.pass == s.seen[d.file].pass && d.line.end > s.db.logs.files[d.file].offset
    ensures var next := LinesFrom(s.seen[d.file].bytes, s.db.logs.files[d.file].offset);
      next != [] && d.line == next[0]
  {
    var seen, offset := s.seen[d.file], s.db.logs.files[d.file].offset;
    assert Stands(s, d.file);
    MineHas(s.trail, d);
    BeforeEnds(seen.bytes, seen.start, offset);
  }

  // ---- The steps ----

  lemma OldPass(s: State, d: Origin)
    requires Numbered(s) && d in s.trail
    ensures KnownOrigin(s, d) && s.seen[d.file].pass < s.nextPass
  {
    var i :| 0 <= i < |s.trail| && s.trail[i] == d;
  }

  lemma RefreshBounded(w: World, s: State, f: nat, log: nat, path: string, service: string)
    requires Inv(w, s) && Bounded(s) && Enabled(w, s, Refresh(f, log, path, service))
    ensures Bounded(Refreshed(w, s, f, log, path, service))
  {
    var n := Refreshed(w, s, f, log, path, service);
    forall d | d in s.trail && IsDangling(n, d) ensures IsDangling(s, d) {
      OldPass(s, d);
      if d.file == f {
        assert CarriesOn(s, f, s.disk[path]) && FileOk(w, s, f);
      }
    }
    QuietStep(s, n);
  }

  lemma ReadBounded(w: World, s: State, f: nat)
    requires Inv(w, s) && Bounded(s) && Enabled(w, s, Read(f))
    ensures Bounded(ReadFile(w, s, f))
  {
    var n := ReadFile(w, s, f);
    forall d | d in s.trail && IsDangling(n, d) ensures IsDangling(s, d) {
      OldPass(s, d);
      if d.file == f {
        assert FileOk(w, s, f);
      }
    }
    QuietStep(s, n);
  }

  lemma CommitBounded(w: World, s: State)
    requires Inv(w, s) && Standing(s) && Bounded(s) && Enabled(w, s, Commit)
    ensures Bounded(Apply(w, s, Commit))
  {
    var n := Apply(w, s, Commit);
    var f := s.work.file;
    forall d | d in s.trail && IsDangling(n, d) ensures IsDangling(s, d) {
      if d.file == f {
        assert FileOk(w, s, f);
        Unfold(s.work.base, s.db.logs.files[f].offset);
        OnlyNextIsUncommitted(s, d);
        assert false;
      }
    }
    QuietStep(s, n);
  }

  /** Storing a line again takes one dangling line off the books. */
  lemma StoreBounded(w: World, s: State, n: State)
    requires Inv(w, s) && Bounded(s) && AtLine(s) && s.work.file in s.db.logs.files
    requires s.work.stage.Counted? && AfterStore(s, n) && n.cuts == s.cuts
    ensures Bounded(n)
  {
    var d := n.trail[|s.trail|];
    assert n.trail[..|s.trail|] == s.trail;
    InHandIsNext(w, s);
    hide Inv;
    assert forall e :: e in Dangling(n) ==> e in Dangling(s) && e != d;
    if d in s.trail {
      assert d in Dangling(s);
      SubsetSize(Dangling(n), Dangling(s) - {d});
    } else {
      SubsetSize(Dangling(n), Dangling(s));
    }
  }

  /** An interruption leaves at most one more line dangling: the one in hand. */
  lemma CutBounded(w: World, s: State)
    requires Inv(w, s) && Standing(s) && Bounded(s)
    ensures Bounded(Apply(w, s, Cut))
  {
    var n := Apply(w, s, Cut);
    if s.work.Busy? && s.work.stage.Stored? && s.work.file in s.db.logs.files {
      var f := s.work.file;
      var x := Origin(f, s.seen[f].gen, s.seen[f].pass, s.work.lines[0]);
      assert FileOk(w, s, f);
      forall d | d in Dangling(n) ensures d in Dangling(s) + {x} {
        if d.file == f {
          OldPass(s, d);
          OnlyNextIsUncommitted(s, d);
        }
      }
      SubsetSize(Dangling(n), Dangling(s) + {x});
    } else {
      SubsetSize(Dangling(n), Dangling(s));
    }
  }

  lemma OthersBounded(w: World, s: State, step: Step)
    requires Inv(w, s) && Bounded(s) && Enabled(w, s, step)
    requires !step.Refresh? && !step.Read? && !step.Commit? && !step.StoreEvent? && !step.Cut?
    ensures Bounded(Apply(w, s, step))
  {
    QuietStep(s, Apply(w, s, step));
  }

  lemma StepBounded(w: World, s: State, step: Step)
    requires Inv(w, s) && Standing(s) && Bounded(s)
    ensures Bounded(Next(w, s, step))
  {
    hide EventIndex.Store, Bounded, Inv, Standing, LineEntry;
    if Enabled(w, s, step) {
      match step
      case Refresh(file, log, path, service) => RefreshBounded(w, s, file, log, path, service);
      case Read(file) => ReadBounded(w, s, file);
      case Commit => CommitBounded(w, s);
      case StoreEvent(at, dayStart, hourStart) => StoreBounded(w, s, Apply(w, s, step));
      case Cut => CutBounded(w, s);
      case _ => OthersBounded(w, s, step);
    }
  }

  /** Over every run, the occurrences stored again in their pass number at most the interruptions. */
  lemma {:induction false} RepeatsAreBounded(w: World, steps: seq<Step>)
    ensures Bounded(Run(w, INIT, steps))
    ensures RepeatCount(Run(w, INIT, steps).trail) <= Run(w, INIT, steps).cuts
  {
    if steps != [] {
      var init := steps[..|steps| - 1];
      RepeatsAreBounded(w, init);
      RunKeeps(w, INIT, init);
      RunStands(w, init);
      StepBounded(w, Run(w, INIT, init), steps[|steps| - 1]);
    }
  }
}
