/** Where the processor stands in every pass, whatever services its log is given meanwhile: which lines it has
    committed, and which it can have stored. */
module Standings {
  import opened Delivery
  import opened LogTables
  import opened Pipeline
  import opened Reader
  import EventIndex

  /** The complete lines from where the pass began up to the committed offset. */
  function Before(bytes: string, start: nat, offset: nat): seq<Line> {
    if offset <= |bytes| then LinesFrom(bytes[..offset], start) else []
  }

  /** The line that starts at the offset, if it is complete. */
  function Following(bytes: string, offset: nat): seq<Line> {
    var next := LinesFrom(bytes, offset);
    if next == [] then [] else [next[0]]
  }

  /** The lines of one pass whose ends were committed, in that order. */
  function JudgedIn(judged: seq<Judged>, file: nat, pass: nat): seq<Line> {
    if judged == [] then [] else
      var n := |judged| - 1;
      var d := judged[n].origin;
      JudgedIn(judged[..n], file, pass) + if d.file == file && d.pass == pass then [d.line] else []
  }

  predicate Rising(ls: seq<Line>) {
    forall i, j :: 0 <= i < j < |ls| ==> ls[i].end < ls[j].end
  }

  /** Each line up to the offset was committed once, in order; and no other line was stored but at most the next,
      and that in order, adjacent repeats apart. */
  predicate StandsAt(stored: seq<Line>, done: seq<Line>, bytes: string, start: nat, offset: nat) {
    && Stop(bytes, start, offset) && done == Before(bytes, start, offset)
    && Rising(Collapsed(stored))
    && forall l :: l in stored ==> l in Before(bytes, start, offset) || l in Following(bytes, offset)
  }

  predicate Stands(s: State, f: nat)
    requires f in s.db.logs.files
  {
    && f in s.seen
    && var seen := s.seen[f];
       StandsAt(Mine(s.trail, f, seen.pass), JudgedIn(s.judged, f, seen.pass), seen.bytes, seen.start,
                s.db.logs.files[f].offset)
  }

  predicate AllStand(s: State) {
    forall f :: f in s.db.logs.files ==> Stands(s, f)
  }

  /** What was raised when its end was committed had been stored, and so has the line in hand at that stage. */
  predicate RaisedAreStored(s: State) {
    && (forall j :: j in s.judged && j.raised ==> j.origin in s.trail)
    && (AtLine(s) && s.work.stage.Stored? && s.work.file in s.db.logs.files ==> OriginOf(s) in s.trail)
  }

  predicate KnownJudged(s: State) {
    forall j :: j in s.judged ==> j.origin.file in s.seen && j.origin.pass <= s.seen[j.origin.file].pass
  }

  predicate Standing(s: State) {
    AllStand(s) && RaisedAreStored(s) && KnownJudged(s)
  }

  // ---- Small facts ----

  lemma {:induction false} CollapsedIn(ls: seq<Line>)
    ensures forall l :: l in Collapsed(ls) ==> l in ls
  {
    if |ls| >= 2 { CollapsedIn(ls[..|ls| - 1]); }
  }

  lemma JudgedAppend(judged: seq<Judged>, j: Judged, file: nat, pass: nat)
    ensures JudgedIn(judged + [j], file, pass) ==
      JudgedIn(judged, file, pass) + if j.origin.file == file && j.origin.pass == pass then [j.origin.line] else []
  {
    assert (judged + [j])[..|judged|] == judged;
  }

  lemma {:induction false} JudgedNone(judged: seq<Judged>, file: nat, pass: nat)
    requires forall j :: j in judged ==> j.origin.file != file || j.origin.pass < pass
    ensures JudgedIn(judged, file, pass) == []
  {
    if judged != [] {
      assert judged[|judged| - 1] in judged;
      JudgedNone(judged[..|judged| - 1], file, pass);
    }
  }

  lemma BeforeEnds(bytes: string, start: nat, offset: nat)
    ensures forall l :: l in Before(bytes, start, offset) ==> start < l.end <= offset
  {
    if offset <= |bytes| { LinesEndBetween(bytes, start, offset); }
  }

  lemma FreshStands(bytes: string, start: nat)
    ensures StandsAt([], [], bytes, start, start)
  {
    if start <= |bytes| { FoldEmpty(bytes[..start], start); }
  }

  lemma GrownStands(stored: seq<Line>, done: seq<Line>, bytes: string, more: string, start: nat, offset: nat)
    requires StandsAt(stored, done, bytes, start, offset) && bytes <= more
    ensures StandsAt(stored, done, more, start, offset)
  {
    assert more == bytes + more[|bytes|..];
    AppendExtends(bytes, more[|bytes|..], offset);
    if offset <= |bytes| {
      assert more[..offset] == bytes[..offset];
    } else {
      FreshStands(more, start);
    }
  }

  lemma StillRising(stored: seq<Line>, l: Line)
    requires Rising(Collapsed(stored)) && forall k :: k in stored ==> k == l || k.end < l.end
    ensures Rising(Collapsed(stored + [l]))
  {
    var c := Collapsed(stored);
    CollapsedIn(stored);
    CollapsedAppend(stored, l);
    hide Collapsed;
    if c != [] && c[|c| - 1] != l {
      assert c[|c| - 1] in c;
      assert forall i :: 0 <= i < |c| ==> c[i].end <= c[|c| - 1].end;
    }
  }

  lemma StoreStands(stored: seq<Line>, done: seq<Line>, bytes: string, start: nat, offset: nat)
    requires StandsAt(stored, done, bytes, start, offset) && LinesFrom(bytes, offset) != []
    ensures StandsAt(stored + [LinesFrom(bytes, offset)[0]], done, bytes, start, offset)
  {
    var l := LinesFrom(bytes, offset)[0];
    Unfold(bytes, offset);
    BeforeEnds(bytes, start, offset);
    hide LinesFrom, Before, LineAt, Rising;
    StillRising(stored, l);
  }

  lemma CommitStands(stored: seq<Line>, done: seq<Line>, bytes: string, start: nat, offset: nat)
    requires StandsAt(stored, done, bytes, start, offset) && LinesFrom(bytes, offset) != []
    ensures var l := LinesFrom(bytes, offset)[0]; StandsAt(stored, done + [l], bytes, start, l.end)
  {
    Unfold(bytes, offset);
    BeforeNext(bytes, start, offset);
    hide LinesFrom, Collapsed, LineAt;
  }

  // ---- Every step ----

  /** Steps that leave rows, stored and committed lines and what was seen of the files alone, or take rows away. */
  lemma SameStands(s: State, n: State)
    requires Standing(s) && n.trail == s.trail && n.judged == s.judged && n.seen == s.seen
    requires forall f :: f in n.db.logs.files ==> f in s.db.logs.files && n.db.logs.files[f] == s.db.logs.files[f]
    requires n.work.Busy? ==>
      s.work.Busy? && n.work.(stage := s.work.stage) == s.work && (n.work.stage.Stored? ==> n.work == s.work)
    ensures Standing(n)
  {
    forall f | f in n.db.logs.files ensures Stands(n, f) { assert Stands(s, f); }
  }

  /** A file whose pass goes on over more bytes, or that begins a new one. */
  lemma MovedStands(s: State, n: State, f: nat)
    requires Standing(s) && Numbered(s) && n.trail == s.trail && n.judged == s.judged
    requires f in n.db.logs.files && f in n.seen
    requires
      || (n.seen[f].pass == s.nextPass && n.seen[f].start == n.db.logs.files[f].offset)
      || (f in s.db.logs.files && f in s.seen && n.seen[f] == s.seen[f].(bytes := n.seen[f].bytes)
          && s.seen[f].bytes <= n.seen[f].bytes && n.db.logs.files[f].offset == s.db.logs.files[f].offset)
    ensures Stands(n, f)
  {
    var seen, offset := n.seen[f], n.db.logs.files[f].offset;
    if seen.pass == s.nextPass {
      NoStoredLines(s, f);
      JudgedNone(s.judged, f, s.nextPass);
      FreshStands(seen.bytes, seen.start);
    } else {
      assert Stands(s, f);
      GrownStands(Mine(s.trail, f, seen.pass), JudgedIn(s.judged, f, seen.pass), s.seen[f].bytes, seen.bytes,
                  seen.start, offset);
    }
  }

  lemma RefreshStands(w: World, s: State, f: nat, log: nat, path: string, service: string)
    requires Inv(w, s) && Standing(s) && Enabled(w, s, Refresh(f, log, path, service))
    ensures Standing(Refreshed(w, s, f, log, path, service))
  {
    hide StandsAt, Mine, JudgedIn;
    var n := Refreshed(w, s, f, log, path, service);
    if f in s.db.logs.files { assert FileOk(w, s, f); }
    MovedStands(s, n, f);
    forall g | g in n.db.logs.files ensures Stands(n, g) {
      if g != f { assert Stands(s, g); }
    }
  }

  lemma ReadStands(w: World, s: State, f: nat)
    requires Inv(w, s) && Standing(s) && Enabled(w, s, Read(f))
    ensures Standing(ReadFile(w, s, f))
  {
    hide StandsAt, Mine, JudgedIn;
    var n := ReadFile(w, s, f);
    if f in s.db.logs.files {
      assert FileOk(w, s, f);
      MovedStands(s, n, f);
    }
    forall g | g in n.db.logs.files ensures Stands(n, g) {
      if g != f { assert Stands(s, g); }
    }
  }

  lemma StoredStands(w: World, s: State, n: State)
    requires Inv(w, s) && Standing(s) && AtLine(s) && s.work.file in s.db.logs.files && AfterStore(s, n)
    ensures Standing(n)
  {
    hide StandsAt, Mine, JudgedIn;
    var f := s.work.file;
    assert FileOk(w, s, f);
    forall g | g in n.db.logs.files ensures Stands(n, g) {
      assert Stands(s, g);
      var seen := s.seen[g];
      MineAppend(s.trail, OriginOf(s), g, seen.pass);
      if g == f {
        StoreStands(Mine(s.trail, g, seen.pass), JudgedIn(s.judged, g, seen.pass), seen.bytes, seen.start,
                    s.db.logs.files[g].offset);
      } else {
        assert Mine(n.trail, g, seen.pass) == Mine(s.trail, g, seen.pass);
      }
    }
  }

  lemma CommittedFile(w: World, s: State, g: nat)
    requires Enabled(w, s, Commit) && FileOk(w, s, s.work.file) && g in s.db.logs.files && Stands(s, g)
    ensures Stands(Apply(w, s, Commit), g)
  {
    hide StandsAt, Mine, JudgedIn;
    var j, seen := Judged(OriginOf(s), VerdictOf(w, s.work).Raised?), s.seen[g];
    JudgedAppend(s.judged, j, g, seen.pass);
    if g == s.work.file {
      CommitStands(Mine(s.trail, g, seen.pass), JudgedIn(s.judged, g, seen.pass), seen.bytes, seen.start,
                   s.db.logs.files[g].offset);
    } else {
      assert JudgedIn(s.judged + [j], g, seen.pass) == JudgedIn(s.judged, g, seen.pass);
    }
  }

  lemma CommittedStands(w: World, s: State)
    requires Inv(w, s) && Standing(s) && Enabled(w, s, Commit)
    ensures Standing(Apply(w, s, Commit))
  {
    var n := Apply(w, s, Commit);
    assert FileOk(w, s, s.work.file);
    forall g | g in n.db.logs.files ensures Stands(n, g) {
      assert Stands(s, g);
      CommittedFile(w, s, g);
    }
  }

  lemma OthersStand(w: World, s: State, step: Step)
    requires Standing(s) && Enabled(w, s, step)
    requires !step.Refresh? && !step.Read? && !step.Commit? && !step.StoreEvent?
    ensures Standing(Apply(w, s, step))
  {
    SameStands(s, Apply(w, s, step));
  }

  lemma StepStands(w: World, s: State, step: Step)
    requires Inv(w, s) && Standing(s)
    ensures Standing(Next(w, s, step))
  {
    hide EventIndex.Store, Standing, Inv, LineEntry;
    if Enabled(w, s, step) {
      match step
      case Refresh(file, log, path, service) => RefreshStands(w, s, file, log, path, service);
      case Read(file) => ReadStands(w, s, file);
      case Commit => CommittedStands(w, s);
      case StoreEvent(_, _, _) => StoredStands(w, s, Apply(w, s, step));
      case _ => OthersStand(w, s, step);
    }
  }

  lemma {:induction false} RunStands(w: World, steps: seq<Step>)
    ensures Standing(Run(w, INIT, steps))
  {
    if steps != [] {
      var init := steps[..|steps| - 1];
      RunStands(w, init);
      RunKeeps(w, INIT, init);
      StepStands(w, Run(w, INIT, init), steps[|steps| - 1]);
    }
  }

  // ---- Over every run ----

  /** `a` is `b` with some elements left out. */
  predicate Subsequence<T(==)>(a: seq<T>, b: seq<T>) {
    if a == [] then true
    else if b == [] then false
    else if a[|a| - 1] == b[|b| - 1] then Subsequence(a[..|a| - 1], b[..|b| - 1])
    else Subsequence(a, b[..|b| - 1])
  }

  lemma {:induction false} RisingWithin(a: seq<Line>, b: seq<Line>)
    requires Rising(a) && Rising(b) && forall l :: l in a ==> l in b
    ensures Subsequence(a, b)
    decreases |b|
  {
    if a != [] {
      var m, n := |a| - 1, |b| - 1;
      assert a[m] in b;
      if a[m] == b[n] {
        forall l | l in a[..m] ensures l in b[..n] {
          var i :| 0 <= i < m && a[i] == l;
          assert l in b && l != b[n];
        }
        RisingWithin(a[..m], b[..n]);
      } else {
        var k :| 0 <= k < n && b[k] == a[m];
        forall l | l in a ensures l in b[..n] {
          var i :| 0 <= i < |a| && a[i] == l;
          assert l in b && l.end <= b[k].end;
        }
        RisingWithin(a, b[..n]);
      }
    }
  }

  lemma {:induction false} LinesRise(bytes: string, from: nat)
    ensures Rising(LinesFrom(bytes, from))
    decreases |bytes| - from
  {
    Unfold(bytes, from);
    var ls := LinesFrom(bytes, from);
    if ls != [] {
      LinesRise(bytes, ls[0].end);
      assert bytes[..|bytes|] == bytes;
      LinesEndBetween(bytes, ls[0].end, |bytes|);
      forall i, j | 0 <= i < j < |ls| ensures ls[i].end < ls[j].end {
        assert ls[j] in ls[1..];
        if i > 0 { assert ls[1..][i - 1] == ls[i] && ls[1..][j - 1] == ls[j]; }
      }
    }
  }

  /** What was committed and stored in a tracked file's present pass, in every run, whatever services its log was given:
      every complete line from its start up to the offset was committed, once and in order; of these and the next, those
      stored are some, in order, adjacent repeats apart; and those raised when they were committed are among them. */
  lemma EveryRunStands(w: World, steps: seq<Step>, f: nat)
    requires f in Run(w, INIT, steps).db.logs.files
    ensures var s := Run(w, INIT, steps);
      && f in s.seen
      && var seen, offset := s.seen[f], s.db.logs.files[f].offset;
         var stored := Mine(s.trail, f, seen.pass);
         && Stop(seen.bytes, seen.start, offset)
         && JudgedIn(s.judged, f, seen.pass) == Before(seen.bytes, seen.start, offset)
         && Subsequence(Collapsed(stored), Before(seen.bytes, seen.start, offset) + Following(seen.bytes, offset))
         && forall j :: j in s.judged && j.raised && j.origin.file == f && j.origin.pass == seen.pass ==>
              j.origin.line in stored
  {
    RunStands(w, steps);
    var s := Run(w, INIT, steps);
    assert Stands(s, f);
    StandingMeans(s, f);
  }

  lemma StandingMeans(s: State, f: nat)
    requires f in s.db.logs.files && Stands(s, f) && RaisedAreStored(s)
    ensures var seen, offset := s.seen[f], s.db.logs.files[f].offset;
      var stored := Mine(s.trail, f, seen.pass);
      && Subsequence(Collapsed(stored), Before(seen.bytes, seen.start, offset) + Following(seen.bytes, offset))
      && forall j :: j in s.judged && j.raised && j.origin.file == f && j.origin.pass == seen.pass ==>
           j.origin.line in stored
  {
    var seen, offset := s.seen[f], s.db.logs.files[f].offset;
    var stored := Mine(s.trail, f, seen.pass);
    var before, next := Before(seen.bytes, seen.start, offset), Following(seen.bytes, offset);
    CollapsedIn(stored);
    if offset <= |seen.bytes| { LinesRise(seen.bytes[..offset], seen.start); }
    BeforeEnds(seen.bytes, seen.start, offset);
    Unfold(seen.bytes, offset);
    assert Rising(before + next);
    RisingWithin(Collapsed(stored), before + next);
    forall j | j in s.judged && j.raised && j.origin.file == f && j.origin.pass == seen.pass
      ensures j.origin.line in stored
    {
      MineHas(s.trail, j.origin);
    }
  }
}
