/** What a finished cycle has delivered. */
module Coverage {
  import opened Delivery
  import opened Files
  import opened LogTables
  import opened Machine
  import opened Pipeline
  import opened Processor
  import opened Reader
  import opened Runs
  import F = Fingerprint
  import Database
  import Grouping
  import Rules
  import Standings

  /** The lines stored in the file's present pass, adjacent repeats apart, are exactly the worthy complete lines of what
      was read of it, from where the pass began, in order. */
  predicate AllStored(w: World, s: State, f: nat)
    requires Covered(s, f)
  {
    var seen := s.seen[f];
    Collapsed(Mine(s.trail, f, seen.pass)) == WorthyLines(w, ServiceOf(s.db.logs, f), LinesFrom(seen.bytes, seen.start))
  }

  /** Once no complete line is left past its offset, everything of a file is stored, and nothing else of it. */
  lemma DrainedIsDelivered(w: World, s: State, f: nat)
    requires Inv(w, s) && Covered(s, f) && LinesFrom(s.seen[f].bytes, s.db.logs.files[f].offset) == []
    ensures AllStored(w, s, f)
  {
    var seen, offset := s.seen[f], s.db.logs.files[f].offset;
    assert FileOk(w, s, f) && Delivered(w, s, f);
    if offset <= |seen.bytes| {
      SplitAt(seen.bytes, seen.start, offset);
      assert LinesFrom(seen.bytes[..offset], seen.start) + [] == LinesFrom(seen.bytes[..offset], seen.start);
    }
  }

  /** Whatever services the log was given: every complete line of what was read of the file, from where its pass began,
      was committed, once and in order; those stored are some of them, in order, adjacent repeats apart; and those
      raised when they were committed are among them. */
  predicate AllJudged(s: State, f: nat)
    requires f in s.seen
  {
    var seen := s.seen[f];
    var lines, stored := LinesFrom(seen.bytes, seen.start), Mine(s.trail, f, seen.pass);
    && Standings.JudgedIn(s.judged, f, seen.pass) == lines && Standings.Subsequence(Collapsed(stored), lines)
    && forall j :: j in s.judged && j.raised && j.origin.file == f && j.origin.pass == seen.pass ==>
         j.origin.line in stored
  }

  lemma DrainedIsJudged(s: State, f: nat)
    requires f in s.db.logs.files && Standings.Stands(s, f) && Standings.RaisedAreStored(s)
    requires LinesFrom(s.seen[f].bytes, s.db.logs.files[f].offset) == []
    ensures AllJudged(s, f)
  {
    var seen, offset := s.seen[f], s.db.logs.files[f].offset;
    var lines, before := LinesFrom(seen.bytes, seen.start), Standings.Before(seen.bytes, seen.start, offset);
    Standings.StandingMeans(s, f);
    AllBefore(seen.bytes, seen.start, offset);
    hide LinesFrom, Collapsed, Mine, Standings.Before, Standings.JudgedIn, Standings.Subsequence, Standings.Rising;
    assert before + Standings.Following(seen.bytes, offset) == lines;
  }

  lemma AllBefore(bytes: string, start: nat, offset: nat)
    requires Stop(bytes, start, offset) && LinesFrom(bytes, offset) == []
    ensures Standings.Before(bytes, start, offset) == LinesFrom(bytes, start)
  {
    if offset <= |bytes| { SplitAt(bytes, start, offset); }
  }

  lemma {:induction false} WorthyPrefix(w: World, service: string, ls: seq<Line>, more: seq<Line>)
    requires ls <= more
    ensures WorthyLines(w, service, ls) <= WorthyLines(w, service, more)
    decreases |more|
  {
    if |ls| < |more| {
      WorthyPrefix(w, service, ls, more[..|more| - 1]);
    } else {
      assert ls == more;
    }
  }

  /** Every worthy line that was complete at the path, from where the file's pass began, is stored, in order. */
  predicate HasStored(w: World, a: State, s: State, path: string, f: nat)
    requires Covered(s, f) && path in a.disk
  {
    WorthyLines(w, ServiceOf(s.db.logs, f), LinesFrom(a.disk[path].bytes, s.seen[f].start))
      <= Collapsed(Mine(s.trail, f, s.seen[f].pass))
  }

  /** What was at the path at `a` is stored, if the file there has not given way to another since. */
  lemma SettledHasStored(w: World, a: State, s: State, log: nat, path: string, f: nat)
    requires Inv(w, s) && Settled(a, s, log, path, f) && Covered(s, f)
    ensures AllStored(w, s, f)
    ensures path in a.disk && a.disk[path].gen == s.seen[f].gen ==> HasStored(w, a, s, path, f)
  {
    DrainedIsDelivered(w, s, f);
    if path in a.disk && a.disk[path].gen == s.seen[f].gen {
      var bytes, seen := a.disk[path].bytes, s.seen[f];
      assert bytes + seen.bytes[|bytes|..] == seen.bytes;
      AppendExtends(bytes, seen.bytes[|bytes|..], seen.start);
      WorthyPrefix(w, ServiceOf(s.db.logs, f), LinesFrom(bytes, seen.start), LinesFrom(seen.bytes, seen.start));
    }
  }

  /** So after a cycle that succeeded, from any state `a` of any run, whatever writers and handlers did during it: for
      every log enabled and watched all along, and every path it stands for that was there all along, the log has a file
      at that path; what was read of it is no less than what was there when the cycle began; every line of that was
      judged, once; and the stored lines, unless the pass is excused, are exactly the worthy ones. */
  lemma FinishedCycleHasDelivered(w: World, before: seq<Step>, past: Past, globs: (string, string) -> bool, log: nat,
                                  path: string) returns (f: nat)
    requires var a := Run(w, INIT, before);
      var s := Run(w, a, past.steps);
      && PastOf(w, a, past, s) && CycleDone(a, s, past, globs)
      && log in past.kept && log in a.db.logs.watched && a.db.logs.watched[log].enabled
      && path in past.stayed && Stands(globs, a.db.logs.watched[log].path, path)
    ensures var a := Run(w, INIT, before);
      var s := Run(w, a, past.steps);
      && path in a.disk && path in s.disk && Settled(a, s, log, path, f) && AllJudged(s, f)
      && (Covered(s, f) ==> AllStored(w, s, f) && (a.disk[path].gen == s.seen[f].gen ==> HasStored(w, a, s, path, f)))
  {
    var a := Run(w, INIT, before);
    var s := Run(w, a, past.steps);
    RunKeeps(w, INIT, before);
    RunKeeps(w, a, past.steps);
    StayedWithin(w, a, past.steps);
    assert PathDone(a, s, log, path);
    f :| f in s.db.logs.files && Settled(a, s, log, path, f);
    RunConcat(w, INIT, before, past.steps);
    Standings.RunStands(w, before + past.steps);
    assert Standings.Stands(s, f);
    DrainedIsJudged(s, f);
    if Covered(s, f) { SettledHasStored(w, a, s, log, path, f); }
  }

  // ---- There is such a machine ----

  /** Whatever the rules and the hash, some machine has these rules, these keys and the clock's stamps: what the
      program asks of its machine, and what the theorems about runs ask. */
  lemma SomeWorld(p: Rules.Patterns, rules: seq<Rules.Rule>, hash: string -> string) returns (w: World)
    ensures Ruled(p, rules, w) && Keys(hash, w) && Stamping(w)
    ensures Grouping.ByFingerprint(w, hash) && Grouping.ByClock(w)
  {
    w := World((service, text) => VerdictFor(Rules.Decide(p, rules, Context(service, text))),
               (service, text) => F.Fingerprint(hash, service, text), t => Grouping.Ticked(t));
    forall o: Database.Occurrence, r: Database.Readings ensures w.stamps(Database.StampOf(o, r)) {
      StampTicks(o, r);
    }
  }

  lemma StampTicks(o: Database.Occurrence, r: Database.Readings)
    ensures Grouping.Ticked(Database.StampOf(o, r))
  {
    var at := if o.at.Some? then o.at.value else r.now;
    assert Database.StampOf(o, r) == Grouping.TickAt(at, r.midnight, r.counted);
  }
}
