/** What whole runs leave alone: which paths and logs were there all along, and how the files have grown. */
module Runs {
  import opened Delivery
  import opened LogTables
  import opened Pipeline

  /** `b` is reached from `a` by some run. */
  ghost predicate Leads(w: World, a: State, b: State) {
    exists steps: seq<Step> :: Run(w, a, steps) == b
  }

  lemma LeadsNowhere(w: World, a: State)
    ensures Leads(w, a, a)
  {
    assert Run(w, a, []) == a;
  }

  lemma RunOn(w: World, a: State, steps: seq<Step>, step: Step)
    ensures Run(w, a, steps + [step]) == Next(w, Run(w, a, steps), step)
  {
    assert (steps + [step])[..|steps|] == steps;
  }

  lemma LeadsOn(w: World, a: State, b: State, steps: seq<Step>)
    requires Leads(w, a, b)
    ensures Leads(w, a, Run(w, b, steps))
  {
    var first: seq<Step> :| Run(w, a, first) == b;
    RunConcat(w, a, first, steps);
    assert Run(w, a, first + steps) == Run(w, b, steps);
  }

  /** The paths on disk in every state of a run. */
  ghost function Stayed(w: World, a: State, steps: seq<Step>): set<string> {
    if steps == [] then a.disk.Keys else Stayed(w, a, steps[..|steps| - 1]) * Run(w, a, steps).disk.Keys
  }

  /** The logs watched in every state of a run. */
  ghost function Kept(w: World, a: State, steps: seq<Step>): set<nat> {
    if steps == [] then a.db.logs.watched.Keys
    else Kept(w, a, steps[..|steps| - 1]) * Run(w, a, steps).db.logs.watched.Keys
  }

  lemma StayedOn(w: World, a: State, steps: seq<Step>, step: Step)
    ensures Stayed(w, a, steps + [step]) == Stayed(w, a, steps) * Next(w, Run(w, a, steps), step).disk.Keys
    ensures Kept(w, a, steps + [step]) == Kept(w, a, steps) * Next(w, Run(w, a, steps), step).db.logs.watched.Keys
  {
    assert (steps + [step])[..|steps|] == steps;
    RunOn(w, a, steps, step);
  }

  lemma {:induction false} StayedWithin(w: World, a: State, steps: seq<Step>)
    ensures Stayed(w, a, steps) <= a.disk.Keys && Stayed(w, a, steps) <= Run(w, a, steps).disk.Keys
    ensures Kept(w, a, steps) <= a.db.logs.watched.Keys && Kept(w, a, steps) <= Run(w, a, steps).db.logs.watched.Keys
  {
    if steps != [] { StayedWithin(w, a, steps[..|steps| - 1]); }
  }

  /** A watched log's path is never changed, nor is it disabled. */
  predicate SameLog(a: WatchedLog, b: WatchedLog) {
    b.path == a.path && (a.enabled ==> b.enabled)
  }

  lemma StepKeepsLog(w: World, s: State, step: Step, id: nat)
    requires WellFormed(s.db.logs) && id in s.db.logs.watched && id in Next(w, s, step).db.logs.watched
    ensures SameLog(s.db.logs.watched[id], Next(w, s, step).db.logs.watched[id])
  {
  }

  lemma {:induction false} KeptLogs(w: World, a: State, steps: seq<Step>)
    requires Inv(w, a)
    ensures forall id :: id in Kept(w, a, steps) ==>
      && id in a.db.logs.watched && id in Run(w, a, steps).db.logs.watched
      && SameLog(a.db.logs.watched[id], Run(w, a, steps).db.logs.watched[id])
  {
    if steps != [] {
      var init := steps[..|steps| - 1];
      KeptLogs(w, a, init);
      RunKeeps(w, a, init);
      forall id | id in Kept(w, a, steps)
        ensures SameLog(Run(w, a, init).db.logs.watched[id], Run(w, a, steps).db.logs.watched[id])
      {
        StepKeepsLog(w, Run(w, a, init), steps[|steps| - 1], id);
      }
    }
  }

  // ---- Files only grow, or give way to later ones ----

  /** What is at a path now was there before, no longer than now, or came later. */
  predicate Grown(a: State, b: State) {
    && a.nextGen <= b.nextGen
    && forall p :: p in b.disk ==> GrownAt(a, b, p)
  }

  predicate GrownAt(a: State, b: State, p: string)
    requires p in b.disk
  {
    if p in a.disk && a.disk[p].gen == b.disk[p].gen then a.disk[p].bytes <= b.disk[p].bytes
    else b.disk[p].gen >= a.nextGen
  }

  lemma StepGrows(w: World, s: State, step: Step)
    requires Numbered(s)
    ensures Grown(s, Next(w, s, step))
  {
  }

  lemma GrownOn(a: State, b: State, c: State)
    requires Grown(a, b) && Grown(b, c) && forall p :: p in a.disk ==> a.disk[p].gen < a.nextGen
    ensures Grown(a, c)
  {
    forall p | p in c.disk ensures GrownAt(a, c, p) {
      assert GrownAt(b, c, p);
      if p in b.disk { assert GrownAt(a, b, p); }
    }
  }

  lemma {:induction false} RunGrows(w: World, a: State, steps: seq<Step>)
    requires Inv(w, a)
    ensures Grown(a, Run(w, a, steps))
  {
    if steps != [] {
      var init := steps[..|steps| - 1];
      RunGrows(w, a, init);
      RunKeeps(w, a, init);
      StepGrows(w, Run(w, a, init), steps[|steps| - 1]);
      GrownOn(a, Run(w, a, init), Run(w, a, steps));
    }
  }
}
