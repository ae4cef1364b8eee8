/** One program polls after each append to a file, another once after all of them: both end with the same tables, times
    apart. */
module Schedules {
  import opened Batches
  import opened Database
  import opened Fates
  import opened Files
  import opened LogTables
  import opened Machine
  import opened Options
  import opened Pipeline
  import opened Processor
  import opened Rules
  import opened Strings
  import Coverage
  import Runs

  /** A processor between two cycles, whose one enabled log stands for the one file, which holds these bytes. */
  ghost predicate Ready(p: Processor, t: Tail, bytes: string)
    reads p, p.host, p.host.db
  {
    && p.Valid() && GivenUp(p.host.s) && !p.host.quiet && OneFile(p.host.s, p.host.globs, t, bytes)
    && Ruled(p.patterns, p.rules, p.host.w) && RuleIds(p.rules)
    && AllCompile(p.patterns, p.rules) && EnabledOnly(p.rules) != []
  }

  function Whole(bytes: string, chunks: seq<string>): string {
    if chunks == [] then bytes else Whole(bytes, chunks[..|chunks| - 1]) + chunks[|chunks| - 1]
  }

  /** What the file holds after each chunk. */
  function Contents(bytes: string, chunks: seq<string>): (contents: seq<string>)
    ensures |contents| == |chunks|
  {
    if chunks == [] then [] else Contents(bytes, chunks[..|chunks| - 1]) + [Whole(bytes, chunks)]
  }

  lemma {:induction false} ContentsGrow(bytes: string, chunks: seq<string>)
    ensures Growing(Contents(bytes, chunks))
    ensures forall i :: 0 <= i < |chunks| ==> bytes <= Contents(bytes, chunks)[i] <= Whole(bytes, chunks)
    ensures bytes <= Whole(bytes, chunks)
  {
    if chunks != [] { ContentsGrow(bytes, chunks[..|chunks| - 1]); }
  }

  /** A program writes to the log. */
  method Write(p: Processor, t: Tail, more: string, ghost bytes: string)
    requires Ready(p, t, bytes)
    modifies p.host`disk, p.host`s, p.host`past
    ensures Ready(p, t, bytes + more) && p.host.s.db == old(p.host.s.db)
  {
    hide Runs.Leads, PastOf, Ruled, AllCompile, Keys, Stamping;
    p.host.Append(t.path, more);
    assert Expansion(p.host.s.disk, p.host.globs, p.host.s.db.logs.watched[t.log].path) ==
      old(Expansion(p.host.s.disk, p.host.globs, p.host.s.db.logs.watched[t.log].path));
  }

  /** One cycle during which nobody else acts. */
  method Poll(p: Processor, t: Tail, ghost bytes: string)
    requires Ready(p, t, bytes)
    modifies p.host`quiet, p.host`disk, p.host`nextGen, p.host`s, p.host`began, p.host`past, p.db
    ensures Ready(p, t, bytes) && PolledAs(p.host.w, t, bytes, old(p.host.s.db), p.host.s.db)
  {
    hide Runs.Leads, PastOf, Ruled, AllCompile, Keys, Stamping, PolledAs, SolePolled, CycleDone;
    p.host.Settle(true);
    var result, ok := p.RunCycle();
    CyclePolls(p.host.w, old(p.host.s), p.host.globs, t, bytes, p.host.s.db);
    p.host.Settle(false);
  }

  /** A cycle after each chunk. */
  method PollEach(p: Processor, t: Tail, chunks: seq<string>, ghost bytes: string) returns (ghost dbs: seq<Db>)
    requires Ready(p, t, bytes)
    modifies p.host`quiet, p.host`disk, p.host`nextGen, p.host`s, p.host`began, p.host`past, p.db
    ensures Ready(p, t, Whole(bytes, chunks)) && PolledEach(p.host.w, t, Contents(bytes, chunks), dbs)
    ensures dbs[0] == old(p.host.s.db) && dbs[|chunks|] == p.host.s.db
  {
    hide Ready, PolledAs;
    dbs := [p.host.s.db];
    for i := 0 to |chunks|
      invariant Ready(p, t, Whole(bytes, chunks[..i]))
      invariant PolledEach(p.host.w, t, Contents(bytes, chunks[..i]), dbs)
      invariant dbs[0] == old(p.host.s.db) && dbs[i] == p.host.s.db
    {
      assert chunks[..i + 1][..i] == chunks[..i];
      Write(p, t, chunks[i], Whole(bytes, chunks[..i]));
      Poll(p, t, Whole(bytes, chunks[..i + 1]));
      EachOn(p.host.w, t, Contents(bytes, chunks[..i]), dbs, Whole(bytes, chunks[..i + 1]), p.host.s.db);
      dbs := dbs + [p.host.s.db];
    }
    assert chunks[..|chunks|] == chunks;
  }

  lemma EachOn(w: World, t: Tail, contents: seq<string>, dbs: seq<Db>, bytes: string, db: Db)
    requires PolledEach(w, t, contents, dbs) && PolledAs(w, t, bytes, dbs[|contents|], db)
    ensures PolledEach(w, t, contents + [bytes], dbs + [db])
  {
  }

  /** One cycle after all of them. */
  method PollOnce(p: Processor, t: Tail, chunks: seq<string>, ghost bytes: string)
    requires Ready(p, t, bytes)
    modifies p.host`quiet, p.host`disk, p.host`nextGen, p.host`s, p.host`began, p.host`past, p.db
    ensures Ready(p, t, Whole(bytes, chunks))
    ensures PolledAs(p.host.w, t, Whole(bytes, chunks), old(p.host.s.db), p.host.s.db)
  {
    hide Ready, PolledAs;
    for i := 0 to |chunks|
      invariant Ready(p, t, Whole(bytes, chunks[..i])) && p.host.s.db == old(p.host.s.db)
    {
      assert chunks[..i + 1][..i] == chunks[..i];
      Write(p, t, chunks[i], Whole(bytes, chunks[..i]));
    }
    assert chunks[..|chunks|] == chunks;
    Poll(p, t, Whole(bytes, chunks));
  }

  lemma NotCutOn(logs: Logs, t: Tail, size: nat, more: nat)
    requires NotCut(logs, t, size) && size <= more
    ensures NotCut(logs, t, more)
  {
  }

  /** Both schedules, from the same tables, whatever was read of the file before. */
  method RunBoth(each: Processor, once: Processor, t: Tail, chunks: seq<string>, ghost bytes: string)
    returns (ghost dbs: seq<Db>)
    requires each.host != once.host && each.db != once.db && each.host.w == once.host.w
    requires Ready(each, t, bytes) && Ready(once, t, bytes) && each.host.s.db == once.host.s.db
    requires chunks != [] && NotCut(each.host.s.db.logs, t, |bytes|)
    modifies each.host`quiet, each.host`disk, each.host`nextGen, each.host`s, each.host`began, each.host`past, each.db
    modifies once.host`quiet, once.host`disk, once.host`nextGen, once.host`s, once.host`began, once.host`past, once.db
    ensures Ready(each, t, Whole(bytes, chunks)) && Ready(once, t, Whole(bytes, chunks))
    ensures PolledEach(each.host.w, t, Contents(bytes, chunks), dbs)
    ensures dbs[0] == old(each.host.s.db) && dbs[|chunks|] == each.db.Tables()
    ensures PolledAs(once.host.w, t, Whole(bytes, chunks), old(once.host.s.db), once.db.Tables())
    ensures SameOutcome(each.db.Tables(), once.db.Tables())
  {
    ghost var start := each.host.s.db;
    assert WellFormed(start.logs) by { each.host.Constraints(); }
    hide PolledAs, PolledEach, SameOutcome, WellFormed;
    dbs := PollEach(each, t, chunks, bytes);
    PollOnce(once, t, chunks, bytes);
    ContentsGrow(bytes, chunks);
    NotCutOn(start.logs, t, |bytes|, |Contents(bytes, chunks)[0]|);
    BatchIndependence(each.host.w, t, Contents(bytes, chunks), dbs, once.host.s.db);
  }

  /** A new program watches the path, where a log with these bytes appears. */
  method Start(path: string, service: string, ident: Identity, bytes: string, clean: string -> string,
               globs: (string, string) -> bool, rules: seq<Rule>, patterns: Patterns, hash: string -> string,
               ghost w: World) returns (p: Processor, t: Tail)
    requires NormalizePath(path, clean).Some? && !HasGlobMeta(NormalizePath(path, clean).value)
    requires Ruled(patterns, rules, w) && RuleIds(rules) && Keys(hash, w) && Stamping(w)
    requires AllCompile(patterns, rules) && EnabledOnly(rules) != []
    ensures fresh(p) && fresh(p.host) && fresh(p.db) && p.host.w == w
    ensures t == Tail(1, NormalizePath(path, clean).value, TrimSpace(service), ident) && Ready(p, t, bytes)
    ensures p.host.s.db == INIT.db.(logs := AddLog(INIT.db.logs, 1, t.path, t.service))
  {
    hide Runs.Leads, PastOf, Ruled, AllCompile, Keys, Stamping, TrimSpace, NormalizePath;
    var host := new Host(clean, globs, w);
    t := Tail(1, NormalizePath(path, clean).value, TrimSpace(service), ident);
    host.Watch(path, service, 0, Done);
    host.Put(t.path, ident, bytes);
    p := new Processor(host, rules, patterns, hash);
  }

  /** So whatever the rules, the file, the chunks it grows by and the clocks' readings. */
  method BatchIndependent(path: string, service: string, ident: Identity, bytes: string, chunks: seq<string>,
                          clean: string -> string, globs: (string, string) -> bool, rules: seq<Rule>,
                          patterns: Patterns, hash: string -> string)
    returns (each: Processor, once: Processor, ghost dbs: seq<Db>)
    requires NormalizePath(path, clean).Some? && !HasGlobMeta(NormalizePath(path, clean).value)
    requires RuleIds(rules) && AllCompile(patterns, rules) && EnabledOnly(rules) != [] && chunks != []
    ensures fresh(each) && fresh(once) && fresh(each.db) && fresh(once.db) && each.db != once.db
    ensures each.host.w == once.host.w && Ruled(patterns, rules, each.host.w) && Keys(hash, each.host.w)
    ensures var t := Tail(1, NormalizePath(path, clean).value, TrimSpace(service), ident);
      && PolledEach(each.host.w, t, Contents(bytes, chunks), dbs) && dbs[|chunks|] == each.db.Tables()
      && PolledAs(once.host.w, t, Whole(bytes, chunks), dbs[0], once.db.Tables())
      && dbs[0] == INIT.db.(logs := AddLog(INIT.db.logs, 1, t.path, t.service))
    ensures SameOutcome(each.db.Tables(), once.db.Tables())
  {
    ghost var w := Coverage.SomeWorld(patterns, rules, hash);
    hide Ready, Ruled, Keys, Stamping, PolledEach, PolledAs, SameOutcome, TrimSpace, NormalizePath;
    var t, u;
    each, t := Start(path, service, ident, bytes, clean, globs, rules, patterns, hash, w);
    once, u := Start(path, service, ident, bytes, clean, globs, rules, patterns, hash, w);
    dbs := RunBoth(each, once, t, chunks, bytes);
  }
}
