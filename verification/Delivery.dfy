/** Delivery over every run of the pipeline: each worthy line of a tracked file is stored, in order,
    before its offset is committed; a line is stored again only because of an interruption. */
module Delivery {
  import opened LogTables
  import opened Pipeline
  import opened Reader

  // ---- What delivery means ----

  /** The lines stored in one pass over a file, in the order they were stored. */
  function Mine(trail: seq<Origin>, file: nat, pass: nat): seq<Line> {
    if trail == [] then [] else
      var n := |trail| - 1;
      Mine(trail[..n], file, pass) + if trail[n].file == file && trail[n].pass == pass then [trail[n].line] else []
  }

  /** Adjacent repeats collapsed to one. */
  function Collapsed(ls: seq<Line>): seq<Line> {
    if |ls| < 2 then ls else
      var n := |ls| - 1;
      if ls[n - 1] == ls[n] then Collapsed(ls[..n]) else Collapsed(ls[..n]) + [ls[n]]
  }

  function WorthyLines(w: World, service: string, ls: seq<Line>): seq<Line> {
    if ls == [] then [] else
      var n := |ls| - 1;
      WorthyLines(w, service, ls[..n]) + if Worthy(w, service, ls[n]) then [ls[n]] else []
  }

  /** The guarantee covers this file's present pass: its log was not given, under it, a service for which the rules
      find other lines worthy. */
  predicate Covered(s: State, f: nat) {
    f in s.db.logs.files && f in s.seen && (f, s.seen[f].pass) !in s.excused
      && s.db.logs.files[f].log in s.db.logs.watched
  }

  /** The worthy complete lines from where the pass began up to the committed offset. */
  function Due(w: World, service: string, bytes: string, start: nat, offset: nat): seq<Line> {
    if offset <= |bytes| then WorthyLines(w, service, LinesFrom(bytes[..offset], start)) else []
  }

  /** The lines stored are those due, in order, and at most the one worthy line that starts at the offset. */
  predicate DeliveredFrom(w: World, service: string, stored: seq<Line>, bytes: string, start: nat, offset: nat) {
    && Stop(bytes, start, offset)
    && var due := Due(w, service, bytes, start, offset);
       var next := LinesFrom(bytes, offset);
       || Collapsed(stored) == due
       || (next != [] && Worthy(w, service, next[0]) && Collapsed(stored) == due + [next[0]])
  }

  /** The guarantee for a whole file: a pass from its first byte. */
  predicate DeliveredUpTo(w: World, service: string, stored: seq<Line>, bytes: string, offset: nat) {
    DeliveredFrom(w, service, stored, bytes, 0, offset)
  }

  predicate DeliveredNow(w: World, s: State, f: nat)
    requires Covered(s, f)
  {
    var seen := s.seen[f];
    DeliveredFrom(w, ServiceOf(s.db.logs, f), Mine(s.trail, f, seen.pass), seen.bytes, seen.start,
                  s.db.logs.files[f].offset)
  }

  predicate Delivered(w: World, s: State, f: nat) {
    Covered(s, f) ==> DeliveredNow(w, s, f)
  }

  // ---- The invariant ----

  predicate DiskOk(s: State, f: nat)
    requires f in s.db.logs.files
  {
    && f in s.seen
    && var row := s.db.logs.files[f];
       row.path in s.disk ==>
         var d := s.disk[row.path];
         s.seen[f].gen <= d.gen && (s.seen[f].gen == d.gen ==> s.seen[f].bytes <= d.bytes)
  }

  ghost predicate HeldOk(w: World, s: State, f: nat)
    requires f in s.db.logs.files
  {
    f in s.held ==>
      var h, row := s.held[f], s.db.logs.files[f];
      && h.path == row.path && h.offset == row.offset
      && (Covered(s, f) ==> SameWorth(w, h.service, ServiceOf(s.db.logs, f)))
  }

  ghost predicate WorkOk(w: World, s: State, f: nat)
    requires f in s.db.logs.files
  {
    s.work.Busy? && s.work.file == f ==>
      && s.work.lines == LinesFrom(s.work.base, s.db.logs.files[f].offset)
      && f in s.seen && s.work.base == s.seen[f].bytes
      && (Covered(s, f) ==>
            && SameWorth(w, s.work.service, ServiceOf(s.db.logs, f))
            && (s.work.stage.Stored? && s.work.lines != [] ==> JustStored(w, s, f)))
  }

  /** The line in hand is the last one stored. */
  predicate JustStored(w: World, s: State, f: nat)
    requires Covered(s, f) && s.work.Busy? && s.work.lines != []
  {
    var seen := s.seen[f];
    Collapsed(Mine(s.trail, f, seen.pass))
      == Due(w, ServiceOf(s.db.logs, f), seen.bytes, seen.start, s.db.logs.files[f].offset) + [s.work.lines[0]]
  }

  ghost predicate FileOk(w: World, s: State, f: nat)
    requires f in s.db.logs.files
  {
    DiskOk(s, f) && HeldOk(w, s, f) && WorkOk(w, s, f) && Delivered(w, s, f)
  }

  /** A stored line is of no later pass than the present one, and if of the present one, of its generation. */
  predicate KnownOrigin(s: State, d: Origin) {
    && d.file in s.seen && d.pass <= s.seen[d.file].pass
    && (d.pass == s.seen[d.file].pass ==> d.gen == s.seen[d.file].gen)
  }

  /** Generations, passes, ids and history stay within what has been handed out. */
  predicate Numbered(s: State) {
    && (forall f :: f in s.seen ==> f <= s.db.logs.lastFile && s.seen[f].gen < s.nextGen && s.seen[f].pass < s.nextPass)
    && (forall p :: p in s.disk ==> s.disk[p].gen < s.nextGen)
    && (forall i :: 0 <= i < |s.trail| ==> KnownOrigin(s, s.trail[i]))
    && (forall f :: f in s.held ==> f in s.seen)
    && (s.work.Busy? ==>
          s.work.file in s.seen && s.work.file !in s.held && (s.work.stage.Stored? ==> s.work.lines != []))
  }

  ghost predicate FilesOk(w: World, s: State) {
    forall f :: f in s.db.logs.files ==> FileOk(w, s, f)
  }

  ghost predicate Inv(w: World, s: State) {
    WellFormed(s.db.logs) && Numbered(s) && FilesOk(w, s)
  }

  // ---- Small facts ----

  lemma MineAppend(trail: seq<Origin>, d: Origin, file: nat, pass: nat)
    ensures Mine(trail + [d], file, pass) ==
      Mine(trail, file, pass) + if d.file == file && d.pass == pass then [d.line] else []
  {
    assert (trail + [d])[..|trail|] == trail;
  }

  lemma {:induction false} MineHas(trail: seq<Origin>, d: Origin)
    requires d in trail
    ensures d.line in Mine(trail, d.file, d.pass)
  {
    if trail[|trail| - 1] != d {
      assert d in trail[..|trail| - 1];
      MineHas(trail[..|trail| - 1], d);
    }
  }

  lemma {:induction false} MineNone(trail: seq<Origin>, file: nat, pass: nat)
    requires forall i :: 0 <= i < |trail| ==> trail[i].file != file || trail[i].pass < pass
    ensures Mine(trail, file, pass) == []
  {
    if trail != [] {
      MineNone(trail[..|trail| - 1], file, pass);
    }
  }

  lemma WorthyAppend(w: World, service: string, ls: seq<Line>, l: Line)
    ensures WorthyLines(w, service, ls + [l]) == WorthyLines(w, service, ls) + if Worthy(w, service, l) then [l] else []
  {
    assert (ls + [l])[..|ls|] == ls;
  }

  lemma {:induction false} WorthyIn(w: World, service: string, ls: seq<Line>)
    ensures forall l :: l in WorthyLines(w, service, ls) ==> l in ls
  {
    if ls != [] {
      WorthyIn(w, service, ls[..|ls| - 1]);
    }
  }

  lemma {:induction false} CollapsedLast(ls: seq<Line>)
    requires ls != []
    ensures Collapsed(ls) != [] && Collapsed(ls)[|Collapsed(ls)| - 1] == ls[|ls| - 1]
  {
    if |ls| >= 2 {
      CollapsedLast(ls[..|ls| - 1]);
    }
  }

  lemma CollapsedAppend(ls: seq<Line>, l: Line)
    ensures var c := Collapsed(ls); Collapsed(ls + [l]) == if c != [] && c[|c| - 1] == l then c else c + [l]
  {
    assert (ls + [l])[..|ls|] == ls;
    if ls != [] {
      CollapsedLast(ls);
    } else {
      assert ls + [l] == [l];
    }
  }

  lemma {:induction false} CollapsedHas(ls: seq<Line>, l: Line)
    requires l in ls
    ensures l in Collapsed(ls)
  {
    if |ls| >= 2 {
      var n := |ls| - 1;
      if l in ls[..n] {
        CollapsedHas(ls[..n], l);
      } else {
        CollapsedLast(ls);
        assert ls[n] == l;
      }
    }
  }

  lemma CollapsedEmpty(ls: seq<Line>)
    requires Collapsed(ls) == []
    ensures ls == []
  {
    if ls != [] { CollapsedLast(ls); }
  }

  /** Lines up to an offset end at or before it, and after the start. */
  lemma LinesEndBetween(bytes: string, start: nat, offset: nat)
    requires offset <= |bytes|
    ensures forall l :: l in LinesFrom(bytes[..offset], start) ==> start < l.end <= offset
  {
    LineLaws(bytes[..offset], start);
    var ls := LinesFrom(bytes[..offset], start);
    forall i | 0 <= i < |ls| ensures start <= Start(ls, start, i) < ls[i].end <= offset {
      StartsRise(bytes[..offset], start, i);
      assert LineAt(bytes[..offset], Start(ls, start, i), ls[i]);
    }
  }

  lemma {:induction false} StartsRise(b: string, from: nat, i: nat)
    requires i < |LinesFrom(b, from)|
    ensures from <= Start(LinesFrom(b, from), from, i)
  {
    var ls := LinesFrom(b, from);
    LineLaws(b, from);
    if i > 0 {
      StartsRise(b, from, i - 1);
      assert LineAt(b, Start(ls, from, i - 1), ls[i - 1]);
    }
  }

  lemma DueEnds(w: World, service: string, bytes: string, start: nat, offset: nat)
    ensures forall l :: l in Due(w, service, bytes, start, offset) ==> start < l.end <= offset
  {
    if offset <= |bytes| {
      LinesEndBetween(bytes, start, offset);
      WorthyIn(w, service, LinesFrom(bytes[..offset], start));
    }
  }

  // ---- Delivery as the offset, the bytes and the stored lines move ----

  /** A pass that has just begun owes nothing. */
  lemma FreshDelivered(w: World, service: string, bytes: string, start: nat)
    ensures DeliveredFrom(w, service, [], bytes, start, start)
  {
    if start <= |bytes| { FoldEmpty(bytes[..start], start); }
  }

  /** More bytes after those seen change nothing that is owed. */
  lemma GrownDelivered(w: World, service: string, stored: seq<Line>, bytes: string, more: string, start: nat,
                       offset: nat)
    requires DeliveredFrom(w, service, stored, bytes, start, offset) && bytes <= more
    ensures DeliveredFrom(w, service, stored, more, start, offset)
  {
    assert more == bytes + more[|bytes|..];
    AppendExtends(bytes, more[|bytes|..], offset);
    if offset <= |bytes| {
      assert more[..offset] == bytes[..offset];
    } else {
      CollapsedEmpty(stored);
      FreshDelivered(w, service, more, start);
    }
  }

  lemma {:induction false} SameWorthLines(w: World, a: string, b: string, ls: seq<Line>)
    requires SameWorth(w, a, b)
    ensures WorthyLines(w, a, ls) == WorthyLines(w, b, ls)
  {
    if ls != [] { SameWorthLines(w, a, b, ls[..|ls| - 1]); }
  }

  /** A service for which the same lines are worthy is owed the same. */
  lemma SameWorthDelivered(w: World, a: string, b: string, stored: seq<Line>, bytes: string, start: nat, offset: nat)
    requires SameWorth(w, a, b) && DeliveredFrom(w, a, stored, bytes, start, offset)
    ensures DeliveredFrom(w, b, stored, bytes, start, offset)
    ensures Due(w, a, bytes, start, offset) == Due(w, b, bytes, start, offset)
  {
    if offset <= |bytes| { SameWorthLines(w, a, b, LinesFrom(bytes[..offset], start)); }
  }

  /** Storing the next line, for the first time or again. */
  lemma StoreDelivered(w: World, service: string, stored: seq<Line>, bytes: string, start: nat, offset: nat)
    requires DeliveredFrom(w, service, stored, bytes, start, offset)
    requires LinesFrom(bytes, offset) != [] && Worthy(w, service, LinesFrom(bytes, offset)[0])
    ensures var l := LinesFrom(bytes, offset)[0];
      && DeliveredFrom(w, service, stored + [l], bytes, start, offset)
      && Collapsed(stored + [l]) == Due(w, service, bytes, start, offset) + [l]
  {
    var l := LinesFrom(bytes, offset)[0];
    var due := Due(w, service, bytes, start, offset);
    Unfold(bytes, offset);
    CollapsedAppend(stored, l);
    if Collapsed(stored) == due && due != [] {
      DueEnds(w, service, bytes, start, offset);
      assert due[|due| - 1] in due;
    }
  }

  /** Committing a line that was stored, or that is not worthy of storing. */
  lemma CommitDelivered(w: World, service: string, stored: seq<Line>, bytes: string, start: nat, offset: nat)
    requires DeliveredFrom(w, service, stored, bytes, start, offset) && LinesFrom(bytes, offset) != []
    requires var l := LinesFrom(bytes, offset)[0];
      Worthy(w, service, l) ==> Collapsed(stored) == Due(w, service, bytes, start, offset) + [l]
    ensures DeliveredFrom(w, service, stored, bytes, start, LinesFrom(bytes, offset)[0].end)
  {
    Unfold(bytes, offset);
    BeforeNext(bytes, start, offset);
    WorthyAppend(w, service, LinesFrom(bytes[..offset], start), LinesFrom(bytes, offset)[0]);
  }

  // ---- Every step keeps the invariant ----

  lemma AppendKeeps(w: World, s: State, path: string, more: string)
    requires Inv(w, s) && Enabled(w, s, Append(path, more))
    ensures Inv(w, Apply(w, s, Append(path, more)))
  {
    var n := Apply(w, s, Append(path, more));
    forall f | f in n.db.logs.files ensures FileOk(w, n, f) {
      assert FileOk(w, s, f);
      assert DiskOk(n, f);
    }
  }

  lemma ReplaceKeeps(w: World, s: State, path: string, ident: Identity, bytes: string)
    requires Inv(w, s)
    ensures Inv(w, Apply(w, s, Replace(path, ident, bytes)))
  {
    var n := Apply(w, s, Replace(path, ident, bytes));
    forall f | f in n.db.logs.files ensures FileOk(w, n, f) {
      assert FileOk(w, s, f);
      assert DiskOk(n, f);
    }
  }

  lemma UnlinkKeeps(w: World, s: State, path: string)
    requires Inv(w, s)
    ensures Inv(w, Apply(w, s, Unlink(path)))
  {
    var n := Apply(w, s, Unlink(path));
    forall f | f in n.db.logs.files ensures FileOk(w, n, f) {
      assert FileOk(w, s, f);
      assert DiskOk(n, f);
    }
  }

  /** A service for which other lines are worthy excuses the passes under way; any other changes nothing. */
  lemma AddKeepsFile(w: World, s: State, id: nat, path: string, service: string, f: nat)
    requires Inv(w, s) && Enabled(w, s, Add(id, path, service)) && f in s.db.logs.files
    ensures FileOk(w, Apply(w, s, Add(id, path, service)), f)
  {
    var n := Apply(w, s, Add(id, path, service));
    assert FileOk(w, s, f);
    if Covered(n, f) {
      var a, b := ServiceOf(s.db.logs, f), ServiceOf(n.db.logs, f);
      assert s.db.logs.files[f].log == id ==> (f, s.seen[f].pass) in CurrentOf(s, id);
      var seen := s.seen[f];
      SameWorthDelivered(w, a, b, Mine(s.trail, f, seen.pass), seen.bytes, seen.start, s.db.logs.files[f].offset);
    }
  }

  lemma AddKeepsNumbered(w: World, s: State, id: nat, path: string, service: string)
    requires Numbered(s) && Enabled(w, s, Add(id, path, service))
    ensures Numbered(Apply(w, s, Add(id, path, service)))
  {
  }

  lemma AddKeeps(w: World, s: State, id: nat, path: string, service: string)
    requires Inv(w, s) && Enabled(w, s, Add(id, path, service))
    ensures Inv(w, Apply(w, s, Add(id, path, service)))
  {
    var n := Apply(w, s, Add(id, path, service));
    AddKeepsWellFormed(s.db.logs, id, path, service);
    AddKeepsNumbered(w, s, id, path, service);
    forall f | f in n.db.logs.files ensures FileOk(w, n, f) {
      AddKeepsFile(w, s, id, path, service, f);
    }
  }

  lemma RemoveKeeps(w: World, s: State, id: nat)
    requires Inv(w, s) && Enabled(w, s, Remove(id))
    ensures Inv(w, Apply(w, s, Remove(id)))
  {
    var n := Apply(w, s, Remove(id));
    RemoveKeepsWellFormed(s.db.logs, id);
    forall f | f in n.db.logs.files ensures FileOk(w, n, f) {
      assert f in s.db.logs.files && FileOk(w, s, f);
    }
  }

  lemma CountKeeps(w: World, s: State)
    requires Inv(w, s) && Enabled(w, s, CountMatch)
    ensures Inv(w, Apply(w, s, CountMatch))
  {
    var n := Apply(w, s, CountMatch);
    forall f | f in n.db.logs.files ensures FileOk(w, n, f) { assert FileOk(w, s, f); }
  }

  lemma FinishKeeps(w: World, s: State)
    requires Inv(w, s) && Enabled(w, s, Finish)
    ensures Inv(w, Apply(w, s, Finish))
  {
    var n := Apply(w, s, Finish);
    forall f | f in n.db.logs.files ensures FileOk(w, n, f) { assert FileOk(w, s, f); }
  }

  lemma CutKeeps(w: World, s: State)
    requires Inv(w, s)
    ensures Inv(w, Apply(w, s, Cut))
  {
    var n := Apply(w, s, Cut);
    forall f | f in n.db.logs.files ensures FileOk(w, n, f) { assert FileOk(w, s, f); }
  }

  /** Nothing has been stored in a pass not handed out yet. */
  lemma NoStoredLines(s: State, f: nat)
    requires Numbered(s)
    ensures Mine(s.trail, f, s.nextPass) == []
  {
    MineNone(s.trail, f, s.nextPass);
  }

  /** What refreshing does to the refreshed file itself. */
  lemma RefreshDelivers(w: World, s: State, f: nat, log: nat, path: string, service: string)
    requires Inv(w, s) && Enabled(w, s, Refresh(f, log, path, service))
    ensures Delivered(w, Refreshed(w, s, f, log, path, service), f)
  {
    var n := Refreshed(w, s, f, log, path, service);
    var d := s.disk[path];
    if Covered(n, f) {
      var svc, offset := ServiceOf(n.db.logs, f), n.db.logs.files[f].offset;
      if CarriesOn(s, f, d) {
        assert FileOk(w, s, f);
        GrownDelivered(w, svc, Mine(s.trail, f, s.seen[f].pass), s.seen[f].bytes, d.bytes, s.seen[f].start, offset);
      } else {
        NoStoredLines(s, f);
        FreshDelivered(w, svc, d.bytes, offset);
      }
    }
  }

  lemma RefreshKeepsOthers(w: World, s: State, f: nat, log: nat, path: string, service: string, g: nat)
    requires Enabled(w, s, Refresh(f, log, path, service)) && g != f && g in s.db.logs.files && FileOk(w, s, g)
    ensures FileOk(w, Refreshed(w, s, f, log, path, service), g)
  {
  }

  lemma RefreshKeepsOwn(w: World, s: State, f: nat, log: nat, path: string, service: string)
    requires Inv(w, s) && Enabled(w, s, Refresh(f, log, path, service))
    ensures FileOk(w, Refreshed(w, s, f, log, path, service), f)
  {
    RefreshDelivers(w, s, f, log, path, service);
    assert f in s.db.logs.files ==> FileOk(w, s, f);
  }

  lemma RefreshKeepsNumbered(w: World, s: State, f: nat, log: nat, path: string, service: string)
    requires Numbered(s) && Enabled(w, s, Refresh(f, log, path, service))
    requires f in s.db.logs.files ==> f <= s.db.logs.lastFile && FileOk(w, s, f)
    ensures Numbered(Refreshed(w, s, f, log, path, service))
  {
  }

  lemma RefreshKeeps(w: World, s: State, f: nat, log: nat, path: string, service: string)
    requires Inv(w, s) && Enabled(w, s, Refresh(f, log, path, service))
    ensures Inv(w, Refreshed(w, s, f, log, path, service))
  {
    var n := Refreshed(w, s, f, log, path, service);
    RefreshKeepsWellFormed(s.db.logs, log, path, f, s.disk[path].ident, |s.disk[path].bytes|);
    RefreshKeepsNumbered(w, s, f, log, path, service);
    forall g | g in n.db.logs.files ensures FileOk(w, n, g) {
      if g == f {
        RefreshKeepsOwn(w, s, f, log, path, service);
      } else {
        RefreshKeepsOthers(w, s, f, log, path, service, g);
      }
    }
  }

  /** What reading does to the file read: it carries on the pass, or begins one where it reads. */
  lemma ReadKeepsOwn(w: World, s: State, f: nat)
    requires Inv(w, s) && Enabled(w, s, Read(f)) && f in s.db.logs.files
    ensures FileOk(w, ReadFile(w, s, f), f)
  {
    var n := ReadFile(w, s, f);
    assert FileOk(w, s, f);
    if s.held[f].path in s.disk && Covered(n, f) {
      var svc, offset := ServiceOf(s.db.logs, f), s.db.logs.files[f].offset;
      if Swapped(s, f) {
        NoStoredLines(s, f);
        FreshDelivered(w, svc, n.seen[f].bytes, offset);
      } else {
        GrownDelivered(w, svc, Mine(s.trail, f, s.seen[f].pass), s.seen[f].bytes, n.seen[f].bytes, s.seen[f].start,
                       offset);
      }
    }
  }

  lemma ReadKeepsOthers(w: World, s: State, f: nat, g: nat)
    requires Enabled(w, s, Read(f)) && g != f && g in s.db.logs.files && FileOk(w, s, g)
    ensures FileOk(w, ReadFile(w, s, f), g)
  {
  }

  lemma ReadKeepsNumbered(w: World, s: State, f: nat)
    requires Numbered(s) && Enabled(w, s, Read(f)) && (f in s.db.logs.files ==> FileOk(w, s, f))
    ensures Numbered(ReadFile(w, s, f))
  {
  }

  lemma ReadKeeps(w: World, s: State, f: nat)
    requires Inv(w, s) && Enabled(w, s, Read(f))
    ensures Inv(w, ReadFile(w, s, f))
  {
    var n := ReadFile(w, s, f);
    ReadKeepsNumbered(w, s, f);
    forall g | g in n.db.logs.files ensures FileOk(w, n, g) {
      if g == f { ReadKeepsOwn(w, s, f); } else { ReadKeepsOthers(w, s, f, g); }
    }
  }

  /** `n` is `s` with the line in hand stored, whatever that does to the index. */
  predicate AfterStore(s: State, n: State)
    requires AtLine(s) && s.work.file in s.seen
  {
    && n.db.logs == s.db.logs && n.disk == s.disk && n.nextGen == s.nextGen
    && n.held == s.held && n.seen == s.seen && n.nextPass == s.nextPass
    && n.excused == s.excused && n.swapped == s.swapped && n.judged == s.judged
    && n.work == s.work.(stage := Stored)
    && n.trail == s.trail + [OriginOf(s)]
  }

  /** What is worthy for the service in hand is worthy for the one the log has now. */
  lemma WorthyNow(w: World, s: State)
    requires AtLine(s) && s.work.file in s.db.logs.files && FileOk(w, s, s.work.file) && Covered(s, s.work.file)
    ensures Worthy(w, ServiceOf(s.db.logs, s.work.file), s.work.lines[0]) <==> VerdictOf(w, s.work).Raised?
  {
  }

  lemma StoreKeepsFile(w: World, s: State, n: State, g: nat)
    requires AtLine(s) && s.work.file in s.seen && AfterStore(s, n) && VerdictOf(w, s.work).Raised?
    requires g in s.db.logs.files && FileOk(w, s, g)
    ensures FileOk(w, n, g)
  {
    var seen := s.seen[g];
    MineAppend(s.trail, n.trail[|s.trail|], g, seen.pass);
    if g != s.work.file {
      assert Mine(n.trail, g, seen.pass) == Mine(s.trail, g, seen.pass);
    } else if Covered(s, g) {
      WorthyNow(w, s);
      StoreDelivered(w, ServiceOf(s.db.logs, g), Mine(s.trail, g, seen.pass), seen.bytes, seen.start,
                     s.db.logs.files[g].offset);
    }
  }

  lemma StoreKeeps(w: World, s: State, n: State)
    requires Inv(w, s) && AtLine(s) && AfterStore(s, n) && VerdictOf(w, s.work).Raised?
    ensures Inv(w, n)
  {
    forall g | g in n.db.logs.files ensures FileOk(w, n, g) {
      StoreKeepsFile(w, s, n, g);
    }
  }

  /** The line in hand ends past the committed offset of its file. */
  lemma InHandIsNext(w: World, s: State)
    requires Inv(w, s) && AtLine(s) && s.work.file in s.db.logs.files
    ensures s.work.lines[0].end > s.db.logs.files[s.work.file].offset
  {
    assert FileOk(w, s, s.work.file);
    Unfold(s.work.base, s.db.logs.files[s.work.file].offset);
  }

  lemma CommitKeepsFile(w: World, s: State, g: nat)
    requires Enabled(w, s, Commit) && s.work.file !in s.held && g in s.db.logs.files && FileOk(w, s, g)
    ensures FileOk(w, Apply(w, s, Commit), g)
  {
    if g == s.work.file {
      var offset := s.db.logs.files[g].offset;
      Reread(s.work.base, offset, 0);
      if Covered(s, g) {
        WorthyNow(w, s);
        CommitDelivered(w, ServiceOf(s.db.logs, g), Mine(s.trail, g, s.seen[g].pass), s.seen[g].bytes,
                        s.seen[g].start, offset);
      }
    }
  }

  lemma CommitKeepsNumbered(w: World, s: State)
    requires Numbered(s) && Enabled(w, s, Commit)
    ensures Numbered(Apply(w, s, Commit))
  {
  }

  lemma CommitKeeps(w: World, s: State)
    requires Inv(w, s) && Enabled(w, s, Commit)
    ensures Inv(w, Apply(w, s, Commit))
  {
    var n := Apply(w, s, Commit);
    UpdateKeepsWellFormed(s.db.logs, s.work.file, s.work.lines[0].end);
    CommitKeepsNumbered(w, s);
    forall g | g in n.db.logs.files ensures FileOk(w, n, g) {
      CommitKeepsFile(w, s, g);
    }
  }

  lemma StepKeeps(w: World, s: State, step: Step)
    requires Inv(w, s)
    ensures Inv(w, Next(w, s, step))
  {
    if Enabled(w, s, step) {
      match step
      case Append(path, more) => AppendKeeps(w, s, path, more);
      case Replace(path, ident, bytes) => ReplaceKeeps(w, s, path, ident, bytes);
      case Unlink(path) => UnlinkKeeps(w, s, path);
      case Add(id, path, service) => AddKeeps(w, s, id, path, service);
      case Remove(id) => RemoveKeeps(w, s, id);
      case Refresh(file, log, path, service) => RefreshKeeps(w, s, file, log, path, service);
      case Read(file) => ReadKeeps(w, s, file);
      case CountMatch => CountKeeps(w, s);
      case StoreEvent(_, _, _) => StoreKeeps(w, s, Apply(w, s, step));
      case Commit => CommitKeeps(w, s);
      case Finish => FinishKeeps(w, s);
      case Cut => CutKeeps(w, s);
    }
  }

  lemma {:induction false} RunKeeps(w: World, s: State, steps: seq<Step>)
    requires Inv(w, s)
    ensures Inv(w, Run(w, s, steps))
  {
    if steps != [] {
      RunKeeps(w, s, steps[..|steps| - 1]);
      StepKeeps(w, Run(w, s, steps[..|steps| - 1]), steps[|steps| - 1]);
    }
  }

  /** Crash-safe delivery: in every state of every run, for every tracked file the guarantee covers, the lines stored
      in its present pass are those due from where the pass began. */
  lemma EveryRunDeliversFrom(w: World, steps: seq<Step>, f: nat)
    requires Covered(Run(w, INIT, steps), f)
    ensures DeliveredNow(w, Run(w, INIT, steps), f)
  {
    RunKeeps(w, INIT, steps);
    assert FileOk(w, Run(w, INIT, steps), f);
  }

  /** And where the pass began at the first byte, that is every worthy line of the file. */
  lemma EveryRunDelivers(w: World, steps: seq<Step>, f: nat)
    requires Covered(Run(w, INIT, steps), f) && Run(w, INIT, steps).seen[f].start == 0
    ensures var s := Run(w, INIT, steps);
      DeliveredUpTo(w, ServiceOf(s.db.logs, f), Mine(s.trail, f, s.seen[f].pass), s.seen[f].bytes,
                    s.db.logs.files[f].offset)
  {
    EveryRunDeliversFrom(w, steps, f);
  }
}
