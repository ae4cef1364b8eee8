/** internal/db/db.go: schema migrations, applied in version order against a ledger. */
module Migrations {
  import opened Fates
  import opened Numbers
  import opened Options
  import Strings

  /** A directory entry; `content` is None where reading the file fails. */
  datatype DirEntry = DirEntry(name: string, isDir: bool, content: Option<string>)

  datatype Migration = Migration(version: int, name: string, sql: string)

  const MAX_INT := 0x7FFF_FFFF_FFFF_FFFF

  // ---- File names ----

  /** `strconv.Atoi`: a sign, perhaps, then decimal digits, in 64 bits. */
  function Atoi(s: string): Option<int> {
    var signed := s != "" && (s[0] == '+' || s[0] == '-');
    var digits := if signed then s[1..] else s;
    if digits == "" || !AllDigits(digits) then None
    else
      var n: int := Value(digits);
      var v := if signed && s[0] == '-' then -n else n;
      if -MAX_INT - 1 <= v <= MAX_INT then Some(v) else None
  }

  function MigrationVersion(name: string): Option<int> {
    var n := Strings.CutAt(name, '_');
    if n == |name| then None else
      var v := Atoi(name[..n]);
      if v.Some? && v.value > 0 then v else None
  }

  predicate IsScript(e: DirEntry) {
    !e.isDir && |e.name| >= 4 && e.name[|e.name| - 4..] == ".sql"
  }

  // ---- The list of migrations ----

  /** What an entry contributes: nothing, a migration, or the failure of the whole list. */
  datatype Contribution = Skipped | Bad | Good(m: Migration)

  function Contributes(e: DirEntry): Contribution {
    if !IsScript(e) then Skipped
    else if MigrationVersion(e.name).None? || e.content.None? then Bad
    else Good(Migration(MigrationVersion(e.name).value, e.name, e.content.value))
  }

  predicate Apart(c: Contribution, d: Contribution) {
    c.Good? && d.Good? ==> c.m.version != d.m.version
  }

  /** The directory can be loaded: every script has a version, its own, and can be read. */
  predicate Loadable(entries: seq<DirEntry>, read: DirEntry -> Contribution) {
    && (forall i :: 0 <= i < |entries| ==> !read(entries[i]).Bad?)
    && (forall i, j :: 0 <= i < j < |entries| ==> Apart(read(entries[i]), read(entries[j])))
  }

  predicate Loads(dir: Option<seq<DirEntry>>) {
    dir.Some? && Loadable(dir.value, Contributes)
  }

  /** In strictly rising version order. */
  predicate Ordered(ms: seq<Migration>) {
    forall i, j :: 0 <= i < j < |ms| ==> ms[i].version < ms[j].version
  }

  /** Exactly what the entries contribute. */
  predicate ListOf(entries: seq<DirEntry>, read: DirEntry -> Contribution, ms: seq<Migration>) {
    && (forall i :: 0 <= i < |ms| ==> Contributed(entries, read, ms[i]))
    && (forall i :: 0 <= i < |entries| && read(entries[i]).Good? ==> read(entries[i]).m in ms)
  }

  predicate Contributed(entries: seq<DirEntry>, read: DirEntry -> Contribution, m: Migration) {
    exists i :: 0 <= i < |entries| && read(entries[i]) == Good(m)
  }

  /** A place for one more, by version. */
  function Insert(m: Migration, ms: seq<Migration>): seq<Migration> {
    if ms == [] || m.version < ms[0].version then [m] + ms else [ms[0]] + Insert(m, ms[1..])
  }

  function SortByVersion(ms: seq<Migration>): seq<Migration> {
    if ms == [] then [] else Insert(ms[0], SortByVersion(ms[1..]))
  }

  lemma {:induction false} InsertKeeps(m: Migration, ms: seq<Migration>)
    ensures multiset(Insert(m, ms)) == multiset(ms) + multiset{m}
  {
    if ms != [] && !(m.version < ms[0].version) {
      assert ms == [ms[0]] + ms[1..];
      InsertKeeps(m, ms[1..]);
    }
  }

  lemma {:induction false} InsertOrders(m: Migration, ms: seq<Migration>)
    requires Ordered(ms) && forall x :: x in ms ==> x.version != m.version
    ensures Ordered(Insert(m, ms))
  {
    if ms != [] && !(m.version < ms[0].version) {
      InsertOrders(m, ms[1..]);
      InsertKeeps(m, ms[1..]);
      forall x | x in Insert(m, ms[1..]) ensures ms[0].version < x.version {
        assert x in multiset(Insert(m, ms[1..]));
        if x != m { assert x in multiset(ms[1..]); }
      }
    }
  }

  predicate DistinctVersions(ms: seq<Migration>) {
    forall i, j :: 0 <= i < j < |ms| ==> ms[i].version != ms[j].version
  }

  lemma SameMembers(a: seq<Migration>, b: seq<Migration>)
    requires multiset(a) == multiset(b)
    ensures forall m :: m in a <==> m in b
  {
    forall m ensures m in a <==> m in b { assert m in multiset(a) <==> m in multiset(b); }
  }

  lemma SortKeeps(ms: seq<Migration>)
    ensures multiset(SortByVersion(ms)) == multiset(ms)
    decreases ms
  {
    if ms != [] {
      SortKeeps(ms[1..]);
      InsertKeeps(ms[0], SortByVersion(ms[1..]));
      assert ms == [ms[0]] + ms[1..];
    }
  }

  lemma {:induction false} SortSorts(ms: seq<Migration>)
    requires DistinctVersions(ms)
    ensures Ordered(SortByVersion(ms)) && multiset(SortByVersion(ms)) == multiset(ms)
  {
    SortKeeps(ms);
    if ms != [] {
      SortSorts(ms[1..]);
      SameMembers(SortByVersion(ms[1..]), ms[1..]);
      InsertOrders(ms[0], SortByVersion(ms[1..]));
    }
  }

  lemma SameList(entries: seq<DirEntry>, read: DirEntry -> Contribution, ms: seq<Migration>, sorted: seq<Migration>)
    requires ListOf(entries, read, ms) && multiset(sorted) == multiset(ms)
    ensures ListOf(entries, read, sorted)
  {
    SameMembers(sorted, ms);
    forall i | 0 <= i < |sorted| ensures Contributed(entries, read, sorted[i]) {
      assert sorted[i] in sorted && sorted[i] in ms;
    }
  }

  /** Loads the scripts of a directory, or None where the directory or a script cannot be read, or a script has
      no version or another's. */
  method LoadMigrations(dir: Option<seq<DirEntry>>) returns (ms: Option<seq<Migration>>)
    ensures ms.Some? <==> Loads(dir)
    ensures ms.Some? ==> Ordered(ms.value) && ListOf(dir.value, Contributes, ms.value)
  {
    if dir.None? {
      return None;
    }
    ms := Collect(dir.value, Contributes);
    if ms.Some? {
      SortSorts(ms.value);
      SameList(dir.value, Contributes, ms.value, SortByVersion(ms.value));
      ms := Some(SortByVersion(ms.value));
    }
  }

  /** The loop over the entries. */
  method Collect(entries: seq<DirEntry>, read: DirEntry -> Contribution) returns (ms: Option<seq<Migration>>)
    ensures ms.Some? <==> Loadable(entries, read)
    ensures ms.Some? ==> DistinctVersions(ms.value) && ListOf(entries, read, ms.value)
  {
    var found: seq<Migration> := [];
    var seen: set<int> := {};
    for i := 0 to |entries|
      invariant Collected(entries[..i], read, found) && SeenIn(found, seen)
    {
      var c := read(entries[i]);
      CollectNext(entries, i, read, found);
      if c.Bad? || (c.Good? && c.m.version in seen) {
        return None;
      }
      if c.Good? {
        seen, found := seen + {c.m.version}, found + [c.m];
      }
    }
    assert entries[..|entries|] == entries;
    return Some(found);
  }

  /** The entries so far are loadable, and this is what they contribute. */
  predicate Collected(entries: seq<DirEntry>, read: DirEntry -> Contribution, found: seq<Migration>) {
    Loadable(entries, read) && ListOf(entries, read, found) && DistinctVersions(found)
  }

  predicate SeenIn(found: seq<Migration>, seen: set<int>) {
    && (forall j :: 0 <= j < |found| ==> found[j].version in seen)
    && (forall v :: v in seen ==> HasVersion(found, v))
  }

  predicate HasVersion(found: seq<Migration>, v: int) {
    exists j :: 0 <= j < |found| && found[j].version == v
  }

  lemma CollectNext(entries: seq<DirEntry>, i: nat, read: DirEntry -> Contribution, found: seq<Migration>)
    requires i < |entries| && Collected(entries[..i], read, found)
    ensures var c := read(entries[i]);
      && (c.Skipped? ==> Collected(entries[..i + 1], read, found))
      && (c.Bad? ==> !Loadable(entries, read))
      && (c.Good? && HasVersion(found, c.m.version) ==> !Loadable(entries, read))
      && (c.Good? && !HasVersion(found, c.m.version) ==> Collected(entries[..i + 1], read, found + [c.m]))
  {
  }

  // ---- Applying the list ----

  /** The rows of `schema_migrations`: versions and names. */
  type Ledger = map<int, string>

  function Record(ledger: Ledger, ms: seq<Migration>): Ledger {
    if ms == [] then ledger else
      var m := ms[|ms| - 1];
      Record(ledger, ms[..|ms| - 1])[m.version := m.name]
  }

  /** Running scripts one after another, each in a transaction of its own; None where one fails. */
  function Replay<S>(run: (S, string) -> Option<S>, schema: S, ms: seq<Migration>): Option<S> {
    if ms == [] then Some(schema) else
      var before := Replay(run, schema, ms[..|ms| - 1]);
      if before.None? then None else run(before.value, ms[|ms| - 1].sql)
  }

  /** The migrations the ledger does not have, in order. */
  function Pending(ms: seq<Migration>, ledger: Ledger): seq<Migration> {
    if ms == [] then [] else
      var m := ms[|ms| - 1];
      Pending(ms[..|ms| - 1], ledger) + if m.version in ledger then [] else [m]
  }

  lemma {:induction false} RecordKeys(ledger: Ledger, ms: seq<Migration>, v: int)
    ensures v in Record(ledger, ms) <==> v in ledger || HasVersion(ms, v)
  {
    if ms != [] {
      RecordKeys(ledger, ms[..|ms| - 1], v);
      if HasVersion(ms, v) {
        var j :| 0 <= j < |ms| && ms[j].version == v;
        if j < |ms| - 1 { assert ms[..|ms| - 1][j].version == v; }
      }
      if HasVersion(ms[..|ms| - 1], v) {
        var j :| 0 <= j < |ms| - 1 && ms[..|ms| - 1][j].version == v;
        assert ms[j].version == v;
      }
    }
  }

  lemma {:induction false} PendingAmong(ms: seq<Migration>, ledger: Ledger)
    ensures forall m :: m in Pending(ms, ledger) ==> m in ms && m.version !in ledger
  {
    if ms != [] { PendingAmong(ms[..|ms| - 1], ledger); }
  }

  /** What is pending of a longer list begins with what is pending of a shorter. */
  lemma {:induction false} PendingPrefix(ms: seq<Migration>, i: nat, ledger: Ledger)
    requires i <= |ms|
    ensures Pending(ms[..i], ledger) <= Pending(ms, ledger)
  {
    if i < |ms| {
      assert ms[..|ms| - 1][..i] == ms[..i];
      PendingPrefix(ms[..|ms| - 1], i, ledger);
    } else {
      assert ms[..i] == ms;
    }
  }

  lemma PendingStep(ms: seq<Migration>, i: nat, ledger: Ledger)
    requires i < |ms|
    ensures Pending(ms[..i + 1], ledger) == Pending(ms[..i], ledger) + if ms[i].version in ledger then [] else [ms[i]]
  {
    assert ms[..i + 1][..i] == ms[..i];
  }

  lemma {:induction false} ReplayPrefix<S>(run: (S, string) -> Option<S>, schema: S, ms: seq<Migration>, k: nat)
    requires k <= |ms| && Replay(run, schema, ms).Some?
    ensures Replay(run, schema, ms[..k]).Some?
  {
    if k < |ms| {
      assert ms[..|ms| - 1][..k] == ms[..k];
      ReplayPrefix(run, schema, ms[..|ms| - 1], k);
    } else {
      assert ms[..k] == ms;
    }
  }

  lemma OneMore<S>(run: (S, string) -> Option<S>, schema: S, ledger: Ledger, ms: seq<Migration>, m: Migration)
    ensures Replay(run, schema, ms + [m]) ==
      if Replay(run, schema, ms).None? then None else run(Replay(run, schema, ms).value, m.sql)
    ensures Record(ledger, ms + [m]) == Record(ledger, ms)[m.version := m.name]
  {
    assert (ms + [m])[..|ms|] == ms;
  }

  /** In an ordered list, the migrations before the `i`th tell nothing about whether the `i`th is in the ledger. */
  lemma NotYetApplied(ms: seq<Migration>, i: nat, ledger: Ledger)
    requires i < |ms| && Ordered(ms)
    ensures ms[i].version in Record(ledger, Pending(ms[..i], ledger)) <==> ms[i].version in ledger
  {
    var done := Pending(ms[..i], ledger);
    RecordKeys(ledger, done, ms[i].version);
    PendingAmong(ms[..i], ledger);
    forall j | 0 <= j < |done| ensures done[j].version != ms[i].version { assert done[j] in ms[..i]; }
  }

  ghost predicate AllDone(fates: nat -> Fate) {
    forall i :: fates(i).Done?
  }

  /** The state is what these migrations, run after one another, make of what was there. */
  predicate Added<S(==)>(run: (S, string) -> Option<S>, schema: S, ledger: Ledger, ms: seq<Migration>, now: S,
                    rows: Ledger)
  {
    Replay(run, schema, ms) == Some(now) && rows == Record(ledger, ms)
  }

  // ---- What is installed, said of the files ----

  /** A file, not a directory, whose name ends in `.sql`. */
  ghost predicate IsSqlFile(e: DirEntry) {
    !e.isDir && exists stem :: e.name == stem + ".sql"
  }

  /** The text before the first underscore is a positive number of 64 bits, perhaps with a plus sign. */
  ghost predicate NamesVersion(name: string, v: int) {
    exists front, rest :: name == front + "_" + rest && '_' !in front && Writes(front, v)
  }

  ghost predicate Writes(text: string, v: int) {
    && 0 < v < 0x8000_0000_0000_0000
    && exists digits ::
         digits != "" && AllDigits(digits) && Value(digits) == v && (text == digits || text == "+" + digits)
  }

  /** The migration is this file's: its name, its content as the script, and the version its name begins with. */
  ghost predicate FileOf(e: DirEntry, m: Migration) {
    IsSqlFile(e) && m.name == e.name && e.content == Some(m.sql) && NamesVersion(e.name, m.version)
  }

  lemma SqlSuffix(e: DirEntry)
    ensures IsScript(e) <==> IsSqlFile(e)
  {
    if IsScript(e) { assert e.name == e.name[..|e.name| - 4] + ".sql"; }
    if stem :| e.name == stem + ".sql" { assert e.name[|e.name| - 4..] == ".sql"; }
  }

  lemma AtoiIs(text: string, v: int)
    requires v > 0
    ensures Atoi(text) == Some(v) <==> Writes(text, v)
  {
    if Atoi(text) == Some(v) {
      if text[0] == '+' { assert text == "+" + text[1..]; }
    }
    if Writes(text, v) {
      var digits :| digits != "" && AllDigits(digits) && Value(digits) == v && (text == digits || text == "+" + digits);
      assert IsDigit(digits[0]);
      if text == "+" + digits { assert text[1..] == digits; }
    }
  }

  lemma VersionIs(name: string, v: int)
    ensures MigrationVersion(name) == Some(v) <==> NamesVersion(name, v)
  {
    var n := Strings.CutAt(name, '_');
    hide Atoi, Writes, Strings.CutAt;
    if n < |name| && v > 0 {
      AtoiIs(name[..n], v);
      assert name == name[..n] + "_" + name[n + 1..];
    }
    if front, rest :| name == front + "_" + rest && '_' !in front && Writes(front, v) {
      Strings.CutAfter(front, '_', rest);
      assert name[..|front|] == front;
      WritesPositive(front, v);
      AtoiIs(front, v);
    }
  }

  lemma WritesPositive(text: string, v: int)
    requires Writes(text, v)
    ensures v > 0
  {
  }

  lemma ContributesFile(e: DirEntry, m: Migration)
    ensures Contributes(e) == Good(m) <==> FileOf(e, m)
  {
    SqlSuffix(e);
    VersionIs(e.name, m.version);
    hide MigrationVersion, NamesVersion, IsScript, IsSqlFile;
  }

  /** A directory loads if and only if it can be read, every `.sql` file in it can be and has a version, and no two have
      the same. */
  lemma LoadsIf(dir: Option<seq<DirEntry>>)
    ensures Loads(dir) <==>
      && dir.Some?
      && (forall i :: 0 <= i < |dir.value| && IsSqlFile(dir.value[i]) ==> exists m :: FileOf(dir.value[i], m))
      && (forall i, j, m, n :: 0 <= i < j < |dir.value| && FileOf(dir.value[i], m) && FileOf(dir.value[j], n) ==>
            m.version != n.version)
  {
    forall e: DirEntry, m ensures Contributes(e) == Good(m) <==> FileOf(e, m) { ContributesFile(e, m); }
    forall e: DirEntry ensures Contributes(e).Skipped? <==> !IsSqlFile(e) { SqlSuffix(e); }
    hide FileOf, IsSqlFile;
    if dir.Some? {
      var es := dir.value;
      forall i | 0 <= i < |es| && !Contributes(es[i]).Bad? && IsSqlFile(es[i]) ensures exists m :: FileOf(es[i], m) {
        assert FileOf(es[i], Contributes(es[i]).m);
      }
      hide Contributes;
      if Loads(dir) {
        forall i, j, m, n | 0 <= i < j < |es| && FileOf(es[i], m) && FileOf(es[j], n) ensures m.version != n.version {
          assert Apart(Contributes(es[i]), Contributes(es[j]));
        }
      }
    }
  }

  /** A fresh install: the list is the files' migrations, in rising version order; their contents have been run in that
      order; and the ledger maps each version to its file's name. */
  ghost predicate Installed<S>(run: (S, string) -> Option<S>, empty: S, entries: seq<DirEntry>,
                               list: seq<Migration>, schema: S, ledger: Ledger)
  {
    && (forall i, j :: 0 <= i < j < |list| ==> list[i].version < list[j].version)
    && (forall m :: m in list <==> exists e :: e in entries && FileOf(e, m))
    && (forall e :: e in entries && IsSqlFile(e) ==> exists m :: FileOf(e, m))
    && RunAll(run, empty, Scripts(list)) == Some(schema)
    && (forall v :: v in ledger <==> exists e, m :: e in entries && FileOf(e, m) && m.version == v)
    && (forall e, m :: e in entries && FileOf(e, m) ==> m.version in ledger && ledger[m.version] == e.name)
  }

  /** Scripts run one after another, the first first. */
  function RunAll<S>(run: (S, string) -> Option<S>, schema: S, scripts: seq<string>): Option<S> {
    if scripts == [] then Some(schema)
    else
      var next := run(schema, scripts[0]);
      if next.None? then None else RunAll(run, next.value, scripts[1..])
  }

  function Scripts(list: seq<Migration>): seq<string> {
    seq(|list|, i requires 0 <= i < |list| => list[i].sql)
  }

  lemma {:induction false} RunAllOn<S>(run: (S, string) -> Option<S>, schema: S, scripts: seq<string>, last: string)
    ensures RunAll(run, schema, scripts + [last]) ==
      var before := RunAll(run, schema, scripts);
      if before.None? then None else run(before.value, last)
    decreases |scripts|
  {
    if scripts != [] {
      assert (scripts + [last])[1..] == scripts[1..] + [last];
      var next := run(schema, scripts[0]);
      if next.Some? { RunAllOn(run, next.value, scripts[1..], last); }
    }
  }

  lemma {:induction false} ReplayIsRunAll<S>(run: (S, string) -> Option<S>, schema: S, list: seq<Migration>)
    ensures Replay(run, schema, list) == RunAll(run, schema, Scripts(list))
  {
    if list != [] {
      var n := |list| - 1;
      ReplayIsRunAll(run, schema, list[..n]);
      assert Scripts(list) == Scripts(list[..n]) + [list[n].sql];
      RunAllOn(run, schema, Scripts(list[..n]), list[n].sql);
    }
  }

  lemma {:induction false} PendingAll(list: seq<Migration>)
    ensures Pending(list, map[]) == list
  {
    if list != [] { PendingAll(list[..|list| - 1]); }
  }

  lemma {:induction false} RecordNames(list: seq<Migration>, i: nat)
    requires Ordered(list) && i < |list|
    ensures list[i].version in Record(map[], list) && Record(map[], list)[list[i].version] == list[i].name
  {
    var n := |list| - 1;
    if i < n { RecordNames(list[..n], i); }
  }

  /** From an empty database, all of a directory's migrations applied amount to a fresh install. */
  lemma AppliedIsInstalled<S>(run: (S, string) -> Option<S>, empty: S, entries: seq<DirEntry>,
                              list: seq<Migration>, schema: S, ledger: Ledger)
    requires Loadable(entries, Contributes) && Ordered(list) && ListOf(entries, Contributes, list)
    requires Replay(run, empty, list) == Some(schema) && ledger == Record(map[], list)
    ensures Installed(run, empty, entries, list, schema, ledger)
  {
    hide FileOf, IsSqlFile, Contributes, Loadable, ListOf, Replay, RunAll, Record;
    ReplayIsRunAll(run, empty, list);
    ListIsFiles(entries, list);
    EachHasVersion(entries);
    LedgerVersions(entries, list, ledger);
    LedgerNames(entries, list, ledger);
  }

  lemma EachHasVersion(entries: seq<DirEntry>)
    requires Loadable(entries, Contributes)
    ensures forall e :: e in entries && IsSqlFile(e) ==> exists m :: FileOf(e, m)
  {
    LoadsIf(Some(entries));
    hide FileOf, IsSqlFile, Contributes, Loadable;
    forall e | e in entries && IsSqlFile(e) ensures exists m :: FileOf(e, m) {
      var i :| 0 <= i < |entries| && entries[i] == e;
    }
  }

  lemma LedgerVersions(entries: seq<DirEntry>, list: seq<Migration>, ledger: Ledger)
    requires (forall m :: m in list <==> exists e :: e in entries && FileOf(e, m)) && ledger == Record(map[], list)
    ensures forall v :: v in ledger <==> exists e, m :: e in entries && FileOf(e, m) && m.version == v
  {
    hide FileOf, Record;
    forall v ensures v in ledger <==> exists e, m :: e in entries && FileOf(e, m) && m.version == v {
      RecordKeys(map[], list, v);
      if v in ledger {
        var j :| 0 <= j < |list| && list[j].version == v;
        assert list[j] in list;
      }
      if e, m :| e in entries && FileOf(e, m) && m.version == v {
        assert m in list;
      }
    }
  }

  lemma LedgerNames(entries: seq<DirEntry>, list: seq<Migration>, ledger: Ledger)
    requires (forall m :: m in list <==> exists e :: e in entries && FileOf(e, m)) && ledger == Record(map[], list)
    requires Ordered(list)
    ensures forall e, m :: e in entries && FileOf(e, m) ==> m.version in ledger && ledger[m.version] == e.name
  {
    hide FileOf, Record, Ordered;
    forall e, m | e in entries && FileOf(e, m) ensures m.version in ledger && ledger[m.version] == e.name {
      assert m in list;
      var i :| 0 <= i < |list| && list[i] == m;
      RecordNames(list, i);
      NamedAfter(e, m);
    }
  }

  lemma NamedAfter(e: DirEntry, m: Migration)
    requires FileOf(e, m)
    ensures m.name == e.name
  {
  }

  lemma ListIsFiles(entries: seq<DirEntry>, list: seq<Migration>)
    requires ListOf(entries, Contributes, list)
    ensures forall m :: m in list <==> exists e :: e in entries && FileOf(e, m)
  {
    forall e: DirEntry, m ensures Contributes(e) == Good(m) <==> FileOf(e, m) { ContributesFile(e, m); }
    hide FileOf, Contributes;
    forall m | m in list ensures exists e :: e in entries && FileOf(e, m) {
      var i :| 0 <= i < |list| && list[i] == m;
      assert Contributed(entries, Contributes, list[i]);
      var j :| 0 <= j < |entries| && Contributes(entries[j]) == Good(m);
      assert entries[j] in entries;
    }
    forall e, m | e in entries && FileOf(e, m) ensures m in list {
      var j :| 0 <= j < |entries| && entries[j] == e;
      assert Contributes(entries[j]) == Good(m);
    }
  }

  class Store<S(==)> {
    const run: (S, string) -> Option<S>
    var schema: S
    var ledger: Ledger

    constructor (run: (S, string) -> Option<S>, empty: S)
      ensures this.run == run && schema == empty && ledger == map[]
    {
      this.run, schema, ledger := run, empty, map[];
    }

    /** One migration and its ledger row, both or neither. */
    method ApplyMigration(m: Migration, fate: Fate) returns (ok: bool)
      modifies this
      ensures ok <==> old(run(schema, m.sql)).Some? && m.version !in old(ledger) && fate.Done?
      ensures if old(run(schema, m.sql)).Some? && m.version !in old(ledger) && !fate.Refused?
        then Some(schema) == run(old(schema), m.sql) && ledger == old(ledger)[m.version := m.name]
        else schema == old(schema) && ledger == old(ledger)
    {
      var tx := run(schema, m.sql);
      if tx.None? || m.version in ledger || fate.Refused? {
        return false;  // rolled back
      }
      schema, ledger := tx.value, ledger[m.version := m.name];
      return fate.Done?;
    }

    /** Applies what is pending of a directory's migrations, in version order, until one fails: `k` of them.
        `fates` says what becomes of the statements about each file. */
    method ApplyMigrations(dir: Option<seq<DirEntry>>, fates: nat -> Fate)
      returns (ok: bool, ghost list: seq<Migration>, ghost k: nat)
      modifies this
      ensures !Loads(dir) ==> !ok && list == []
      ensures Loads(dir) ==> Ordered(list) && ListOf(dir.value, Contributes, list)
      ensures k <= |Pending(list, old(ledger))|
      ensures Added(run, old(schema), old(ledger), Pending(list, old(ledger))[..k], schema, ledger)
      ensures ok ==> k == |Pending(list, old(ledger))|
      ensures ok && old(ledger) == map[] ==> Installed(run, old(schema), dir.value, list, schema, ledger)
      ensures Loads(dir) && AllDone(fates) && Replay(run, old(schema), Pending(list, old(ledger))).Some? ==> ok
    {
      list, k := [], 0;
      var loaded := LoadMigrations(dir);
      if loaded.None? {
        return false, [], 0;
      }
      list := loaded.value;
      ok, k := ApplyList(loaded.value, fates);
      if ok && old(ledger) == map[] {
        PendingAll(list);
        assert list[..|list|] == list;
        AppliedIsInstalled(run, old(schema), dir.value, list, schema, ledger);
      }
    }

    /** The loop over the list. */
    method ApplyList(list: seq<Migration>, fates: nat -> Fate) returns (ok: bool, ghost k: nat)
      requires Ordered(list)
      modifies this
      ensures k <= |Pending(list, old(ledger))|
      ensures Added(run, old(schema), old(ledger), Pending(list, old(ledger))[..k], schema, ledger)
      ensures ok ==> k == |Pending(list, old(ledger))|
      ensures AllDone(fates) && Replay(run, old(schema), Pending(list, old(ledger))).Some? ==> ok
    {
      ghost var pending, applied := Pending(list, ledger), [];
      for i := 0 to |list|
        invariant applied == Pending(list[..i], old(ledger)) && applied <= pending
        invariant Added(run, old(schema), old(ledger), applied, schema, ledger)
      {
        ok, applied := ApplyAt(list, i, fates(i), old(schema), old(ledger), applied, pending);
        assert pending[..|applied|] == applied;
        if !ok {
          return false, |applied|;
        }
      }
      assert list[..|list|] == list && pending[..|pending|] == pending;
      return true, |pending|;
    }

    /** The loop's body: the `i`th migration is applied unless the ledger has it. */
    method ApplyAt(list: seq<Migration>, i: nat, fate: Fate, ghost schema0: S, ghost ledger0: Ledger,
                   ghost applied: seq<Migration>, ghost pending: seq<Migration>)
      returns (ok: bool, ghost now: seq<Migration>)
      requires i < |list| && Ordered(list) && pending == Pending(list, ledger0)
      requires applied == Pending(list[..i], ledger0) && applied <= pending
      requires Added(run, schema0, ledger0, applied, schema, ledger)
      modifies this
      ensures now <= pending && Added(run, schema0, ledger0, now, schema, ledger)
      ensures ok ==> now == Pending(list[..i + 1], ledger0)
      ensures fate.Done? && Replay(run, schema0, pending).Some? ==> ok
    {
      now := applied;
      NotYetApplied(list, i, ledger0);
      if fate.Refused? {
        return false, applied;  // the query for it failed
      }
      PendingStep(list, i, ledger0);
      PendingPrefix(list, i + 1, ledger0);
      if list[i].version in ledger {
        return true, applied;
      }
      ok := ApplyNext(list[i], fate, schema0, ledger0, applied, pending);
      if list[i].version in ledger {
        now := applied + [list[i]];
      }
    }

    method ApplyNext(m: Migration, fate: Fate, ghost schema0: S, ghost ledger0: Ledger,
                     ghost applied: seq<Migration>, ghost pending: seq<Migration>) returns (ok: bool)
      requires Added(run, schema0, ledger0, applied, schema, ledger) && m.version !in ledger
      requires applied + [m] <= pending
      modifies this
      ensures ok ==> m.version in ledger
      ensures fate.Done? && Replay(run, schema0, pending).Some? ==> ok
      ensures Added(run, schema0, ledger0, if m.version in ledger then applied + [m] else applied, schema, ledger)
    {
      OneMore(run, schema0, ledger0, applied, m);
      assert pending[..|applied| + 1] == applied + [m];
      if Replay(run, schema0, pending).Some? {
        ReplayPrefix(run, schema0, pending, |applied| + 1);
      }
      ok := ApplyMigration(m, fate);
    }
  }

  // ---- A directory determines its list ----

  lemma SameEmptiness(a: seq<Migration>, b: seq<Migration>)
    requires forall m :: m in a ==> m in b
    ensures b == [] ==> a == []
  {
    if a != [] { assert a[0] in b; }
  }

  lemma {:induction false} OrderedUnique(a: seq<Migration>, b: seq<Migration>)
    requires Ordered(a) && Ordered(b) && forall m :: m in a <==> m in b
    ensures a == b
  {
    SameEmptiness(a, b);
    SameEmptiness(b, a);
    if a != [] {
      var n, k := |a| - 1, |b| - 1;
      assert a[n] in b && b[k] in a;
      assert a[n] == b[k];
      forall m ensures m in a[..n] <==> m in b[..k] {
        if m in a[..n] { assert m in b && m != b[k]; }
        if m in b[..k] { assert m in a && m != a[n]; }
      }
      OrderedUnique(a[..n], b[..k]);
    }
  }

  lemma ListUnique(entries: seq<DirEntry>, read: DirEntry -> Contribution, a: seq<Migration>, b: seq<Migration>)
    requires Ordered(a) && ListOf(entries, read, a) && Ordered(b) && ListOf(entries, read, b)
    ensures a == b
  {
    ListIncludes(entries, read, a, b);
    ListIncludes(entries, read, b, a);
    OrderedUnique(a, b);
  }

  lemma ListIncludes(entries: seq<DirEntry>, read: DirEntry -> Contribution, a: seq<Migration>, b: seq<Migration>)
    requires ListOf(entries, read, a) && ListOf(entries, read, b)
    ensures forall m :: m in a ==> m in b
  {
    forall m | m in a ensures m in b {
      assert Contributed(entries, read, m);
    }
  }

  // ---- Interrupted runs ----

  datatype Disk<S> = Disk(schema: S, ledger: Ledger)

  /** What `ApplyMigrations` promises: `k` of the pending migrations have been added. */
  predicate Attempt<S(==)>(run: (S, string) -> Option<S>, list: seq<Migration>, a: Disk<S>, b: Disk<S>, k: nat) {
    var pending := Pending(list, a.ledger);
    k <= |pending| && Added(run, a.schema, a.ledger, pending[..k], b.schema, b.ledger)
  }

  /** The first `k` of the list, each once, make up the disk. */
  predicate AtPrefix<S(==)>(run: (S, string) -> Option<S>, empty: S, list: seq<Migration>, k: nat, d: Disk<S>) {
    k <= |list| && Added(run, empty, map[], list[..k], d.schema, d.ledger)
  }

  /** The ledger holds just the first `k` versions of the list. */
  predicate HoldsFirst(list: seq<Migration>, k: nat, ledger: Ledger) {
    forall j :: 0 <= j < |list| ==> (list[j].version in ledger <==> j < k)
  }

  lemma PrefixHeld(list: seq<Migration>, k: nat)
    requires Ordered(list) && k <= |list|
    ensures HoldsFirst(list, k, Record(map[], list[..k]))
  {
    forall j | 0 <= j < |list| ensures list[j].version in Record(map[], list[..k]) <==> j < k {
      RecordKeys(map[], list[..k], list[j].version);
      if j < k { assert list[..k][j] == list[j]; }
    }
  }

  lemma {:induction false} PendingFrom(list: seq<Migration>, i: nat, k: nat, ledger: Ledger)
    requires HoldsFirst(list, k, ledger) && k <= |list| && i <= |list|
    ensures Pending(list[..i], ledger) == if i <= k then [] else list[k..i]
    decreases i
  {
    if i > 0 {
      PendingFrom(list, i - 1, k, ledger);
      PendingStep(list, i - 1, ledger);
      if i > k { assert list[k..i] == list[k..i - 1] + [list[i - 1]]; }
    }
  }

  lemma PendingAfterPrefix(list: seq<Migration>, k: nat)
    requires Ordered(list) && k <= |list|
    ensures Pending(list, Record(map[], list[..k])) == list[k..]
  {
    PrefixHeld(list, k);
    PendingFrom(list, |list|, k, Record(map[], list[..k]));
    assert list[..|list|] == list;
  }

  lemma {:induction false} ReplayOn<S>(run: (S, string) -> Option<S>, schema: S, a: seq<Migration>, b: seq<Migration>)
    requires Replay(run, schema, a).Some?
    ensures Replay(run, schema, a + b) == Replay(run, Replay(run, schema, a).value, b)
    decreases |b|
  {
    if b == [] {
      assert a + b == a;
    } else {
      assert (a + b)[..|a + b| - 1] == a + b[..|b| - 1];
      ReplayOn(run, schema, a, b[..|b| - 1]);
    }
  }

  lemma {:induction false} RecordOn(ledger: Ledger, a: seq<Migration>, b: seq<Migration>)
    ensures Record(ledger, a + b) == Record(Record(ledger, a), b)
    decreases |b|
  {
    if b == [] {
      assert a + b == a;
    } else {
      assert (a + b)[..|a + b| - 1] == a + b[..|b| - 1];
      RecordOn(ledger, a, b[..|b| - 1]);
    }
  }

  lemma AttemptKeepsPrefix<S>(run: (S, string) -> Option<S>, empty: S, list: seq<Migration>, j: nat, a: Disk<S>,
                              b: Disk<S>, k: nat)
    requires Ordered(list) && AtPrefix(run, empty, list, j, a) && Attempt(run, list, a, b, k)
    ensures AtPrefix(run, empty, list, j + k, b)
  {
    PendingAfterPrefix(list, j);
    assert list[j..][..k] == list[j..j + k];
    assert list[..j] + list[j..j + k] == list[..j + k];
    ReplayOn(run, empty, list[..j], list[j..j + k]);
    RecordOn(map[], list[..j], list[j..j + k]);
  }

  function Total(ks: seq<nat>): nat {
    if ks == [] then 0 else Total(ks[..|ks| - 1]) + ks[|ks| - 1]
  }

  /** A history of attempts with one list: each disk is the one before it and what its attempt added. */
  predicate History<S(==)>(run: (S, string) -> Option<S>, list: seq<Migration>, disks: seq<Disk<S>>, ks: seq<nat>) {
    |disks| == |ks| + 1 && forall i :: 0 <= i < |ks| ==> Attempt(run, list, disks[i], disks[i + 1], ks[i])
  }

  /** However often it is interrupted, the ledger and the schema are those of a prefix of the list,
      each migration of it run once. */
  lemma {:induction false} AttemptsKeepPrefix<S>(run: (S, string) -> Option<S>, empty: S, list: seq<Migration>,
                                                 disks: seq<Disk<S>>, ks: seq<nat>)
    requires Ordered(list) && History(run, list, disks, ks) && disks[0] == Disk(empty, map[])
    ensures AtPrefix(run, empty, list, Total(ks), disks[|ks|])
    decreases |ks|
  {
    if ks != [] {
      var n := |ks| - 1;
      AttemptsKeepPrefix(run, empty, list, disks[..n + 1], ks[..n]);
      AttemptKeepsPrefix(run, empty, list, Total(ks[..n]), disks[n], disks[n + 1], ks[n]);
    } else {
      assert list[..0] == [];
    }
  }

  lemma WholePrefix<S>(run: (S, string) -> Option<S>, empty: S, list: seq<Migration>, k: nat, d: Disk<S>)
    requires AtPrefix(run, empty, list, k, d) && k == |list|
    ensures Replay(run, empty, list) == Some(d.schema) && d.ledger == Record(map[], list)
  {
    assert list[..|list|] == list;
  }

  /** Where the last attempt started. */
  lemma BeforeLast<S>(run: (S, string) -> Option<S>, empty: S, list: seq<Migration>, disks: seq<Disk<S>>, ks: seq<nat>)
    returns (j: nat)
    requires Ordered(list) && History(run, list, disks, ks) && disks[0] == Disk(empty, map[]) && ks != []
    ensures AtPrefix(run, empty, list, j, disks[|ks| - 1])
    ensures Attempt(run, list, disks[|ks| - 1], disks[|ks|], ks[|ks| - 1])
  {
    var n := |ks| - 1;
    j := Total(ks[..n]);
    AttemptsKeepPrefix(run, empty, list, disks[..n + 1], ks[..n]);
    assert Attempt(run, list, disks[n], disks[n + 1], ks[n]);
  }

  lemma PendingCount<S>(run: (S, string) -> Option<S>, empty: S, list: seq<Migration>, j: nat, a: Disk<S>)
    requires Ordered(list) && AtPrefix(run, empty, list, j, a)
    ensures |Pending(list, a.ledger)| == |list| - j
  {
    PendingAfterPrefix(list, j);
  }

  lemma Completed<S>(run: (S, string) -> Option<S>, empty: S, list: seq<Migration>, j: nat, a: Disk<S>, b: Disk<S>,
                     k: nat)
    requires Ordered(list) && AtPrefix(run, empty, list, j, a) && Attempt(run, list, a, b, k)
    requires k == |Pending(list, a.ledger)|
    ensures Replay(run, empty, list) == Some(b.schema) && b.ledger == Record(map[], list)
  {
    PendingCount(run, empty, list, j, a);
    AttemptKeepsPrefix(run, empty, list, j, a, b, k);
    WholePrefix(run, empty, list, j + k, b);
  }

  /** And once an attempt succeeds the disk is that of one uninterrupted run from empty. */
  lemma ResumptionIsOneRun<S>(run: (S, string) -> Option<S>, empty: S, list: seq<Migration>, disks: seq<Disk<S>>,
                              ks: seq<nat>)
    requires Ordered(list) && History(run, list, disks, ks) && disks[0] == Disk(empty, map[]) && ks != []
    requires ks[|ks| - 1] == |Pending(list, disks[|ks| - 1].ledger)|
    ensures Replay(run, empty, list) == Some(disks[|ks|].schema) && disks[|ks|].ledger == Record(map[], list)
  {
    var j := BeforeLast(run, empty, list, disks, ks);
    Completed(run, empty, list, j, disks[|ks| - 1], disks[|ks|], ks[|ks| - 1]);
  }

  // ---- More files later ----

  /** Every migration that was not there before has a higher version than all that were. */
  predicate OnlyHigher(list: seq<Migration>, all: seq<Migration>) {
    forall m, p :: m in all && m !in list && p in list ==> m.version > p.version
  }

  lemma InOrderIfHigher(list: seq<Migration>, all: seq<Migration>)
    requires Ordered(list) && Ordered(all) && (forall m :: m in list ==> m in all) && OnlyHigher(list, all)
    ensures list + Pending(all, Record(map[], list)) == all
  {
    HigherComeLast(list, all);
    assert all[..|list|] == list;
    PendingAfterPrefix(all, |list|);
  }

  lemma HigherIfPrefix(list: seq<Migration>, all: seq<Migration>)
    requires Ordered(all) && list <= all
    ensures OnlyHigher(list, all)
  {
    forall m, p | m in all && m !in list && p in list ensures m.version > p.version {
      var i :| 0 <= i < |all| && all[i] == m;
      var j :| 0 <= j < |list| && list[j] == p;
      assert all[j] == p && forall x :: 0 <= x < |list| ==> all[x] in list;
    }
  }

  /** With more files later, those are run after what was there: in the order of a fresh install
      exactly if only higher versions were added. */
  lemma LaterOrder(list: seq<Migration>, all: seq<Migration>)
    requires Ordered(list) && Ordered(all) && forall m :: m in list ==> m in all
    ensures list + Pending(all, Record(map[], list)) == all <==> OnlyHigher(list, all)
  {
    if OnlyHigher(list, all) { InOrderIfHigher(list, all); }
    if list + Pending(all, Record(map[], list)) == all { HigherIfPrefix(list, all); }
  }

  lemma {:induction false} HigherComeLast(list: seq<Migration>, all: seq<Migration>)
    requires Ordered(list) && Ordered(all) && (forall m :: m in list ==> m in all) && OnlyHigher(list, all)
    ensures list <= all
    decreases |all|
  {
    if all != [] {
      var n := |all| - 1;
      var last := all[n];
      if last in list {
        LastOfBoth(list, all);
        OrderedUnique(list, all);
      } else {
        forall m | m in list ensures m in all[..n] { assert m in all && m != last; }
        HigherComeLast(list, all[..n]);
      }
    } else {
      SameEmptiness(list, all);
    }
  }

  /** If the highest was there before, nothing is new. */
  lemma LastOfBoth(list: seq<Migration>, all: seq<Migration>)
    requires Ordered(all) && all != [] && all[|all| - 1] in list && OnlyHigher(list, all)
    ensures forall m :: m in all ==> m in list
  {
    forall m | m in all ensures m in list {
      var i :| 0 <= i < |all| && all[i] == m;
      assert m.version <= all[|all| - 1].version;
    }
  }

  lemma LongerList<S>(run: (S, string) -> Option<S>, empty: S, list: seq<Migration>, all: seq<Migration>, d: Disk<S>)
    requires list <= all && AtPrefix(run, empty, list, |list|, d)
    ensures AtPrefix(run, empty, all, |list|, d)
  {
    assert list[..|list|] == all[..|list|];
  }

  /** Upgrading a complete database with only higher versions added ends as a fresh install of all of them. */
  lemma UpgradeIsFreshInstall<S>(run: (S, string) -> Option<S>, empty: S, list: seq<Migration>, all: seq<Migration>,
                                 a: Disk<S>, b: Disk<S>)
    requires Ordered(list) && Ordered(all) && (forall m :: m in list ==> m in all) && OnlyHigher(list, all)
    requires AtPrefix(run, empty, list, |list|, a) && Attempt(run, all, a, b, |Pending(all, a.ledger)|)
    ensures Replay(run, empty, all) == Some(b.schema) && b.ledger == Record(map[], all)
  {
    HigherComeLast(list, all);
    LongerList(run, empty, list, all, a);
    Completed(run, empty, all, |list|, a, b, |Pending(all, a.ledger)|);
  }

  /** A database that remembers the scripts it has run: no two orders of running them leave it the same. */
  function Remembering(): (seq<string>, string) -> Option<seq<string>> {
    (schema, sql) => Some(schema + [sql])
  }

  lemma {:induction false} Remembers(schema: seq<string>, ms: seq<Migration>)
    ensures Replay(Remembering(), schema, ms) == Some(schema + Scripts(ms))
  {
    if ms != [] {
      var n := |ms| - 1;
      Remembers(schema, ms[..n]);
      assert schema + Scripts(ms) == schema + Scripts(ms[..n]) + [ms[n].sql];
    } else {
      assert schema + Scripts(ms) == schema;
    }
  }

  predicate DistinctScripts(ms: seq<Migration>) {
    forall m, p :: m in ms && p in ms && m.sql == p.sql ==> m == p
  }

  lemma SameScripts(a: seq<Migration>, b: seq<Migration>)
    requires DistinctScripts(b) && (forall m :: m in a ==> m in b) && Scripts(a) == Scripts(b)
    ensures a == b
  {
    forall i | 0 <= i < |a| ensures a[i] == b[i] {
      assert a[i] in b && b[i] in b && Scripts(a)[i] == Scripts(b)[i];
    }
  }

  lemma RemembersFresh(ms: seq<Migration>)
    ensures Replay(Remembering(), [], ms) == Some(Scripts(ms))
  {
    var none: seq<string> := [];
    Remembers(none, ms);
    assert none + Scripts(ms) == Scripts(ms);
  }

  lemma SameOrder(list: seq<Migration>, rest: seq<Migration>, all: seq<Migration>)
    requires DistinctScripts(all) && forall m :: m in list || m in rest ==> m in all
    ensures Scripts(list) + Scripts(rest) == Scripts(all) <==> list + rest == all
  {
    assert Scripts(list) + Scripts(rest) == Scripts(list + rest);
    if Scripts(list + rest) == Scripts(all) { SameScripts(list + rest, all); }
  }

  /** Any lower version added later makes a difference to some database: the one that remembers the scripts run, no two
      of which are the same, is upgraded to what a fresh install leaves exactly if only higher versions were added. */
  lemma LowerVersionDiffers(list: seq<Migration>, all: seq<Migration>)
    requires Ordered(list) && Ordered(all) && (forall m :: m in list ==> m in all) && DistinctScripts(all)
    ensures Replay(Remembering(), [], list) == Some(Scripts(list))
    ensures
      Replay(Remembering(), Scripts(list), Pending(all, Record(map[], list))) == Replay(Remembering(), [], all)
      <==> OnlyHigher(list, all)
  {
    var rest := Pending(all, Record(map[], list));
    RemembersFresh(list);
    RemembersFresh(all);
    Remembers(Scripts(list), rest);
    PendingAmong(all, Record(map[], list));
    LaterOrder(list, all);
    SameOrder(list, rest, all);
  }

  // ---- Versions and names ----

  function Zeros(n: nat): string { seq(n, _ => '0') }

  lemma {:induction false} LeadingZeros(n: nat, digits: string)
    requires AllDigits(digits)
    ensures AllDigits(Zeros(n) + digits) && Value(Zeros(n) + digits) == Value(digits)
    decreases |digits|, n
  {
    if digits != "" {
      var k := |digits| - 1;
      LeadingZeros(n, digits[..k]);
      assert (Zeros(n) + digits)[..n + k] == Zeros(n) + digits[..k];
    } else if n > 0 {
      LeadingZeros(n - 1, "");
      assert (Zeros(n) + "")[..n - 1] == Zeros(n - 1) + "";
    }
  }

  lemma AtoiDigits(digits: string)
    requires digits != "" && AllDigits(digits) && Value(digits) <= MAX_INT
    ensures Atoi(digits) == Some(Value(digits))
  {
    assert IsDigit(digits[0]);
  }

  /** A number, zero-padded or not, before the first underscore is the version. */
  lemma NumberedName(zeros: nat, version: nat, rest: string)
    requires 0 < version <= MAX_INT
    ensures MigrationVersion(Zeros(zeros) + Decimal(version) + "_" + rest) == Some(version)
  {
    var digits := Zeros(zeros) + Decimal(version);
    LeadingZeros(zeros, Decimal(version));
    hide Zeros, Decimal, Value, AllDigits, Atoi, Strings.CutAt;
    AtoiDigits(digits);
    var name := digits + "_" + rest;
    Strings.CutAfter(digits, '_', rest);
    assert name[..|digits|] == digits;
  }
}
