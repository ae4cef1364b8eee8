/** internal/rules/engine.go: ordered first-match evaluation of the loaded rules. */
module Rules {
  import opened Options
  import opened Strings

  /** The texts the code knows for a matcher, an action and a source; any other text is `Other...`. */
  datatype Matcher =
    | ByContains | ByPrefix | BySuffix | ByRegex | ByFieldEquals | ByFieldContains | ByServicePattern
    | OtherMatcher(text: string)
  datatype Action = Ignore | Analyze | Group | Escalate | Report | OtherAction(text: string)
  datatype Source =
    SystemDefault | LLMGenerated | AdminCreated | AdminOverride | LLMModified | OtherSource(text: string)

  datatype Rule = Rule(
    id: int, name: string, source: Source, matcher: Matcher, pattern: string, field: string,
    action: Action, priority: int, enabled: bool)

  datatype LineContext = LineContext(line: string, service: string, fields: map<string, string>)

  /** Go's `regexp` and `filepath.Match`, which this model does not define. A glob that is malformed gives None. */
  datatype Patterns = Patterns(
    compiles: string -> bool, regex: (string, string) -> bool, glob: (string, string) -> Option<bool>)

  datatype CompileResult =
    Compiled | NameRequired | PatternRequired | ActionRequired | FieldRequired | BadRegex | UnsupportedMatcher

  function Compile(p: Patterns, rule: Rule): CompileResult {
    if TrimSpace(rule.name) == "" then NameRequired
    else if TrimSpace(rule.pattern) == "" then PatternRequired
    else if rule.action == OtherAction("") then ActionRequired
    else match rule.matcher
      case ByContains | ByPrefix | BySuffix | ByServicePattern => Compiled
      case ByFieldEquals | ByFieldContains => if TrimSpace(rule.field) == "" then FieldRequired else Compiled
      case ByRegex => if p.compiles(rule.pattern) then Compiled else BadRegex
      case OtherMatcher(_) => UnsupportedMatcher
  }

  predicate OccursAt(s: string, sub: string, i: nat) {
    i + |sub| <= |s| && s[i..i + |sub|] == sub
  }

  predicate Contains(s: string, sub: string) {
    exists i: nat :: i <= |s| && OccursAt(s, sub, i)
  }

  predicate HasSuffix(s: string, suffix: string) {
    |suffix| <= |s| && s[|s| - |suffix|..] == suffix
  }

  function FieldOf(ctx: LineContext, field: string): string {
    if field in ctx.fields then ctx.fields[field] else ""
  }

  predicate FilepathMatch(p: Patterns, pattern: string, value: string) {
    if '*' in pattern || '?' in pattern || '[' in pattern then p.glob(pattern, value) == Some(true)
    else pattern == value
  }

  predicate Matches(p: Patterns, rule: Rule, ctx: LineContext) {
    match rule.matcher
    case ByContains => Contains(ctx.line, rule.pattern)
    case ByPrefix => rule.pattern <= ctx.line
    case BySuffix => HasSuffix(ctx.line, rule.pattern)
    case ByRegex => p.regex(rule.pattern, ctx.line)
    case ByFieldEquals => FieldOf(ctx, rule.field) == rule.pattern
    case ByFieldContains => Contains(FieldOf(ctx, rule.field), rule.pattern)
    case ByServicePattern => FilepathMatch(p, rule.pattern, ctx.service)
    case OtherMatcher(_) => false
  }

  function SourceRank(source: Source): nat {
    match source
    case AdminOverride => 0
    case AdminCreated => 1
    case LLMModified => 2
    case SystemDefault => 3
    case LLMGenerated => 4
    case OtherSource(_) => 5
  }

  /** The order the engine tries rules in. */
  predicate Precedes(a: Rule, b: Rule) {
    if SourceRank(a.source) != SourceRank(b.source) then SourceRank(a.source) < SourceRank(b.source)
    else if a.priority != b.priority then a.priority < b.priority
    else a.id < b.id
  }

  // ---- Sorting ----

  /** `sort.SliceStable`, rule by rule: each goes after those it does not precede. */
  function Insert(rule: Rule, sorted: seq<Rule>): seq<Rule> {
    if sorted == [] then [rule]
    else if Precedes(rule, sorted[|sorted| - 1]) then Insert(rule, sorted[..|sorted| - 1]) + [sorted[|sorted| - 1]]
    else sorted + [rule]
  }

  function StableSort(rules: seq<Rule>): seq<Rule> {
    if rules == [] then [] else Insert(rules[|rules| - 1], StableSort(rules[..|rules| - 1]))
  }

  function EnabledOnly(rules: seq<Rule>): seq<Rule> {
    if rules == [] then [] else
      EnabledOnly(rules[..|rules| - 1]) + if rules[|rules| - 1].enabled then [rules[|rules| - 1]] else []
  }

  /** Whether a rule is no obstacle to building an engine. */
  function Usable(p: Patterns): Rule -> bool {
    (rule: Rule) => rule.enabled ==> Compile(p, rule).Compiled?
  }

  predicate AllUpTo(ok: Rule -> bool, rules: seq<Rule>, n: nat)
    requires n <= |rules|
  {
    forall i :: 0 <= i < n ==> ok(rules[i])
  }

  predicate AllCompile(p: Patterns, rules: seq<Rule>) {
    AllUpTo(Usable(p), rules, |rules|)
  }

  lemma EnabledOnlyStep(rules: seq<Rule>, i: nat)
    requires i < |rules|
    ensures EnabledOnly(rules[..i + 1]) == EnabledOnly(rules[..i]) + if rules[i].enabled then [rules[i]] else []
  {
    assert rules[..i + 1][..i] == rules[..i];
  }

  lemma AllUpToStep(ok: Rule -> bool, rules: seq<Rule>, i: nat)
    requires i < |rules| && AllUpTo(ok, rules, i)
    ensures AllUpTo(ok, rules, i + 1) <==> ok(rules[i])
    ensures AllUpTo(ok, rules, |rules|) ==> ok(rules[i])
  {
  }

  /** The engine's rule list, or None where a rule does not compile. */
  method NewEngine(p: Patterns, rules: seq<Rule>) returns (engine: Option<seq<Rule>>)
    ensures engine.Some? <==> AllCompile(p, rules)
    ensures engine.Some? ==> engine.value == StableSort(EnabledOnly(rules))
  {
    var compiled: seq<Rule> := [];
    for i := 0 to |rules|
      invariant compiled == EnabledOnly(rules[..i])
      invariant AllUpTo(Usable(p), rules, i)
    {
      EnabledOnlyStep(rules, i);
      AllUpToStep(Usable(p), rules, i);
      if !rules[i].enabled {
        continue;
      }
      if !Compile(p, rules[i]).Compiled? {
        return None;
      }
      compiled := compiled + [rules[i]];
    }
    assert rules[..|rules|] == rules;
    return Some(StableSort(compiled));
  }

  function FirstMatch(p: Patterns, rules: seq<Rule>, ctx: LineContext): Option<Rule> {
    if rules == [] then None
    else if Matches(p, rules[0], ctx) then Some(rules[0])
    else FirstMatch(p, rules[1..], ctx)
  }

  method Match(p: Patterns, engine: seq<Rule>, ctx: LineContext) returns (m: Option<Rule>)
    ensures m == FirstMatch(p, engine, ctx)
  {
    for i := 0 to |engine|
      invariant FirstMatch(p, engine, ctx) == FirstMatch(p, engine[i..], ctx)
    {
      if Matches(p, engine[i], ctx) {
        return Some(engine[i]);
      }
      assert engine[i..][1..] == engine[i + 1..];
    }
    return None;
  }

  /** What `NewEngine` followed by `Match` answers. */
  function Decide(p: Patterns, rules: seq<Rule>, ctx: LineContext): Option<Rule> {
    FirstMatch(p, StableSort(EnabledOnly(rules)), ctx)
  }

  // ---- The declarative reading ----

  /** `r` applies to the line. */
  predicate Applies(p: Patterns, r: Rule, ctx: LineContext) {
    r.enabled && Matches(p, r, ctx)
  }

  lemma PrecedesIsStrictWeakOrder(a: Rule, b: Rule, c: Rule)
    ensures !(Precedes(a, b) && Precedes(b, a))
    ensures Precedes(a, b) && Precedes(b, c) ==> Precedes(a, c)
    ensures !Precedes(a, b) && !Precedes(b, c) ==> !Precedes(a, c)
  {
  }

  /** One more rule, loaded last, wins exactly if it applies and nothing applied before or it precedes the winner. */
  function Better(p: Patterns, winner: Option<Rule>, rule: Rule, ctx: LineContext): Option<Rule> {
    if Applies(p, rule, ctx) && (winner.None? || Precedes(rule, winner.value)) then Some(rule) else winner
  }

  predicate Sorted(rules: seq<Rule>) {
    forall i, j :: 0 <= i < j < |rules| ==> !Precedes(rules[j], rules[i])
  }

  lemma {:induction false} InsertKeepsRules(rule: Rule, sorted: seq<Rule>)
    ensures multiset(Insert(rule, sorted)) == multiset(sorted) + multiset{rule}
  {
    if sorted != [] {
      var n := |sorted| - 1;
      assert sorted == sorted[..n] + [sorted[n]];
      InsertKeepsRules(rule, sorted[..n]);
    }
  }

  /** Nothing in `rules` is preceded by `last`. */
  predicate NoneAfter(rules: seq<Rule>, last: Rule) {
    forall i :: 0 <= i < |rules| ==> !Precedes(last, rules[i])
  }

  lemma SortedAppend(rules: seq<Rule>, last: Rule)
    requires Sorted(rules) && NoneAfter(rules, last)
    ensures Sorted(rules + [last])
  {
  }

  lemma InsertBefore(rule: Rule, init: seq<Rule>, last: Rule)
    requires NoneAfter(init, last) && Precedes(rule, last)
    ensures NoneAfter(Insert(rule, init), last)
  {
    var r := Insert(rule, init);
    InsertKeepsRules(rule, init);
    forall i | 0 <= i < |r| ensures !Precedes(last, r[i]) {
      assert r[i] in multiset(r);
      if r[i] != rule { assert r[i] in multiset(init); } else { PrecedesIsStrictWeakOrder(rule, last, rule); }
    }
  }

  lemma {:induction false} InsertSorted(rule: Rule, sorted: seq<Rule>)
    requires Sorted(sorted)
    ensures Sorted(Insert(rule, sorted))
  {
    if sorted != [] {
      var n := |sorted| - 1;
      var last := sorted[n];
      if Precedes(rule, last) {
        InsertSorted(rule, sorted[..n]);
        assert NoneAfter(sorted[..n], last);
        InsertBefore(rule, sorted[..n], last);
        SortedAppend(Insert(rule, sorted[..n]), last);
      } else {
        forall i | 0 <= i <= n ensures !Precedes(rule, sorted[i]) {
          if i < n { PrecedesIsStrictWeakOrder(rule, last, sorted[i]); }
        }
        SortedAppend(sorted, rule);
      }
    }
  }

  lemma {:induction false} StableSortSorts(rules: seq<Rule>)
    ensures Sorted(StableSort(rules)) && multiset(StableSort(rules)) == multiset(rules)
  {
    if rules != [] {
      var n := |rules| - 1;
      StableSortSorts(rules[..n]);
      InsertSorted(rules[n], StableSort(rules[..n]));
      InsertKeepsRules(rules[n], StableSort(rules[..n]));
      assert rules == rules[..n] + [rules[n]];
    }
  }

  lemma {:induction false} FirstMatchConcat(p: Patterns, a: seq<Rule>, b: seq<Rule>, ctx: LineContext)
    ensures FirstMatch(p, a + b, ctx) ==
      if FirstMatch(p, a, ctx).Some? then FirstMatch(p, a, ctx) else FirstMatch(p, b, ctx)
  {
    if a == [] {
      assert a + b == b;
    } else {
      assert (a + b)[1..] == a[1..] + b;
      FirstMatchConcat(p, a[1..], b, ctx);
    }
  }

  lemma {:induction false} FirstMatchIn(p: Patterns, rules: seq<Rule>, ctx: LineContext)
    ensures var m := FirstMatch(p, rules, ctx); m.Some? ==> m.value in rules && Matches(p, m.value, ctx)
  {
    if rules != [] {
      FirstMatchIn(p, rules[1..], ctx);
    }
  }

  /** Inserting a rule changes the first match only by offering the new rule. */
  lemma {:induction false} InsertMatch(p: Patterns, rule: Rule, sorted: seq<Rule>, ctx: LineContext)
    requires Sorted(sorted)
    ensures var was := FirstMatch(p, sorted, ctx);
      FirstMatch(p, Insert(rule, sorted), ctx) ==
        if Matches(p, rule, ctx) && (was.None? || Precedes(rule, was.value)) then Some(rule) else was
  {
    if sorted != [] {
      var n := |sorted| - 1;
      var last := sorted[n];
      var init := sorted[..n];
      assert sorted == init + [last];
      FirstMatchConcat(p, init, [last], ctx);
      if Precedes(rule, last) {
        InsertMatch(p, rule, init, ctx);
        FirstMatchConcat(p, Insert(rule, init), [last], ctx);
      } else {
        FirstMatchConcat(p, sorted, [rule], ctx);
        FirstMatchIn(p, sorted, ctx);
        var was := FirstMatch(p, sorted, ctx);
        if was.Some? {
          var i :| 0 <= i <= n && sorted[i] == was.value;
          if i < n { PrecedesIsStrictWeakOrder(rule, last, was.value); }
        }
      }
    }
  }

  /** Adding a rule to those loaded. */
  lemma DecideOneMore(p: Patterns, rules: seq<Rule>, rule: Rule, ctx: LineContext)
    ensures Decide(p, rules + [rule], ctx) == Better(p, Decide(p, rules, ctx), rule, ctx)
  {
    assert (rules + [rule])[..|rules|] == rules;
    if rule.enabled {
      var es := EnabledOnly(rules);
      assert (es + [rule])[..|es|] == es;
      StableSortSorts(es);
      InsertMatch(p, rule, StableSort(es), ctx);
    } else {
      assert EnabledOnly(rules) + [] == EnabledOnly(rules);
    }
  }

  /** The answer is the earliest-loaded of the least applicable rules, and None exactly when no rule applies. */
  predicate IsBest(p: Patterns, rules: seq<Rule>, ctx: LineContext, answer: Option<Rule>) {
    if answer.None? then forall i :: 0 <= i < |rules| ==> !Applies(p, rules[i], ctx)
    else exists k :: 0 <= k < |rules| && rules[k] == answer.value && IsWinner(p, rules, ctx, k)
  }

  predicate IsWinner(p: Patterns, rules: seq<Rule>, ctx: LineContext, k: nat)
    requires k < |rules|
  {
    && Applies(p, rules[k], ctx)
    && (forall i :: 0 <= i < |rules| && Applies(p, rules[i], ctx) ==> !Precedes(rules[i], rules[k]))
    && (forall i :: 0 <= i < k && Applies(p, rules[i], ctx) ==> Precedes(rules[k], rules[i]))
  }

  lemma {:induction false} DecideIsBest(p: Patterns, rules: seq<Rule>, ctx: LineContext)
    ensures IsBest(p, rules, ctx, Decide(p, rules, ctx))
  {
    if rules != [] {
      var n := |rules| - 1;
      var init := rules[..n];
      DecideIsBest(p, init, ctx);
      assert rules == init + [rules[n]];
      DecideOneMore(p, init, rules[n], ctx);
      BestExtends(p, init, rules[n], ctx, Decide(p, init, ctx));
    }
  }

  lemma BestExtends(p: Patterns, rules: seq<Rule>, rule: Rule, ctx: LineContext, was: Option<Rule>)
    requires IsBest(p, rules, ctx, was)
    ensures IsBest(p, rules + [rule], ctx, Better(p, was, rule, ctx))
  {
    var all := rules + [rule];
    var n := |rules|;
    var now := Better(p, was, rule, ctx);
    if was.Some? {
      var k :| 0 <= k < n && rules[k] == was.value && IsWinner(p, rules, ctx, k);
      if now == was && !(Applies(p, rule, ctx) && Precedes(rule, was.value)) {
        assert all[k] == was.value && IsWinner(p, all, ctx, k);
      } else {
        forall i | 0 <= i < n && Applies(p, rules[i], ctx) ensures Precedes(rule, rules[i]) {
          PrecedesTrans(rule, rules[k], rules[i]);
        }
        PrecedesIsStrictWeakOrder(rule, rule, rule);
        forall i | 0 <= i <= n && Applies(p, all[i], ctx) ensures !Precedes(all[i], all[n]) {
          if i < n { PrecedesIsStrictWeakOrder(rule, rules[i], rule); }
        }
        assert IsWinner(p, all, ctx, n);
      }
    } else if now.Some? {
      PrecedesIsStrictWeakOrder(rule, rule, rule);
      assert forall i :: 0 <= i < n ==> all[i] == rules[i];
      assert IsWinner(p, all, ctx, n);
    } else {
      assert forall i :: 0 <= i < n ==> all[i] == rules[i];
    }
  }

  lemma PrecedesTrans(a: Rule, b: Rule, c: Rule)
    requires Precedes(a, b) && !Precedes(c, b)
    ensures Precedes(a, c)
  {
  }

  // ---- The order, in terms of the rules' own fields ----

  /** Of rules of one source: a lower priority number, or the same and no higher id. */
  predicate ByNumber(m: Rule, r: Rule) {
    m.priority < r.priority || (m.priority == r.priority && m.id <= r.id)
  }

  /** Administrators' overrides first, then what they created, what a model modified, the defaults, what a model
      generated, and anything else. */
  predicate NoLater(m: Rule, r: Rule) {
    match r.source
    case AdminOverride => m.source.AdminOverride? && ByNumber(m, r)
    case AdminCreated => m.source.AdminOverride? || (m.source.AdminCreated? && ByNumber(m, r))
    case LLMModified =>
      m.source.AdminOverride? || m.source.AdminCreated? || (m.source.LLMModified? && ByNumber(m, r))
    case SystemDefault =>
      !m.source.LLMGenerated? && !m.source.OtherSource? && (m.source.SystemDefault? ==> ByNumber(m, r))
    case LLMGenerated => !m.source.OtherSource? && (m.source.LLMGenerated? ==> ByNumber(m, r))
    case OtherSource(_) => m.source.OtherSource? ==> ByNumber(m, r)
  }

  lemma NotPreceded(m: Rule, r: Rule)
    ensures !Precedes(r, m) <==> NoLater(m, r)
  {
  }

  /** So are the rules of an engine tried. */
  lemma EngineOrder(rules: seq<Rule>, i: nat, j: nat)
    requires i < j < |StableSort(rules)|
    ensures NoLater(StableSort(rules)[i], StableSort(rules)[j])
  {
    StableSortSorts(rules);
    NotPreceded(StableSort(rules)[i], StableSort(rules)[j]);
  }

  /** The answer is an applicable rule of the list, and no applicable rule is of an earlier source, nor of its source
      with a lower priority number, nor of both with a lower id; and there is one if any rule applies. */
  lemma WinnerInFields(p: Patterns, rules: seq<Rule>, ctx: LineContext, r: Rule)
    requires r in rules && Applies(p, r, ctx)
    ensures var d := Decide(p, rules, ctx);
      d.Some? && d.value in rules && Applies(p, d.value, ctx) && NoLater(d.value, r)
  {
    DecideIsBest(p, rules, ctx);
    var i :| 0 <= i < |rules| && rules[i] == r;
    NotPreceded(Decide(p, rules, ctx).value, r);
  }

  // ---- What compiles ----

  /** A rule compiles if and only if its name and pattern are more than space, it has an action, and its matcher is
      one of the seven, with a field that is more than space where it looks at one, and an expression that compiles. */
  lemma CompilesIf(p: Patterns, rule: Rule)
    ensures Compile(p, rule).Compiled? <==>
      && !AllSpace(rule.name) && !AllSpace(rule.pattern) && rule.action != OtherAction("")
      && !rule.matcher.OtherMatcher?
      && (rule.matcher.ByFieldEquals? || rule.matcher.ByFieldContains? ==> !AllSpace(rule.field))
      && (rule.matcher.ByRegex? ==> p.compiles(rule.pattern))
  {
    SpaceTrims(rule.name);
    SpaceTrims(rule.pattern);
    SpaceTrims(rule.field);
    hide TrimSpace, AllSpace;
  }

  lemma SpaceTrims(s: string)
    ensures TrimSpace(s) == "" <==> AllSpace(s)
  {
    var front, back := TrimSpaceIs(s);
    var trimmed := TrimSpace(s);
    hide TrimSpace;
    if trimmed == "" {
      assert s == front + back;
    } else {
      assert s[|front|] == trimmed[0];
    }
  }

  predicate DistinctIds(rules: seq<Rule>) {
    forall i, j :: 0 <= i < j < |rules| ==> rules[i].id != rules[j].id
  }

  /** Some rule applies. */
  predicate SomeApplies(p: Patterns, rules: seq<Rule>, ctx: LineContext) {
    exists i :: 0 <= i < |rules| && Applies(p, rules[i], ctx)
  }

  lemma BestExists(p: Patterns, rules: seq<Rule>, ctx: LineContext)
    ensures Decide(p, rules, ctx).Some? <==> SomeApplies(p, rules, ctx)
  {
    DecideIsBest(p, rules, ctx);
  }

  lemma SomeAppliesAnywhere(p: Patterns, rules: seq<Rule>, shuffled: seq<Rule>, ctx: LineContext)
    requires multiset(shuffled) == multiset(rules) && SomeApplies(p, rules, ctx)
    ensures SomeApplies(p, shuffled, ctx)
  {
    var i :| 0 <= i < |rules| && Applies(p, rules[i], ctx);
    assert rules[i] in multiset(shuffled);
  }

  /** With distinct ids the order in which rules are loaded does not matter. */
  lemma LoadOrderIsIrrelevant(p: Patterns, rules: seq<Rule>, shuffled: seq<Rule>, ctx: LineContext)
    requires DistinctIds(rules) && multiset(shuffled) == multiset(rules)
    ensures Decide(p, shuffled, ctx) == Decide(p, rules, ctx)
  {
    BestExists(p, rules, ctx);
    BestExists(p, shuffled, ctx);
    if SomeApplies(p, rules, ctx) {
      SomeAppliesAnywhere(p, rules, shuffled, ctx);
      DecideIsBest(p, rules, ctx);
      DecideIsBest(p, shuffled, ctx);
      SameWinner(p, rules, shuffled, ctx, Decide(p, rules, ctx).value, Decide(p, shuffled, ctx).value);
    } else if SomeApplies(p, shuffled, ctx) {
      SomeAppliesAnywhere(p, shuffled, rules, ctx);
    }
  }

  lemma SameWinner(p: Patterns, rules: seq<Rule>, shuffled: seq<Rule>, ctx: LineContext, a: Rule, b: Rule)
    requires DistinctIds(rules) && multiset(shuffled) == multiset(rules)
    requires exists k :: 0 <= k < |rules| && rules[k] == a && IsWinner(p, rules, ctx, k)
    requires exists j :: 0 <= j < |shuffled| && shuffled[j] == b && IsWinner(p, shuffled, ctx, j)
    ensures a == b
  {
    var k :| 0 <= k < |rules| && rules[k] == a && IsWinner(p, rules, ctx, k);
    var j :| 0 <= j < |shuffled| && shuffled[j] == b && IsWinner(p, shuffled, ctx, j);
    assert rules[k] in multiset(shuffled) && shuffled[j] in multiset(rules);
    var i :| 0 <= i < |rules| && rules[i] == b;
    assert !Precedes(b, a) && !Precedes(a, b);
  }

  // ---- Loading only the enabled rules changes nothing ----

  lemma {:induction false} EnabledTwice(rules: seq<Rule>)
    ensures EnabledOnly(EnabledOnly(rules)) == EnabledOnly(rules)
  {
    if rules != [] {
      var n := |rules| - 1;
      var es := EnabledOnly(rules[..n]);
      EnabledTwice(rules[..n]);
      if rules[n].enabled { assert (es + [rules[n]])[..|es|] == es; } else { assert es + [] == es; }
    }
  }

  lemma {:induction false} EnabledAmong(rules: seq<Rule>)
    ensures forall r :: r in EnabledOnly(rules) ==> r in rules
  {
    if rules != [] { EnabledAmong(rules[..|rules| - 1]); }
  }

  lemma {:induction false} EnabledDistinct(rules: seq<Rule>)
    requires DistinctIds(rules)
    ensures DistinctIds(EnabledOnly(rules))
  {
    if rules != [] {
      var n := |rules| - 1;
      EnabledDistinct(rules[..n]);
      EnabledAmong(rules[..n]);
      forall r | r in EnabledOnly(rules[..n]) ensures r.id != rules[n].id {
        var i :| 0 <= i < n && rules[i] == r;
      }
    }
  }

  /** The engine of the enabled rules, loaded in any order, decides as all the rules do. */
  lemma EngineDecides(p: Patterns, rules: seq<Rule>, loaded: seq<Rule>, ctx: LineContext)
    requires DistinctIds(rules) && multiset(loaded) == multiset(EnabledOnly(rules))
    ensures Decide(p, loaded, ctx) == Decide(p, rules, ctx)
  {
    EnabledTwice(rules);
    EnabledDistinct(rules);
    LoadOrderIsIrrelevant(p, EnabledOnly(rules), loaded, ctx);
  }

  /** If every enabled rule compiles, so does whatever is loaded of them. */
  lemma LoadedCompile(p: Patterns, rules: seq<Rule>, loaded: seq<Rule>)
    requires multiset(loaded) == multiset(EnabledOnly(rules))
    ensures AllCompile(p, rules) ==> AllCompile(p, loaded)
  {
    EnabledAmong(rules);
    if AllCompile(p, rules) {
      AllCompileIn(Usable(p), rules, loaded);
    }
  }

  lemma AllCompileIn(ok: Rule -> bool, rules: seq<Rule>, loaded: seq<Rule>)
    requires AllUpTo(ok, rules, |rules|) && multiset(loaded) == multiset(EnabledOnly(rules))
    requires forall r :: r in EnabledOnly(rules) ==> r in rules
    ensures AllUpTo(ok, loaded, |loaded|)
  {
    forall i | 0 <= i < |loaded| ensures ok(loaded[i]) {
      SameElements(loaded, EnabledOnly(rules), loaded[i]);
      var j :| 0 <= j < |rules| && rules[j] == loaded[i];
    }
  }

  lemma SameElements(a: seq<Rule>, b: seq<Rule>, r: Rule)
    requires multiset(a) == multiset(b) && r in a
    ensures r in b
  {
    assert r in multiset(a);
  }
}
