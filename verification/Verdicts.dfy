/** What the rules' verdicts say of a line's text and its service. */
module Verdicts {
  import opened Options
  import opened Pipeline
  import opened Processor
  import opened Rules

  /** The rule looks at the text, or at the service where it is a service rule; of fields a line has none. */
  ghost predicate Hits(p: Patterns, r: Rule, service: string, text: string) {
    match r.matcher
    case ByContains => exists a, b :: text == a + r.pattern + b
    case ByPrefix => exists b :: text == r.pattern + b
    case BySuffix => exists a :: text == a + r.pattern
    case ByRegex => p.regex(r.pattern, text)
    case ByServicePattern =>
      if IsGlob(r.pattern) then p.glob(r.pattern, service) == Some(true) else service == r.pattern
    case ByFieldEquals => r.pattern == ""
    case ByFieldContains => r.pattern == ""
    case OtherMatcher(_) => false
  }

  /** With one of the characters that `filepath.Match` gives a meaning to. */
  predicate IsGlob(pattern: string) {
    exists i :: 0 <= i < |pattern| && (pattern[i] == '*' || pattern[i] == '?' || pattern[i] == '[')
  }

  /** A rule that matched: ignored, or raised with the severity of its action. */
  predicate Says(r: Rule, v: Verdict) {
    match r.action
    case Ignore => v == Ignored(r.id)
    case Escalate => v == Raised(r.id, "critical")
    case Report => v == Raised(r.id, "warning")
    case Analyze => v == Raised(r.id, "error")
    case Group => v == Raised(r.id, "unknown")
    case OtherAction(_) => v == Raised(r.id, "unknown")
  }

  lemma ContainsIs(s: string, sub: string)
    ensures Contains(s, sub) <==> exists a, b :: s == a + sub + b
  {
    if Contains(s, sub) {
      var i: nat :| i <= |s| && OccursAt(s, sub, i);
      assert s == s[..i] + sub + s[i + |sub|..];
    }
    if a, b :| s == a + sub + b {
      assert OccursAt(s, sub, |a|);
    }
  }

  lemma PrefixIs(s: string, front: string)
    ensures front <= s <==> exists b :: s == front + b
  {
    if front <= s { assert s == front + s[|front|..]; }
  }

  lemma SuffixIs(s: string, back: string)
    ensures HasSuffix(s, back) <==> exists a :: s == a + back
  {
    if HasSuffix(s, back) { assert s == s[..|s| - |back|] + back; }
    if a :| s == a + back { assert s[|s| - |back|..] == back; }
  }

  lemma MatchesIsHits(p: Patterns, r: Rule, service: string, text: string)
    ensures Matches(p, r, Context(service, text)) <==> Hits(p, r, service, text)
  {
    ContainsIs(text, r.pattern);
    PrefixIs(text, r.pattern);
    SuffixIs(text, r.pattern);
    ContainsEmpty(r.pattern);
  }

  lemma ContainsEmpty(sub: string)
    ensures Contains("", sub) <==> sub == ""
  {
    if sub == "" { assert OccursAt("", sub, 0); }
  }

  /** The rule wins: it is enabled and looks at the line, and no other that does is tried before it. */
  ghost predicate Wins(p: Patterns, rules: seq<Rule>, m: Rule, service: string, text: string) {
    && m in rules && m.enabled && Hits(p, m, service, text)
    && forall r :: r in rules && r.enabled && Hits(p, r, service, text) ==> NoLater(m, r)
  }

  /** The verdict on a line is what the winning rule says, and there is none if and only if no enabled rule looks at
      it. */
  lemma EveryVerdict(p: Patterns, rules: seq<Rule>, w: World, service: string, text: string)
    requires Ruled(p, rules, w)
    ensures w.verdict(service, text).Unmatched? <==>
      forall r :: r in rules && r.enabled ==> !Hits(p, r, service, text)
    ensures !w.verdict(service, text).Unmatched? ==>
      exists m :: Wins(p, rules, m, service, text) && Says(m, w.verdict(service, text))
  {
    var ctx := Context(service, text);
    var d := Decide(p, rules, ctx);
    DecideIsBest(p, rules, ctx);
    forall r ensures Matches(p, r, ctx) <==> Hits(p, r, service, text) { MatchesIsHits(p, r, service, text); }
    hide Matches, Hits, Context, NoLater;
    if d.Some? {
      forall r | r in rules && r.enabled && Hits(p, r, service, text) ensures NoLater(d.value, r) {
        WinnerInFields(p, rules, ctx, r);
      }
      assert Wins(p, rules, d.value, service, text) && Says(d.value, w.verdict(service, text));
    } else {
      forall r | r in rules && r.enabled ensures !Hits(p, r, service, text) {
        var i :| 0 <= i < |rules| && rules[i] == r;
        assert !Applies(p, rules[i], ctx);
      }
    }
  }

  /** One enabled rule that looks at the text, and is not for ignoring: a line is raised if and only if its text
      contains, starts with, ends with or matches the pattern, whatever the service. */
  lemma OneTextRule(p: Patterns, r: Rule, w: World, service: string, text: string)
    requires Ruled(p, [r], w) && r.enabled && !r.action.Ignore?
    ensures r.matcher.ByContains? ==> (w.verdict(service, text).Raised? <==> exists a, b :: text == a + r.pattern + b)
    ensures r.matcher.ByPrefix? ==> (w.verdict(service, text).Raised? <==> exists b :: text == r.pattern + b)
    ensures r.matcher.BySuffix? ==> (w.verdict(service, text).Raised? <==> exists a :: text == a + r.pattern)
    ensures r.matcher.ByRegex? ==> (w.verdict(service, text).Raised? <==> p.regex(r.pattern, text))
    ensures w.verdict(service, text).Raised? ==> w.verdict(service, text).rule == r.id
  {
    OneRule(p, r, w, service, text);
  }

  lemma OneRule(p: Patterns, r: Rule, w: World, service: string, text: string)
    requires Ruled(p, [r], w) && r.enabled
    ensures if Hits(p, r, service, text) then Says(r, w.verdict(service, text)) else w.verdict(service, text).Unmatched?
  {
    EveryVerdict(p, [r], w, service, text);
    hide Hits, NoLater, Says, Ruled;
    assert r in [r];
  }

  /** One enabled service rule without glob characters: if and only if the service is the pattern, whatever the text. */
  lemma OneServiceRule(p: Patterns, r: Rule, w: World, service: string, text: string)
    requires Ruled(p, [r], w) && r.enabled && !r.action.Ignore? && r.matcher.ByServicePattern?
    requires '*' !in r.pattern && '?' !in r.pattern && '[' !in r.pattern
    ensures w.verdict(service, text).Raised? <==> service == r.pattern
  {
    OneRule(p, r, w, service, text);
  }

  /** Ignoring, under the same conditions. */
  lemma OneIgnoringRule(p: Patterns, r: Rule, w: World, service: string, text: string)
    requires Ruled(p, [r], w) && r.enabled && r.action.Ignore?
    ensures w.verdict(service, text).Ignored? ==> w.verdict(service, text) == Ignored(r.id)
    ensures !w.verdict(service, text).Raised?
    ensures r.matcher.ByContains? ==> (w.verdict(service, text).Ignored? <==> exists a, b :: text == a + r.pattern + b)
    ensures r.matcher.ByPrefix? ==> (w.verdict(service, text).Ignored? <==> exists b :: text == r.pattern + b)
    ensures r.matcher.BySuffix? ==> (w.verdict(service, text).Ignored? <==> exists a :: text == a + r.pattern)
    ensures r.matcher.ByRegex? ==> (w.verdict(service, text).Ignored? <==> p.regex(r.pattern, text))
    ensures r.matcher.ByServicePattern? && '*' !in r.pattern && '?' !in r.pattern && '[' !in r.pattern ==>
      (w.verdict(service, text).Ignored? <==> service == r.pattern)
  {
    OneRule(p, r, w, service, text);
  }

  /** Without service rules the service does not matter to the verdict; with service rules alone, the text does not. */
  lemma VerdictLooksAt(p: Patterns, rules: seq<Rule>, w: World, service: string, other: string, text: string,
                       line: string)
    requires Ruled(p, rules, w)
    ensures (forall r :: r in rules && r.enabled ==> !r.matcher.ByServicePattern?) ==>
      w.verdict(service, text) == w.verdict(other, text)
    ensures (forall r :: r in rules && r.enabled ==> r.matcher.ByServicePattern?) ==>
      w.verdict(service, text) == w.verdict(service, line)
  {
    if forall r :: r in rules && r.enabled ==> !r.matcher.ByServicePattern? {
      SameDecision(p, rules, Context(service, text), Context(other, text));
    }
    if forall r :: r in rules && r.enabled ==> r.matcher.ByServicePattern? {
      SameDecision(p, rules, Context(service, text), Context(service, line));
    }
  }

  /** What the enabled rules cannot tell apart they decide alike. */
  lemma {:induction false} SameDecision(p: Patterns, rules: seq<Rule>, a: LineContext, b: LineContext)
    requires forall r :: r in rules && r.enabled ==> Matches(p, r, a) == Matches(p, r, b)
    ensures Decide(p, rules, a) == Decide(p, rules, b)
  {
    if rules != [] {
      var n := |rules| - 1;
      assert rules == rules[..n] + [rules[n]];
      SameDecision(p, rules[..n], a, b);
      hide Decide, Matches;
      DecideOneMore(p, rules[..n], rules[n], a);
      DecideOneMore(p, rules[..n], rules[n], b);
    }
  }
}
