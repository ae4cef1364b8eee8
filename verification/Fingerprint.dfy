/** internal/events/fingerprint.go: the normalised line and the grouping key. */
module Fingerprint {
  import opened Numbers
  import opened Options
  import opened Regex
  import opened Strings
  import opened Words

  // ---- The five patterns, item by item ----

  const TIME_OF_DAY: Pattern :=
    One(Digit, One(Digit, One(Only(':'), One(Digit, One(Digit, One(Only(':'),
    One(Digit, One(Digit, Boundary(Accept)))))))))

  const ISO_TIMESTAMP: Pattern :=
    Boundary(One(Digit, One(Digit, One(Digit, One(Digit, One(Only('-'),
    One(Digit, One(Digit, One(Only('-'), One(Digit, One(Digit, One(TimeMark, Plus(Stamp, Boundary(Accept))))))))))))))

  const SYSLOG_TIMESTAMP: Pattern :=
    Boundary(One(Letter, One(Letter, One(Letter, Plus(Space, OneOrTwo(Digit, Plus(Space, TIME_OF_DAY)))))))

  const HEX: Pattern := Boundary(One(Only('0'), One(Only('x'), Plus(HexDigit, Boundary(Accept)))))

  const NUMBER: Pattern := Boundary(Plus(Digit, Boundary(Accept)))

  const SPACES: Pattern := Plus(Space, Accept)

  function Clean(line: string): string {
    ToLower(TrimSpace(line))
  }

  function EraseTimes(s: string): string {
    ReplaceAll(SYSLOG_TIMESTAMP, ReplaceAll(ISO_TIMESTAMP, s, "<time>"), "<time>")
  }

  function EraseNumbers(s: string): string {
    ReplaceAll(NUMBER, ReplaceAll(HEX, s, "<hex>"), "<num>")
  }

  function Normalize(line: string): string {
    ReplaceAll(SPACES, EraseNumbers(EraseTimes(Clean(line))), " ")
  }

  /** The digest's input; `hash` stands for SHA-256 in hexadecimal. */
  function Key(service: string, line: string): string {
    TrimSpace(service) + "\0" + Normalize(line)
  }

  function Fingerprint(hash: string -> string, service: string, line: string): string {
    hash(Key(service, line))
  }

  // ---- The hex and number stages rewrite whole words ----

  function HexRewrite(w: string): string { if IsHexWord(w) then "<hex>" else w }

  function NumberRewrite(w: string): string { if AllDigits(w) then "<num>" else w }

  /** Both stages at once. */
  function Mask(w: string): string {
    if IsHexWord(w) then "<hex>" else if AllDigits(w) then "<num>" else w
  }

  predicate InRun(cls: Class, s: string, i: nat, e: nat) {
    forall k :: i <= k < e && k < |s| ==> In(cls, s[k])
  }

  lemma EdgeMatch(s: string, i: nat)
    requires i <= |s|
    ensures MatchAt(Boundary(Accept), s, i) == if AtBoundary(s, i) then Some(i) else None
  {
    assert MatchAt(Accept, s, i) == Some(i);
  }

  /** `cls+\b` from inside a word takes the rest of the word or nothing. */
  lemma {:induction false} PlusRun(cls: Class, s: string, i: nat)
    requires cls.Digit? || cls.HexDigit?
    requires i < |s| && In(cls, s[i])
    ensures MatchAt(Plus(cls, Boundary(Accept)), s, i)
      == if InRun(cls, s, i, WordEnd(s, i)) then Some(WordEnd(s, i)) else None
    decreases |s| - i
  {
    WordRun(s, i);
    assert s[i..][1..] == s[i + 1..];
    assert WordEnd(s, i) == WordEnd(s, i + 1);
    EdgeMatch(s, i + 1);
    if i + 1 < |s| {
      WordRun(s, i + 1);
      if In(cls, s[i + 1]) {
        PlusRun(cls, s, i + 1);
        assert InRun(cls, s, i, WordEnd(s, i)) == InRun(cls, s, i + 1, WordEnd(s, i));
      } else {
        assert InRun(cls, s, i, WordEnd(s, i)) <==> !IsWord(s[i + 1]);
      }
    }
  }

  lemma NumberIsWordPattern(s: string)
    ensures WordPattern(NUMBER, AllDigits, s)
  {
    forall i | 0 <= i < |s|
      ensures MatchAt(NUMBER, s, i) ==
        if StartsWord(s, i) && AllDigits(s[i..WordEnd(s, i)]) then Some(WordEnd(s, i)) else None
    {
      WordRun(s, i);
      if IsDigit(s[i]) {
        PlusRun(Digit, s, i);
        DigitSlice(s, i, WordEnd(s, i));
      } else if IsWord(s[i]) {
        assert s[i..WordEnd(s, i)][0] == s[i];
      }
    }
  }

  lemma DigitSlice(s: string, i: nat, e: nat)
    requires i <= e <= |s|
    ensures AllDigits(s[i..e]) <==> InRun(Digit, s, i, e)
  {
    if AllDigits(s[i..e]) {
      forall k | i <= k < e ensures IsDigit(s[k]) { assert s[i..e][k - i] == s[k]; }
    }
  }

  lemma HexSlice(s: string, i: nat, e: nat)
    requires i + 2 < e <= |s|
    ensures IsHexWord(s[i..e]) <==> s[i] == '0' && s[i + 1] == 'x' && InRun(HexDigit, s, i + 2, e)
  {
    var w := s[i..e];
    if IsHexWord(w) {
      forall k | i + 2 <= k < e ensures IsHex(s[k]) { assert w[k - i] == s[k]; }
    }
  }

  lemma HexIsWordPattern(s: string)
    ensures WordPattern(HEX, IsHexWord, s)
  {
    forall i | 0 <= i < |s|
      ensures MatchAt(HEX, s, i) ==
        if StartsWord(s, i) && IsHexWord(s[i..WordEnd(s, i)]) then Some(WordEnd(s, i)) else None
    {
      HexAt(s, i);
    }
  }

  lemma HexUnfold(s: string, i: nat)
    requires i < |s|
    ensures MatchAt(HEX, s, i) ==
      if AtBoundary(s, i) && s[i] == '0' && i + 1 < |s| && s[i + 1] == 'x'
      then MatchAt(Plus(HexDigit, Boundary(Accept)), s, i + 2) else None
  {
    assert MatchAt(One(Only('x'), Plus(HexDigit, Boundary(Accept))), s, i + 1) ==
      if i + 1 < |s| && s[i + 1] == 'x' then MatchAt(Plus(HexDigit, Boundary(Accept)), s, i + 2) else None;
    assert MatchAt(HEX.rest, s, i) ==
      if s[i] == '0' then MatchAt(One(Only('x'), Plus(HexDigit, Boundary(Accept))), s, i + 1) else None;
  }

  lemma HexAt(s: string, i: nat)
    requires i < |s|
    ensures MatchAt(HEX, s, i) ==
      if StartsWord(s, i) && IsHexWord(s[i..WordEnd(s, i)]) then Some(WordEnd(s, i)) else None
  {
    var e := WordEnd(s, i);
    WordRun(s, i);
    HexUnfold(s, i);
    if e <= i + 2 {
      assert e < |s| ==> !IsWord(s[e]);
    } else {
      HexSlice(s, i, e);
      if IsHex(s[i + 2]) {
        PlusRun(HexDigit, s, i + 2);
        SameWordEnd(s, i, i + 2);
      }
    }
  }

  lemma {:induction false} SameWordEnd(s: string, i: nat, j: nat)
    requires i <= j < |s| && j < WordEnd(s, i)
    ensures WordEnd(s, j) == WordEnd(s, i)
    decreases j - i
  {
    if i < j {
      assert s[i..][1..] == s[i + 1..];
      WordRun(s, i);
      assert WordLen(s[i..]) == 1 + WordLen(s[i + 1..]);
      SameWordEnd(s, i + 1, j);
    }
  }

  lemma {:induction false} FirstOfMap(s: string, f: Rewrite)
    requires s != "" && !IsWord(s[0])
    ensures MapWords(s, f) != "" && MapWords(s, f)[0] == s[0]
  {
  }

  lemma {:induction false} AllWordChars(w: string)
    requires forall k :: 0 <= k < |w| ==> IsWord(w[k])
    ensures WordLen(w) == |w|
  {
    if w != "" {
      AllWordChars(w[1..]);
    }
  }

  predicate IsWordText(w: string) {
    w != "" && forall k :: 0 <= k < |w| ==> IsWord(w[k])
  }

  /** A word between angle brackets, as the stages leave it, is still that word. */
  lemma BracketedWord(w: string, f: Rewrite, ok: string -> bool)
    requires IsWordText(w)
    ensures MapWords("<" + (w + ">"), f) == "<" + (f(w) + ">")
    ensures AllWords("<" + (w + ">"), ok) == ok(w)
  {
    AllWordChars(w);
    OneWord(w, f, ok);
    MapWordsConcat(w, ">", f);
    MapWordsConcat("<", w + ">", f);
    AllWordsConcat(w, ">", ok);
    AllWordsConcat("<", w + ">", ok);
  }

  lemma {:induction false} MapTwice(s: string)
    ensures MapWords(MapWords(s, HexRewrite), NumberRewrite) == MapWords(s, Mask)
  {
    if s != "" {
      var n := HeadLen(s);
      var tail := MapWords(s[n..], HexRewrite);
      MapTwice(s[n..]);
      if n < |s| && IsWord(s[0]) {
        FirstOfMap(s[n..], HexRewrite);
      }
      if IsWord(s[0]) {
        var w := s[..n];
        MapWordsConcat(HexRewrite(w), tail, NumberRewrite);
        MaskWord(w);
      } else {
        MapWordsConcat([s[0]], tail, NumberRewrite);
      }
    }
  }

  lemma MaskWord(w: string)
    requires IsWordText(w)
    ensures MapWords(HexRewrite(w), NumberRewrite) == Mask(w)
  {
    if IsHexWord(w) {
      assert "<hex>" == "<" + ("hex" + ">") && !IsDigit("hex"[0]);
      BracketedWord("hex", NumberRewrite, IsHexWord);
    } else {
      AllWordChars(w);
      OneWord(w, NumberRewrite, IsHexWord);
    }
  }

  /** The two word stages are one pass over the words of the text. */
  lemma HexThenNumber(s: string)
    ensures EraseNumbers(s) == MapWords(s, Mask)
  {
    HexIsWordPattern(s);
    ReplaceIsMapWords(HEX, IsHexWord, s, 0, "<hex>", HexRewrite);
    assert s[0..] == s;
    var t := MapWords(s, HexRewrite);
    NumberIsWordPattern(t);
    ReplaceIsMapWords(NUMBER, AllDigits, t, 0, "<num>", NumberRewrite);
    assert t[0..] == t;
    MapTwice(s);
  }

  // ---- The space stage ----

  function BlankLen(s: string): (n: nat)
    ensures n <= |s|
    ensures forall k :: 0 <= k < n ==> IsBlank(s[k])
    ensures n < |s| ==> !IsBlank(s[n])
  {
    if s != "" && IsBlank(s[0]) then 1 + BlankLen(s[1..]) else 0
  }

  /** Each run of blanks becomes one space. */
  function Collapse(s: string): string {
    if s == "" then ""
    else if IsBlank(s[0]) then " " + Collapse(s[BlankLen(s)..])
    else [s[0]] + Collapse(s[1..])
  }

  lemma {:induction false} BlankRun(s: string, i: nat)
    requires i < |s| && IsBlank(s[i])
    ensures MatchAt(SPACES, s, i) == Some(i + BlankLen(s[i..]))
    decreases |s| - i
  {
    assert s[i..][1..] == s[i + 1..];
    assert MatchAt(Accept, s, i + 1) == Some(i + 1);
    if i + 1 < |s| && IsBlank(s[i + 1]) {
      BlankRun(s, i + 1);
    }
  }

  lemma {:induction false} SpacesIsCollapse(s: string, i: nat)
    requires i <= |s|
    ensures ReplaceFrom(SPACES, s, i, " ") == Collapse(s[i..])
    decreases |s| - i
  {
    if i < |s| {
      if IsBlank(s[i]) {
        BlankRun(s, i);
        var e := i + BlankLen(s[i..]);
        SpacesIsCollapse(s, e);
        assert s[i..][BlankLen(s[i..])..] == s[e..];
      } else {
        SpacesIsCollapse(s, i + 1);
        assert s[i..][1..] == s[i + 1..];
      }
    }
  }

  lemma {:induction false} CollapseWord(s: string, n: nat)
    requires n <= |s| && forall k :: 0 <= k < n ==> IsWord(s[k])
    ensures Collapse(s) == s[..n] + Collapse(s[n..])
  {
    if n > 0 {
      CollapseWord(s[1..], n - 1);
      assert s[..n] == [s[0]] + s[1..][..n - 1] && s[1..][n - 1..] == s[n..];
    } else {
      assert s[0..] == s;
    }
  }

  lemma {:induction false} SkipNonWords(s: string, n: nat, ok: string -> bool)
    requires n <= |s| && forall k :: 0 <= k < n ==> !IsWord(s[k])
    ensures AllWords(s, ok) == AllWords(s[n..], ok)
  {
    if n > 0 {
      SkipNonWords(s[1..], n - 1, ok);
      assert s[1..][n - 1..] == s[n..];
    } else {
      assert s[0..] == s;
    }
  }

  /** Collapsing blanks leaves the words alone. */
  lemma {:induction false} CollapseKeepsWords(s: string, ok: string -> bool)
    requires AllWords(s, ok)
    ensures AllWords(Collapse(s), ok)
    ensures s != "" && !IsWord(s[0]) ==> !IsWord(Collapse(s)[0])
    ensures s != "" ==> Collapse(s) != ""
    decreases |s|
  {
    if s != "" {
      if IsWord(s[0]) {
        var n := WordLen(s);
        CollapseWord(s, n);
        CollapseKeepsWords(s[n..], ok);
        AllWordsConcat(s[..n], Collapse(s[n..]), ok);
        OneWord(s[..n], Mask, ok) by { AllWordChars(s[..n]); }
      } else {
        var n := if IsBlank(s[0]) then BlankLen(s) else 1;
        SkipNonWords(s, n, ok);
        CollapseKeepsWords(s[n..], ok);
        AllWordsConcat([if IsBlank(s[0]) then ' ' else s[0]], Collapse(s[n..]), ok);
      }
    }
  }

  /** The only blanks are single spaces. */
  predicate SingleSpaced(s: string) {
    forall k :: 0 <= k < |s| && IsBlank(s[k]) ==> s[k] == ' ' && (k + 1 < |s| ==> !IsBlank(s[k + 1]))
  }

  lemma {:induction false} CollapseSingleSpaces(s: string)
    ensures SingleSpaced(Collapse(s))
    ensures s != "" ==> Collapse(s) != "" && (!IsBlank(s[0]) ==> Collapse(s)[0] == s[0])
    decreases |s|
  {
    if s != "" {
      CollapseSingleSpaces(s[if IsBlank(s[0]) then BlankLen(s) else 1..]);
    }
  }

  lemma {:induction false} CollapseFixed(s: string)
    requires SingleSpaced(s)
    ensures Collapse(s) == s
  {
    if s != "" {
      assert IsBlank(s[0]) ==> BlankLen(s) == 1;
      forall k | 0 <= k < |s[1..]| && IsBlank(s[1..][k])
        ensures s[1..][k] == ' ' && (k + 1 < |s[1..]| ==> !IsBlank(s[1..][k + 1]))
      {
        assert s[1..][k] == s[k + 1];
      }
      CollapseFixed(s[1..]);
      assert s == [s[0]] + s[1..];
    }
  }

  // ---- The normal form ----

  /** A word the number and hex stages leave alone. */
  predicate PlainWord(w: string) { !AllDigits(w) && !IsHexWord(w) }

  predicate IsUpper(c: char) { 'A' <= c <= 'Z' }

  predicate NotUpper(c: char) { !IsUpper(c) }

  predicate NoUpper(s: string) { forall k :: 0 <= k < |s| ==> NotUpper(s[k]) }

  /** No space `strings.TrimSpace` would remove. */
  predicate Tight(s: string) {
    s != "" ==> !IsSpace(s[0]) && !IsSpace(s[|s| - 1])
  }

  predicate NormalForm(s: string) {
    AllWords(s, PlainWord) && SingleSpaced(s) && NoUpper(s) && Tight(s)
  }

  lemma {:induction false} MaskedWordsArePlain(s: string)
    ensures AllWords(MapWords(s, Mask), PlainWord)
  {
    if s != "" {
      var n := HeadLen(s);
      MaskedWordsArePlain(s[n..]);
      var tail := MapWords(s[n..], Mask);
      if n < |s| && IsWord(s[0]) {
        FirstOfMap(s[n..], Mask);
      }
      if IsWord(s[0]) {
        MaskedWordIsPlain(s[..n]);
        AllWordsConcat(Mask(s[..n]), tail, PlainWord);
      } else {
        AllWordsConcat([s[0]], tail, PlainWord);
      }
    }
  }

  lemma MaskedWordIsPlain(w: string)
    requires IsWordText(w)
    ensures AllWords(Mask(w), PlainWord)
  {
    if IsHexWord(w) {
      assert "<hex>" == "<" + ("hex" + ">") && !IsDigit("hex"[0]);
      BracketedWord("hex", Mask, PlainWord);
    } else if AllDigits(w) {
      assert "<num>" == "<" + ("num" + ">") && !IsDigit("num"[0]);
      BracketedWord("num", Mask, PlainWord);
    } else {
      AllWordChars(w);
      OneWord(w, Mask, PlainWord);
    }
  }

  lemma StageKeeps(p: Pattern, s: string, repl: string)
    requires NoUpper(s) && Tight(s) && NoUpper(repl) && repl != "" && Tight(repl)
    ensures NoUpper(ReplaceAll(p, s, repl)) && Tight(ReplaceAll(p, s, repl))
  {
    ReplaceKeeps(p, s, 0, repl, NotUpper);
    if s != "" {
      ReplaceEnds(p, s, 0, repl);
    }
  }

  lemma TwoStagesKeep(p: Pattern, q: Pattern, s: string, x: string, y: string)
    requires NoUpper(s) && Tight(s) && NoUpper(x) && NoUpper(y) && x != "" && y != "" && Tight(x) && Tight(y)
    ensures var r := ReplaceAll(q, ReplaceAll(p, s, x), y); NoUpper(r) && Tight(r)
  {
    StageKeeps(p, s, x);
    StageKeeps(q, ReplaceAll(p, s, x), y);
  }

  lemma LowerIsTight(t: string)
    requires Tight(t)
    ensures Tight(ToLower(t)) && NoUpper(ToLower(t))
  {
    var r := ToLower(t);
    forall k | 0 <= k < |r| ensures NotUpper(r[k]) && IsSpace(r[k]) == IsSpace(t[k]) {
      assert r[k] == LowerChar(t[k]);
    }
  }

  lemma CleanIsTight(line: string)
    ensures Tight(Clean(line)) && NoUpper(Clean(line))
  {
    LowerIsTight(TrimSpace(line));
  }

  lemma TimesStage(s: string)
    requires Tight(s) && NoUpper(s)
    ensures Tight(EraseTimes(s)) && NoUpper(EraseTimes(s))
  {
    TwoStagesKeep(ISO_TIMESTAMP, SYSLOG_TIMESTAMP, s, "<time>", "<time>");
  }

  lemma NumbersStage(s: string)
    requires Tight(s) && NoUpper(s)
    ensures Tight(EraseNumbers(s)) && NoUpper(EraseNumbers(s)) && AllWords(EraseNumbers(s), PlainWord)
  {
    TwoStagesKeep(HEX, NUMBER, s, "<hex>", "<num>");
    HexThenNumber(s);
    MaskedWordsArePlain(s);
  }

  /** The result is a normal form, whatever the line. */
  lemma NormalizeGivesNormalForm(line: string)
    ensures NormalForm(Normalize(line))
  {
    CleanIsTight(line);
    TimesStage(Clean(line));
    NumbersStage(EraseTimes(Clean(line)));
    SpacesStage(EraseNumbers(EraseTimes(Clean(line))));
  }

  lemma SpacesStage(s: string)
    requires AllWords(s, PlainWord) && NoUpper(s) && Tight(s)
    ensures NormalForm(ReplaceAll(SPACES, s, " "))
  {
    SpacesIsCollapse(s, 0);
    assert s[0..] == s;
    CollapseKeepsWords(s, PlainWord);
    CollapseSingleSpaces(s);
    ReplaceKeeps(SPACES, s, 0, " ", NotUpper);
    if s != "" {
      CollapseEnd(s);
    }
  }

  lemma {:induction false} CollapseEnd(s: string)
    requires s != "" && !IsBlank(s[|s| - 1])
    ensures Collapse(s) != "" && Collapse(s)[|Collapse(s)| - 1] == s[|s| - 1]
    decreases |s|
  {
    var n := if IsBlank(s[0]) then BlankLen(s) else 1;
    if n < |s| {
      CollapseEnd(s[n..]);
    }
  }

  /** Said of the text itself: no maximal run of word characters is a number or a hexadecimal literal. */
  lemma NormalFormHasNoNumbers(s: string, i: nat, j: nat)
    requires NormalForm(s) && IsMaximalWord(s, i, j)
    ensures !AllDigits(s[i..j]) && !IsHexWord(s[i..j])
  {
    AllWordsSound(s, PlainWord, i, j);
  }

  // ---- Normal forms are fixed points ----

  /** An ISO timestamp begins with a four-digit word. */
  lemma IsoNeedsNumber(s: string, i: nat)
    requires i < |s| && MatchAt(ISO_TIMESTAMP, s, i).Some?
    ensures i + 4 < |s| && IsMaximalWord(s, i, i + 4) && AllDigits(s[i..i + 4])
  {
    var p1 := ISO_TIMESTAMP.rest;
    assert MatchAt(p1, s, i).Some? && AtBoundary(s, i) && IsDigit(s[i]);
    var p2 := p1.rest;
    assert MatchAt(p2, s, i + 1).Some? && i + 1 < |s| && IsDigit(s[i + 1]);
    var p3 := p2.rest;
    assert MatchAt(p3, s, i + 2).Some? && i + 2 < |s| && IsDigit(s[i + 2]);
    var p4 := p3.rest;
    assert MatchAt(p4, s, i + 3).Some? && i + 3 < |s| && IsDigit(s[i + 3]);
    assert MatchAt(p4.rest, s, i + 4).Some? && i + 4 < |s| && s[i + 4] == '-';
  }

  /** After its blanks a syslog timestamp has a day number standing between blanks. */
  lemma {:induction false} DayNeedsNumber(s: string, i: nat) returns (a: nat, b: nat)
    requires i <= |s| && MatchAt(Plus(Space, OneOrTwo(Digit, Plus(Space, TIME_OF_DAY))), s, i).Some?
    ensures IsMaximalWord(s, a, b) && AllDigits(s[a..b])
    decreases |s| - i
  {
    var day := OneOrTwo(Digit, Plus(Space, TIME_OF_DAY));
    if MatchAt(Plus(Space, day), s, i + 1).Some? {
      a, b := DayNeedsNumber(s, i + 1);
    } else {
      assert MatchAt(day, s, i + 1).Some?;
      a := i + 1;
      var longer := a + 1 < |s| && IsDigit(s[a + 1]) && MatchAt(Plus(Space, TIME_OF_DAY), s, a + 2).Some?;
      b := if longer then a + 2 else a + 1;
      assert MatchAt(Plus(Space, TIME_OF_DAY), s, b).Some?;
    }
  }

  lemma SyslogNeedsNumber(s: string, i: nat) returns (a: nat, b: nat)
    requires i < |s| && MatchAt(SYSLOG_TIMESTAMP, s, i).Some?
    ensures IsMaximalWord(s, a, b) && AllDigits(s[a..b])
  {
    var p1 := SYSLOG_TIMESTAMP.rest;
    assert MatchAt(p1, s, i).Some?;
    assert MatchAt(p1.rest, s, i + 1).Some?;
    assert MatchAt(p1.rest.rest, s, i + 2).Some?;
    assert MatchAt(p1.rest.rest.rest, s, i + 3).Some?;
    a, b := DayNeedsNumber(s, i + 3);
  }

  lemma NoMatchCopies(p: Pattern, s: string, repl: string)
    requires forall k :: 0 <= k < |s| ==> MatchAt(p, s, k).None?
    ensures ReplaceAll(p, s, repl) == s
  {
    CopyUntil(p, s, 0, |s|, repl);
  }

  lemma TimesFixed(s: string)
    requires AllWords(s, PlainWord)
    ensures EraseTimes(s) == s
  {
    forall k | 0 <= k < |s| ensures MatchAt(ISO_TIMESTAMP, s, k).None? {
      if MatchAt(ISO_TIMESTAMP, s, k).Some? {
        IsoNeedsNumber(s, k);
        AllWordsSound(s, PlainWord, k, k + 4);
      }
    }
    NoMatchCopies(ISO_TIMESTAMP, s, "<time>");
    forall k | 0 <= k < |s| ensures MatchAt(SYSLOG_TIMESTAMP, s, k).None? {
      if MatchAt(SYSLOG_TIMESTAMP, s, k).Some? {
        var a, b := SyslogNeedsNumber(s, k);
        AllWordsSound(s, PlainWord, a, b);
      }
    }
    NoMatchCopies(SYSLOG_TIMESTAMP, s, "<time>");
  }

  lemma LowerFixed(s: string)
    requires NoUpper(s)
    ensures ToLower(s) == s
  {
    forall k | 0 <= k < |s| ensures LowerChar(s[k]) == s[k] { assert NotUpper(s[k]); }
  }

  lemma NumbersFixed(s: string)
    requires AllWords(s, PlainWord)
    ensures EraseNumbers(s) == s
  {
    HexThenNumber(s);
    MapWordsFixed(s, Mask, PlainWord);
  }

  lemma SpacesFixed(s: string)
    requires SingleSpaced(s)
    ensures ReplaceAll(SPACES, s, " ") == s
  {
    SpacesIsCollapse(s, 0);
    CollapseFixed(s);
    assert s[0..] == s;
  }

  lemma NormalFormsAreFixed(s: string)
    requires NormalForm(s)
    ensures Normalize(s) == s
  {
    TrimSpaceFixed(s);
    LowerFixed(s);
    TimesFixed(s);
    NumbersFixed(s);
    SpacesFixed(s);
  }

  /** Normalising twice is normalising once. */
  lemma NormalizeIdempotent(line: string)
    ensures Normalize(Normalize(line)) == Normalize(line)
  {
    NormalizeGivesNormalForm(line);
    NormalFormsAreFixed(Normalize(line));
  }
}
