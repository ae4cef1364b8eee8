/** internal/notify/smtp.go: the text of a mail message (sections 2.1 and 2.3 of RFC 5322). */
module Mail {

  datatype Message = Message(subject: string, body: string)

  const CRLF := "\r\n"
  const CONTENT_TYPE := "Content-Type: text/plain; charset=utf-8"

  /** `strings.ReplaceAll`: leftmost matches, not overlapping. */
  function ReplaceAll(s: string, what: string, repl: string): string
    requires what != ""
  {
    if |s| < |what| then s
    else if s[..|what|] == what then repl + ReplaceAll(s[|what|..], what, repl)
    else [s[0]] + ReplaceAll(s[1..], what, repl)
  }

  function SanitizeHeader(value: string): string {
    ReplaceAll(ReplaceAll(value, "\r", " "), "\n", " ")
  }

  function NormalizeBody(value: string): string {
    ReplaceAll(ReplaceAll(ReplaceAll(value, CRLF, "\n"), "\r", "\n"), "\n", CRLF)
  }

  function Join(parts: seq<string>, separator: string): string {
    if parts == [] then "" else if |parts| == 1 then parts[0] else parts[0] + separator + Join(parts[1..], separator)
  }

  function HeaderLines(from: string, to: string, message: Message): seq<string> {
    ["From: " + SanitizeHeader(from), "To: " + SanitizeHeader(to), "Subject: " + SanitizeHeader(message.subject),
     CONTENT_TYPE]
  }

  function FormatMessage(from: string, to: string, message: Message): string {
    Join(HeaderLines(from, to, message) + ["", NormalizeBody(message.body)], CRLF)
  }

  // ---- One pass ----

  predicate IsEnd(c: char) { c == '\r' || c == '\n' }

  /** How many characters the line ending at the front takes: two for CRLF. */
  function EndLen(s: string): (n: nat)
    requires s != "" && IsEnd(s[0])
    ensures 1 <= n <= |s|
  {
    if s[0] == '\r' && |s| > 1 && s[1] == '\n' then 2 else 1
  }

  /** Copies the text, writing CRLF for every CRLF, CR or LF. */
  function Scan(s: string): string {
    if s == "" then ""
    else if IsEnd(s[0]) then CRLF + Scan(s[EndLen(s)..])
    else [s[0]] + Scan(s[1..])
  }

  /** The text cut at every CRLF, CR or LF. */
  function TextLines(s: string): (ls: seq<string>)
    ensures ls != []
  {
    if s == "" then [""]
    else if IsEnd(s[0]) then [""] + TextLines(s[EndLen(s)..])
    else
      var rest := TextLines(s[1..]);
      [[s[0]] + rest[0]] + rest[1..]
  }

  // ---- The three passes, a character at a time ----

  lemma ReplaceHit(what: string, t: string, repl: string)
    requires what != ""
    ensures ReplaceAll(what + t, what, repl) == repl + ReplaceAll(t, what, repl)
  {
    assert (what + t)[..|what|] == what && (what + t)[|what|..] == t;
  }

  lemma ReplaceMiss(c: char, t: string, what: string, repl: string)
    requires what != "" && !(what <= [c] + t)
    ensures ReplaceAll([c] + t, what, repl) == [c] + ReplaceAll(t, what, repl)
  {
    var s := [c] + t;
    assert s[1..] == t;
    if |s| < |what| {
      assert |t| < |what|;
    }
  }

  lemma SameHead(p: string, s: string)
    requires p != "" && p <= s
    ensures s != "" && p[0] == s[0]
  {
  }

  lemma OneCharHit(c: char, t: string, repl: string)
    ensures ReplaceAll([c] + t, [c], repl) == repl + ReplaceAll(t, [c], repl)
  {
    ReplaceHit([c], t, repl);
  }

  lemma OneCharMiss(c: char, t: string, d: char, repl: string)
    requires c != d
    ensures ReplaceAll([c] + t, [d], repl) == [c] + ReplaceAll(t, [d], repl)
  {
    if [d] <= [c] + t {
      SameHead([d], [c] + t);
    }
    ReplaceMiss(c, t, [d], repl);
  }

  /** The last two passes over a text that begins with a line end. */
  lemma LastPassesAtEnd(c: char, t: string)
    requires IsEnd(c)
    ensures ReplaceAll(ReplaceAll([c] + t, "\r", "\n"), "\n", CRLF) ==
      CRLF + ReplaceAll(ReplaceAll(t, "\r", "\n"), "\n", CRLF)
  {
    var u := ReplaceAll(t, "\r", "\n");
    if c == '\r' { OneCharHit(c, t, "\n"); } else { OneCharMiss(c, t, '\r', "\n"); }
    assert ReplaceAll([c] + t, "\r", "\n") == ['\n'] + u;
    OneCharHit('\n', u, CRLF);
  }

  lemma LastPassesAtChar(c: char, t: string)
    requires !IsEnd(c)
    ensures ReplaceAll(ReplaceAll([c] + t, "\r", "\n"), "\n", CRLF) ==
      [c] + ReplaceAll(ReplaceAll(t, "\r", "\n"), "\n", CRLF)
  {
    OneCharMiss(c, t, '\r', "\n");
    OneCharMiss(c, ReplaceAll(t, "\r", "\n"), '\n', CRLF);
  }

  /** The first pass takes a CRLF for one LF and leaves everything else. */
  lemma FirstPass(s: string)
    requires s != ""
    ensures ReplaceAll(s, CRLF, "\n") ==
      if IsEnd(s[0]) then [if EndLen(s) == 2 then '\n' else s[0]] + ReplaceAll(s[EndLen(s)..], CRLF, "\n")
      else [s[0]] + ReplaceAll(s[1..], CRLF, "\n")
  {
    if IsEnd(s[0]) && EndLen(s) == 2 {
      assert s == CRLF + s[2..];
      ReplaceHit(CRLF, s[2..], "\n");
    } else {
      assert s == [s[0]] + s[1..];
      assert CRLF <= s ==> s[0] == CRLF[0] && s[1] == CRLF[1];
      ReplaceMiss(s[0], s[1..], CRLF, "\n");
    }
  }

  /** The three passes are the one-pass scanner. */
  lemma {:induction false} NormalizeIsScan(s: string)
    ensures NormalizeBody(s) == Scan(s)
    decreases |s|
  {
    if s != "" {
      FirstPass(s);
      if IsEnd(s[0]) {
        var rest := s[EndLen(s)..];
        NormalizeIsScan(rest);
        LastPassesAtEnd(if EndLen(s) == 2 then '\n' else s[0], ReplaceAll(rest, CRLF, "\n"));
      } else {
        NormalizeIsScan(s[1..]);
        LastPassesAtChar(s[0], ReplaceAll(s[1..], CRLF, "\n"));
      }
    }
  }

  // ---- What the scanner keeps ----

  lemma ScanAfterEnd(t: string)
    ensures Scan(CRLF + t) == CRLF + Scan(t) && TextLines(CRLF + t) == [""] + TextLines(t)
  {
    assert (CRLF + t)[2..] == t && EndLen(CRLF + t) == 2;
  }

  lemma ScanAfterChar(c: char, t: string)
    requires !IsEnd(c)
    ensures Scan([c] + t) == [c] + Scan(t)
    ensures TextLines([c] + t) == [[c] + TextLines(t)[0]] + TextLines(t)[1..]
  {
    assert ([c] + t)[1..] == t;
  }

  /** The normalised body has the same lines, and normalising it again changes nothing. */
  lemma {:induction false} ScanKeepsLines(s: string)
    ensures TextLines(Scan(s)) == TextLines(s) && Scan(Scan(s)) == Scan(s)
    decreases |s|
  {
    if s != "" {
      if IsEnd(s[0]) {
        ScanKeepsLines(s[EndLen(s)..]);
        ScanAfterEnd(Scan(s[EndLen(s)..]));
      } else {
        ScanKeepsLines(s[1..]);
        ScanAfterChar(s[0], Scan(s[1..]));
      }
    }
  }

  /** The scanner's text is the lines, joined by CRLF. */
  lemma {:induction false} ScanJoinsLines(s: string)
    ensures Scan(s) == Join(TextLines(s), CRLF)
    decreases |s|
  {
    if s != "" {
      if IsEnd(s[0]) {
        var rest := TextLines(s[EndLen(s)..]);
        ScanJoinsLines(s[EndLen(s)..]);
        assert ([""] + rest)[1..] == rest;
      } else {
        var rest := TextLines(s[1..]);
        ScanJoinsLines(s[1..]);
        JoinFirst([s[0]], rest);
      }
    }
  }

  lemma JoinFirst(front: string, lines: seq<string>)
    requires lines != []
    ensures Join([front + lines[0]] + lines[1..], CRLF) == front + Join(lines, CRLF)
  {
    var all := [front + lines[0]] + lines[1..];
    assert all[1..] == lines[1..];
    if |lines| > 1 {
      assert front + lines[0] + CRLF + Join(lines[1..], CRLF) == front + (lines[0] + CRLF + Join(lines[1..], CRLF));
    }
  }

  // ---- CR and LF only as CRLF ----

  predicate OnlyPairs(s: string) {
    && (forall i :: 0 <= i < |s| && s[i] == '\r' ==> i + 1 < |s| && s[i + 1] == '\n')
    && (forall i :: 0 <= i < |s| && s[i] == '\n' ==> i > 0 && s[i - 1] == '\r')
  }

  predicate NoEnds(s: string) {
    forall i :: 0 <= i < |s| ==> !IsEnd(s[i])
  }

  lemma PairsConcat(a: string, b: string)
    requires OnlyPairs(a) && OnlyPairs(b)
    ensures OnlyPairs(a + b)
  {
    var s := a + b;
    forall i | 0 <= i < |s| && s[i] == '\n' ensures i > 0 && s[i - 1] == '\r' {
      if i >= |a| { assert b[i - |a|] == '\n'; }
    }
    forall i | 0 <= i < |s| && s[i] == '\r' ensures i + 1 < |s| && s[i + 1] == '\n' {
      if i >= |a| { assert b[i - |a|] == '\r'; }
    }
  }

  lemma {:induction false} ScanHasPairs(s: string)
    ensures OnlyPairs(Scan(s))
    decreases |s|
  {
    if s != "" {
      if IsEnd(s[0]) {
        ScanHasPairs(s[EndLen(s)..]);
        PairsConcat(CRLF, Scan(s[EndLen(s)..]));
      } else {
        ScanHasPairs(s[1..]);
        PairsConcat([s[0]], Scan(s[1..]));
      }
    }
  }

  /** Replacing a character by a space. */
  lemma {:induction false} ReplaceChar(s: string, c: char)
    requires c != ' '
    ensures var r := ReplaceAll(s, [c], " ");
      |r| == |s| && forall i :: 0 <= i < |s| ==> r[i] == if s[i] == c then ' ' else s[i]
  {
    if s != "" {
      ReplaceChar(s[1..], c);
      assert s == [s[0]] + s[1..];
      if s[0] == c { OneCharHit(c, s[1..], " "); } else { OneCharMiss(s[0], s[1..], c, " "); }
    }
  }

  /** A sanitised header is the value with each CR and LF turned into a space. */
  lemma SanitizedHeader(value: string)
    ensures var h := SanitizeHeader(value);
      |h| == |value| && NoEnds(h) && forall i :: 0 <= i < |value| ==> h[i] == if IsEnd(value[i]) then ' ' else value[i]
  {
    ReplaceChar(value, '\r');
    ReplaceChar(ReplaceAll(value, "\r", " "), '\n');
  }

  // ---- Reading a message back ----

  /** Where the first line ends: at a CRLF, or at the end of the text. */
  function FirstCRLF(s: string): (n: nat)
    ensures n <= |s|
  {
    if |s| < 2 then |s| else if s[..2] == CRLF then 0 else 1 + FirstCRLF(s[1..])
  }

  /** The lines before the first empty line, and all that follows it. */
  function Parse(s: string): (seq<string>, string)
    decreases |s|
  {
    var n := FirstCRLF(s);
    if n + 2 > |s| then ([s], "")
    else if n == 0 then ([], s[2..])
    else
      var rest := Parse(s[n + 2..]);
      ([s[..n]] + rest.0, rest.1)
  }

  lemma {:induction false} FirstCRLFAfter(line: string, rest: string)
    requires NoEnds(line)
    ensures FirstCRLF(line + CRLF + rest) == |line|
  {
    var s := line + CRLF + rest;
    if line != "" {
      assert s[1..] == line[1..] + CRLF + rest;
      FirstCRLFAfter(line[1..], rest);
      assert s[..2][0] == line[0];
    } else {
      assert s[..2] == CRLF;
    }
  }

  lemma ParseLine(line: string, rest: string)
    requires NoEnds(line)
    ensures Parse(line + CRLF + rest) == if line == "" then ([], rest) else ([line] + Parse(rest).0, Parse(rest).1)
  {
    var s := line + CRLF + rest;
    FirstCRLFAfter(line, rest);
    assert s[..|line|] == line && s[|line| + 2..] == rest;
  }

  lemma JoinCons(line: string, rest: seq<string>)
    requires rest != []
    ensures Join([line] + rest, CRLF) == line + CRLF + Join(rest, CRLF)
  {
    assert ([line] + rest)[1..] == rest;
  }

  lemma ParseCons(line: string, headers: seq<string>, body: string)
    requires line != "" && NoEnds(line) && Parse(Join(headers + ["", body], CRLF)) == (headers, body)
    ensures Parse(Join([line] + (headers + ["", body]), CRLF)) == ([line] + headers, body)
  {
    JoinCons(line, headers + ["", body]);
    ParseLine(line, Join(headers + ["", body], CRLF));
  }

  lemma ParseBody(body: string)
    ensures Parse(Join(["", body], CRLF)) == ([], body)
  {
    assert ["", body] == [""] + [body];
    JoinCons("", [body]);
    ParseLine("", body);
  }

  lemma HeadFirst(a: seq<string>, b: seq<string>)
    requires a != []
    ensures [a[0]] + a[1..] == a && [a[0]] + (a[1..] + b) == a + b
  {
  }

  /** Header lines, an empty line and a body can be told apart again. */
  lemma {:induction false} ParseJoined(headers: seq<string>, body: string)
    requires forall i :: 0 <= i < |headers| ==> headers[i] != "" && NoEnds(headers[i])
    ensures Parse(Join(headers + ["", body], CRLF)) == (headers, body)
    decreases |headers|
  {
    if headers == [] {
      ParseBody(body);
      assert headers + ["", body] == ["", body];
    } else {
      ParseJoined(headers[1..], body);
      ParseCons(headers[0], headers[1..], body);
      HeadFirst(headers, ["", body]);
    }
  }

  lemma {:induction false} JoinHasPairs(lines: seq<string>)
    requires forall i :: 0 <= i < |lines| ==> OnlyPairs(lines[i])
    ensures OnlyPairs(Join(lines, CRLF))
  {
    if |lines| > 1 {
      JoinHasPairs(lines[1..]);
      PairsConcat(lines[0], CRLF);
      PairsConcat(lines[0] + CRLF, Join(lines[1..], CRLF));
    }
  }

  lemma Labelled(tag: string, value: string)
    requires tag != "" && NoEnds(tag)
    ensures tag + SanitizeHeader(value) != "" && NoEnds(tag + SanitizeHeader(value))
  {
    SanitizedHeader(value);
  }

  lemma HeadersAreLines(from: string, to: string, message: Message)
    ensures forall i :: 0 <= i < 4 ==>
      HeaderLines(from, to, message)[i] != "" && NoEnds(HeaderLines(from, to, message)[i])
  {
    Labelled("From: ", from);
    Labelled("To: ", to);
    Labelled("Subject: ", message.subject);
  }

  /** Whatever is put in, the message's CRs and LFs come in CRLF pairs, and splitting it at the first empty line
      gives back exactly the four header lines and the normalised body. */
  lemma MessageRoundTrip(from: string, to: string, message: Message)
    ensures var m := FormatMessage(from, to, message);
      OnlyPairs(m) && Parse(m) == (HeaderLines(from, to, message), NormalizeBody(message.body))
  {
    var headers := HeaderLines(from, to, message);
    HeadersAreLines(from, to, message);
    ParseJoined(headers, NormalizeBody(message.body));
    NormalizeIsScan(message.body);
    ScanHasPairs(message.body);
    var all := headers + ["", NormalizeBody(message.body)];
    forall i | 0 <= i < |all| ensures OnlyPairs(all[i]) {
      if i < 4 { assert all[i] == headers[i]; }
    }
    JoinHasPairs(all);
  }

  /** A header value as it is sent: each CR and LF a blank. */
  predicate Blanked(value: string, sent: string) {
    |sent| == |value| && forall i :: 0 <= i < |value| ==>
      sent[i] == if value[i] == '\r' || value[i] == '\n' then ' ' else value[i]
  }

  /** The headers are sender, recipient, subject and content type, in this order, each under its own name; and what
      follows the empty line has the body's lines. */
  lemma MessageHolds(from: string, to: string, message: Message)
    returns (sender: string, recipient: string, subject: string, body: string)
    ensures Blanked(from, sender) && Blanked(to, recipient) && Blanked(message.subject, subject)
    ensures TextLines(body) == TextLines(message.body) && OnlyPairs(body)
    ensures Parse(FormatMessage(from, to, message)) ==
      (["From: " + sender, "To: " + recipient, "Subject: " + subject, "Content-Type: text/plain; charset=utf-8"], body)
  {
    sender, recipient, subject := SanitizeHeader(from), SanitizeHeader(to), SanitizeHeader(message.subject);
    body := NormalizeBody(message.body);
    SanitizedHeader(from);
    SanitizedHeader(to);
    SanitizedHeader(message.subject);
    NormalizedBody(message.body);
    NormalizeIsScan(message.body);
    ScanHasPairs(message.body);
    hide SanitizeHeader, NormalizeBody, Parse, FormatMessage, TextLines;
    MessageRoundTrip(from, to, message);
  }

  /** The normalised body has the body's lines, and normalising again changes nothing. */
  lemma NormalizedBody(body: string)
    ensures TextLines(NormalizeBody(body)) == TextLines(body)
    ensures NormalizeBody(body) == Join(TextLines(body), CRLF)
    ensures NormalizeBody(NormalizeBody(body)) == NormalizeBody(body)
  {
    NormalizeIsScan(body);
    ScanKeepsLines(body);
    ScanJoinsLines(body);
    NormalizeIsScan(Scan(body));
  }
}
