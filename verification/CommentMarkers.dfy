/**
 * The bodies of inline comments and the hidden markers by which a rerun knows them again
 * (src/github/comments.ts).
 */
module CommentMarkers {
  import opened Text

  const MARKER := "<!-- hubolt:finding:"
  const CLOSE := " -->"
  const MAX_FINGERPRINT: nat := 128

  /** The character class of the marker pattern. */
  predicate MarkerChar(c: char) {
    'A' <= c <= 'Z' || 'a' <= c <= 'z' || '0' <= c <= '9' || c == '.' || c == '_' || c == ':' || c == '-'
  }

  function Filter(s: string): string {
    if s == "" then "" else (if MarkerChar(s[0]) then [s[0]] else "") + Filter(s[1..])
  }

  function Sanitize(fingerprint: string): string {
    var kept := Filter(fingerprint);
    if |kept| > MAX_FINGERPRINT then kept[..MAX_FINGERPRINT] else kept
  }

  function FindingMarker(fingerprint: string): string { MARKER + Sanitize(fingerprint) + CLOSE }

  predicate WellFormed(fingerprint: string) {
    1 <= |fingerprint| <= MAX_FINGERPRINT && forall c :: c in fingerprint ==> MarkerChar(c)
  }

  lemma {:induction false} FilterKeeps(s: string)
    ensures |Filter(s)| <= |s|
    ensures forall c :: c in Filter(s) ==> MarkerChar(c)
    ensures Filter(s) == s <==> forall c :: c in s ==> MarkerChar(c)
  {
    if s != "" {
      FilterKeeps(s[1..]);
      assert s == [s[0]] + s[1..];
      if MarkerChar(s[0]) {
        assert Filter(s) == [s[0]] + Filter(s[1..]);
        assert Filter(s)[1..] == Filter(s[1..]);
      }
    }
  }

  /** Sanitizing leaves exactly the well-formed fingerprints as they are. */
  lemma SanitizeKeeps(fingerprint: string)
    ensures Sanitize(fingerprint) != "" ==> WellFormed(Sanitize(fingerprint))
    ensures Sanitize(fingerprint) == fingerprint && fingerprint != "" <==> WellFormed(fingerprint)
  {
    FilterKeeps(fingerprint);
  }

  /** The characters a fingerprint keeps. */
  lemma MarkerCharsTold(c: char)
    ensures MarkerChar(c) <==>
      var code := c as int;
      65 <= code <= 90 || 97 <= code <= 122 || 48 <= code <= 57 || code == 46 || code == 95 || code == 58 || code == 45
  {
  }

  /** How many of the first `n` characters are kept. */
  function KeptBefore(s: string, n: nat): (r: nat)
    requires n <= |s|
    ensures r <= n
  {
    if n == 0 then 0 else KeptBefore(s, n - 1) + if MarkerChar(s[n - 1]) then 1 else 0
  }

  lemma {:induction false} KeptBehind(s: string, n: nat)
    requires n < |s|
    ensures KeptBefore(s, n + 1) == (if MarkerChar(s[0]) then 1 else 0) + KeptBefore(s[1..], n)
  {
    if n > 0 {
      KeptBehind(s, n - 1);
    }
  }

  lemma {:induction false} FilterTold(s: string)
    ensures |Filter(s)| == KeptBefore(s, |s|)
    ensures forall i :: 0 <= i < |s| && MarkerChar(s[i]) ==>
      KeptBefore(s, i) < |Filter(s)| && Filter(s)[KeptBefore(s, i)] == s[i]
  {
    if s != "" {
      FilterTold(s[1..]);
      KeptBehind(s, |s| - 1);
      forall i | 0 <= i < |s| && MarkerChar(s[i])
        ensures KeptBefore(s, i) < |Filter(s)| && Filter(s)[KeptBefore(s, i)] == s[i]
      {
        if i > 0 {
          KeptBehind(s, i - 1);
          assert s[1..][i - 1] == s[i];
        }
      }
    }
  }

  /** A fingerprint keeps its marker characters in order, the first 128 of them. */
  lemma SanitizeTold(s: string, i: nat)
    requires i < |s|
    ensures |Sanitize(s)| == if KeptBefore(s, |s|) < 128 then KeptBefore(s, |s|) else 128
    ensures MarkerChar(s[i]) && KeptBefore(s, i) < 128 ==>
      KeptBefore(s, i) < |Sanitize(s)| && Sanitize(s)[KeptBefore(s, i)] == s[i]
  {
    FilterTold(s);
  }

  /******* Extraction *******/

  /** The longest run of marker characters at the front. */
  function Run(s: string): string {
    if s != "" && MarkerChar(s[0]) then [s[0]] + Run(s[1..]) else ""
  }

  lemma {:induction false} RunIsPrefix(s: string)
    ensures Run(s) <= s
  {
    if s != "" && MarkerChar(s[0]) {
      RunIsPrefix(s[1..]);
    }
  }

  lemma {:induction false} RunStops(run: string, rest: string)
    requires forall c :: c in run ==> MarkerChar(c)
    requires rest != "" && !MarkerChar(rest[0])
    ensures Run(run + rest) == run
  {
    if run == "" {
      assert run + rest == rest;
    } else {
      RunStops(run[1..], rest);
      assert (run + rest)[1..] == run[1..] + rest;
    }
  }

  /** The marker at the front of the text: its fingerprint and the text after it. */
  function MatchHere(s: string): (found: Option<(string, string)>)
    ensures found.Some? ==> |found.value.1| < |s|
  {
    match Skip(s, MARKER)
    case None => None
    case Some(rest) =>
      RunIsPrefix(rest);
      var run := Run(rest);
      match Skip(rest[|run|..], CLOSE)
      case None => None
      case Some(after) => if run == "" then None else Some((run, after))
  }

  /** The fingerprints of all markers, found from left to right without overlap. */
  function Extract(body: string): set<string>
    decreases |body|
  {
    if body == "" then {}
    else
      match MatchHere(body)
      case Some(found) => {found.0} + Extract(found.1)
      case None => Extract(body[1..])
  }

  /** The marker of a fingerprint as it stands, without sanitizing. */
  function Around(fingerprint: string): string { MARKER + fingerprint + CLOSE }

  ghost predicate Readable(fingerprint: string) {
    fingerprint != "" && forall c :: c in fingerprint ==> MarkerChar(c)
  }

  lemma {:induction false} RunKeeps(s: string)
    ensures forall c :: c in Run(s) ==> MarkerChar(c)
  {
    if s != "" && MarkerChar(s[0]) {
      RunKeeps(s[1..]);
    }
  }

  /** What is matched at the front is a marker, with its readable fingerprint. */
  lemma MatchTold(s: string)
    ensures MatchHere(s).Some? ==>
      var (fingerprint, after) := MatchHere(s).value;
      Readable(fingerprint) && s == Around(fingerprint) + after
  {
    var rest := Skip(s, MARKER);
    if rest.Some? {
      RunIsPrefix(rest.value);
      RunKeeps(rest.value);
      var run := Run(rest.value);
      var after := Skip(rest.value[|run|..], CLOSE);
      if after.Some? {
        InFour(s, MARKER, rest.value, run, CLOSE, after.value);
      }
    }
  }

  lemma InFour(s: string, a: string, rest: string, run: string, b: string, after: string)
    requires a <= s && rest == s[|a|..] && run <= rest && b <= rest[|run|..] && after == rest[|run|..][|b|..]
    ensures s == (a + run + b) + after
  {
    assert s == a + rest;
    assert rest == run + rest[|run|..];
    assert rest[|run|..] == b + after;
  }

  /** A marker at the front is matched. */
  lemma FrontIsMatched(fingerprint: string, after: string)
    requires Readable(fingerprint)
    ensures MatchHere(Around(fingerprint) + after) == Some((fingerprint, after))
  {
    assert Around(fingerprint) + after == MARKER + (fingerprint + (CLOSE + after));
    SkipPrefix(MARKER, fingerprint + (CLOSE + after));
    assert (CLOSE + after)[0] == ' ';
    RunStops(fingerprint, CLOSE + after);
    assert (fingerprint + (CLOSE + after))[|fingerprint|..] == CLOSE + after;
    SkipPrefix(CLOSE, after);
  }

  /** A marker begins with its only bracket, so no other one begins inside it. */
  lemma MarkersDoNotOverlap(fingerprint: string, after: string, other: string, i: nat)
    requires Readable(fingerprint) && 0 < i < |Around(fingerprint)|
    ensures !OccursAt(Around(fingerprint) + after, Around(other), i)
  {
    var s := Around(fingerprint) + after;
    assert Around(other)[0] == '<';
    OccursChar(s, Around(other), i, 0);
    assert s[i] == Around(fingerprint)[i];
    assert forall k :: 1 <= k < |MARKER| ==> MARKER[k] != '<';
    assert forall k :: 0 <= k < |CLOSE| ==> CLOSE[k] != '<';
    if |MARKER| <= i < |MARKER| + |fingerprint| {
      assert s[i] == fingerprint[i - |MARKER|] && fingerprint[i - |MARKER|] in fingerprint;
    }
  }

  lemma OccursBehind(a: string, b: string, part: string, i: nat)
    ensures OccursAt(a + b, part, |a| + i) <==> OccursAt(b, part, i)
  {
    if |a| + i + |part| <= |a + b| {
      assert (a + b)[|a| + i..|a| + i + |part|] == b[i..i + |part|];
    }
  }

  /** Exactly the fingerprints are read that stand in a marker somewhere in the text. */
  lemma {:induction false} ExtractExactly(body: string, fingerprint: string)
    ensures fingerprint in Extract(body) <==> Readable(fingerprint) && Occurs(body, Around(fingerprint))
    decreases |body|
  {
    if body != "" {
      MatchTold(body);
      match MatchHere(body)
      case Some(found) => ExtractBehind(body, found.0, found.1, fingerprint);
      case None => ExtractLater(body, fingerprint);
    }
  }

  lemma {:induction false} ExtractBehind(body: string, front: string, after: string, fingerprint: string)
    requires Readable(front) && body == Around(front) + after && MatchHere(body) == Some((front, after))
    ensures fingerprint in Extract(body) <==> Readable(fingerprint) && Occurs(body, Around(fingerprint))
    decreases |body|, 0
  {
    ExtractExactly(after, fingerprint);
    if Readable(fingerprint) {
      OccursInFrontOr(front, after, fingerprint);
    }
    assert fingerprint in Extract(body) <==> fingerprint == front || fingerprint in Extract(after);
  }

  /** A marker in front of a text holds no other one, and hides none behind it. */
  lemma OccursInFrontOr(front: string, after: string, other: string)
    requires Readable(front) && Readable(other)
    ensures Occurs(Around(front) + after, Around(other)) <==> other == front || Occurs(after, Around(other))
  {
    var body := Around(front) + after;
    if i: nat :| i <= |body| && OccursAt(body, Around(other), i) {
      if i == 0 {
        SameFront(front, after, other);
      } else if i < |Around(front)| {
        MarkersDoNotOverlap(front, after, other, i);
      } else {
        OccursBehind(Around(front), after, Around(other), i - |Around(front)|);
      }
    }
    if i: nat :| i <= |after| && OccursAt(after, Around(other), i) {
      OccursBehind(Around(front), after, Around(other), i);
    }
    if other == front {
      assert OccursAt(body, Around(other), 0);
    }
  }

  /** Only one readable marker can stand at the front. */
  lemma SameFront(front: string, after: string, other: string)
    requires Readable(front) && Readable(other)
    requires OccursAt(Around(front) + after, Around(other), 0)
    ensures other == front
  {
    var body := Around(front) + after;
    var rest := body[|Around(other)|..];
    assert body == Around(other) + rest;
    FrontIsMatched(front, after);
    FrontIsMatched(other, rest);
  }

  lemma {:induction false} ExtractLater(body: string, fingerprint: string)
    requires body != "" && MatchHere(body).None?
    ensures fingerprint in Extract(body) <==> Readable(fingerprint) && Occurs(body, Around(fingerprint))
    decreases |body|, 0
  {
    ExtractExactly(body[1..], fingerprint);
    assert body == [body[0]] + body[1..];
    if i: nat :| i <= |body| && OccursAt(body, Around(fingerprint), i) && Readable(fingerprint) {
      if i == 0 {
        assert body == Around(fingerprint) + body[|Around(fingerprint)|..];
        FrontIsMatched(fingerprint, body[|Around(fingerprint)|..]);
      } else {
        OccursBehind([body[0]], body[1..], Around(fingerprint), i - 1);
      }
    }
    if i: nat :| i <= |body[1..]| && OccursAt(body[1..], Around(fingerprint), i) {
      OccursBehind([body[0]], body[1..], Around(fingerprint), i);
    }
  }

  /** All fingerprints found in the comments. */
  function Posted(bodies: seq<string>): set<string> { set body, p | body in bodies && p in Extract(body) :: p }

  method ExtractPostedFingerprints(bodies: seq<string>) returns (fingerprints: set<string>)
    ensures fingerprints == Posted(bodies)
  {
    fingerprints := {};
    for i := 0 to |bodies|
      invariant fingerprints == Posted(bodies[..i])
    {
      var s := bodies[i];
      while s != ""
        invariant fingerprints + Extract(s) == Posted(bodies[..i]) + Extract(bodies[i])
        decreases |s|
      {
        var found := MatchHere(s);
        if found.Some? {
          fingerprints := fingerprints + {found.value.0};
          s := found.value.1;
        } else {
          s := s[1..];
        }
      }
      assert bodies[..i + 1] == bodies[..i] + [bodies[i]];
      PostedConcat(bodies[..i], [bodies[i]]);
    }
    assert bodies[..|bodies|] == bodies;
  }

  lemma PostedConcat(a: seq<string>, b: seq<string>)
    ensures Posted(a + b) == Posted(a) + Posted(b)
    ensures |b| == 1 ==> Posted(b) == Extract(b[0])
  {
    assert forall body :: body in a + b <==> body in a || body in b;
  }

  /** Comments that yield one fingerprint each yield just these. */
  lemma PostedEach(bodies: seq<string>, fingerprints: seq<string>)
    requires |bodies| == |fingerprints|
    requires forall i :: 0 <= i < |bodies| ==> Extract(bodies[i]) == {fingerprints[i]}
    ensures Posted(bodies) == set p | p in fingerprints
  {
    forall p | p in Posted(bodies) ensures p in fingerprints {
      var body :| body in bodies && p in Extract(body);
      var i :| 0 <= i < |bodies| && bodies[i] == body;
      assert p == fingerprints[i];
    }
    forall p | p in fingerprints ensures p in Posted(bodies) {
      var i :| 0 <= i < |fingerprints| && fingerprints[i] == p;
      assert bodies[i] in bodies && p in Extract(bodies[i]);
    }
  }

  /** The text has no beginning of a marker in it. */
  ghost predicate Free(s: string) { !Occurs(s, MARKER) }

  lemma MarkerIsRead(fingerprint: string)
    ensures Extract(FindingMarker(fingerprint)) == if Sanitize(fingerprint) == "" then {} else {Sanitize(fingerprint)}
  {
    var run := Sanitize(fingerprint);
    var marker := FindingMarker(fingerprint);
    SanitizeKeeps(fingerprint);
    assert marker == MARKER + (run + CLOSE);
    SkipPrefix(MARKER, run + CLOSE);
    RunStops(run, CLOSE);
    assert (run + CLOSE)[|run|..] == CLOSE;
    if run == "" {
      EmptyMarkerHasNone();
    } else {
      assert CLOSE[|CLOSE|..] == "";
    }
  }

  lemma EmptyMarkerHasNone()
    ensures Extract(MARKER + "" + CLOSE) == {}
  {
    var marker := MARKER + "" + CLOSE;
    assert MatchHere(marker).None? by {
      SkipPrefix(MARKER, CLOSE);
      assert marker == MARKER + CLOSE;
      assert !MarkerChar(CLOSE[0]);
    }
    NoMarkerNoMatch(marker[1..]);
  }

  /** Without the marker's first character there is nothing to find. */
  lemma {:induction false} NoMarkerNoMatch(s: string)
    requires '<' !in s
    ensures Extract(s) == {}
  {
    if s != "" {
      NoMarkerNoMatch(s[1..]);
      assert s[0] != '<' && MARKER[0] == '<';
    }
  }

  /** A marker does not begin in a marker-free line. */
  lemma NoMatchInText(text: string, rest: string)
    requires Free(text)
    ensures !(MARKER <= text + "\n" + rest)
  {
    var s := text + "\n" + rest;
    assert s[|text|] == '\n' && '\n' !in MARKER;
    if MARKER <= s {
      if |MARKER| <= |text| {
        assert text[..|MARKER|] == s[..|MARKER|];
        assert OccursAt(text, MARKER, 0);
      }
    }
  }

  lemma TailIsFree(text: string)
    requires Free(text) && text != ""
    ensures Free(text[1..])
  {
    forall i: nat ensures !OccursAt(text[1..], MARKER, i) {
      if OccursAt(text[1..], MARKER, i) {
        assert text[i + 1..i + 1 + |MARKER|] == text[1..][i..i + |MARKER|];
        assert OccursAt(text, MARKER, i + 1);
      }
    }
  }

  /** The scan passes over marker-free text and reads what begins on the next line. */
  lemma {:induction false} ExtractSkips(text: string, rest: string)
    requires Free(text)
    ensures Extract(text + "\n" + rest) == Extract(rest)
  {
    var s := text + "\n" + rest;
    NoMatchInText(text, rest);
    assert Extract(s) == Extract(s[1..]);
    if text == "" {
      assert s[1..] == rest;
    } else {
      TailIsFree(text);
      ExtractSkips(text[1..], rest);
      assert s[1..] == text[1..] + "\n" + rest;
    }
  }

  /******* The body of an inline comment *******/

  /** The parts of a finding that are shown; an optional part that is missing is empty. */
  datatype Content = Content(
    title: string, severity: string, category: string, message: string,
    impact: string, verification: string, suggestion: string)

  function TitleLine(c: Content): string {
    "**" + c.title + "**  `" + c.severity + "` \U{00B7} " + c.category
  }

  function Labelled(lead: string, text: string): seq<string> {
    if text == "" then [] else ["", lead + text]
  }

  /** Every line but the marker's; a block stands in for the plain suggestion. */
  function TextLines(c: Content, block: Option<string>): seq<string> {
    [TitleLine(c), "", c.message]
    + Labelled("**Impact:** ", c.impact)
    + Labelled("**Verify:** ", c.verification)
    + (if block.Some? then ["", block.value] else Labelled("**Suggestion:** ", c.suggestion))
    + [""]
  }

  function InlineBody(c: Content, block: Option<string>, fingerprint: string): string {
    Join(TextLines(c, block) + [FindingMarker(fingerprint)])
  }

  method BuildInlineCommentBody(c: Content, block: Option<string>, fingerprint: string) returns (body: string)
    ensures body == InlineBody(c, block, fingerprint)
  {
    var lines := [TitleLine(c)];
    lines := lines + [""];
    lines := lines + [c.message];
    ghost var head := [TitleLine(c), "", c.message];
    if c.impact != "" {
      lines := lines + [""];
      lines := lines + ["**Impact:** " + c.impact];
    }
    assert lines == head + Labelled("**Impact:** ", c.impact);
    head := lines;
    if c.verification != "" {
      lines := lines + [""];
      lines := lines + ["**Verify:** " + c.verification];
    }
    assert lines == head + Labelled("**Verify:** ", c.verification);
    head := lines;
    if block.Some? {
      lines := lines + [""];
      lines := lines + [block.value];
    } else if c.suggestion != "" {
      lines := lines + [""];
      lines := lines + ["**Suggestion:** " + c.suggestion];
    }
    assert lines == head + if block.Some? then ["", block.value] else Labelled("**Suggestion:** ", c.suggestion);
    lines := lines + [""];
    lines := lines + [FindingMarker(fingerprint)];
    body := Join(lines);
  }

  /** No part of the content begins a marker. */
  ghost predicate FreeContent(c: Content) {
    && Free(c.title) && Free(c.severity) && Free(c.category) && Free(c.message)
    && Free(c.impact) && Free(c.verification) && Free(c.suggestion)
  }

  lemma FreePlain(lead: string, text: string)
    requires '<' !in lead && Free(text)
    ensures Free(lead + text)
  {
    forall i: nat ensures !OccursAt(lead + text, MARKER, i) {
      if OccursAt(lead + text, MARKER, i) {
        OccursInConcat(lead, text, MARKER, i);
      }
    }
  }

  lemma FreeThen(text: string, c: char, rest: string)
    requires Free(text) && c !in MARKER && Free(rest)
    ensures Free(text + [c] + rest)
  {
    OccursBeside(text, c, rest, MARKER);
  }

  lemma NothingIsFree(s: string)
    requires '<' !in s
    ensures Free(s)
  {
    forall i: nat ensures !OccursAt(s, MARKER, i) {
      OccursBegins(s, MARKER, i);
    }
  }

  lemma TitleLineIsFree(c: Content)
    requires FreeContent(c)
    ensures Free(TitleLine(c))
  {
    var a := " \U{00B7} " + c.category;
    FreePlain(" \U{00B7} ", c.category);
    FreeThen(c.severity, '`', a);
    var b := c.severity + "`" + a;
    FreePlain("*  `", b);
    var d := "*  `" + b;
    FreeThen(c.title, '*', d);
    FreePlain("**", c.title + "*" + d);
    assert TitleLine(c) == "**" + (c.title + "*" + d);
  }

  lemma {:induction false} JoinIsFree(lines: seq<string>)
    requires forall line :: line in lines ==> Free(line)
    ensures Free(Join(lines))
  {
    if |lines| == 0 {
      NothingIsFree("");
    } else if |lines| > 1 {
      JoinIsFree(lines[1..]);
      FreeThen(lines[0], '\n', Join(lines[1..]));
    }
  }

  lemma TextIsFree(c: Content, block: Option<string>)
    requires FreeContent(c) && (block.Some? ==> Free(block.value))
    ensures forall line :: line in TextLines(c, block) ==> Free(line)
  {
    TitleLineIsFree(c);
    NothingIsFree("");
    FreePlain("**Impact:** ", c.impact);
    FreePlain("**Verify:** ", c.verification);
    FreePlain("**Suggestion:** ", c.suggestion);
  }

  lemma {:induction false} JoinEndsWith(lines: seq<string>, last: string)
    requires lines != []
    ensures Join(lines + [last]) == Join(lines) + "\n" + last
  {
    var all := lines + [last];
    if |lines| == 1 {
      assert all[1..] == [last];
    } else {
      JoinEndsWith(lines[1..], last);
      assert all[1..] == lines[1..] + [last];
    }
  }

  /**
   * The body of a comment yields exactly its own finding's sanitized fingerprint, so a rerun knows the finding
   * again if and only if the fingerprint was well formed.
   */
  lemma BodyCarriesFingerprint(c: Content, block: Option<string>, fingerprint: string)
    requires FreeContent(c) && (block.Some? ==> Free(block.value))
    ensures Extract(InlineBody(c, block, fingerprint)) ==
      if Sanitize(fingerprint) == "" then {} else {Sanitize(fingerprint)}
    ensures Extract(InlineBody(c, block, fingerprint)) == {fingerprint} <==> WellFormed(fingerprint)
  {
    TextIsFree(c, block);
    JoinIsFree(TextLines(c, block));
    JoinEndsWith(TextLines(c, block), FindingMarker(fingerprint));
    ExtractSkips(Join(TextLines(c, block)), FindingMarker(fingerprint));
    MarkerIsRead(fingerprint);
    SanitizeKeeps(fingerprint);
    assert fingerprint in {fingerprint};
  }

  /** The text of a labelled part, if there is one, behind an empty line. */
  function Part(lead: string, text: string): string { if text == "" then "" else "\n\n" + (lead + text) }

  /** The body as text: title, severity and category, the message, the parts there are, and the marker. */
  lemma BodyTold(c: Content, block: Option<string>, fingerprint: string)
    ensures InlineBody(c, block, fingerprint) ==
      ("**" + c.title + "**  `" + c.severity + "` \U{00B7} " + c.category) + "\n\n" + c.message
      + Part("**Impact:** ", c.impact)
      + Part("**Verify:** ", c.verification)
      + (if block.Some? then "\n\n" + block.value else Part("**Suggestion:** ", c.suggestion))
      + "\n\n" + ("<!-- hubolt:finding:" + Sanitize(fingerprint) + " -->")
  {
    var head := [TitleLine(c), "", c.message];
    var impact, verify := Labelled("**Impact:** ", c.impact), Labelled("**Verify:** ", c.verification);
    var last := if block.Some? then ["", block.value] else Labelled("**Suggestion:** ", c.suggestion);
    HeadJoined(TitleLine(c), c.message);
    PartJoined(head, "**Impact:** ", c.impact);
    PartJoined(head + impact, "**Verify:** ", c.verification);
    if block.Some? {
      TwoMore(head + impact + verify, block.value);
    } else {
      PartJoined(head + impact + verify, "**Suggestion:** ", c.suggestion);
    }
    var lines := head + impact + verify + last;
    TwoMore(lines, FindingMarker(fingerprint));
    assert TextLines(c, block) + [FindingMarker(fingerprint)] == lines + ["", FindingMarker(fingerprint)];
  }

  lemma HeadJoined(title: string, message: string)
    ensures Join([title, "", message]) == title + "\n\n" + message
  {
    JoinEndsWith([title, ""], message);
    JoinEndsWith([title], "");
    assert [title, ""] + [message] == [title, "", message] && [title] + [""] == [title, ""];
    assert title + "\n" + "" + "\n" + message == title + "\n\n" + message;
  }

  lemma TwoMore(lines: seq<string>, last: string)
    requires lines != []
    ensures Join(lines + ["", last]) == Join(lines) + "\n\n" + last
  {
    JoinEndsWith(lines + [""], last);
    JoinEndsWith(lines, "");
    assert lines + [""] + [last] == lines + ["", last];
    assert Join(lines) + "\n" + "" + "\n" + last == Join(lines) + "\n\n" + last;
  }

  lemma PartJoined(lines: seq<string>, lead: string, text: string)
    requires lines != []
    ensures Join(lines + Labelled(lead, text)) == Join(lines) + Part(lead, text)
  {
    if text == "" {
      assert lines + [] == lines;
    } else {
      TwoMore(lines, lead + text);
      assert Join(lines) + "\n\n" + (lead + text) == Join(lines) + ("\n\n" + (lead + text));
    }
  }
}
