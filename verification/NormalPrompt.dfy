/**
 * The text under which a prompt is cached (src/core/llm-cache.ts). Prompts carry a random boundary; here every
 * boundary is replaced.
 */
module NormalPrompt {
  import opened Text
  import P = PromptFence

  /******* Normalizing a prompt *******/

  const BOUNDARY_LENGTH: nat := 18
  const CACHE_BEGIN := "BEGIN_UNTRUSTED_CACHE_BOUNDARY"
  const CACHE_END := "END_UNTRUSTED_CACHE_BOUNDARY"

  predicate Word(c: char) { 'A' <= c <= 'Z' || 'a' <= c <= 'z' || '0' <= c <= '9' || c == '_' }

  /** The text starts with the lead, a boundary, and then no further word character. */
  predicate MarkerHere(s: string, lead: string) {
    var n := |lead| + BOUNDARY_LENGTH;
    && n <= |s|
    && lead <= s
    && (forall k :: |lead| <= k < n ==> P.HexChar(s[k]))
    && (n == |s| || !Word(s[n]))
  }

  /** The marker at the front: what replaces it, and its length. */
  function Marker(s: string): (r: Option<(string, nat)>)
    ensures r.Some? ==> 0 < r.value.1 <= |s|
  {
    if MarkerHere(s, P.BEGIN) then Some((CACHE_BEGIN, |P.BEGIN| + BOUNDARY_LENGTH))
    else if MarkerHere(s, P.END) then Some((CACHE_END, |P.END| + BOUNDARY_LENGTH))
    else None
  }

  /** Every marker that is a word by itself, with any boundary, replaced; `inWord` tells what came before. */
  function Normalize(s: string, inWord: bool): string
    decreases |s|
  {
    if s == "" then ""
    else
      var marker: Option<(string, nat)> := if inWord then None else Marker(s);
      match marker
      case Some((replacement, n)) => replacement + Normalize(s[n..], true)
      case None => [s[0]] + Normalize(s[1..], Word(s[0]))
  }

  function Normal(prompt: string): string { Normalize(prompt, false) }

  lemma MarkerBeforeGap(a: string, c: char, b: string, lead: string)
    requires !Word(c)
    requires forall k :: 0 <= k < |lead| ==> Word(lead[k])
    ensures MarkerHere(a + [c] + b, lead) <==> MarkerHere(a, lead)
  {
    var s := a + [c] + b;
    var n := |lead| + BOUNDARY_LENGTH;
    assert s[|a|] == c;
    assert forall k :: 0 <= k < |a| ==> s[k] == a[k];
    if MarkerHere(s, lead) {
      assert forall k :: 0 <= k < |lead| ==> s[k] == lead[k];
      assert n <= |a|;
      assert a[..|lead|] == s[..|lead|];
    }
    if MarkerHere(a, lead) {
      assert s[..|lead|] == a[..|lead|];
    }
  }

  lemma MarkerSplits(a: string, c: char, b: string)
    requires !Word(c)
    ensures Marker(a + [c] + b) == Marker(a)
  {
    assert forall k :: 0 <= k < |P.BEGIN| ==> Word(P.BEGIN[k]);
    assert forall k :: 0 <= k < |P.END| ==> Word(P.END[k]);
    MarkerBeforeGap(a, c, b, P.BEGIN);
    MarkerBeforeGap(a, c, b, P.END);
  }

  lemma NormalizeMarker(s: string, inWord: bool)
    requires !inWord && Marker(s).Some?
    ensures Normalize(s, inWord) == Marker(s).value.0 + Normalize(s[Marker(s).value.1..], true)
  {
  }

  lemma NormalizeChar(s: string, inWord: bool)
    requires s != "" && (inWord || Marker(s).None?)
    ensures Normalize(s, inWord) == [s[0]] + Normalize(s[1..], Word(s[0]))
  {
  }

  /** Normalizing the text up to a gap and from it on gives the whole. */
  predicate Splits(a: string, c: char, b: string, inWord: bool) {
    Normalize(a + [c] + b, inWord) == Normalize(a, inWord) + [c] + Normalize(b, false)
  }

  lemma SplitsBehindMarker(a: string, c: char, b: string)
    requires !Word(c) && Marker(a).Some?
    requires Splits(a[Marker(a).value.1..], c, b, true)
    ensures Splits(a, c, b, false)
  {
    var s := a + [c] + b;
    var (replacement, n) := Marker(a).value;
    MarkerSplits(a, c, b);
    NormalizeMarker(s, false);
    NormalizeMarker(a, false);
    assert s[n..] == a[n..] + [c] + b;
    Regroup(replacement, Normalize(a[n..], true), [c], Normalize(b, false));
  }

  lemma SplitsBehindChar(a: string, c: char, b: string, inWord: bool)
    requires !Word(c) && a != "" && (inWord || Marker(a).None?)
    requires Splits(a[1..], c, b, Word(a[0]))
    ensures Splits(a, c, b, inWord)
  {
    var s, rest := a + [c] + b, a[1..] + [c] + b;
    assert s[0] == a[0] && s[1..] == rest;
    assert Normalize(s, inWord) == [a[0]] + Normalize(rest, Word(a[0])) by {
      MarkerSplits(a, c, b);
      NormalizeChar(s, inWord);
    }
    assert Normalize(a, inWord) == [a[0]] + Normalize(a[1..], Word(a[0])) by { NormalizeChar(a, inWord); }
    Regroup([a[0]], Normalize(a[1..], Word(a[0])), [c], Normalize(b, false));
  }

  lemma SplitsAtGap(c: char, b: string, inWord: bool)
    requires !Word(c)
    ensures Splits("", c, b, inWord)
  {
    var s := "" + [c] + b;
    MarkerSplits("", c, b);
    NormalizeChar(s, inWord);
    assert s[0] == c && s[1..] == b;
  }

  /** A character outside words cuts a text in two that are normalized apart. */
  lemma {:induction false} NormalizeSplits(a: string, c: char, b: string, inWord: bool)
    requires !Word(c)
    ensures Splits(a, c, b, inWord)
    decreases |a|
  {
    if !inWord && Marker(a).Some? {
      NormalizeSplits(a[Marker(a).value.1..], c, b, true);
      SplitsBehindMarker(a, c, b);
    } else if a == "" {
      SplitsAtGap(c, b, inWord);
    } else {
      NormalizeSplits(a[1..], c, b, Word(a[0]));
      SplitsBehindChar(a, c, b, inWord);
    }
  }

  lemma Regroup(a: string, b: string, c: string, d: string)
    ensures a + (b + c + d) == (a + b) + c + d
  {
  }

  /******* Comparing normalized texts *******/

  /** Two texts that are cached alike. */
  predicate Same(x: string, y: string) { Normal(x) == Normal(y) }

  /** Behind a common beginning the texts go on with different characters. */
  predicate Part(x: string, y: string) {
    exists k :: 0 <= k < |x| && k < |y| && x[..k] == y[..k] && x[k] != y[k]
  }

  /** The texts are cached alike if `same`, and else their normalized forms part. */
  predicate AlikeIf(x: string, y: string, same: bool) {
    if same then Same(x, y) else Part(Normal(x), Normal(y))
  }

  predicate SameAll(xs: seq<string>, ys: seq<string>) {
    |xs| == |ys| && forall i :: 0 <= i < |xs| ==> Same(xs[i], ys[i])
  }

  /** Text by text alike or parting, and all alike exactly if `same`. */
  predicate AllAlikeIf(xs: seq<string>, ys: seq<string>, same: bool) {
    && |xs| == |ys|
    && (forall i :: 0 <= i < |xs| ==> Same(xs[i], ys[i]) || Part(Normal(xs[i]), Normal(ys[i])))
    && (SameAll(xs, ys) <==> same)
  }

  lemma AlikeIsSame(x: string, y: string, same: bool)
    requires AlikeIf(x, y, same)
    ensures Same(x, y) <==> same
  {
  }

  lemma PartBefore(x: string, y: string, a: string, b: string)
    requires Part(x, y)
    ensures Part(x + a, y + b)
  {
    var k :| 0 <= k < |x| && k < |y| && x[..k] == y[..k] && x[k] != y[k];
    assert (x + a)[..k] == x[..k] && (y + b)[..k] == y[..k];
  }

  lemma PartBehind(a: string, x: string, y: string)
    requires Part(x, y)
    ensures Part(a + x, a + y)
  {
    var k :| 0 <= k < |x| && k < |y| && x[..k] == y[..k] && x[k] != y[k];
    assert (a + x)[..|a| + k] == a + x[..k] && (a + y)[..|a| + k] == a + y[..k];
    assert (a + x)[|a| + k] == x[k] && (a + y)[|a| + k] == y[k];
  }

  /** A gap keeps what stands on both sides of it apart. */
  lemma AlikeAround(a: string, x: string, c: char, b: string, y: string, left: bool, right: bool)
    requires !Word(c) && AlikeIf(a, x, left) && AlikeIf(b, y, right)
    ensures AlikeIf(a + [c] + b, x + [c] + y, left && right)
  {
    NormalizeSplits(a, c, b, false);
    NormalizeSplits(x, c, y, false);
    PartsAround(Normal(a), Normal(x), c, Normal(b), Normal(y));
  }

  lemma PartsAround(a: string, x: string, c: char, b: string, y: string)
    ensures Part(a, x) ==> Part(a + [c] + b, x + [c] + y)
    ensures a == x && Part(b, y) ==> Part(a + [c] + b, x + [c] + y)
  {
    if Part(a, x) {
      PartBefore(a, x, [c] + b, [c] + y);
      assert a + ([c] + b) == a + [c] + b && x + ([c] + y) == x + [c] + y;
    } else if a == x && Part(b, y) {
      PartBehind(a + [c], b, y);
    }
  }

  lemma SameAllFirst(xs: seq<string>, ys: seq<string>)
    requires |xs| == |ys| && xs != []
    ensures SameAll(xs, ys) <==> Same(xs[0], ys[0]) && SameAll(xs[1..], ys[1..])
  {
    if Same(xs[0], ys[0]) && SameAll(xs[1..], ys[1..]) {
      forall i | 0 <= i < |xs| ensures Same(xs[i], ys[i]) {
        assert i > 0 ==> xs[i] == xs[1..][i - 1] && ys[i] == ys[1..][i - 1];
      }
    }
  }

  lemma {:induction false} AlikeJoined(xs: seq<string>, ys: seq<string>, same: bool)
    requires AllAlikeIf(xs, ys, same)
    ensures AlikeIf(Join(xs), Join(ys), same)
  {
    if |xs| > 1 {
      var rest := SameAll(xs[1..], ys[1..]);
      SameAllFirst(xs, ys);
      AlikeJoined(xs[1..], ys[1..], rest);
      AlikeAround(xs[0], ys[0], '\n', Join(xs[1..]), Join(ys[1..]), Same(xs[0], ys[0]), rest);
    }
  }

  lemma AlikeConcat(a: seq<string>, x: seq<string>, b: seq<string>, y: seq<string>, left: bool, right: bool)
    requires AllAlikeIf(a, x, left) && AllAlikeIf(b, y, right)
    ensures AllAlikeIf(a + b, x + y, left && right)
  {
    var s, t := a + b, x + y;
    forall i | 0 <= i < |s|
      ensures s[i] == (if i < |a| then a[i] else b[i - |a|]) && t[i] == if i < |a| then x[i] else y[i - |a|] {
    }
    if SameAll(s, t) {
      forall i | 0 <= i < |a| ensures Same(a[i], x[i]) {
        assert s[i] == a[i] && t[i] == x[i];
      }
      forall i | 0 <= i < |b| ensures Same(b[i], y[i]) {
        assert s[|a| + i] == b[i] && t[|a| + i] == y[i];
      }
    }
  }

  lemma OneAlike(x: string, y: string, same: bool)
    requires AlikeIf(x, y, same)
    ensures AllAlikeIf([x], [y], same)
  {
    AlikeIsSame(x, y, same);
    assert SameAll([x], [y]) ==> Same([x][0], [y][0]);
  }

  lemma AlikeItself(xs: seq<string>)
    ensures AllAlikeIf(xs, xs, true)
  {
  }

  /******* A text under two boundaries *******/

  predicate RunBoundary(boundary: string) { P.Boundary(boundary) && |boundary| == BOUNDARY_LENGTH }

  lemma MarkersAreSame(b1: string, b2: string)
    requires RunBoundary(b1) && RunBoundary(b2)
    ensures Same(P.BeginMarker(b1), P.BeginMarker(b2)) && Same(P.EndMarker(b1), P.EndMarker(b2))
  {
    MarkersAreReplaced(b1);
    MarkersAreReplaced(b2);
  }

  lemma MarkersAreReplaced(boundary: string)
    requires RunBoundary(boundary)
    ensures Normal(P.BeginMarker(boundary)) == CACHE_BEGIN && Normal(P.EndMarker(boundary)) == CACHE_END
  {
    var begin, end := P.BeginMarker(boundary), P.EndMarker(boundary);
    assert begin[0] == 'B' && end[0] == 'E' && P.BEGIN[0] == 'B' && P.END[0] == 'E';
    assert forall k :: |P.BEGIN| <= k < |begin| ==> begin[k] == boundary[k - |P.BEGIN|];
    assert forall k :: |P.END| <= k < |end| ==> end[k] == boundary[k - |P.END|];
    assert MarkerHere(begin, P.BEGIN) && MarkerHere(end, P.END) && !MarkerHere(end, P.BEGIN);
    NormalizeMarker(begin, false);
    NormalizeMarker(end, false);
    assert begin[|begin|..] == "" && end[|end|..] == "";
  }

  /** The text has an end marker of this boundary in it. */
  predicate Marked(s: string, boundary: string) { Occurs(s, P.EndMarker(boundary)) }

  /** Word characters are kept, if they do not begin a marker. */
  lemma {:induction false} WordIsKept(word: string, rest: string, inWord: bool)
    requires word != "" && forall c :: c in word ==> Word(c)
    requires inWord || Marker(word + rest).None?
    ensures Normalize(word + rest, inWord) == word + Normalize(rest, true)
  {
    var s := word + rest;
    NormalizeChar(s, inWord);
    assert s[0] == word[0] && word[0] in word;
    assert s[1..] == word[1..] + rest;
    if |word| == 1 {
      assert word[1..] + rest == rest;
    } else {
      WordIsKept(word[1..], rest, true);
      assert [word[0]] + (word[1..] + Normalize(rest, true)) == word + Normalize(rest, true);
    }
  }

  /** No end marker of the boundary begins in the first `n` characters. */
  predicate Clear(s: string, boundary: string, n: nat) {
    forall k: nat :: k < n ==> !OccursAt(s, P.EndMarker(boundary), k)
  }

  lemma ClearBehind(s: string, boundary: string, n: nat)
    requires s != "" && n > 0 && Clear(s, boundary, n)
    ensures Clear(s[1..], boundary, n - 1)
  {
    forall k: nat | k < n - 1 ensures !OccursAt(s[1..], P.EndMarker(boundary), k) {
      OccursBehind(s, P.EndMarker(boundary), k);
    }
  }

  lemma NeutralizeSkipsOne(s: string, boundary: string)
    requires s != "" && Clear(s, boundary, 1)
    ensures P.Neutralize(s, boundary) == [s[0]] + P.Neutralize(s[1..], boundary)
    ensures Marked(s, boundary) <==> Marked(s[1..], boundary)
  {
    assert !OccursAt(s, P.EndMarker(boundary), 0);
    assert !(P.EndMarker(boundary) <= s);
    MarkedBehind(s, boundary);
  }

  lemma FrontGrows(s: string, n: nat, rest: string)
    requires 0 < n <= |s|
    ensures s[..n] + rest == [s[0]] + (s[1..][..n - 1] + rest) && s[1..][n - 1..] == s[n..]
  {
  }

  /** What no marker begins in stays in front, and markers are only behind it. */
  lemma {:induction false} NeutralizeSkips(s: string, boundary: string, n: nat)
    requires n <= |s| && Clear(s, boundary, n)
    ensures P.Neutralize(s, boundary) == s[..n] + P.Neutralize(s[n..], boundary)
    ensures Marked(s, boundary) <==> Marked(s[n..], boundary)
  {
    if n == 0 {
      assert s[..0] + P.Neutralize(s, boundary) == P.Neutralize(s, boundary) && s[0..] == s;
    } else {
      NeutralizeSkipsOne(s, boundary);
      ClearBehind(s, boundary, n);
      NeutralizeSkips(s[1..], boundary, n - 1);
      FrontGrows(s, n, P.Neutralize(s[n..], boundary));
    }
  }

  lemma OccursBehind(s: string, part: string, k: nat)
    requires s != ""
    ensures OccursAt(s[1..], part, k) <==> OccursAt(s, part, k + 1)
  {
    if k + 1 + |part| <= |s| {
      assert s[1..][k..k + |part|] == s[k + 1..k + 1 + |part|];
    }
  }

  lemma MarkedBehind(s: string, boundary: string)
    requires s != "" && !OccursAt(s, P.EndMarker(boundary), 0)
    ensures Marked(s, boundary) <==> Marked(s[1..], boundary)
  {
    var marker := P.EndMarker(boundary);
    if i: nat :| i <= |s| && OccursAt(s, marker, i) {
      OccursBehind(s, marker, i - 1);
    }
    if i: nat :| i <= |s[1..]| && OccursAt(s[1..], marker, i) {
      OccursBehind(s, marker, i);
    }
  }

  /** An end marker does not begin inside a marker of any boundary. */
  lemma NoEndInside(s: string, lead: string, k: nat)
    requires lead == P.BEGIN || lead == P.END
    requires |lead| + BOUNDARY_LENGTH <= |s| && lead <= s
    requires forall i :: |lead| <= i < |lead| + BOUNDARY_LENGTH ==> P.HexChar(s[i])
    requires 1 <= k < |lead| + BOUNDARY_LENGTH
    ensures k + 1 < |s| ==> !(s[k] == 'E' && s[k + 1] == 'N')
  {
    assert forall i :: 1 <= i < |P.BEGIN| - 1 ==> P.BEGIN[i] != 'E' || P.BEGIN[i + 1] != 'N';
    assert forall i :: 1 <= i < |P.END| - 1 ==> P.END[i] != 'E' || P.END[i + 1] != 'N';
    assert P.BEGIN[|P.BEGIN| - 1] == '_' && P.END[|P.END| - 1] == '_';
    if k < |lead| {
      assert s[k] == lead[k];
      assert k + 1 < |lead| ==> s[k + 1] == lead[k + 1];
    }
  }

  lemma NoMarkerInside(s: string, lead: string, boundary: string, k: nat)
    requires lead == P.BEGIN || lead == P.END
    requires |lead| + BOUNDARY_LENGTH <= |s| && lead <= s
    requires forall i :: |lead| <= i < |lead| + BOUNDARY_LENGTH ==> P.HexChar(s[i])
    requires 1 <= k < |lead| + BOUNDARY_LENGTH
    ensures !OccursAt(s, P.EndMarker(boundary), k)
  {
    var marker := P.EndMarker(boundary);
    assert marker[0] == 'E' && marker[1] == 'N';
    OccursChar(s, marker, k, 0);
    OccursChar(s, marker, k, 1);
    NoEndInside(s, lead, k);
  }

  /** The texts agree up to an end marker in the one and its replacement in the other. */
  predicate ReplacedAt(s: string, t: string, boundary: string, k: nat) {
    && k + |P.EndMarker(boundary)| <= |s| && P.EndMarker(boundary) <= s[k..]
    && k + |P.REPLACEMENT| <= |t| && P.REPLACEMENT <= t[k..]
    && s[..k] == t[..k]
  }

  lemma ReplacedAfter(c: char, s: string, t: string, boundary: string, k: nat)
    requires ReplacedAt(s, t, boundary, k)
    ensures ReplacedAt([c] + s, [c] + t, boundary, k + 1)
  {
    assert ([c] + s)[k + 1..] == s[k..] && ([c] + t)[k + 1..] == t[k..];
    assert ([c] + s)[..k + 1] == [c] + s[..k] && ([c] + t)[..k + 1] == [c] + t[..k];
  }

  lemma ReplacedInFront(s: string, boundary: string)
    requires P.EndMarker(boundary) <= s
    ensures ReplacedAt(s, P.Neutralize(s, boundary), boundary, 0)
  {
    assert s[0..] == s && P.Neutralize(s, boundary)[0..] == P.Neutralize(s, boundary);
  }

  lemma MarkedLater(s: string, boundary: string)
    requires Marked(s, boundary) && !(P.EndMarker(boundary) <= s)
    ensures s != "" && Marked(s[1..], boundary)
  {
    assert s != "";
    MarkedBehind(s, boundary);
  }

  /** Neutralizing keeps a text up to its first end marker. */
  lemma {:induction false} FirstMarker(s: string, boundary: string) returns (k: nat)
    requires Marked(s, boundary)
    ensures ReplacedAt(s, P.Neutralize(s, boundary), boundary, k)
  {
    if P.EndMarker(boundary) <= s {
      k := 0;
      ReplacedInFront(s, boundary);
    } else {
      MarkedLater(s, boundary);
      k := FirstMarker(s[1..], boundary);
      ReplacedAfter(s[0], s[1..], P.Neutralize(s[1..], boundary), boundary, k);
      assert s == [s[0]] + s[1..];
      k := k + 1;
    }
  }

  /** Where an end marker or its replacement begins, no marker goes on. */
  lemma NotHere(s: string, lead: string, k: nat)
    requires lead == P.BEGIN || lead == P.END
    requires 1 <= k < |lead| + BOUNDARY_LENGTH && k + 2 <= |s| && s[k] == 'E' && s[k + 1] == 'N'
    ensures !MarkerHere(s, lead)
  {
    if MarkerHere(s, lead) {
      NoEndInside(s, lead, k);
    }
  }

  lemma ReplacedChars(s: string, t: string, boundary: string, k: nat)
    requires ReplacedAt(s, t, boundary, k)
    ensures s[k] == t[k] == 'E' && s[k + 1] == t[k + 1] == 'N'
    ensures forall i :: 0 <= i < k ==> s[i] == t[i]
  {
    var marker := P.EndMarker(boundary);
    assert s[k] == s[k..][0] == marker[0] && s[k + 1] == s[k..][1] == marker[1];
    assert t[k] == t[k..][0] == P.REPLACEMENT[0] && t[k + 1] == t[k..][1] == P.REPLACEMENT[1];
    assert forall i :: 0 <= i < k ==> s[i] == s[..k][i] && t[i] == t[..k][i];
  }

  lemma LeadByPrefix(s: string, t: string, lead: string)
    requires |lead| + BOUNDARY_LENGTH < |s| && |lead| + BOUNDARY_LENGTH < |t|
    requires forall i :: 0 <= i <= |lead| + BOUNDARY_LENGTH ==> s[i] == t[i]
    ensures MarkerHere(s, lead) <==> MarkerHere(t, lead)
  {
    assert s[..|lead|] == t[..|lead|];
  }

  /** Neutralizing changes nothing about a marker at the front, unless it is the one it replaces. */
  lemma LeadIsKept(s: string, boundary: string, lead: string)
    requires lead == P.BEGIN || lead == P.END
    requires !(P.EndMarker(boundary) <= s)
    ensures MarkerHere(P.Neutralize(s, boundary), lead) <==> MarkerHere(s, lead)
  {
    if !Marked(s, boundary) {
      P.NothingToNeutralize(s, boundary);
    } else {
      var k := FirstMarker(s, boundary);
      assert s[0..] == s;
      LeadBefore(s, P.Neutralize(s, boundary), boundary, lead, k);
    }
  }

  lemma LeadBefore(s: string, t: string, boundary: string, lead: string, k: nat)
    requires lead == P.BEGIN || lead == P.END
    requires ReplacedAt(s, t, boundary, k) && k > 0
    ensures MarkerHere(t, lead) <==> MarkerHere(s, lead)
  {
    ReplacedChars(s, t, boundary, k);
    if k < |lead| + BOUNDARY_LENGTH {
      NotHere(s, lead, k);
      NotHere(t, lead, k);
    } else {
      LeadByPrefix(s, t, lead);
    }
  }

  lemma MarkerIsKept(s: string, boundary: string)
    requires !(P.EndMarker(boundary) <= s)
    ensures Marker(P.Neutralize(s, boundary)) == Marker(s)
  {
    LeadIsKept(s, boundary, P.BEGIN);
    LeadIsKept(s, boundary, P.END);
  }

  /** Behind a marker at the front the text is neutralized by itself. */
  lemma MarkerIsPassed(s: string, boundary: string)
    requires !(P.EndMarker(boundary) <= s) && Marker(s).Some?
    ensures var n := Marker(s).value.1;
      && P.Neutralize(s, boundary) == s[..n] + P.Neutralize(s[n..], boundary)
      && (Marked(s, boundary) <==> Marked(s[n..], boundary))
  {
    var n := Marker(s).value.1;
    var lead := if MarkerHere(s, P.BEGIN) then P.BEGIN else P.END;
    forall k: nat | k < n ensures !OccursAt(s, P.EndMarker(boundary), k) {
      if k > 0 {
        NoMarkerInside(s, lead, boundary, k);
      }
    }
    NeutralizeSkips(s, boundary, n);
  }

  /** A replaced marker begins differently from whatever normalizing can make of it. */
  lemma ReplacedBegins(rest: string, inWord: bool)
    ensures P.END + "R" <= Normalize(P.REPLACEMENT + rest, inWord)
  {
    var s := P.REPLACEMENT + rest;
    var word := P.END + "R";
    var more := s[|word|..];
    assert s == word + more;
    assert s[0] == 'E' && P.BEGIN[0] == 'B' && s[|P.END|] == 'R' && !P.HexChar('R');
    WordIsKept(word, more, inWord);
  }

  lemma MarkerBegins(boundary: string, rest: string, inWord: bool)
    requires RunBoundary(boundary)
    ensures var out := Normalize(P.EndMarker(boundary) + rest, inWord);
      P.END <= out && |out| > |P.END| && out[|P.END|] != 'R'
  {
    var marker := P.EndMarker(boundary);
    var s := marker + rest;
    assert s[0] == 'E' && P.BEGIN[0] == 'B';
    if inWord || Marker(s).None? {
      assert forall c :: c in P.END ==> Word(c);
      WordIsKept(marker, rest, inWord);
      assert marker[|P.END|] == boundary[0] && boundary[0] in boundary;
    } else {
      NormalizeMarker(s, inWord);
      assert CACHE_END == P.END + "CACHE_BOUNDARY";
    }
  }

  /** If one of the two markers stands at the front, the texts part there. */
  lemma FrontParts(s: string, b1: string, b2: string, inWord: bool)
    requires RunBoundary(b1) && RunBoundary(b2) && b1 != b2
    requires P.EndMarker(b1) <= s
    ensures var x, y := Normalize(P.Neutralize(s, b1), inWord), Normalize(P.Neutralize(s, b2), inWord);
      Part(x, y) && Part(y, x)
  {
    var marker := P.EndMarker(b1);
    var n := |marker|;
    assert marker[|P.END|..] == b1 && P.EndMarker(b2)[|P.END|..] == b2;
    assert forall i :: |P.END| <= i < n ==> s[i] == b1[i - |P.END|];
    assert P.END <= marker;
    forall k: nat | k < n ensures !OccursAt(s, P.EndMarker(b2), k) {
      if k > 0 {
        NoMarkerInside(s, P.END, b2, k);
      }
    }
    NeutralizeSkips(s, b2, n);
    assert P.Neutralize(s, b1) == P.REPLACEMENT + P.Neutralize(s[n..], b1);
    assert P.Neutralize(s, b2) == marker + P.Neutralize(s[n..], b2);
    ReplacedBegins(P.Neutralize(s[n..], b1), inWord);
    MarkerBegins(b1, P.Neutralize(s[n..], b2), inWord);
    ForkBehind(P.END, Normalize(P.Neutralize(s, b1), inWord), Normalize(P.Neutralize(s, b2), inWord));
  }

  lemma ForkBehind(lead: string, x: string, y: string)
    requires lead + "R" <= x && lead <= y && |y| > |lead| && y[|lead|] != 'R'
    ensures Part(x, y) && Part(y, x)
  {
    assert x[|lead|] == (lead + "R")[|lead|] == 'R';
    assert x[..|lead|] == (lead + "R")[..|lead|] == lead == y[..|lead|];
  }

  /** A text neutralized under two boundaries is normalized alike exactly if it has neither end marker in it. */
  predicate Tells(s: string, b1: string, b2: string, inWord: bool) {
    var x, y := Normalize(P.Neutralize(s, b1), inWord), Normalize(P.Neutralize(s, b2), inWord);
    if Marked(s, b1) || Marked(s, b2) then Part(x, y) else x == y
  }

  lemma TellsBehind(front: string, x: string, y: string)
    ensures Part(x, y) ==> Part(front + x, front + y)
  {
    if Part(x, y) {
      PartBehind(front, x, y);
    }
  }

  lemma TellsBehindMarker(s: string, b1: string, b2: string)
    requires !(P.EndMarker(b1) <= s) && !(P.EndMarker(b2) <= s) && Marker(s).Some?
    requires Tells(s[Marker(s).value.1..], b1, b2, true)
    ensures Tells(s, b1, b2, false)
  {
    var (replacement, n) := Marker(s).value;
    var rest := s[n..];
    NormalizedBehindMarker(s, b1);
    NormalizedBehindMarker(s, b2);
    TellsBehind(replacement, Normalize(P.Neutralize(rest, b1), true), Normalize(P.Neutralize(rest, b2), true));
  }

  lemma NormalizedBehindMarker(s: string, boundary: string)
    requires !(P.EndMarker(boundary) <= s) && Marker(s).Some?
    ensures var (replacement, n) := Marker(s).value;
      && Normalize(P.Neutralize(s, boundary), false)
         == replacement + Normalize(P.Neutralize(s[n..], boundary), true)
      && (Marked(s, boundary) <==> Marked(s[n..], boundary))
  {
    var n := Marker(s).value.1;
    var t := P.Neutralize(s, boundary);
    MarkerIsKept(s, boundary);
    MarkerIsPassed(s, boundary);
    NormalizeMarker(t, false);
    assert t[n..] == P.Neutralize(s[n..], boundary);
  }

  lemma TellsBehindChar(s: string, b1: string, b2: string, inWord: bool)
    requires s != "" && !(P.EndMarker(b1) <= s) && !(P.EndMarker(b2) <= s) && (inWord || Marker(s).None?)
    requires Tells(s[1..], b1, b2, Word(s[0]))
    ensures Tells(s, b1, b2, inWord)
  {
    var rest, word := s[1..], Word(s[0]);
    NormalizedBehindChar(s, b1, inWord);
    NormalizedBehindChar(s, b2, inWord);
    TellsBehind([s[0]], Normalize(P.Neutralize(rest, b1), word), Normalize(P.Neutralize(rest, b2), word));
  }

  lemma NormalizedBehindChar(s: string, boundary: string, inWord: bool)
    requires s != "" && !(P.EndMarker(boundary) <= s) && (inWord || Marker(s).None?)
    ensures Normalize(P.Neutralize(s, boundary), inWord)
      == [s[0]] + Normalize(P.Neutralize(s[1..], boundary), Word(s[0]))
    ensures Marked(s, boundary) <==> Marked(s[1..], boundary)
  {
    var t := P.Neutralize(s, boundary);
    MarkerIsKept(s, boundary);
    assert t == [s[0]] + P.Neutralize(s[1..], boundary);
    NormalizeChar(t, inWord);
    assert t[0] == s[0] && t[1..] == P.Neutralize(s[1..], boundary);
    MarkedBehind(s, boundary);
  }

  /** For any text, whatever stands before it. */
  lemma {:induction false} NeutralizedTells(s: string, b1: string, b2: string, inWord: bool)
    requires RunBoundary(b1) && RunBoundary(b2) && b1 != b2
    ensures Tells(s, b1, b2, inWord)
    decreases |s|
  {
    if P.EndMarker(b1) <= s {
      assert OccursAt(s, P.EndMarker(b1), 0);
      FrontParts(s, b1, b2, inWord);
    } else if P.EndMarker(b2) <= s {
      assert OccursAt(s, P.EndMarker(b2), 0);
      FrontParts(s, b2, b1, inWord);
    } else if s == "" {
      assert !Marked(s, b1) && !Marked(s, b2);
    } else if !inWord && Marker(s).Some? {
      NeutralizedTells(s[Marker(s).value.1..], b1, b2, true);
      TellsBehindMarker(s, b1, b2);
    } else {
      NeutralizedTells(s[1..], b1, b2, Word(s[0]));
      TellsBehindChar(s, b1, b2, inWord);
    }
  }

  /******* A prompt under two boundaries *******/

  /** Neutralizing makes no difference between the two boundaries. */
  predicate Unmarked(s: string, b1: string, b2: string) { b1 == b2 || (!Marked(s, b1) && !Marked(s, b2)) }

  predicate AllUnmarked(texts: seq<string>, b1: string, b2: string) {
    forall i :: 0 <= i < |texts| ==> Unmarked(texts[i], b1, b2)
  }

  lemma ContentAlike(content: string, b1: string, b2: string)
    requires RunBoundary(b1) && RunBoundary(b2)
    ensures AlikeIf(P.Neutralize(content, b1), P.Neutralize(content, b2), Unmarked(content, b1, b2))
  {
    if b1 != b2 {
      NeutralizedTells(content, b1, b2, false);
    }
  }

  lemma ItemAlike(content: string, b1: string, b2: string)
    requires RunBoundary(b1) && RunBoundary(b2)
    ensures AlikeIf("- " + P.Neutralize(content, b1), "- " + P.Neutralize(content, b2), Unmarked(content, b1, b2))
  {
    var x, y := P.Neutralize(content, b1), P.Neutralize(content, b2);
    ContentAlike(content, b1, b2);
    AlikeAround("-", "-", ' ', x, y, true, Unmarked(content, b1, b2));
    assert "- " + x == "-" + [' '] + x && "- " + y == "-" + [' '] + y;
  }

  /** The same of a sequence of texts, one made from each content. */
  lemma AllAlike(xs: seq<string>, ys: seq<string>, contents: seq<string>, b1: string, b2: string)
    requires |xs| == |ys| == |contents|
    requires forall i :: 0 <= i < |xs| ==> AlikeIf(xs[i], ys[i], Unmarked(contents[i], b1, b2))
    ensures AllAlikeIf(xs, ys, AllUnmarked(contents, b1, b2))
  {
    forall i | 0 <= i < |xs| ensures Same(xs[i], ys[i]) <==> Unmarked(contents[i], b1, b2) {
      AlikeIsSame(xs[i], ys[i], Unmarked(contents[i], b1, b2));
    }
  }

  lemma RuleItemsAlike(rules: seq<string>, b1: string, b2: string)
    requires RunBoundary(b1) && RunBoundary(b2)
    ensures AllAlikeIf(P.RuleItems(rules, b1), P.RuleItems(rules, b2), AllUnmarked(rules, b1, b2))
  {
    forall i | 0 <= i < |rules|
      ensures AlikeIf(P.RuleItems(rules, b1)[i], P.RuleItems(rules, b2)[i], Unmarked(rules[i], b1, b2))
    {
      ItemAlike(rules[i], b1, b2);
    }
    AllAlike(P.RuleItems(rules, b1), P.RuleItems(rules, b2), rules, b1, b2);
  }

  /** What a signal puts into the prompt. */
  function SignalTexts(signals: seq<P.Signal>): (r: seq<string>)
    ensures |r| == |signals|
    ensures forall i :: 0 <= i < |r| ==> r[i] == P.SanitizeInline(P.SignalText(signals[i]))
  {
    seq(|signals|, i requires 0 <= i < |signals| => P.SanitizeInline(P.SignalText(signals[i])))
  }

  lemma SignalItemsAlike(signals: seq<P.Signal>, b1: string, b2: string)
    requires RunBoundary(b1) && RunBoundary(b2)
    ensures AllAlikeIf(P.SignalItems(signals, b1), P.SignalItems(signals, b2),
                       AllUnmarked(SignalTexts(signals), b1, b2))
  {
    var texts := SignalTexts(signals);
    forall i | 0 <= i < |texts|
      ensures AlikeIf(P.SignalItems(signals, b1)[i], P.SignalItems(signals, b2)[i], Unmarked(texts[i], b1, b2))
    {
      ItemAlike(texts[i], b1, b2);
    }
    AllAlike(P.SignalItems(signals, b1), P.SignalItems(signals, b2), texts, b1, b2);
  }

  lemma {:induction false} CardItemsAlike(cards: seq<string>, b1: string, b2: string)
    requires RunBoundary(b1) && RunBoundary(b2)
    ensures AllAlikeIf(P.CardItems(cards, b1), P.CardItems(cards, b2), AllUnmarked(cards, b1, b2))
  {
    if cards != [] {
      var n := |cards| - 1;
      var title, before, last := "card " + Decimal(n + 1) + ":", cards[..n], cards[n];
      CardItemsAlike(before, b1, b2);
      ContentAlike(last, b1, b2);
      CardAlike(P.CardItems(before, b1), P.CardItems(before, b2), title, P.Neutralize(last, b1),
                P.Neutralize(last, b2), AllUnmarked(before, b1, b2), Unmarked(last, b1, b2));
      LastUnmarked(cards, b1, b2);
    }
  }

  lemma CardAlike(xs: seq<string>, ys: seq<string>, title: string, x: string, y: string, before: bool, last: bool)
    requires AllAlikeIf(xs, ys, before) && AlikeIf(x, y, last)
    ensures AllAlikeIf(xs + [title, x], ys + [title, y], before && last)
  {
    OneAlike(x, y, last);
    QuietBefore([title], [x], [y], last);
    assert [title] + [x] == [title, x] && [title] + [y] == [title, y];
    AlikeConcat(xs, ys, [title, x], [title, y], before, last);
  }

  lemma LastUnmarked(texts: seq<string>, b1: string, b2: string)
    requires texts != []
    ensures var n := |texts| - 1;
      AllUnmarked(texts, b1, b2) <==> AllUnmarked(texts[..n], b1, b2) && Unmarked(texts[n], b1, b2)
  {
    var n := |texts| - 1;
    assert texts == texts[..n] + [texts[n]];
    if AllUnmarked(texts, b1, b2) {
      forall i | 0 <= i < n ensures Unmarked(texts[..n][i], b1, b2) {
        assert texts[..n][i] == texts[i];
      }
    }
  }

  lemma HeaderIsSame(b1: string, b2: string, attributes: string)
    requires RunBoundary(b1) && RunBoundary(b2)
    ensures Same(P.Header(b1, attributes), P.Header(b2, attributes))
  {
    MarkersAreSame(b1, b2);
    AlikeAround(P.BeginMarker(b1), P.BeginMarker(b2), ' ', attributes, attributes, true, true);
  }

  /** A block: its header, its lines, and the end marker. */
  lemma BlockAlike(h1: string, h2: string, xs: seq<string>, ys: seq<string>, e1: string, e2: string, same: bool)
    requires Same(h1, h2) && Same(e1, e2) && AllAlikeIf(xs, ys, same)
    ensures AllAlikeIf([h1] + xs + [e1], [h2] + ys + [e2], same)
  {
    OneAlike(h1, h2, true);
    OneAlike(e1, e2, true);
    AlikeConcat([h1], [h2], xs, ys, true, same);
    AlikeConcat([h1] + xs, [h2] + ys, [e1], [e2], same, true);
  }

  /** The block behind lines that carry no boundary. */
  lemma QuietBefore(quiet: seq<string>, xs: seq<string>, ys: seq<string>, same: bool)
    requires AllAlikeIf(xs, ys, same)
    ensures AllAlikeIf(quiet + xs, quiet + ys, same)
  {
    AlikeItself(quiet);
    AlikeConcat(quiet, quiet, xs, ys, true, same);
  }

  lemma RulesAlike(input: P.Input, b1: string, b2: string)
    requires RunBoundary(b1) && RunBoundary(b2)
    ensures AllAlikeIf(P.RulesPart(input, b1), P.RulesPart(input, b2), AllUnmarked(input.rules, b1, b2))
  {
    var quiet, same := ["", P.RULES_HEADING], AllUnmarked(input.rules, b1, b2);
    var h1, h2, e1, e2 := P.RulesHeader(b1), P.RulesHeader(b2), P.EndMarker(b1), P.EndMarker(b2);
    var xs, ys := P.RuleItems(input.rules, b1), P.RuleItems(input.rules, b2);
    HeaderIsSame(b1, b2, "kind=rules");
    MarkersAreSame(b1, b2);
    RuleItemsAlike(input.rules, b1, b2);
    BlockAlike(h1, h2, xs, ys, e1, e2, same);
    QuietBefore(quiet, [h1] + xs + [e1], [h2] + ys + [e2], same);
    HeadedBlock("", P.RULES_HEADING, h1, xs, e1);
    HeadedBlock("", P.RULES_HEADING, h2, ys, e2);
  }

  lemma HeadedBlock(gap: string, heading: string, header: string, items: seq<string>, end: string)
    ensures [gap, heading] + ([header] + items + [end]) == [gap, heading, header] + items + [end]
  {
  }

  lemma MemoryAlike(input: P.Input, b1: string, b2: string)
    requires RunBoundary(b1) && RunBoundary(b2)
    ensures AllAlikeIf(P.MemoryPart(input, b1), P.MemoryPart(input, b2), AllUnmarked(input.memory, b1, b2))
  {
    var quiet, same := ["", P.MEMORY_HEADING], AllUnmarked(input.memory, b1, b2);
    var h1, h2, e1, e2 := P.MemoryHeader(b1), P.MemoryHeader(b2), P.EndMarker(b1), P.EndMarker(b2);
    var xs, ys := P.CardItems(input.memory, b1), P.CardItems(input.memory, b2);
    HeaderIsSame(b1, b2, "kind=teamMemory");
    MarkersAreSame(b1, b2);
    CardItemsAlike(input.memory, b1, b2);
    BlockAlike(h1, h2, xs, ys, e1, e2, same);
    QuietBefore(quiet, [h1] + xs + [e1], [h2] + ys + [e2], same);
    HeadedBlock("", P.MEMORY_HEADING, h1, xs, e1);
    HeadedBlock("", P.MEMORY_HEADING, h2, ys, e2);
  }

  lemma SignalsAlike(input: P.Input, b1: string, b2: string)
    requires RunBoundary(b1) && RunBoundary(b2)
    ensures AllAlikeIf(P.SignalsPart(input, b1), P.SignalsPart(input, b2),
                       AllUnmarked(SignalTexts(input.signals), b1, b2))
  {
    var same := AllUnmarked(SignalTexts(input.signals), b1, b2);
    var h1, h2, e1, e2 := P.SignalsHeader(b1), P.SignalsHeader(b2), P.EndMarker(b1), P.EndMarker(b2);
    var xs, ys := P.SignalItems(input.signals, b1), P.SignalItems(input.signals, b2);
    HeaderIsSame(b1, b2, "kind=analyzerSignals");
    MarkersAreSame(b1, b2);
    SignalItemsAlike(input.signals, b1, b2);
    BlockAlike(h1, h2, xs, ys, e1, e2, same);
    AlikeJoined([h1] + xs + [e1], [h2] + ys + [e2], same);
    LastAlike("", P.SIGNALS_HEADING, Join([h1] + xs + [e1]), Join([h2] + ys + [e2]), same);
  }

  lemma LastAlike(gap: string, heading: string, x: string, y: string, same: bool)
    requires AlikeIf(x, y, same)
    ensures AllAlikeIf([gap, heading, x], [gap, heading, y], same)
  {
    OneAlike(x, y, same);
    QuietBefore([gap, heading], [x], [y], same);
    assert [gap, heading] + [x] == [gap, heading, x] && [gap, heading] + [y] == [gap, heading, y];
  }

  /** What the files put into the prompt. */
  function FileTexts(input: P.Input): (r: seq<string>)
    ensures |r| == |input.files|
    ensures forall i :: 0 <= i < |r| ==> r[i] == P.Redacted(input.files[i], input).0
  {
    seq(|input.files|, i requires 0 <= i < |input.files| => P.Redacted(input.files[i], input).0)
  }

  lemma FileBlockAlike(file: P.ReviewFile, input: P.Input, b1: string, b2: string)
    requires RunBoundary(b1) && RunBoundary(b2)
    ensures AlikeIf(P.FileBlock(file, input, b1), P.FileBlock(file, input, b2),
                    Unmarked(P.Redacted(file, input).0, b1, b2))
  {
    var content := P.Redacted(file, input).0;
    HeaderIsSame(b1, b2, P.JoinWith(P.FileAttributes(file, input), " "));
    MarkersAreSame(b1, b2);
    ContentAlike(content, b1, b2);
    FencedAlike(P.FileHeader(file, input, b1), P.FileHeader(file, input, b2), P.Neutralize(content, b1),
                P.Neutralize(content, b2), P.EndMarker(b1), P.EndMarker(b2), Unmarked(content, b1, b2));
  }

  lemma FencedAlike(h1: string, h2: string, x: string, y: string, e1: string, e2: string, same: bool)
    requires Same(h1, h2) && Same(e1, e2) && AlikeIf(x, y, same)
    ensures AlikeIf(Join([h1, x, e1]), Join([h2, y, e2]), same)
  {
    OneAlike(x, y, same);
    BlockAlike(h1, h2, [x], [y], e1, e2, same);
    assert [h1] + [x] + [e1] == [h1, x, e1] && [h2] + [y] + [e2] == [h2, y, e2];
    AlikeJoined([h1, x, e1], [h2, y, e2], same);
  }

  lemma SameAllLast(xs: seq<string>, ys: seq<string>)
    requires |xs| == |ys| && xs != []
    ensures var n := |xs| - 1; SameAll(xs, ys) <==> SameAll(xs[..n], ys[..n]) && Same(xs[n], ys[n])
  {
    var n := |xs| - 1;
    if SameAll(xs[..n], ys[..n]) && Same(xs[n], ys[n]) {
      forall i | 0 <= i < |xs| ensures Same(xs[i], ys[i]) {
        assert i < n ==> xs[i] == xs[..n][i] && ys[i] == ys[..n][i];
      }
    }
  }

  lemma {:induction false} SpacedAlike(xs: seq<string>, ys: seq<string>, same: bool)
    requires AllAlikeIf(xs, ys, same)
    ensures AllAlikeIf(P.Spaced(xs), P.Spaced(ys), same)
  {
    if xs != [] {
      var n := |xs| - 1;
      var before, last := SameAll(xs[..n], ys[..n]), Same(xs[n], ys[n]);
      SameAllLast(xs, ys);
      SpacedAlike(xs[..n], ys[..n], before);
      OneAlike(xs[n], ys[n], last);
      QuietBefore([""], [xs[n]], [ys[n]], last);
      assert [""] + [xs[n]] == ["", xs[n]] && [""] + [ys[n]] == ["", ys[n]];
      AlikeConcat(P.Spaced(xs[..n]), P.Spaced(ys[..n]), ["", xs[n]], ["", ys[n]], before, last);
    }
  }

  lemma FilesAlike(input: P.Input, b1: string, b2: string)
    requires RunBoundary(b1) && RunBoundary(b2)
    ensures AllAlikeIf(P.Spaced(P.FileBlocks(input, b1)), P.Spaced(P.FileBlocks(input, b2)),
                       AllUnmarked(FileTexts(input), b1, b2))
  {
    var xs, ys, texts := P.FileBlocks(input, b1), P.FileBlocks(input, b2), FileTexts(input);
    forall i | 0 <= i < |xs| ensures AlikeIf(xs[i], ys[i], Unmarked(texts[i], b1, b2)) {
      FileBlockAlike(input.files[i], input, b1, b2);
    }
    AllAlike(xs, ys, texts, b1, b2);
    SpacedAlike(xs, ys, AllUnmarked(texts, b1, b2));
  }

  lemma TopsAlike(input: P.Input, b1: string, b2: string)
    requires RunBoundary(b1) && RunBoundary(b2)
    ensures AllAlikeIf(P.Top(input, b1), P.Top(input, b2),
                       AllUnmarked(input.rules, b1, b2) && AllUnmarked(input.memory, b1, b2))
  {
    var scope, rules := [P.ScopeLine(input)], AllUnmarked(input.rules, b1, b2);
    RulesAlike(input, b1, b2);
    MemoryAlike(input, b1, b2);
    QuietBefore(scope, P.RulesPart(input, b1), P.RulesPart(input, b2), rules);
    AlikeConcat(scope + P.RulesPart(input, b1), scope + P.RulesPart(input, b2),
                P.MemoryPart(input, b1), P.MemoryPart(input, b2), rules, AllUnmarked(input.memory, b1, b2));
  }

  lemma BottomsAlike(input: P.Input, b1: string, b2: string)
    requires RunBoundary(b1) && RunBoundary(b2)
    ensures AllAlikeIf(P.Bottom(input, b1), P.Bottom(input, b2),
                       AllUnmarked(FileTexts(input), b1, b2) && AllUnmarked(SignalTexts(input.signals), b1, b2))
  {
    var quiet, files := ["", P.FILES_HEADING], AllUnmarked(FileTexts(input), b1, b2);
    var xs, ys := P.Spaced(P.FileBlocks(input, b1)), P.Spaced(P.FileBlocks(input, b2));
    FilesAlike(input, b1, b2);
    SignalsAlike(input, b1, b2);
    QuietBefore(quiet, xs, ys, files);
    AlikeConcat(quiet + xs, quiet + ys, P.SignalsPart(input, b1), P.SignalsPart(input, b2), files,
                AllUnmarked(SignalTexts(input.signals), b1, b2));
  }

  /** The texts from the repository that the prompt shows, in one list; without files it shows no signals. */
  function Contents(input: P.Input): seq<string> {
    input.rules + input.memory + if input.files == [] then [] else FileTexts(input) + SignalTexts(input.signals)
  }

  lemma UnmarkedConcat(xs: seq<string>, ys: seq<string>, b1: string, b2: string)
    ensures AllUnmarked(xs + ys, b1, b2) <==> AllUnmarked(xs, b1, b2) && AllUnmarked(ys, b1, b2)
  {
    if AllUnmarked(xs + ys, b1, b2) {
      forall i | 0 <= i < |xs| ensures Unmarked(xs[i], b1, b2) {
        assert (xs + ys)[i] == xs[i];
      }
      forall i | 0 <= i < |ys| ensures Unmarked(ys[i], b1, b2) {
        assert (xs + ys)[|xs| + i] == ys[i];
      }
    }
  }

  lemma SectionsAlike(input: P.Input, b1: string, b2: string)
    requires RunBoundary(b1) && RunBoundary(b2)
    ensures AllAlikeIf(P.Sections(input, b1), P.Sections(input, b2), AllUnmarked(Contents(input), b1, b2))
  {
    var files, signals := FileTexts(input), SignalTexts(input.signals);
    var shown := AllUnmarked(input.rules, b1, b2) && AllUnmarked(input.memory, b1, b2);
    TopsAlike(input, b1, b2);
    UnmarkedConcat(input.rules, input.memory, b1, b2);
    if input.files == [] {
      var note := ["", P.NO_FILES];
      AlikeItself(note);
      AlikeConcat(P.Top(input, b1), P.Top(input, b2), note, note, shown, true);
      assert Contents(input) == input.rules + input.memory;
    } else {
      BottomsAlike(input, b1, b2);
      AlikeConcat(P.Top(input, b1), P.Top(input, b2), P.Bottom(input, b1), P.Bottom(input, b2), shown,
                  AllUnmarked(files, b1, b2) && AllUnmarked(signals, b1, b2));
      UnmarkedConcat(files, signals, b1, b2);
      UnmarkedConcat(input.rules + input.memory, files + signals, b1, b2);
    }
  }

  /**
   * One review asked for under two boundaries is one prompt to the cache if and only if none of the shown texts
   * has the end marker of either in it, as is all but certain of random boundaries.
   */
  lemma BoundaryDoesNotMatter(input: P.Input, b1: string, b2: string)
    requires RunBoundary(b1) && RunBoundary(b2)
    ensures Same(P.UserPrompt(input, b1), P.UserPrompt(input, b2)) <==> AllUnmarked(Contents(input), b1, b2)
  {
    var same := AllUnmarked(Contents(input), b1, b2);
    SectionsAlike(input, b1, b2);
    AlikeJoined(P.Sections(input, b1), P.Sections(input, b2), same);
    AlikeIsSame(P.UserPrompt(input, b1), P.UserPrompt(input, b2), same);
  }

  /** A rule that quotes the end marker of one of two boundaries is cached under two keys. */
  lemma QuotedMarkerIsSeen(input: P.Input, b1: string, b2: string)
    requires RunBoundary(b1) && RunBoundary(b2) && b1 != b2
    requires input.rules == [P.EndMarker(b1)]
    ensures !Same(P.UserPrompt(input, b1), P.UserPrompt(input, b2))
  {
    assert OccursAt(P.EndMarker(b1), P.EndMarker(b1), 0);
    assert Contents(input)[0] == P.EndMarker(b1);
    BoundaryDoesNotMatter(input, b1, b2);
  }

  /******* The system prompt *******/

  /** Fixed lines, and two that quote the markers to the model. */
  datatype SystemText = SystemText(
    above: seq<string>, lead: string, between: string, rest: string, middle: seq<string>, only: string, after: string,
    below: seq<string>)

  function Quoted(lead: string, marker: string, rest: string): string { lead + ['"'] + (marker + ['"'] + rest) }

  function SystemPrompt(t: SystemText, boundary: string): string {
    Join(t.above
         + [Quoted(t.lead, P.BeginMarker(boundary), Quoted(t.between, P.EndMarker(boundary), t.rest))]
         + t.middle + [Quoted(t.only, P.EndMarker(boundary), t.after)] + t.below)
  }

  lemma QuotedIsSame(lead: string, m1: string, m2: string, r1: string, r2: string)
    requires Same(m1, m2) && Same(r1, r2)
    ensures Same(Quoted(lead, m1, r1), Quoted(lead, m2, r2))
  {
    AlikeAround(m1, m2, '"', r1, r2, true, true);
    AlikeAround(lead, lead, '"', m1 + ['"'] + r1, m2 + ['"'] + r2, true, true);
  }

  lemma SystemPromptIsSame(t: SystemText, b1: string, b2: string)
    requires RunBoundary(b1) && RunBoundary(b2)
    ensures Same(SystemPrompt(t, b1), SystemPrompt(t, b2))
  {
    var e1, e2 := P.EndMarker(b1), P.EndMarker(b2);
    MarkersAreSame(b1, b2);
    QuotedIsSame(t.between, e1, e2, t.rest, t.rest);
    var inner1, inner2 := Quoted(t.between, e1, t.rest), Quoted(t.between, e2, t.rest);
    QuotedIsSame(t.lead, P.BeginMarker(b1), P.BeginMarker(b2), inner1, inner2);
    QuotedIsSame(t.only, e1, e2, t.after, t.after);
    var x1, x2 := Quoted(t.lead, P.BeginMarker(b1), inner1), Quoted(t.lead, P.BeginMarker(b2), inner2);
    var y1, y2 := Quoted(t.only, e1, t.after), Quoted(t.only, e2, t.after);
    LinesAreSame(t.above, x1, x2, t.middle, y1, y2, t.below);
    AlikeJoined(t.above + [x1] + t.middle + [y1] + t.below, t.above + [x2] + t.middle + [y2] + t.below, true);
  }

  lemma LinesAreSame(a: seq<string>, x1: string, x2: string, b: seq<string>, y1: string, y2: string, c: seq<string>)
    requires Same(x1, x2) && Same(y1, y2)
    ensures AllAlikeIf(a + [x1] + b + [y1] + c, a + [x2] + b + [y2] + c, true)
  {
    AlikeItself(b);
    AlikeItself(c);
    OneAlike(x1, x2, true);
    OneAlike(y1, y2, true);
    QuietBefore(a, [x1], [x2], true);
    AlikeConcat(a + [x1], a + [x2], b, b, true, true);
    AlikeConcat(a + [x1] + b, a + [x2] + b, [y1], [y2], true, true);
    AlikeConcat(a + [x1] + b + [y1], a + [x2] + b + [y2], c, c, true, true);
  }
}
