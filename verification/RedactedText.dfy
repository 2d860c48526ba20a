/**
 * What is left of a text (src/core/redact.ts), told from where the patterns match: index by index, every secret
 * has the placeholder in its place, and all else is kept. And what the scanner reports of it.
 */
module RedactedText {
  import opened Redaction
  import opened Text

  function Concat(parts: seq<string>): string {
    if parts == [] then "" else parts[0] + Concat(parts[1..])
  }

  function Trues(flags: seq<bool>): nat {
    if flags == [] then 0 else (if flags[0] then 1 else 0) + Trues(flags[1..])
  }

  /******* One line *******/

  lemma {:induction false} KeysTold(keys: seq<Key>, placeholder: string)
    ensures RewriteKeys(keys, placeholder).0 == Concat(seq(|keys|, i requires 0 <= i < |keys| =>
      keys[i].before + keys[i].begin + (if Blank(keys[i].body) then keys[i].body else placeholder) + keys[i].end))
    ensures RewriteKeys(keys, placeholder).1 == Trues(seq(|keys|, i requires 0 <= i < |keys| => !Blank(keys[i].body)))
  {
    if keys != [] {
      var rest := keys[1..];
      KeysTold(rest, placeholder);
      var parts := seq(|keys|, i requires 0 <= i < |keys| =>
        keys[i].before + keys[i].begin + (if Blank(keys[i].body) then keys[i].body else placeholder) + keys[i].end);
      assert parts[1..] == seq(|rest|, i requires 0 <= i < |rest| =>
        rest[i].before + rest[i].begin + (if Blank(rest[i].body) then rest[i].body else placeholder) + rest[i].end);
      var flags := seq(|keys|, i requires 0 <= i < |keys| => !Blank(keys[i].body));
      assert flags[1..] == seq(|rest|, i requires 0 <= i < |rest| => !Blank(rest[i].body));
    }
  }

  lemma {:induction false} AssignmentsTold(p: Patterns, found: seq<Assignment>, placeholder: string)
    ensures RewriteAssignments(p, found, placeholder).0 == Concat(seq(|found|, i requires 0 <= i < |found| =>
      found[i].before + found[i].name + found[i].op + [found[i].quote]
      + (if p.exempt(found[i]) then found[i].value else placeholder) + [found[i].quote]))
    ensures RewriteAssignments(p, found, placeholder).1
      == Trues(seq(|found|, i requires 0 <= i < |found| => !p.exempt(found[i])))
  {
    if found != [] {
      var rest := found[1..];
      AssignmentsTold(p, rest, placeholder);
      var parts := seq(|found|, i requires 0 <= i < |found| =>
        found[i].before + found[i].name + found[i].op + [found[i].quote]
        + (if p.exempt(found[i]) then found[i].value else placeholder) + [found[i].quote]);
      assert parts[1..] == seq(|rest|, i requires 0 <= i < |rest| =>
        rest[i].before + rest[i].name + rest[i].op + [rest[i].quote]
        + (if p.exempt(rest[i]) then rest[i].value else placeholder) + [rest[i].quote]);
      var flags := seq(|found|, i requires 0 <= i < |found| => !p.exempt(found[i]));
      assert flags[1..] == seq(|rest|, i requires 0 <= i < |rest| => !p.exempt(rest[i]));
    }
  }

  lemma {:induction false} CutsTold(cuts: seq<Cut>, placeholder: string)
    ensures RewriteCuts(cuts, placeholder)
      == Concat(seq(|cuts|, i requires 0 <= i < |cuts| => cuts[i].before + placeholder))
  {
    if cuts != [] {
      CutsTold(cuts[1..], placeholder);
      var parts := seq(|cuts|, i requires 0 <= i < |cuts| => cuts[i].before + placeholder);
      assert parts[1..] == seq(|cuts| - 1, i requires 0 <= i < |cuts| - 1 => cuts[1..][i].before + placeholder);
    }
  }

  /** The line and the count before the first and after each token pattern. */
  ghost predicate Stages(p: Patterns, line: string, placeholder: string, stages: seq<(string, nat)>) {
    var (found, tail) := p.assignments(line);
    && |stages| == |p.tokens| + 1
    && stages[0].0 == Concat(seq(|found|, i requires 0 <= i < |found| =>
         found[i].before + found[i].name + found[i].op + [found[i].quote]
         + (if p.exempt(found[i]) then found[i].value else placeholder) + [found[i].quote])) + tail
    && stages[0].1 == Trues(seq(|found|, i requires 0 <= i < |found| => !p.exempt(found[i])))
    && TokenStages(p.tokens, placeholder, stages)
  }

  ghost predicate TokenStages(tokens: seq<string -> (seq<Cut>, string)>, placeholder: string,
        stages: seq<(string, nat)>)
  {
    && |stages| == |tokens| + 1
    && forall k :: 0 <= k < |tokens| ==>
         var (cuts, tail) := tokens[k](stages[k].0);
         && stages[k + 1].0 == Concat(seq(|cuts|, i requires 0 <= i < |cuts| => cuts[i].before + placeholder)) + tail
         && stages[k + 1].1 == stages[k].1 + |cuts|
  }

  lemma {:induction false} TokensTold(tokens: seq<string -> (seq<Cut>, string)>, line: string, count: nat,
        placeholder: string)
      returns (stages: seq<(string, nat)>)
    ensures TokenStages(tokens, placeholder, stages) && stages[0] == (line, count)
    ensures var r := RewriteTokens(tokens, line, placeholder); stages[|tokens|] == (r.0, count + r.1)
  {
    if tokens == [] {
      stages := [(line, count)];
    } else {
      var (cuts, tail) := tokens[0](line);
      CutsTold(cuts, placeholder);
      var more := TokensTold(tokens[1..], RewriteCuts(cuts, placeholder) + tail, count + |cuts|, placeholder);
      stages := [(line, count)] + more;
      forall k | 0 <= k < |tokens|
        ensures
          var (cuts, tail) := tokens[k](stages[k].0);
          && stages[k + 1].0 == Concat(seq(|cuts|, i requires 0 <= i < |cuts| => cuts[i].before + placeholder)) + tail
          && stages[k + 1].1 == stages[k].1 + |cuts|
      {
        if k > 0 {
          assert tokens[k] == tokens[1..][k - 1] && stages[k] == more[k - 1] && stages[k + 1] == more[k];
        }
      }
    }
  }

  /**
   * The redacted line. With both markers every key body that is not blank is replaced; on a line with one marker
   * the material beside it; inside a block the whole line; and outside, every assignment that is not exempt has
   * the placeholder between its quotes, and then every token pattern's matches are replaced in turn.
   */
  lemma LineTold(p: Patterns, inPem: bool, line: string, placeholder: string)
    ensures p.begins(line) && p.ends(line) ==>
      var (keys, tail) := p.inline(line);
      && RedactLine(p, inPem, line, placeholder).0 == Concat(seq(|keys|, i requires 0 <= i < |keys| =>
           keys[i].before + keys[i].begin + (if Blank(keys[i].body) then keys[i].body else placeholder)
           + keys[i].end)) + tail
      && RedactLine(p, inPem, line, placeholder).1
         == Trues(seq(|keys|, i requires 0 <= i < |keys| => !Blank(keys[i].body)))
    ensures p.begins(line) && !p.ends(line) ==>
      RedactLine(p, inPem, line, placeholder) ==
      match p.beginRest(line)
      case None => (line, 0)
      case Some((before, begin, body)) =>
        if Blank(body) then (before + begin + body, 0) else (before + begin + placeholder, 1)
    ensures !p.begins(line) && p.ends(line) ==>
      RedactLine(p, inPem, line, placeholder) ==
      if !inPem || p.endPrefix(line).None? then (line, 0)
      else
        var (body, end, after) := p.endPrefix(line).value;
        if Blank(body) then (body + end + after, 0) else (placeholder + end + after, 1)
    ensures !p.begins(line) && !p.ends(line) && inPem ==>
      RedactLine(p, inPem, line, placeholder) == if Blank(line) then (line, 0) else (placeholder, 1)
    ensures !p.begins(line) && !p.ends(line) && !inPem ==>
      exists stages ::
        Stages(p, line, placeholder, stages) && RedactLine(p, inPem, line, placeholder) == stages[|p.tokens|]
  {
    KeysTold(p.inline(line).0, placeholder);
    if !p.begins(line) && !p.ends(line) && !inPem {
      PlainLineTold(p, line, placeholder);
    }
  }

  lemma PlainLineTold(p: Patterns, line: string, placeholder: string)
    ensures exists stages ::
      Stages(p, line, placeholder, stages) && RewritePlain(p, line, placeholder) == stages[|p.tokens|]
  {
    var (found, tail) := p.assignments(line);
    AssignmentsTold(p, found, placeholder);
    var rewritten := RewriteAssignments(p, found, placeholder);
    var stages := TokensTold(p.tokens, rewritten.0 + tail, rewritten.1, placeholder);
    assert Stages(p, line, placeholder, stages);
  }

  /******* The text *******/

  /** A block is open after a line that only begins one, until a line that only ends one. */
  ghost predicate BlockOpen(p: Patterns, lines: seq<string>) {
    exists i :: 0 <= i < |lines| && p.begins(lines[i]) && !p.ends(lines[i])
      && forall j :: i < j < |lines| && p.ends(lines[j]) ==> p.begins(lines[j])
  }

  lemma {:induction false} StateTold(p: Patterns, lines: seq<string>)
    ensures InPem(p, lines) <==> BlockOpen(p, lines)
  {
    if lines != [] {
      var n := |lines| - 1;
      var before, line := lines[..n], lines[n];
      StateTold(p, before);
      assert forall i :: 0 <= i < n ==> before[i] == lines[i];
      if p.begins(line) && !p.ends(line) {
        assert p.begins(lines[n]) && !p.ends(lines[n]);
      } else if InPem(p, lines) {
        var i :| 0 <= i < |before| && p.begins(before[i]) && !p.ends(before[i])
          && forall j :: i < j < |before| && p.ends(before[j]) ==> p.begins(before[j]);
        assert p.begins(lines[i]) && !p.ends(lines[i]);
      }
    }
  }

  /** Every line is redacted in the state its predecessors leave ... */
  lemma TextTold(p: Patterns, lines: seq<string>, placeholder: string, i: nat)
    requires i < |lines|
    ensures var redacted := RedactLine(p, BlockOpen(p, lines[..i]), lines[i], placeholder);
      && RedactedLines(p, lines, placeholder)[i] == redacted.0
      && CountUpTo(p, lines, 0, placeholder) == 0
      && CountUpTo(p, lines, i + 1, placeholder) == CountUpTo(p, lines, i, placeholder) + redacted.1
  {
    StateTold(p, lines[..i]);
  }

  /** ... and scanned in the same; what is found there is reported with the number of the line. */
  lemma ScanTold(p: Patterns, lines: seq<string>, i: nat)
    requires i < |lines|
    ensures
      var before, after := ScanUpTo(p, lines, i), ScanUpTo(p, lines, i + 1);
      var found := ScanLine(p, BlockOpen(p, lines[..i]), lines[i]);
      && ScanUpTo(p, lines, 0) == []
      && |after| == |before| + |found| && before <= after
      && forall k :: 0 <= k < |found| ==> after[|before| + k] == SecretMatch(i + 1, found[k])
  {
    StateTold(p, lines[..i]);
    ScanGoesOn(p, lines, i);
  }

  lemma ScanGoesOn(p: Patterns, lines: seq<string>, i: nat)
    requires i < |lines|
    ensures var before, after, found := ScanUpTo(p, lines, i), ScanUpTo(p, lines, i + 1), ScanAt(p, lines, i);
      && |after| == |before| + |found| && before <= after
      && forall k :: 0 <= k < |found| ==> after[|before| + k] == SecretMatch(i + 1, found[k])
  {
    Appended(ScanUpTo(p, lines, i), Numbered(i + 1, ScanAt(p, lines, i)));
  }

  lemma Appended(before: seq<SecretMatch>, more: seq<SecretMatch>)
    ensures before <= before + more
    ensures forall k :: 0 <= k < |more| ==> (before + more)[|before| + k] == more[k]
  {
  }

  /******* The reports of one line *******/

  /** How many of the first `n` assignments are reported. */
  function Rank(p: Patterns, found: seq<Assignment>, n: nat): nat
    requires n <= |found|
  {
    if n == 0 then 0 else Rank(p, found, n - 1) + if p.exempt(found[n - 1]) then 0 else 1
  }

  /** The reported assignments are those that are not exempt, in their order and by their names. */
  lemma {:induction false} CredentialsTold(p: Patterns, found: seq<Assignment>)
    ensures |Credentials(p, found)| == Rank(p, found, |found|)
    ensures forall i :: 0 <= i < |found| && !p.exempt(found[i]) ==>
      Rank(p, found, i) < |Credentials(p, found)|
      && Credentials(p, found)[Rank(p, found, i)] == Credential(found[i].name)
  {
    if found != [] {
      CredentialsTold(p, found[1..]);
      RankOfRest(p, found, |found| - 1);
      forall i | 0 <= i < |found| && !p.exempt(found[i])
        ensures Rank(p, found, i) < |Credentials(p, found)|
          && Credentials(p, found)[Rank(p, found, i)] == Credential(found[i].name)
      {
        CredentialIsReported(p, found, i);
      }
    }
  }

  /** If the reports of the rest are in order, so is that of any assignment of the whole. */
  lemma CredentialIsReported(p: Patterns, found: seq<Assignment>, i: nat)
    requires i < |found| && !p.exempt(found[i])
    requires i > 0 ==>
      var reports := Credentials(p, found[1..]);
      Rank(p, found[1..], i - 1) < |reports| && reports[Rank(p, found[1..], i - 1)] == Credential(found[i].name)
    ensures Rank(p, found, i) < |Credentials(p, found)|
      && Credentials(p, found)[Rank(p, found, i)] == Credential(found[i].name)
  {
    if i > 0 {
      RankOfRest(p, found, i - 1);
    }
  }

  lemma {:induction false} RankOfRest(p: Patterns, found: seq<Assignment>, n: nat)
    requires found != [] && n <= |found| - 1
    ensures Rank(p, found, n + 1) == (if p.exempt(found[0]) then 0 else 1) + Rank(p, found[1..], n)
  {
    if n > 0 {
      RankOfRest(p, found, n - 1);
    }
  }

  /** Every match of every token pattern on the line itself is reported, by the number of its pattern. */
  lemma {:induction false} TokensReported(tokens: seq<string -> (seq<Cut>, string)>, line: string, first: nat,
        pattern: nat)
    ensures multiset(TokensFrom(tokens, line, first))[Token(pattern)]
      == if first <= pattern < first + |tokens| then |tokens[pattern - first](line).0| else 0
    ensures forall s :: s in TokensFrom(tokens, line, first) ==> s.Token?
  {
    if tokens != [] {
      var here := seq(|tokens[0](line).0|, _ => Token(first));
      TokensReported(tokens[1..], line, first + 1, pattern);
      AllAlike(|tokens[0](line).0|, Token(first), Token(pattern));
    }
  }

  lemma {:induction false} AllAlike(n: nat, s: Secret, other: Secret)
    ensures multiset(seq(n, _ => s))[other] == if s == other then n else 0
  {
    if n > 0 {
      AllAlike(n - 1, s, other);
      assert seq(n, _ => s) == seq(n - 1, _ => s) + [s];
    }
  }

  /** What the scanner reports of a line: one private key, or the credentials and then the tokens. */
  lemma ReportsTold(p: Patterns, inPem: bool, line: string)
    ensures p.begins(line) && p.ends(line) ==>
      ScanLine(p, inPem, line) ==
      if p.inline(line).0 != [] && !Blank(p.inline(line).0[0].body) then [PrivateKey] else []
    ensures p.begins(line) && !p.ends(line) ==>
      ScanLine(p, inPem, line) ==
      if p.beginRest(line).Some? && !Blank(p.beginRest(line).value.2) then [PrivateKey] else []
    ensures !p.begins(line) && p.ends(line) ==>
      ScanLine(p, inPem, line) ==
      if inPem && p.endPrefix(line).Some? && !Blank(p.endPrefix(line).value.0) then [PrivateKey] else []
    ensures !p.begins(line) && !p.ends(line) && inPem ==>
      ScanLine(p, inPem, line) == if Blank(line) then [] else [PrivateKey]
    ensures !p.begins(line) && !p.ends(line) && !inPem ==>
      Credentials(p, p.assignments(line).0) <= ScanLine(p, inPem, line)
      && ScanLine(p, inPem, line)[|Credentials(p, p.assignments(line).0)|..] == TokensFrom(p.tokens, line, 0)
  {
  }
}
