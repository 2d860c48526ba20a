/**
 * Posting a review to a pull request, and posting it again (src/github/post.ts).
 *
 * Reruns read the fingerprints out of the comments that earlier runs wrote, so the state the runs share is the
 * text of the comments alone.
 */
module Posting {
  import opened Text
  import opened DiffIndex
  import opened LineMapping
  import C = CommentMarkers

  datatype Finding = Finding(fingerprint: string, range: ReviewRange, content: C.Content, fixPatch: string)

  datatype Draft = Draft(path: string, body: string, line: nat, side: Side, startLine: Option<nat>)

  datatype SummaryOnly = SummaryOnly(finding: Finding, reason: Reason)

  /** The variables of the classification loop. */
  datatype Tally = Tally(drafts: seq<Draft>, summaryOnly: seq<SummaryOnly>, skippedDuplicates: nat,
      suggestionsIncluded: nat)

  /******* The budget *******/

  const DEFAULT_COMMENT_BUDGET: nat := 8

  datatype Config = Config(securityMode: bool, securityBudget: Option<nat>, commentBudget: Option<nat>)

  /** A security budget of zero counts as missing. */
  function CommentBudget(config: Option<Config>): nat {
    match config
    case None => DEFAULT_COMMENT_BUDGET
    case Some(c) =>
      if c.securityMode && c.securityBudget.GetOr(0) != 0 then c.securityBudget.value
      else c.commentBudget.GetOr(DEFAULT_COMMENT_BUDGET)
  }

  /******* One run *******/

  function BlockFor(f: Finding, index: Index, comment: MappedComment): Option<string> {
    if comment.coverage == Full then Suggestion(f.fixPatch, f.range, index) else None
  }

  function DraftOf(f: Finding, index: Index): Draft
    requires Mapping(f.range, index).Mappable?
  {
    var comment := Mapping(f.range, index).comment;
    Draft(comment.path, C.InlineBody(f.content, BlockFor(f, index, comment), f.fingerprint), comment.line, comment.side,
          comment.startLine)
  }

  /** The findings that can be commented inline. */
  function Mappables(findings: seq<Finding>, index: Index): (r: seq<Finding>)
    ensures forall f :: f in r ==> f in findings && Mapping(f.range, index).Mappable?
  {
    if findings == [] then []
    else
      var n := |findings| - 1;
      Mappables(findings[..n], index) + if Mapping(findings[n].range, index).Mappable? then [findings[n]] else []
  }

  function Unposted(findings: seq<Finding>, posted: set<string>): (r: seq<Finding>)
    ensures forall f :: f in r ==> f in findings
  {
    if findings == [] then []
    else
      var n := |findings| - 1;
      Unposted(findings[..n], posted) + if findings[n].fingerprint in posted then [] else [findings[n]]
  }

  function First<T>(n: nat, s: seq<T>): seq<T> { if n < |s| then s[..n] else s }

  function DraftsOf(findings: seq<Finding>, index: Index): (r: seq<Draft>)
    requires forall f :: f in findings ==> Mapping(f.range, index).Mappable?
    ensures |r| == |findings|
    ensures forall i :: 0 <= i < |findings| ==> r[i] == DraftOf(findings[i], index)
  {
    seq(|findings|, i requires 0 <= i < |findings| => DraftOf(findings[i], index))
  }

  /** What one finding does to the tally. */
  function Classify(t: Tally, f: Finding, posted: set<string>, index: Index, budget: nat): Tally {
    if f.fingerprint in posted then t.(skippedDuplicates := t.skippedDuplicates + 1)
    else
      match Mapping(f.range, index)
      case Unmappable(reason) => t.(summaryOnly := t.summaryOnly + [SummaryOnly(f, reason)])
      case Mappable(comment) =>
        if |t.drafts| >= budget then t.(summaryOnly := t.summaryOnly + [SummaryOnly(f, BudgetReached)])
        else t.(drafts := t.drafts + [DraftOf(f, index)],
                suggestionsIncluded := t.suggestionsIncluded + if BlockFor(f, index, comment).Some? then 1 else 0)
  }

  function ClassifyAll(findings: seq<Finding>, posted: set<string>, index: Index, budget: nat,
        extra: seq<SummaryOnly>): Tally {
    if findings == [] then Tally([], extra, 0, 0)
    else
      var n := |findings| - 1;
      Classify(ClassifyAll(findings[..n], posted, index, budget, extra), findings[n], posted, index, budget)
  }

  /** The findings a run may draft: mappable, and not posted before. */
  function Pending(findings: seq<Finding>, posted: set<string>, index: Index): (r: seq<Finding>)
    ensures forall f :: f in r ==> Mapping(f.range, index).Mappable?
  {
    Unposted(Mappables(findings, index), posted)
  }

  lemma PendingGrows(findings: seq<Finding>, posted: set<string>, index: Index)
    requires findings != []
    ensures var n := |findings| - 1;
      Pending(findings, posted, index) == Pending(findings[..n], posted, index)
        + if findings[n].fingerprint !in posted && Mapping(findings[n].range, index).Mappable?
            then [findings[n]] else []
  {
    var n := |findings| - 1;
    var before, f := Mappables(findings[..n], index), findings[n];
    if Mapping(f.range, index).Mappable? {
      assert Mappables(findings, index) == before + [f];
      assert (before + [f])[..|before|] == before;
    } else {
      assert Mappables(findings, index) == before + [] == before;
      assert Unposted(before, posted) + [] == Unposted(before, posted);
    }
  }

  lemma DraftsGrow(s: seq<Finding>, f: Finding, budget: nat, index: Index)
    requires forall g :: g in s + [f] ==> Mapping(g.range, index).Mappable?
    ensures DraftsOf(First(budget, s + [f]), index) ==
      if |First(budget, s)| >= budget then DraftsOf(First(budget, s), index)
      else DraftsOf(First(budget, s), index) + [DraftOf(f, index)]
  {
  }

  /** A run drafts the first findings, up to the budget, of those that are mappable and not posted yet. */
  lemma {:induction false} RunPostsTheFirst(findings: seq<Finding>, posted: set<string>, index: Index, budget: nat,
        extra: seq<SummaryOnly>)
    ensures ClassifyAll(findings, posted, index, budget, extra).drafts ==
      DraftsOf(First(budget, Pending(findings, posted, index)), index)
  {
    if findings != [] {
      var n := |findings| - 1;
      var f := findings[n];
      RunPostsTheFirst(findings[..n], posted, index, budget, extra);
      PendingGrows(findings, posted, index);
      var before := Pending(findings[..n], posted, index);
      if f.fingerprint !in posted && Mapping(f.range, index).Mappable? {
        DraftsGrow(before, f, budget, index);
      } else {
        assert before + [] == before;
      }
    }
  }

  /** Every finding of the report is skipped, drafted or newly summarized, once. */
  lemma {:induction false} RunCountsAddUp(findings: seq<Finding>, posted: set<string>, index: Index, budget: nat,
        extra: seq<SummaryOnly>)
    ensures var t := ClassifyAll(findings, posted, index, budget, extra);
      && extra <= t.summaryOnly
      && t.skippedDuplicates + |t.drafts| + (|t.summaryOnly| - |extra|) == |findings|
      && |t.drafts| <= budget && t.suggestionsIncluded <= |t.drafts|
  {
    if findings != [] {
      RunCountsAddUp(findings[..|findings| - 1], posted, index, budget, extra);
    }
  }

  /******* A run, told finding by finding *******/

  /** How many of the first `n` findings have been posted before. */
  function Duplicates(findings: seq<Finding>, n: nat, posted: set<string>): (r: nat)
    requires n <= |findings|
    ensures r <= n
  {
    if n == 0 then 0 else Duplicates(findings, n - 1, posted) + if findings[n - 1].fingerprint in posted then 1 else 0
  }

  /** How many of the first `n` findings are new and can be commented inline. */
  function Candidates(findings: seq<Finding>, n: nat, posted: set<string>, index: Index): (r: nat)
    requires n <= |findings|
    ensures r <= n - Duplicates(findings, n, posted)
  {
    if n == 0 then 0
    else
      var f := findings[n - 1];
      Candidates(findings, n - 1, posted, index)
      + if f.fingerprint !in posted && Mapping(f.range, index).Mappable? then 1 else 0
  }

  /** How many of the first `n` findings are drafted with a suggestion. */
  function Suggesting(findings: seq<Finding>, n: nat, posted: set<string>, index: Index, budget: nat): nat
    requires n <= |findings|
  {
    if n == 0 then 0
    else
      var f := findings[n - 1];
      Suggesting(findings, n - 1, posted, index, budget)
      + if f.fingerprint !in posted && Mapping(f.range, index).Mappable?
          && Candidates(findings, n - 1, posted, index) < budget
          && BlockFor(f, index, Mapping(f.range, index).comment).Some?
        then 1 else 0
  }

  lemma {:induction false} CountsOfPrefix(findings: seq<Finding>, f: Finding, n: nat, posted: set<string>,
        index: Index, budget: nat)
    requires n <= |findings|
    ensures Duplicates(findings + [f], n, posted) == Duplicates(findings, n, posted)
    ensures Candidates(findings + [f], n, posted, index) == Candidates(findings, n, posted, index)
    ensures Suggesting(findings + [f], n, posted, index, budget) == Suggesting(findings, n, posted, index, budget)
  {
    if n > 0 {
      CountsOfPrefix(findings, f, n - 1, posted, index, budget);
    }
  }

  /** What became of finding `k`: its place among the drafts or, with the reason, in the summary. */
  ghost predicate Placed(t: Tally, findings: seq<Finding>, k: nat, posted: set<string>, index: Index, budget: nat,
        extra: seq<SummaryOnly>)
    requires k < |findings|
  {
    var f, before := findings[k], Candidates(findings, k, posted, index);
    var row := |extra| + k - Duplicates(findings, k, posted) - Min(budget, before);
    f.fingerprint in posted
    || (if Mapping(f.range, index).Unmappable? then
          row < |t.summaryOnly| && t.summaryOnly[row] == SummaryOnly(f, Mapping(f.range, index).reason)
        else if before < budget then
          before < |t.drafts| && t.drafts[before] == DraftOf(f, index)
        else
          row < |t.summaryOnly| && t.summaryOnly[row] == SummaryOnly(f, BudgetReached))
  }

  /**
   * A run in full: a finding posted before is skipped; of the others, in report order, the first mappable ones
   * up to the budget are drafted, and each one left over stands in the summary behind the earlier entries, with
   * its own reason.
   */
  lemma {:induction false} RunTold(findings: seq<Finding>, posted: set<string>, index: Index, budget: nat,
        extra: seq<SummaryOnly>)
    ensures CountsTold(ClassifyAll(findings, posted, index, budget, extra), findings, posted, index, budget, extra)
    ensures forall k :: 0 <= k < |findings| ==>
      Placed(ClassifyAll(findings, posted, index, budget, extra), findings, k, posted, index, budget, extra)
  {
    if findings != [] {
      var m := |findings| - 1;
      var before := findings[..m];
      assert findings == before + [findings[m]];
      RunTold(before, posted, index, budget, extra);
      CountsOfPrefix(before, findings[m], m, posted, index, budget);
      NextIsPlaced(ClassifyAll(before, posted, index, budget, extra), before, findings[m], posted, index, budget,
                   extra);
      forall k: nat | k < m
        ensures Placed(ClassifyAll(findings, posted, index, budget, extra), findings, k, posted, index, budget, extra)
      {
        StaysPlaced(ClassifyAll(before, posted, index, budget, extra), before, findings[m], k, posted, index, budget,
                    extra);
      }
    }
  }

  ghost predicate CountsTold(t: Tally, findings: seq<Finding>, posted: set<string>, index: Index, budget: nat,
        extra: seq<SummaryOnly>) {
    var n := |findings|;
    && t.skippedDuplicates == Duplicates(findings, n, posted)
    && t.suggestionsIncluded == Suggesting(findings, n, posted, index, budget)
    && |t.drafts| == Min(budget, Candidates(findings, n, posted, index))
    && |t.summaryOnly| == |extra| + n - t.skippedDuplicates - |t.drafts|
    && extra <= t.summaryOnly
  }

  lemma NextIsPlaced(t: Tally, findings: seq<Finding>, f: Finding, posted: set<string>, index: Index, budget: nat,
        extra: seq<SummaryOnly>)
    requires CountsTold(t, findings, posted, index, budget, extra)
    ensures var next, all := Classify(t, f, posted, index, budget), findings + [f];
      && CountsTold(next, all, posted, index, budget, extra)
      && Placed(next, all, |findings|, posted, index, budget, extra)
  {
    CountsOfPrefix(findings, f, |findings|, posted, index, budget);
  }

  lemma StaysPlaced(t: Tally, findings: seq<Finding>, f: Finding, k: nat, posted: set<string>, index: Index,
        budget: nat, extra: seq<SummaryOnly>)
    requires k < |findings| && Placed(t, findings, k, posted, index, budget, extra)
    ensures Placed(Classify(t, f, posted, index, budget), findings + [f], k, posted, index, budget, extra)
  {
    CountsOfPrefix(findings, f, k, posted, index, budget);
    assert (findings + [f])[k] == findings[k];
    var next := Classify(t, f, posted, index, budget);
    assert t.drafts <= next.drafts && t.summaryOnly <= next.summaryOnly;
  }

  /** The budget is 8 unless the configuration names one; security mode has its own, where zero counts as none. */
  lemma RunIsCapped(findings: seq<Finding>, posted: set<string>, index: Index, config: Option<Config>,
        extra: seq<SummaryOnly>)
    ensures var drafts := ClassifyAll(findings, posted, index, CommentBudget(config), extra).drafts;
      var candidates := Candidates(findings, |findings|, posted, index);
      && (config.None? ==> |drafts| == Min(8, candidates))
      && (config.Some? ==>
        var security, own, usual := config.value.securityMode, config.value.securityBudget, config.value.commentBudget;
        && (security && own.Some? && own.value > 0 ==> |drafts| == Min(own.value, candidates))
        && (!security || own.None? || own.value == 0 ==>
              |drafts| == Min(if usual.Some? then usual.value else 8, candidates)))
  {
    RunTold(findings, posted, index, CommentBudget(config), extra);
  }

  /**
   * A draft on the diff of a script: it stands on the finding's last line, spans from its first one if one hunk
   * shows both, and offers the replacement, without a line break at its end, exactly if one hunk adds all the
   * lines and the replacement is neither blank nor fenced.
   */
  lemma DraftTold(f: Finding, index: Index, hs: seq<Hunk>)
    requires f.range.startLine <= f.range.endLine
    requires f.range.file in index && Indexes(index[f.range.file], hs)
    requires exists i :: Visible(hs, i, f.range.side, f.range.endLine)
    ensures Mapping(f.range, index).Mappable?
    ensures var range, draft := f.range, DraftOf(f, index);
      && draft.path == range.file && draft.line == range.endLine && draft.side == range.side
      && (draft.startLine.Some? ==> draft.startLine.value == range.startLine)
      && (draft.startLine.Some? <==>
        && range.startLine < range.endLine
        && exists i :: Visible(hs, i, range.side, range.startLine) && Visible(hs, i, range.side, range.endLine))
    ensures Offered(f, hs) ==> DraftOf(f, index).body == C.InlineBody(f.content, Some("```suggestion\n" + f.fixPatch
      + if f.fixPatch[|f.fixPatch| - 1] == '\n' then "```" else "\n```"), f.fingerprint)
    ensures !Offered(f, hs) ==> DraftOf(f, index).body == C.InlineBody(f.content, None, f.fingerprint)
  {
    MappingIsExact(f.range, index, hs);
    var comment := Mapping(f.range, index).comment;
    if f.range.side == Right {
      SuggestionIsEligible(f.fixPatch, f.range, index, hs);
    }
    if Suggestion(f.fixPatch, f.range, index).Some? {
      SuggestionReplacesTheRange(f.fixPatch, f.range, index, hs);
      OfferedBlock(f, index, comment);
    }
  }

  /** One hunk adds all the lines of the finding, and its replacement is neither blank nor fenced. */
  ghost predicate Offered(f: Finding, hs: seq<Hunk>) {
    && f.range.side == Right && f.fixPatch != ""
    && (exists i :: 0 <= i < |hs| && AddsAll(hs[i], f.range.startLine, f.range.endLine))
    && (exists c :: c in f.fixPatch && !IsSpace(c))
    && !Occurs(f.fixPatch, "```")
  }

  lemma OfferedBlock(f: Finding, index: Index, comment: MappedComment)
    requires comment.coverage == Full && Suggestion(f.fixPatch, f.range, index).Some?
    ensures f.fixPatch != ""
    ensures BlockFor(f, index, comment) == Some("```suggestion\n" + f.fixPatch
      + if f.fixPatch[|f.fixPatch| - 1] == '\n' then "```" else "\n```")
  {
    var last := f.fixPatch[|f.fixPatch| - 1];
    var body := BlockBody(f.fixPatch);
    if last == '\n' {
      assert f.fixPatch == body + "\n";
      assert FENCE + "suggestion\n" + body + "\n" + FENCE == "```suggestion\n" + (body + "\n") + "```";
    } else {
      assert FENCE + "suggestion\n" + body + "\n" + FENCE == "```suggestion\n" + body + "\n```";
    }
  }

  method BuildDraft(f: Finding, index: Index, comment: MappedComment) returns (draft: Draft, suggested: bool)
    requires Mapping(f.range, index) == Mappable(comment)
    ensures draft == DraftOf(f, index)
    ensures suggested == BlockFor(f, index, comment).Some?
  {
    var suggestion: Option<string> := None;
    if comment.coverage == Full {
      suggestion := BuildSuggestionBlock(f.fixPatch, f.range, index);
    }
    suggested := suggestion.Some?;
    var body := C.BuildInlineCommentBody(f.content, suggestion, f.fingerprint);
    draft := Draft(comment.path, body, comment.line, comment.side, comment.startLine);
  }

  method ClassifyFindings(findings: seq<Finding>, posted: set<string>, index: Index, commentBudget: nat,
        extra: seq<SummaryOnly>)
    returns (t: Tally)
    ensures t == ClassifyAll(findings, posted, index, commentBudget, extra)
  {
    var drafts: seq<Draft> := [];
    var summaryOnly := extra;
    var skippedDuplicates, suggestionsIncluded := 0, 0;
    for i := 0 to |findings|
      invariant skippedDuplicates >= 0 && suggestionsIncluded >= 0
      invariant Tally(drafts, summaryOnly, skippedDuplicates, suggestionsIncluded)
        == ClassifyAll(findings[..i], posted, index, commentBudget, extra)
    {
      var finding := findings[i];
      assert ClassifyAll(findings[..i + 1], posted, index, commentBudget, extra)
        == Classify(ClassifyAll(findings[..i], posted, index, commentBudget, extra), finding, posted, index,
            commentBudget) by {
        assert findings[..i + 1][..i] == findings[..i];
      }
      if finding.fingerprint in posted {
        skippedDuplicates := skippedDuplicates + 1;
        continue;
      }
      var mapping := MapRangeToComment(finding.range, index);
      if mapping.Unmappable? {
        summaryOnly := summaryOnly + [SummaryOnly(finding, mapping.reason)];
        continue;
      }
      if |drafts| >= commentBudget {
        summaryOnly := summaryOnly + [SummaryOnly(finding, BudgetReached)];
        continue;
      }
      var draft, suggested := BuildDraft(finding, index, mapping.comment);
      if suggested {
        suggestionsIncluded := suggestionsIncluded + 1;
      }
      drafts := drafts + [draft];
    }
    assert findings[..|findings|] == findings;
    t := Tally(drafts, summaryOnly, skippedDuplicates, suggestionsIncluded);
  }

  /** The pull request as the provider keeps it: the bodies of its inline and of its plain comments. */
  class PullRequest {
    var files: seq<PullRequestFile>
    var reviewComments: seq<string>
    var issueComments: seq<string>

    constructor (files: seq<PullRequestFile>)
      ensures this.files == files && reviewComments == [] && issueComments == []
    {
      this.files, reviewComments, issueComments := files, [], [];
    }

    /**
     * One run. `summary` is the text of the summary comment after its marker. The inline comments are created
     * last and together, so a run that fails before has posted none of them; the summary may be there already.
     */
    method PostReview(findings: seq<Finding>, config: Option<Config>, extra: seq<SummaryOnly>, summary: string,
          answers: Answers)
      returns (t: Tally, created: bool, threw: bool)
      modifies this`reviewComments, this`issueComments
      ensures !answers.readFails ==>
        t == ClassifyAll(findings, C.Posted(old(reviewComments)), IndexOfFiles(files), CommentBudget(config), extra)
      ensures var adds := FindSummary(old(issueComments)).None? || answers.updateFails;
        var stops := answers.readFails || (adds && answers.createFails);
        && (threw <==> stops || (t.drafts != [] && answers.review != Works))
        && (created <==> adds && !stops)
        && reviewComments == old(reviewComments) +
          (if stops || answers.review == FailsBefore then [] else Bodies(t.drafts))
        && issueComments ==
          (if stops then old(issueComments) else UpsertSummary(old(issueComments), summary, answers.updateFails))
    {
      t, created := Tally([], extra, 0, 0), false;
      if answers.readFails {
        return t, false, true;
      }
      var index := BuildDiffIndex(files);
      var posted := C.ExtractPostedFingerprints(reviewComments);
      t := ClassifyFindings(findings, posted, index, CommentBudget(config), extra);
      var existing := FindSummary(issueComments);
      if existing.Some? && !answers.updateFails {
        issueComments := issueComments[existing.value := SummaryBody(summary)];
      } else if answers.createFails {
        return t, false, true;
      } else {
        issueComments := issueComments + [SummaryBody(summary)];
        created := true;
      }
      threw := false;
      if t.drafts != [] {
        if answers.review != FailsBefore {
          reviewComments := reviewComments + Bodies(t.drafts);
        }
        threw := answers.review != Works;
      }
    }
  }

  /** Creating the review fails before the comments are there, or after. */
  datatype ReviewAnswer = Works | FailsBefore | FailsAfter

  /** How the provider answers: reading, changing a comment, creating one, and creating the review. */
  datatype Answers = Answers(readFails: bool, updateFails: bool, createFails: bool, review: ReviewAnswer)

  function Bodies(drafts: seq<Draft>): (r: seq<string>)
    ensures |r| == |drafts|
    ensures forall i :: 0 <= i < |drafts| ==> r[i] == drafts[i].body
  {
    seq(|drafts|, i requires 0 <= i < |drafts| => drafts[i].body)
  }

  /******* The summary comment *******/

  const SUMMARY_MARKER := "<!-- hubolt:summary -->"
  const MAX_SUMMARY_CHARS: nat := 60000

  function SummaryBody(summary: string): string {
    var body := SUMMARY_MARKER + "\n" + summary;
    if |body| <= MAX_SUMMARY_CHARS then body
    else body[..MAX_SUMMARY_CHARS] + "\n\nTruncated to fit the comment size limit."
  }

  /** The first comment that carries the summary marker. */
  function FindSummary(comments: seq<string>): (r: Option<nat>)
    ensures r.Some? ==> r.value < |comments|
  {
    if comments == [] then None
    else if Occurs(comments[0], SUMMARY_MARKER) then Some(0)
    else
      match FindSummary(comments[1..])
      case Some(i) => Some(i + 1)
      case None => None
  }

  function UpsertSummary(comments: seq<string>, summary: string, updateFails: bool): seq<string> {
    var existing := FindSummary(comments);
    if existing.Some? && !updateFails then comments[existing.value := SummaryBody(summary)]
    else comments + [SummaryBody(summary)]
  }

  function SummaryCount(comments: seq<string>): nat {
    if comments == [] then 0
    else (if Occurs(comments[0], SUMMARY_MARKER) then 1 else 0) + SummaryCount(comments[1..])
  }

  /** Even a summary cut to the size limit carries its marker. */
  lemma SummaryIsMarked(summary: string)
    ensures Occurs(SummaryBody(summary), SUMMARY_MARKER)
  {
    assert OccursAt(SummaryBody(summary), SUMMARY_MARKER, 0);
  }

  lemma {:induction false} SummaryReplaced(comments: seq<string>, body: string)
    requires Occurs(body, SUMMARY_MARKER)
    requires FindSummary(comments).Some?
    ensures SummaryCount(comments[FindSummary(comments).value := body]) == SummaryCount(comments) >= 1
  {
    if !Occurs(comments[0], SUMMARY_MARKER) {
      SummaryReplaced(comments[1..], body);
      var i := FindSummary(comments[1..]).value;
      assert comments[i + 1 := body][1..] == comments[1..][i := body];
    }
  }

  lemma {:induction false} SummaryAdded(comments: seq<string>, body: string)
    requires Occurs(body, SUMMARY_MARKER)
    ensures SummaryCount(comments + [body]) == SummaryCount(comments) + 1
    ensures FindSummary(comments).None? <==> SummaryCount(comments) == 0
  {
    if comments == [] {
      assert [body][1..] == [];
    } else {
      SummaryAdded(comments[1..], body);
      assert (comments + [body])[1..] == comments[1..] + [body];
    }
  }

  /**
   * The summary stays one comment: a run adds one exactly when there is none to update or the update fails,
   * and it leaves every comment without the marker alone.
   */
  lemma SummaryStaysSingle(comments: seq<string>, summary: string, updateFails: bool)
    ensures var after := UpsertSummary(comments, summary, updateFails);
      && SummaryCount(after) == SummaryCount(comments) + (if SummaryCount(comments) == 0 || updateFails then 1 else 0)
      && |after| >= |comments|
      && forall i :: 0 <= i < |comments| && !Occurs(comments[i], SUMMARY_MARKER) ==> after[i] == comments[i]
  {
    SummaryIsMarked(summary);
    SummaryAdded(comments, SummaryBody(summary));
    if FindSummary(comments).Some? {
      SummaryReplaced(comments, SummaryBody(summary));
      SummaryFound(comments, FindSummary(comments).value);
    }
  }

  /** The summary found is the first comment with the marker in it. */
  lemma {:induction false} SummaryFound(comments: seq<string>, i: nat)
    ensures FindSummary(comments) == Some(i) <==>
      && i < |comments| && Occurs(comments[i], "<!-- hubolt:summary -->")
      && forall j :: 0 <= j < i ==> !Occurs(comments[j], "<!-- hubolt:summary -->")
  {
    if comments != [] && i > 0 {
      SummaryFound(comments[1..], i - 1);
      assert forall j :: 0 < j <= i && j < |comments| ==> comments[1..][j - 1] == comments[j];
    }
  }

  /** It is replaced unless the update fails; in that case, or if there is none, one is added at the end. */
  lemma SummaryTold(comments: seq<string>, summary: string, updateFails: bool)
    ensures var after := UpsertSummary(comments, summary, updateFails);
      if FindSummary(comments).None? || updateFails then after == comments + [SummaryBody(summary)]
      else
        && |after| == |comments|
        && after[FindSummary(comments).value] == SummaryBody(summary)
        && forall i :: 0 <= i < |comments| && i != FindSummary(comments).value ==> after[i] == comments[i]
  {
  }

  /** A summary is never longer than the provider accepts: what is too long is cut, and says so. */
  lemma SummaryFits(summary: string)
    ensures |SummaryBody(summary)| <= 65536
    ensures var whole := "<!-- hubolt:summary -->\n" + summary;
      SummaryBody(summary) ==
        if |whole| <= 60000 then whole else whole[..60000] + "\n\nTruncated to fit the comment size limit."
  {
    assert SUMMARY_MARKER + "\n" + summary == "<!-- hubolt:summary -->\n" + summary;
  }

  /******* Reruns *******/

  function AfterRun(comments: seq<string>, findings: seq<Finding>, index: Index, budget: nat): seq<string> {
    comments + Bodies(ClassifyAll(findings, C.Posted(comments), index, budget, []).drafts)
  }

  /**
   * The comments after some runs over one report and one diff. A run succeeds here if its comments get there,
   * though it may fail for its caller; the others add none.
   */
  function CommentsAfter(succeeds: seq<bool>, prior: seq<string>, findings: seq<Finding>, index: Index, budget: nat)
    : seq<string>
  {
    if succeeds == [] then prior
    else
      var n := |succeeds| - 1;
      var comments := CommentsAfter(succeeds[..n], prior, findings, index, budget);
      if succeeds[n] then AfterRun(comments, findings, index, budget) else comments
  }

  function Successes(succeeds: seq<bool>): nat {
    if succeeds == [] then 0 else Successes(succeeds[..|succeeds| - 1]) + if succeeds[|succeeds| - 1] then 1 else 0
  }

  predicate Distinct(findings: seq<Finding>) {
    forall i, j :: 0 <= i < j < |findings| ==> findings[i].fingerprint != findings[j].fingerprint
  }

  /** Nothing a finding brings into its comment begins a marker, and its fingerprint survives sanitizing. */
  ghost predicate Marked(f: Finding) {
    C.WellFormed(f.fingerprint) && C.FreeContent(f.content) && C.Free(f.fixPatch)
  }

  function Fingerprints(findings: seq<Finding>): set<string> { set f | f in findings :: f.fingerprint }

  lemma {:induction false} MappablesAreDistinct(findings: seq<Finding>, index: Index)
    requires Distinct(findings)
    ensures Distinct(Mappables(findings, index))
  {
    if findings != [] {
      var n := |findings| - 1;
      MappablesAreDistinct(findings[..n], index);
      var before := Mappables(findings[..n], index);
      forall f | f in before ensures f.fingerprint != findings[n].fingerprint {
        assert f in findings[..n];
      }
    }
  }

  lemma {:induction false} UnpostedAreDistinct(s: seq<Finding>, posted: set<string>)
    requires Distinct(s)
    ensures Distinct(Unposted(s, posted))
    ensures forall f :: f in Unposted(s, posted) ==> f in s && f.fingerprint !in posted
  {
    if s != [] {
      var n := |s| - 1;
      UnpostedAreDistinct(s[..n], posted);
      forall f | f in Unposted(s[..n], posted) ensures f.fingerprint != s[n].fingerprint {
        assert f in s[..n];
      }
    }
  }

  /** Posting in two stages leaves out the same findings. */
  lemma {:induction false} UnpostedTwice(s: seq<Finding>, first: set<string>, more: set<string>)
    ensures Unposted(s, first + more) == Unposted(Unposted(s, first), more)
  {
    if s != [] {
      var n := |s| - 1;
      var before := Unposted(s[..n], first);
      UnpostedTwice(s[..n], first, more);
      if s[n].fingerprint in first {
        assert before + [] == before;
      } else {
        assert (before + [s[n]])[..|before|] == before;
      }
    }
  }

  lemma DistinctFirst(s: seq<Finding>)
    requires Distinct(s) && s != []
    ensures Distinct(s[..|s| - 1])
  {
  }

  lemma RestOfAll<T>(s: seq<T>, k: nat)
    requires s != [] && k <= |s|
    ensures s[k..] == s[..|s| - 1][Min(k, |s| - 1)..] + if k < |s| then [s[|s| - 1]] else []
  {
  }

  function Min(a: nat, b: nat): nat { if a < b then a else b }

  /** With the first `k` of distinct findings posted, the others are pending, in order. */
  lemma {:induction false} TheRestIsUnposted(s: seq<Finding>, k: nat, posted: set<string>)
    requires Distinct(s) && k <= |s|
    requires forall i :: 0 <= i < |s| ==> (s[i].fingerprint in posted <==> i < k)
    ensures Unposted(s, posted) == s[k..]
  {
    if s != [] {
      var n := |s| - 1;
      DistinctFirst(s);
      TheRestIsUnposted(s[..n], Min(k, n), posted);
      RestOfAll(s, k);
    }
  }

  lemma BlockIsFree(f: Finding, index: Index, comment: MappedComment)
    requires C.Free(f.fixPatch)
    requires BlockFor(f, index, comment).Some?
    ensures C.Free(BlockFor(f, index, comment).value)
  {
    var body := BlockBody(f.fixPatch);
    BodyHasNoMore(f.fixPatch, C.MARKER);
    assert C.Free(body + "\n" + FENCE) by {
      C.NothingIsFree(FENCE);
      C.FreeThen(body, '\n', FENCE);
    }
    C.FreePlain(FENCE + "suggestion\n", body + "\n" + FENCE);
    assert BlockFor(f, index, comment).value == (FENCE + "suggestion\n") + (body + "\n" + FENCE);
  }

  /** A finding's comment yields its own fingerprint and no other. */
  lemma DraftCarriesFingerprint(f: Finding, index: Index)
    requires Marked(f) && Mapping(f.range, index).Mappable?
    ensures C.Extract(DraftOf(f, index).body) == {f.fingerprint}
  {
    var comment := Mapping(f.range, index).comment;
    var block := BlockFor(f, index, comment);
    if block.Some? {
      BlockIsFree(f, index, comment);
    }
    C.BodyCarriesFingerprint(f.content, block, f.fingerprint);
  }

  /** The comments that drafts of these findings leave. */
  function Posts(s: seq<Finding>, index: Index): (r: seq<string>)
    requires forall f :: f in s ==> Mapping(f.range, index).Mappable?
    ensures |r| == |s|
    ensures forall i :: 0 <= i < |s| ==> r[i] == DraftOf(s[i], index).body
  {
    Bodies(DraftsOf(s, index))
  }

  lemma PostsConcat(a: seq<Finding>, b: seq<Finding>, index: Index)
    requires forall f :: f in a + b ==> Mapping(f.range, index).Mappable?
    requires forall f :: f in a ==> Mapping(f.range, index).Mappable?
    requires forall f :: f in b ==> Mapping(f.range, index).Mappable?
    ensures Posts(a + b, index) == Posts(a, index) + Posts(b, index)
  {
    forall i | 0 <= i < |a + b| ensures Posts(a + b, index)[i] == (Posts(a, index) + Posts(b, index))[i] {
      assert (a + b)[i] == if i < |a| then a[i] else b[i - |a|];
    }
  }

  lemma PostCarriesFingerprint(s: seq<Finding>, index: Index, i: nat)
    requires forall f :: f in s ==> Marked(f) && Mapping(f.range, index).Mappable?
    requires i < |s|
    ensures C.Extract(Posts(s, index)[i]) == {s[i].fingerprint}
  {
    DraftCarriesFingerprint(s[i], index);
  }

  lemma PostsCarryFingerprints(s: seq<Finding>, index: Index)
    requires forall f :: f in s ==> Marked(f) && Mapping(f.range, index).Mappable?
    ensures C.Posted(Posts(s, index)) == Fingerprints(s)
  {
    var bodies := Posts(s, index);
    var fingerprints := seq(|s|, i requires 0 <= i < |s| => s[i].fingerprint);
    forall i | 0 <= i < |s| ensures C.Extract(bodies[i]) == {fingerprints[i]} {
      PostCarriesFingerprint(s, index, i);
    }
    C.PostedEach(bodies, fingerprints);
    forall f | f in s ensures f.fingerprint in fingerprints {
      var i :| 0 <= i < |s| && s[i] == f;
      assert fingerprints[i] == f.fingerprint;
    }
  }

  /** The earlier comments, and behind them those of the first `n` findings that were pending. */
  function WithFirst(n: nat, prior: seq<string>, findings: seq<Finding>, index: Index): seq<string> {
    prior + Posts(First(n, Pending(findings, C.Posted(prior), index)), index)
  }

  lemma WithNone(prior: seq<string>, findings: seq<Finding>, index: Index)
    ensures WithFirst(0, prior, findings, index) == prior
  {
    assert First(0, Pending(findings, C.Posted(prior), index)) == [];
  }

  /**
   * Reruns converge: whatever was commented before and whichever runs fail, exactly the first successes * budget
   * of the findings that were pending are posted, each once and in report order, behind the earlier comments.
   * Findings that cannot be mapped, or were posted before, are never posted, and once all others are, further
   * runs change nothing.
   */
  lemma {:induction false} RerunsConverge(succeeds: seq<bool>, prior: seq<string>, findings: seq<Finding>,
        index: Index, budget: nat)
    requires Distinct(findings)
    requires forall f :: f in Pending(findings, C.Posted(prior), index) ==> Marked(f)
    ensures CommentsAfter(succeeds, prior, findings, index, budget)
      == WithFirst(Successes(succeeds) * budget, prior, findings, index)
  {
    if succeeds == [] {
      WithNone(prior, findings, index);
    } else {
      var n := |succeeds| - 1;
      RerunsConverge(succeeds[..n], prior, findings, index, budget);
      if succeeds[n] {
        OneMoreTimes(Successes(succeeds[..n]), budget);
        NextRun(Successes(succeeds[..n]) * budget, prior, findings, index, budget);
      }
    }
  }

  lemma OneMoreTimes(n: nat, k: nat)
    ensures (n + 1) * k == n * k + k
  {
  }

  /** Behind the first `k` pending findings, a run has just the others to post. */
  lemma RestIsPending(k: nat, prior: seq<string>, findings: seq<Finding>, index: Index)
    requires Distinct(findings)
    requires forall f :: f in Pending(findings, C.Posted(prior), index) ==> Marked(f)
    requires k <= |Pending(findings, C.Posted(prior), index)|
    ensures var all := Pending(findings, C.Posted(prior), index);
      Pending(findings, C.Posted(prior + Posts(all[..k], index)), index) == all[k..]
  {
    var all := Pending(findings, C.Posted(prior), index);
    MappablesAreDistinct(findings, index);
    UnpostedAreDistinct(Mappables(findings, index), C.Posted(prior));
    PostsCarryFingerprints(all[..k], index);
    C.PostedConcat(prior, Posts(all[..k], index));
    UnpostedTwice(Mappables(findings, index), C.Posted(prior), Fingerprints(all[..k]));
    FirstArePosted(all, k);
    TheRestIsUnposted(all, k, Fingerprints(all[..k]));
  }

  lemma RunPosts(comments: seq<string>, findings: seq<Finding>, index: Index, budget: nat)
    ensures AfterRun(comments, findings, index, budget)
      == comments + Posts(First(budget, Pending(findings, C.Posted(comments), index)), index)
  {
    RunPostsTheFirst(findings, C.Posted(comments), index, budget, []);
  }

  /** A run behind the first `n` pending findings posts the next ones. */
  lemma NextRun(n: nat, prior: seq<string>, findings: seq<Finding>, index: Index, budget: nat)
    requires Distinct(findings)
    requires forall f :: f in Pending(findings, C.Posted(prior), index) ==> Marked(f)
    ensures AfterRun(WithFirst(n, prior, findings, index), findings, index, budget)
      == WithFirst(n + budget, prior, findings, index)
  {
    var all := Pending(findings, C.Posted(prior), index);
    var k := Min(n, |all|);
    FirstIsSlice(n, all);
    FirstIsSlice(n + budget, all);
    var comments := WithFirst(n, prior, findings, index);
    assert comments == prior + Posts(all[..k], index);
    RunPosts(comments, findings, index, budget);
    RestIsPending(k, prior, findings, index);
    assert Pending(findings, C.Posted(comments), index) == all[k..];
    NextPosts(prior, all, k, budget, index);
  }

  lemma FirstIsSlice<T>(n: nat, s: seq<T>)
    ensures First(n, s) == s[..Min(n, |s|)]
  {
  }

  lemma NextPosts(prior: seq<string>, all: seq<Finding>, k: nat, budget: nat, index: Index)
    requires forall f :: f in all ==> Mapping(f.range, index).Mappable?
    requires k <= |all|
    ensures prior + Posts(all[..k], index) + Posts(First(budget, all[k..]), index)
      == prior + Posts(all[..Min(k + budget, |all|)], index)
  {
    var next := First(budget, all[k..]);
    if budget < |all| - k {
      assert all[..k] + all[k..][..budget] == all[..k + budget];
    } else {
      assert all[..k] + all[k..] == all[..|all|];
    }
    PostsConcat(all[..k], next, index);
  }

  lemma FirstArePosted(s: seq<Finding>, k: nat)
    requires Distinct(s) && k <= |s|
    ensures forall i :: 0 <= i < |s| ==> (s[i].fingerprint in Fingerprints(s[..k]) <==> i < k)
  {
    forall i | 0 <= i < k ensures s[i].fingerprint in Fingerprints(s[..k]) {
      assert s[i] in s[..k];
    }
  }
}
