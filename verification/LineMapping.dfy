/**
 * Mapping findings onto diff comments (src/github/line-mapping.ts) and the suggestion blocks that ride on them
 * (src/github/suggestions.ts).
 */
module LineMapping {
  import opened Text
  import opened DiffIndex

  datatype PullRequestFile = PullRequestFile(filename: string, patch: Option<string>)

  type Index = map<string, FileDiffIndex>

  /** The files of a pull request; one without a patch text has no entry, and the last of a name counts. */
  function IndexOfFiles(files: seq<PullRequestFile>): Index {
    if files == [] then map[]
    else
      var index, file := IndexOfFiles(files[..|files| - 1]), files[|files| - 1];
      if HasPatch(file) then index[file.filename := IndexOf(file.patch.value)] else index
  }

  predicate HasPatch(file: PullRequestFile) { file.patch.GetOr("") != "" }

  /** Of the files with this name, the last one that has a patch. */
  predicate LastPatch(files: seq<PullRequestFile>, i: int, name: string) {
    && 0 <= i < |files| && files[i].filename == name && HasPatch(files[i])
    && forall j :: i < j < |files| && HasPatch(files[j]) ==> files[j].filename != name
  }

  /** If some file of the name has a patch, one of them is the last. */
  lemma {:induction false} SomePatchIsLast(files: seq<PullRequestFile>, i: nat)
    requires i < |files| && HasPatch(files[i])
    ensures exists j :: LastPatch(files, j, files[i].filename)
    decreases |files| - i
  {
    if k :| i < k < |files| && HasPatch(files[k]) && files[k].filename == files[i].filename {
      SomePatchIsLast(files, k);
    } else {
      assert LastPatch(files, i, files[i].filename);
    }
  }

  /** A file more: it is the last of its name if it has a patch, and changes nothing for other names. */
  lemma LastPatchGrows(files: seq<PullRequestFile>, file: PullRequestFile, i: int, name: string)
    ensures LastPatch(files + [file], i, name) <==>
      if HasPatch(file) && file.filename == name then i == |files| else LastPatch(files, i, name)
  {
    var more := files + [file];
    assert more[|files|] == file && forall k :: 0 <= k < |files| ==> more[k] == files[k];
  }

  /** A name is in the index exactly if some file of that name has a patch, and with the index of its last one. */
  lemma {:induction false} IndexHasTheLastPatch(files: seq<PullRequestFile>, name: string)
    ensures name in IndexOfFiles(files) <==> exists i :: LastPatch(files, i, name)
    ensures forall i :: LastPatch(files, i, name) ==> IndexOfFiles(files)[name] == IndexOf(files[i].patch.value)
  {
    if files != [] {
      var before, file := files[..|files| - 1], files[|files| - 1];
      assert files == before + [file];
      IndexHasTheLastPatch(before, name);
      forall i ensures LastPatch(files, i, name) <==>
        if HasPatch(file) && file.filename == name then i == |before| else LastPatch(before, i, name)
      {
        LastPatchGrows(before, file, i, name);
      }
      if HasPatch(file) && file.filename == name {
        assert LastPatch(files, |before|, name);
      } else {
        if i :| LastPatch(before, i, name) {
          assert LastPatch(files, i, name);
        }
        assert forall i :: LastPatch(before, i, name) ==> files[i] == before[i];
      }
    }
  }

  /** So on the files of a pull request the index of a name holds exactly the positions of its last script. */
  lemma IndexOfFilesRecoversScripts(files: seq<PullRequestFile>, i: nat, hs: seq<Hunk>)
    requires i < |files| && LastPatch(files, i, files[i].filename)
    requires Script(hs) && files[i].patch == Some(Patch(hs))
    ensures files[i].filename in IndexOfFiles(files) && Indexes(IndexOfFiles(files)[files[i].filename], hs)
  {
    IndexHasTheLastPatch(files, files[i].filename);
    IndexRecoversScript(hs);
  }

  method BuildDiffIndex(files: seq<PullRequestFile>) returns (index: Index)
    ensures index == IndexOfFiles(files)
    ensures forall name :: name in index <==> exists i :: LastPatch(files, i, name)
    ensures forall i, name :: LastPatch(files, i, name) ==>
      name in index && index[name] == IndexOf(files[i].patch.value)
  {
    index := map[];
    for i := 0 to |files|
      invariant index == IndexOfFiles(files[..i])
    {
      assert files[..i + 1][..i] == files[..i];
      var file := files[i];
      if !HasPatch(file) {
        continue;
      }
      var fileIndex := BuildFileDiffIndex(file.patch.value);
      index := index[file.filename := fileIndex];
    }
    assert files[..|files|] == files;
    forall name ensures name in index <==> exists i :: LastPatch(files, i, name)
      ensures forall i :: LastPatch(files, i, name) ==> name in index && index[name] == IndexOf(files[i].patch.value)
    {
      IndexHasTheLastPatch(files, name);
    }
  }

  datatype ReviewRange = ReviewRange(file: string, startLine: nat, endLine: nat, side: Side)

  datatype Coverage = Full | EndLine

  datatype MappedComment = MappedComment(path: string, line: nat, startLine: Option<nat>, side: Side,
      coverage: Coverage)

  datatype Reason = NotInDiff | NotVisible(line: nat) | BudgetReached

  datatype CommentMapping = Mappable(comment: MappedComment) | Unmappable(reason: Reason)

  /******* Mapping a range *******/

  function LinesOn(index: FileDiffIndex, side: Side): set<nat> {
    if side == Left then index.leftLines else index.rightLines
  }

  function HunksOn(index: FileDiffIndex, side: Side): map<nat, int> {
    if side == Left then index.leftHunk else index.rightHunk
  }

  function HunkAt(hunkOf: map<nat, int>, line: nat): Option<int> {
    if line in hunkOf then Some(hunkOf[line]) else None
  }

  /** Every line before the last is visible in the hunk of the last. */
  predicate FullyVisible(range: ReviewRange, index: FileDiffIndex) {
    var hunkOf := HunksOn(index, range.side);
    forall line :: range.startLine <= line < range.endLine ==>
      line in LinesOn(index, range.side) && HunkAt(hunkOf, line) == HunkAt(hunkOf, range.endLine)
  }

  function Comment(range: ReviewRange, startLine: Option<nat>, coverage: Coverage): CommentMapping {
    Mappable(MappedComment(range.file, range.endLine, startLine, range.side, coverage))
  }

  function Mapping(range: ReviewRange, index: Index): CommentMapping {
    if range.file !in index then Unmappable(NotInDiff)
    else if range.endLine !in LinesOn(index[range.file], range.side) then Unmappable(NotVisible(range.endLine))
    else if range.startLine == range.endLine then Comment(range, None, Full)
    else if FullyVisible(range, index[range.file]) then Comment(range, Some(range.startLine), Full)
    else Comment(range, None, EndLine)
  }

  method MapRangeToComment(range: ReviewRange, index: Index) returns (mapping: CommentMapping)
    ensures mapping == Mapping(range, index)
  {
    if range.file !in index {
      return Unmappable(NotInDiff);
    }
    var fileIndex := index[range.file];
    var lines, hunkOf := LinesOn(fileIndex, range.side), HunksOn(fileIndex, range.side);
    if range.endLine !in lines {
      return Unmappable(NotVisible(range.endLine));
    }
    if range.startLine == range.endLine {
      return Comment(range, None, Full);
    }
    var endHunk := HunkAt(hunkOf, range.endLine);
    var fullyVisible := true;
    var line := range.startLine;
    while line < range.endLine
      invariant range.startLine <= line
      invariant fullyVisible
      invariant forall l :: range.startLine <= l < line && l < range.endLine ==>
          l in lines && HunkAt(hunkOf, l) == endHunk
    {
      if line !in lines || HunkAt(hunkOf, line) != endHunk {
        fullyVisible := false;
        break;
      }
      line := line + 1;
    }
    if fullyVisible {
      return Comment(range, Some(range.startLine), Full);
    }
    return Comment(range, None, EndLine);
  }

  /** Hunk `i` of the script shows the line on this side. */
  ghost predicate Visible(hs: seq<Hunk>, i: int, side: Side, line: nat) {
    0 <= i < |hs| && Shows(hs[i], side, line)
  }

  lemma VisibleInIndex(index: FileDiffIndex, hs: seq<Hunk>, side: Side, line: nat)
    requires Indexes(index, hs)
    ensures line in LinesOn(index, side) <==> line in HunksOn(index, side)
    ensures line in HunksOn(index, side) ==> Visible(hs, HunksOn(index, side)[line], side, line)
    ensures forall i :: Visible(hs, i, side, line) ==> line in HunksOn(index, side) && HunksOn(index, side)[line] == i
  {
  }

  /**
   * The loop over the lines comes down to the two ends: on the index of a script a range can be commented
   * exactly when its last line is visible, and wholly exactly when one hunk shows both its first and its last
   * line. The comment then covers the finding's own lines, and otherwise only the last of them.
   */
  lemma MappingIsExact(range: ReviewRange, index: Index, hs: seq<Hunk>)
    requires range.startLine <= range.endLine
    requires range.file in index && Indexes(index[range.file], hs)
    ensures var m := Mapping(range, index);
      && (m.Mappable? <==> exists i :: Visible(hs, i, range.side, range.endLine))
      && (m.Unmappable? ==> m.reason == NotVisible(range.endLine))
      && (m.Mappable? ==>
        && m.comment.path == range.file && m.comment.side == range.side && m.comment.line == range.endLine
        && (m.comment.coverage == Full <==>
            exists i :: Visible(hs, i, range.side, range.startLine) && Visible(hs, i, range.side, range.endLine))
        && m.comment.startLine ==
          if m.comment.coverage == Full && range.startLine < range.endLine then Some(range.startLine) else None)
  {
    var fileIndex := index[range.file];
    var hunkOf := HunksOn(fileIndex, range.side);
    VisibleInIndex(fileIndex, hs, range.side, range.endLine);
    VisibleInIndex(fileIndex, hs, range.side, range.startLine);
    if i :| Visible(hs, i, range.side, range.startLine) && Visible(hs, i, range.side, range.endLine) {
      forall line: nat | range.startLine <= line < range.endLine
        ensures line in LinesOn(fileIndex, range.side) && HunkAt(hunkOf, line) == HunkAt(hunkOf, range.endLine)
      {
        HunkIsContiguous(hs[i], range.side, range.startLine);
        HunkIsContiguous(hs[i], range.side, range.endLine);
        HunkIsContiguous(hs[i], range.side, line);
        assert Visible(hs, i, range.side, line);
        VisibleInIndex(fileIndex, hs, range.side, line);
      }
      assert FullyVisible(range, fileIndex);
    }
  }

  /** A range is outside the diff exactly if no file of its name has a patch. */
  lemma OutsideTheDiff(range: ReviewRange, files: seq<PullRequestFile>)
    ensures Mapping(range, IndexOfFiles(files)) == Unmappable(NotInDiff) <==>
      forall file :: file in files && file.filename == range.file ==> file.patch == None || file.patch == Some("")
  {
    IndexHasTheLastPatch(files, range.file);
    if i :| LastPatch(files, i, range.file) {
      assert files[i] in files && files[i].patch.value != "";
    }
    if file :| file in files && file.filename == range.file && HasPatch(file) {
      var k :| 0 <= k < |files| && files[k] == file;
      SomePatchIsLast(files, k);
    }
  }

  /** The first line a comment is about. */
  function FirstLine(comment: MappedComment): nat { comment.startLine.GetOr(comment.line) }

  /******* Ranges a suggestion may replace *******/

  predicate FullyAdded(range: ReviewRange, index: Index) {
    && range.side == Right
    && range.file in index
    && range.endLine in index[range.file].rightHunk
    && forall line :: range.startLine <= line <= range.endLine ==>
      && line in index[range.file].addedLines
      && HunkAt(index[range.file].rightHunk, line) == HunkAt(index[range.file].rightHunk, range.endLine)
  }

  method IsRangeFullyAdded(range: ReviewRange, index: Index) returns (added: bool)
    ensures added == FullyAdded(range, index)
  {
    if range.side == Left {
      return false;
    }
    if range.file !in index {
      return false;
    }
    var fileIndex := index[range.file];
    var endHunk := HunkAt(fileIndex.rightHunk, range.endLine);
    if endHunk.None? {
      return false;
    }
    var line := range.startLine;
    while line <= range.endLine
      invariant range.startLine <= line
      invariant forall l :: range.startLine <= l < line && l <= range.endLine ==>
        l in fileIndex.addedLines && HunkAt(fileIndex.rightHunk, l) == endHunk
    {
      if line !in fileIndex.addedLines || HunkAt(fileIndex.rightHunk, line) != endHunk {
        return false;
      }
      line := line + 1;
    }
    return true;
  }

  ghost predicate AddsAll(h: Hunk, first: nat, last: nat) {
    forall line: nat :: first <= line <= last ==> Adds(h, line)
  }

  /** A range is eligible exactly when one hunk of the script adds every line of it. */
  lemma FullyAddedIsExact(range: ReviewRange, index: Index, hs: seq<Hunk>)
    requires range.startLine <= range.endLine && range.side == Right
    requires range.file in index && Indexes(index[range.file], hs)
    ensures FullyAdded(range, index) <==>
      exists i :: 0 <= i < |hs| && AddsAll(hs[i], range.startLine, range.endLine)
  {
    var fileIndex := index[range.file];
    if FullyAdded(range, index) {
      var i := fileIndex.rightHunk[range.endLine];
      VisibleInIndex(fileIndex, hs, Right, range.endLine);
      forall line: nat | range.startLine <= line <= range.endLine ensures Adds(hs[i], line)
      {
        assert line in fileIndex.addedLines;
        var j :| 0 <= j < |hs| && Adds(hs[j], line);
        AddedShows(hs[j], line);
        assert Visible(hs, j, Right, line);
        VisibleInIndex(fileIndex, hs, Right, line);
        assert fileIndex.rightHunk[line] == i;
      }
      assert AddsAll(hs[i], range.startLine, range.endLine);
    }
    if i :| 0 <= i < |hs| && AddsAll(hs[i], range.startLine, range.endLine) {
      forall line: nat | range.startLine <= line <= range.endLine
        ensures line in fileIndex.addedLines && HunkAt(fileIndex.rightHunk, line) == Some(i)
      {
        AddedShows(hs[i], line);
        assert Visible(hs, i, Right, line);
        VisibleInIndex(fileIndex, hs, Right, line);
      }
      assert HunkAt(fileIndex.rightHunk, range.endLine) == Some(i);
      assert FullyAdded(range, index);
    }
  }

  lemma AddedShows(h: Hunk, line: nat)
    requires Adds(h, line)
    ensures Shows(h, Right, line)
  {
    var k :| 0 <= k < |h.ops| && h.ops[k].Add? && Pos(h, k, Right) == line;
    assert h.ops[k].On(Right);
  }

  /******* Suggestion blocks *******/

  const FENCE := "```"

  /** A line break at the end of the replacement is not doubled. */
  function BlockBody(fixPatch: string): string {
    if fixPatch != "" && fixPatch[|fixPatch| - 1] == '\n' then fixPatch[..|fixPatch| - 1] else fixPatch
  }

  method BuildSuggestionBlock(fixPatch: string, range: ReviewRange, index: Index) returns (block: Option<string>)
    ensures block == Suggestion(fixPatch, range, index)
  {
    if Blank(fixPatch) {
      return None;
    }
    if Occurs(fixPatch, FENCE) {
      return None;
    }
    var added := IsRangeFullyAdded(range, index);
    if !added {
      return None;
    }
    return Some(FENCE + "suggestion\n" + BlockBody(fixPatch) + "\n" + FENCE);
  }

  function Suggestion(fixPatch: string, range: ReviewRange, index: Index): Option<string> {
    if Blank(fixPatch) || Occurs(fixPatch, FENCE) || !FullyAdded(range, index) then None
    else Some(FENCE + "suggestion\n" + BlockBody(fixPatch) + "\n" + FENCE)
  }

  /**
   * Accepting a suggestion replaces the lines its comment covers. Whenever a block is built the range maps with
   * full coverage on the new side, the comment covers exactly the finding's lines, and the diff added them all.
   */
  lemma SuggestionReplacesTheRange(fixPatch: string, range: ReviewRange, index: Index, hs: seq<Hunk>)
    requires range.startLine <= range.endLine
    requires range.file in index ==> Indexes(index[range.file], hs)
    requires Suggestion(fixPatch, range, index).Some?
    ensures var m := Mapping(range, index);
      && m.Mappable? && m.comment.coverage == Full && m.comment.side == Right
      && FirstLine(m.comment) == range.startLine && m.comment.line == range.endLine
      && exists i :: 0 <= i < |hs| && AddsAll(hs[i], FirstLine(m.comment), m.comment.line)
  {
    FullyAddedIsExact(range, index, hs);
    var i :| 0 <= i < |hs| && AddsAll(hs[i], range.startLine, range.endLine);
    AddedShows(hs[i], range.startLine);
    AddedShows(hs[i], range.endLine);
    assert Visible(hs, i, Right, range.startLine) && Visible(hs, i, Right, range.endLine);
    MappingIsExact(range, index, hs);
  }

  /** The lines of a fenced block up to the first line that closes it. */
  function FencedLines(lines: seq<string>): seq<string> {
    if lines == [] || FENCE <= lines[0] then [] else [lines[0]] + FencedLines(lines[1..])
  }

  lemma {:induction false} FencedUpToFence(body: seq<string>, rest: seq<string>)
    requires forall line :: line in body ==> !(FENCE <= line)
    ensures FencedLines(body + [FENCE] + rest) == body
  {
    var lines := body + [FENCE] + rest;
    if body != [] {
      assert forall line :: line in body[1..] ==> line in body;
      FencedUpToFence(body[1..], rest);
      assert lines[1..] == body[1..] + [FENCE] + rest;
      assert lines[0] == body[0] && body[0] in body;
    } else {
      assert lines[0] == FENCE;
    }
  }

  lemma BodyHasNoMore(fixPatch: string, part: string)
    requires !Occurs(fixPatch, part)
    ensures !Occurs(BlockBody(fixPatch), part)
  {
    var body := BlockBody(fixPatch);
    forall i: nat ensures !OccursAt(body, part, i) {
      if OccursAt(body, part, i) {
        assert OccursAt(fixPatch, part, i);
      }
    }
  }

  /** There is a block exactly for a replacement that is not blank and has no fence, for lines one hunk adds. */
  lemma SuggestionIsEligible(fixPatch: string, range: ReviewRange, index: Index, hs: seq<Hunk>)
    requires range.startLine <= range.endLine && range.side == Right
    requires range.file in index && Indexes(index[range.file], hs)
    ensures Suggestion(fixPatch, range, index).Some? <==>
      && (exists c :: c in fixPatch && !IsSpace(c))
      && !Occurs(fixPatch, "```")
      && exists i :: 0 <= i < |hs| && AddsAll(hs[i], range.startLine, range.endLine)
  {
    FullyAddedIsExact(range, index, hs);
  }

  /** A reader of a fenced block gets back its body. */
  lemma BlockParsesBack(body: string)
    requires !Occurs(body, FENCE)
    ensures var lines := Lines(FENCE + "suggestion\n" + body + "\n" + FENCE);
      && lines[0] == FENCE + "suggestion" && FENCE in lines[1..]
      && Join(FencedLines(lines[1..])) == body
  {
    var block := FENCE + "suggestion\n" + body + "\n" + FENCE;
    assert block == (FENCE + "suggestion") + "\n" + (body + "\n" + FENCE);
    LinesOfConcat(FENCE + "suggestion", body + "\n" + FENCE);
    LinesOfConcat(body, FENCE);
    LinesOfOneLine(FENCE + "suggestion");
    LinesOfOneLine(FENCE);
    forall line | line in Lines(body) ensures !(FENCE <= line) {
      assert FENCE <= line ==> OccursAt(line, FENCE, 0);
      LineOccurs(body, line, FENCE, 0);
    }
    FencedUpToFence(Lines(body), []);
    assert Lines(block)[1..] == Lines(body) + [FENCE] + [];
    JoinOfLines(body);
  }

  /**
   * The replacement cannot close its block early: a reader of the block gets back all of it, without one line
   * break at its end if it has one there.
   */
  lemma SuggestionParsesBack(fixPatch: string, range: ReviewRange, index: Index)
    requires Suggestion(fixPatch, range, index).Some?
    ensures var lines := Lines(Suggestion(fixPatch, range, index).value);
      var replacement := Join(FencedLines(lines[1..]));
      && lines[0] == "```suggestion" && "```" in lines[1..]
      && (fixPatch[|fixPatch| - 1] == '\n' ==> replacement + "\n" == fixPatch)
      && (fixPatch[|fixPatch| - 1] != '\n' ==> replacement == fixPatch)
  {
    BodyHasNoMore(fixPatch, FENCE);
    BlockParsesBack(BlockBody(fixPatch));
    assert FENCE + "suggestion" == "```suggestion";
  }
}
