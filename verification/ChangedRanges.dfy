/**
 * Changed line ranges (src/core/diff.ts, src/github/line-mapping.ts, src/core/pipeline.ts).
 *
 * Two extractors find the added lines of a diff: one reads the output of git with all its files, the other the
 * patch of one file through its index. Both coalesce the lines into ranges, and findings outside every range
 * are tagged.
 */
module ChangedRanges {
  import opened Text
  import opened DiffIndex

  datatype ChangedRange = ChangedRange(startLine: nat, endLine: nat)

  /******* The canonical cover of a set of lines *******/

  predicate Within(n: nat, r: ChangedRange) { r.startLine <= n <= r.endLine }

  predicate Covered(n: nat, ranges: seq<ChangedRange>) {
    exists i :: 0 <= i < |ranges| && Within(n, ranges[i])
  }

  ghost predicate Covers(ranges: seq<ChangedRange>, lines: set<nat>) {
    forall n: nat :: n in lines <==> Covered(n, ranges)
  }

  /** Not empty, sorted, disjoint and not even adjacent. */
  predicate Canonical(ranges: seq<ChangedRange>) {
    && (forall i :: 0 <= i < |ranges| ==> ranges[i].startLine <= ranges[i].endLine)
    && (forall i, j :: 0 <= i < j < |ranges| ==> ranges[i].endLine + 1 < ranges[j].startLine)
  }

  /** The first range of a canonical cover starts at the least line and ends before the first gap. */
  lemma FirstRange(a: seq<ChangedRange>, b: seq<ChangedRange>)
    requires Canonical(a) && Canonical(b)
    requires a != [] && b != []
    requires forall n :: Covered(n, a) ==> Covered(n, b)
    ensures b[0].startLine <= a[0].startLine
    ensures a[0].startLine == b[0].startLine ==> a[0].endLine <= b[0].endLine
  {
    var s := a[0].startLine;
    assert Within(s, a[0]);
    assert Covered(s, b);
    var gap := b[0].endLine + 1;
    assert !Covered(gap, b);
    assert !Covered(gap, a);
  }

  /** There is only one canonical way to cover a set of lines. */
  lemma {:induction false} CanonicalIsUnique(a: seq<ChangedRange>, b: seq<ChangedRange>)
    requires Canonical(a) && Canonical(b)
    requires forall n :: Covered(n, a) <==> Covered(n, b)
    ensures a == b
  {
    if a == [] || b == [] {
      if a != [] {
        assert Within(a[0].startLine, a[0]);
        assert Covered(a[0].startLine, a);
      }
      if b != [] {
        assert Within(b[0].startLine, b[0]);
        assert Covered(b[0].startLine, b);
      }
    } else {
      FirstRange(a, b);
      FirstRange(b, a);
      forall n: nat ensures Covered(n, a[1..]) <==> Covered(n, b[1..]) {
        RestCovers(a, n);
        RestCovers(b, n);
      }
      CanonicalIsUnique(a[1..], b[1..]);
      assert a == [a[0]] + a[1..] && b == [b[0]] + b[1..];
    }
  }

  lemma RestCovers(a: seq<ChangedRange>, n: nat)
    requires Canonical(a) && a != []
    ensures Covered(n, a[1..]) <==> Covered(n, a) && !Within(n, a[0])
  {
    if Covered(n, a[1..]) {
      var i :| 0 <= i < |a| - 1 && Within(n, a[1..][i]);
      assert Within(n, a[i + 1]);
    }
    if i :| 0 < i < |a| && Within(n, a[i]) {
      assert a[1..][i - 1] == a[i];
    }
  }

  /******* Sorting and coalescing *******/

  predicate Ascends(s: seq<nat>) { forall i, j :: 0 <= i < j < |s| ==> s[i] < s[j] }

  predicate IsLeast(least: nat, s: set<nat>) { least in s && forall n :: n in s ==> least <= n }

  lemma {:induction false} HasLeast(s: set<nat>, m: nat)
    requires m in s
    ensures exists least :: IsLeast(least, s)
    decreases m
  {
    if smaller :| smaller in s && smaller < m {
      HasLeast(s, smaller);
    } else {
      assert IsLeast(m, s);
    }
  }

  function Least(s: set<nat>): (least: nat)
    requires s != {}
    ensures IsLeast(least, s)
  {
    assert exists n: nat :: IsLeast(n, s) by {
      var m :| m in s;
      HasLeast(s, m);
    }
    var n: nat :| IsLeast(n, s);
    n
  }

  /** The lines of a set in increasing order: a set spread into an array and sorted. */
  function Sorted(s: set<nat>): (r: seq<nat>)
    ensures Ascends(r)
    ensures forall n :: n in r <==> n in s
    decreases |s|
  {
    if s == {} then [] else
      var least := Least(s);
      [least] + Sorted(s - {least})
  }

  /** One more line, above all earlier ones: it extends the last range or starts a new one. */
  function Extend(ranges: seq<ChangedRange>, line: nat): seq<ChangedRange> {
    if ranges != [] && line == ranges[|ranges| - 1].endLine + 1 then
      ranges[|ranges| - 1 := ChangedRange(ranges[|ranges| - 1].startLine, line)]
    else ranges + [ChangedRange(line, line)]
  }

  function Runs(lines: seq<nat>): seq<ChangedRange> {
    if lines == [] then [] else Extend(Runs(lines[..|lines| - 1]), lines[|lines| - 1])
  }

  function Cover(lines: set<nat>): seq<ChangedRange> { Runs(Sorted(lines)) }

  lemma ExtendCovers(ranges: seq<ChangedRange>, line: nat, n: nat)
    requires Canonical(ranges)
    ensures Covered(n, Extend(ranges, line)) <==>
      Covered(n, ranges) || n == line
      || (ranges != [] && line == ranges[|ranges| - 1].endLine + 1 &&
          Within(n, ChangedRange(ranges[|ranges| - 1].startLine, line)))
  {
    var more := Extend(ranges, line);
    var last := |ranges| - 1;
    if Covered(n, ranges) {
      var i :| 0 <= i < |ranges| && Within(n, ranges[i]);
      assert Within(n, more[i]);
    }
    assert Within(line, more[|more| - 1]);
    if ranges != [] && line == ranges[last].endLine + 1 {
      assert more[last] == ChangedRange(ranges[last].startLine, line);
    }
    assert forall i :: 0 <= i < |more| - 1 ==> more[i] == ranges[i];
  }

  /** Coalesced ascending lines are the canonical cover, and the last range ends at the last line. */
  lemma {:induction false} RunsAreCanonical(lines: seq<nat>)
    requires Ascends(lines)
    ensures Canonical(Runs(lines))
    ensures forall n :: n in lines <==> Covered(n, Runs(lines))
    ensures lines == [] <==> Runs(lines) == []
    ensures lines != [] ==> Runs(lines)[|Runs(lines)| - 1].endLine == lines[|lines| - 1]
  {
    if lines != [] {
      var shorter, line := lines[..|lines| - 1], lines[|lines| - 1];
      var ranges := Runs(shorter);
      RunsAreCanonical(shorter);
      assert lines == shorter + [line];
      forall i | 0 <= i < |ranges| ensures ranges[i].endLine < line {
        assert Within(ranges[i].endLine, ranges[i]);
        assert Covered(ranges[i].endLine, ranges);
      }
      forall n: nat ensures n in lines <==> Covered(n, Runs(lines)) {
        ExtendCovers(ranges, line, n);
        if ranges != [] && line == ranges[|ranges| - 1].endLine + 1 &&
            Within(n, ChangedRange(ranges[|ranges| - 1].startLine, line)) {
          assert n == line || Within(n, ranges[|ranges| - 1]);
        }
      }
    }
  }

  /** What both extractors promise about any set of added lines. */
  lemma CoverIsCanonical(lines: set<nat>)
    ensures Canonical(Cover(lines)) && Covers(Cover(lines), lines)
    ensures forall other :: Canonical(other) && Covers(other, lines) ==> other == Cover(lines)
  {
    RunsAreCanonical(Sorted(lines));
    forall other | Canonical(other) && Covers(other, lines) ensures other == Cover(lines) {
      CanonicalIsUnique(other, Cover(lines));
    }
  }

  /** The ranges of one file's patch. */
  function PatchRanges(patch: string): seq<ChangedRange> { Cover(IndexOf(patch).addedLines) }

  method ChangedRangesFromPatch(patch: string) returns (ranges: seq<ChangedRange>)
    ensures ranges == PatchRanges(patch)
    ensures Canonical(ranges) && Covers(ranges, IndexOf(patch).addedLines)
  {
    var index := BuildFileDiffIndex(patch);
    var lines := Sorted(index.addedLines);
    ranges := [];
    for i := 0 to |lines|
      invariant ranges == Runs(lines[..i])
    {
      RunsNext(lines, i);
      var line := lines[i];
      var last := |ranges| - 1;
      if ranges != [] && line == ranges[last].endLine + 1 {
        ranges := ranges[last := ranges[last].(endLine := line)];
      } else {
        ranges := ranges + [ChangedRange(line, line)];
      }
    }
    assert lines[..|lines|] == lines;
    CoverIsCanonical(index.addedLines);
  }

  function SetOf(lines: seq<nat>): set<nat> { set n | n in lines }

  method Coalesce(lines: seq<nat>) returns (ranges: seq<ChangedRange>)
    ensures ranges == Cover(SetOf(lines))
    ensures Canonical(ranges) && forall n :: n in lines <==> Covered(n, ranges)
  {
    ranges := [];
    if lines == [] {
      CoverIsCanonical(SetOf(lines));
      return;
    }
    var sorted := Sorted(SetOf(lines));
    assert lines[0] in sorted;
    var start, end := sorted[0], sorted[0];
    for i := 1 to |sorted|
      invariant start >= 0 && end >= 0
      invariant ranges + [ChangedRange(start, end)] == Runs(sorted[..i])
    {
      RunsNext(sorted, i);
      ExtendLast(ranges, start, end, sorted[i]);
      var line := sorted[i];
      if line == end + 1 {
        end := line;
      } else {
        ranges := ranges + [ChangedRange(start, end)];
        start := line;
        end := line;
      }
    }
    ranges := ranges + [ChangedRange(start, end)];
    assert sorted[..|sorted|] == sorted;
    CoverIsCanonical(SetOf(lines));
  }

  lemma ExtendLast(ranges: seq<ChangedRange>, start: nat, end: nat, line: nat)
    ensures Extend(ranges + [ChangedRange(start, end)], line) ==
      if line == end + 1 then ranges + [ChangedRange(start, line)]
      else ranges + [ChangedRange(start, end)] + [ChangedRange(line, line)]
  {
    assert (ranges + [ChangedRange(start, end)])[|ranges|] == ChangedRange(start, end);
  }

  lemma RunsNext(lines: seq<nat>, i: nat)
    requires i < |lines|
    ensures Runs(lines[..i + 1]) == Extend(Runs(lines[..i]), lines[i])
  {
    assert lines[..i + 1][..i] == lines[..i];
  }

  /******* Findings outside the change *******/

  const CONTEXT_ADJACENT_TAG := "context-adjacent"

  datatype Finding = Finding(file: string, startLine: nat, endLine: nat, tags: seq<string>)

  predicate Overlap(f: Finding, r: ChangedRange) { f.startLine <= r.endLine && r.startLine <= f.endLine }

  function TagScope(f: Finding, rangesByPath: map<string, seq<ChangedRange>>): Finding {
    if f.file !in rangesByPath || rangesByPath[f.file] == [] then f
    else if exists r :: r in rangesByPath[f.file] && Overlap(f, r) then f
    else f.(tags := f.tags + [CONTEXT_ADJACENT_TAG])
  }

  /**
   * Told by the lines and not by the ranges: a finding is tagged exactly when its file has added lines and
   * none of them is one of the finding's. Its range is in order, as every finding is validated to be.
   */
  lemma TaggedOutsideTheChange(f: Finding, added: set<nat>, rangesByPath: map<string, seq<ChangedRange>>)
    requires f.startLine <= f.endLine
    requires f.file in rangesByPath && rangesByPath[f.file] == Cover(added)
    ensures TagScope(f, rangesByPath) ==
      if added != {} && (forall n :: n in added ==> !(f.startLine <= n <= f.endLine))
      then f.(tags := f.tags + [CONTEXT_ADJACENT_TAG]) else f
  {
    var ranges := Cover(added);
    CoverIsCanonical(added);
    if ranges != [] {
      assert Within(ranges[0].startLine, ranges[0]);
      assert Covered(ranges[0].startLine, ranges);
    }
    if r :| r in ranges && Overlap(f, r) {
      var n := if f.startLine <= r.startLine then r.startLine else f.startLine;
      assert Within(n, r) && f.startLine <= n <= f.endLine;
      assert Covered(n, ranges);
    }
    if n :| n in added && f.startLine <= n <= f.endLine {
      var i :| 0 <= i < |ranges| && Within(n, ranges[i]);
      assert Overlap(f, ranges[i]);
    }
  }
}
