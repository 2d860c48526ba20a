/**
 * The index of one file's unified diff (src/github/line-mapping.ts).
 *
 * The format comes from IEEE Std 1003.1-2017, diff utility, section "Diff -u or -U Output Format". An edit
 * script is a list of hunks of operations; the renderer writes it as a patch, and the scanner has to find the
 * file positions of the operations again from the text alone.
 */
module DiffIndex {
  import opened Text

  /******* Edit scripts and their rendering *******/

  datatype Side = Left | Right

  datatype Op = Add(text: string) | Delete(text: string) | Context(text: string) | NoNewline {
    /** The operation stands for a line of the old (left) or new (right) file. */
    predicate On(side: Side) { Context? || (side == Right && Add?) || (side == Left && Delete?) }
  }

  /**
   * The starts are those of the header. A side without lines carries the number of the line before it; as no
   * operation of the hunk is on that side, its start then has no effect.
   */
  datatype Hunk = Hunk(oldStart: nat, newStart: nat, section: string, ops: seq<Op>) {
    function Start(side: Side): nat { if side == Left then oldStart else newStart }
  }

  /** How many lines the operations have on one side. */
  function Count(ops: seq<Op>, side: Side): nat {
    if ops == [] then 0 else Count(ops[..|ops| - 1], side) + if ops[|ops| - 1].On(side) then 1 else 0
  }

  function OpLine(op: Op): string {
    match op
    case Add(text) => "+" + text
    case Delete(text) => "-" + text
    case Context(text) => " " + text
    case NoNewline => "\\ No newline at end of file"
  }

  function OpLines(ops: seq<Op>): (r: seq<string>)
    ensures |r| == |ops|
    ensures forall i :: 0 <= i < |ops| ==> r[i] == OpLine(ops[i])
  {
    seq(|ops|, i requires 0 <= i < |ops| => OpLine(ops[i]))
  }

  /** A count of one is left out of the header. */
  function RangeText(start: nat, count: nat): string {
    if count == 1 then Decimal(start) else Decimal(start) + "," + Decimal(count)
  }

  function Header(h: Hunk): string {
    "@@ -" + RangeText(h.oldStart, Count(h.ops, Left)) + " +" + RangeText(h.newStart, Count(h.ops, Right)) + " @@" +
        h.section
  }

  function HunkLines(h: Hunk): seq<string> { [Header(h)] + OpLines(h.ops) }

  function ScriptLines(hs: seq<Hunk>): seq<string> {
    if hs == [] then [] else ScriptLines(hs[..|hs| - 1]) + HunkLines(hs[|hs| - 1])
  }

  function Patch(hs: seq<Hunk>): string { Join(ScriptLines(hs)) }

  predicate OneLineOp(op: Op) { op.NoNewline? || OneLine(op.text) }

  predicate OneLineHunk(h: Hunk) {
    OneLine(h.section) && forall op :: op in h.ops ==> OneLineOp(op)
  }

  /** Hunk `a` comes before hunk `b` and shares no line with it. */
  predicate Before(a: Hunk, b: Hunk, side: Side) {
    Count(a.ops, side) > 0 && Count(b.ops, side) > 0 ==> a.Start(side) + Count(a.ops, side) <= b.Start(side)
  }

  predicate Ordered(hs: seq<Hunk>) {
    forall i, j, side :: 0 <= i < j < |hs| ==> Before(hs[i], hs[j], side)
  }

  predicate Script(hs: seq<Hunk>) {
    Ordered(hs) && forall h :: h in hs ==> OneLineHunk(h)
  }

  /******* Positions of the operations *******/

  function Pos(h: Hunk, k: nat, side: Side): nat
    requires k <= |h.ops|
  {
    h.Start(side) + Count(h.ops[..k], side)
  }

  ghost predicate Shows(h: Hunk, side: Side, p: nat) {
    exists k :: 0 <= k < |h.ops| && h.ops[k].On(side) && Pos(h, k, side) == p
  }

  ghost predicate Adds(h: Hunk, p: nat) {
    exists k :: 0 <= k < |h.ops| && h.ops[k].Add? && Pos(h, k, Right) == p
  }

  /** The position after the last operation. */
  function End(h: Hunk, side: Side): nat { h.Start(side) + Count(h.ops, side) }

  /** The hunk with one more operation at its end. */
  function Grow(h: Hunk, op: Op): Hunk { h.(ops := h.ops + [op]) }

  lemma Grown(h: Hunk, op: Op, side: Side)
    ensures End(Grow(h, op), side) == End(h, side) + if op.On(side) then 1 else 0
    ensures forall k | 0 <= k <= |h.ops| :: Pos(Grow(h, op), k, side) == Pos(h, k, side)
  {
    var ops := h.ops + [op];
    assert ops[..|ops| - 1] == h.ops;
    forall k | 0 <= k <= |h.ops| ensures ops[..k] == h.ops[..k] {
    }
  }

  lemma GrownShows(h: Hunk, op: Op, side: Side, p: nat)
    ensures Shows(Grow(h, op), side, p) <==> Shows(h, side, p) || (op.On(side) && p == End(h, side))
    ensures Adds(Grow(h, op), p) <==> Adds(h, p) || (op.Add? && p == End(h, Right))
  {
    var g := Grow(h, op);
    var last := |h.ops|;
    Grown(h, op, side);
    Grown(h, op, Right);
    assert h.ops[..last] == h.ops && g.ops[last] == op;
    assert Pos(g, last, side) == End(h, side) && Pos(g, last, Right) == End(h, Right);
    assert forall k :: 0 <= k < last ==> g.ops[k] == h.ops[k];
  }

  lemma LastGrows(h: Hunk)
    requires h.ops != []
    ensures h == Grow(h.(ops := h.ops[..|h.ops| - 1]), h.ops[|h.ops| - 1])
  {
    assert h.ops == h.ops[..|h.ops| - 1] + [h.ops[|h.ops| - 1]];
  }

  /** On each side the lines a hunk shows are one contiguous interval, of the length its header gives. */
  lemma {:induction false} HunkIsContiguous(h: Hunk, side: Side, p: nat)
    ensures Shows(h, side, p) <==> h.Start(side) <= p < End(h, side)
    decreases |h.ops|
  {
    if h.ops != [] {
      var shorter := h.(ops := h.ops[..|h.ops| - 1]);
      var op := h.ops[|h.ops| - 1];
      LastGrows(h);
      HunkIsContiguous(shorter, side, p);
      Grown(shorter, op, side);
      GrownShows(shorter, op, side, p);
    }
  }

  /******* The header pattern: @@ -start[,count] +start[,count] @@ *******/

  /** What is left after an optional ",count". */
  function SkipCount(s: string): string {
    if s != "" && s[0] == ',' then
      match ReadNat(s[1..])
      case Some(number) => number.1
      case None => s
    else s
  }

  /** A start with its optional count. */
  function ReadRange(s: string): Option<(nat, string)> {
    match ReadNat(s)
    case None => None
    case Some(number) => Some((number.0, SkipCount(number.1)))
  }

  /** The old and new start of a hunk header; nothing for a line the pattern does not match. */
  function ParseHeader(line: string): Option<(nat, nat)> {
    match Skip(line, "@@ -")
    case None => None
    case Some(a) =>
      match ReadRange(a)
      case None => None
      case Some(left) =>
        match Skip(left.1, " +")
        case None => None
        case Some(b) =>
          match ReadRange(b)
          case None => None
          case Some(right) => if " @@" <= right.1 then Some((left.0, right.0)) else None
  }

  lemma RangeRoundTrip(start: nat, count: nat, rest: string)
    requires rest != "" && rest[0] == ' '
    ensures ReadRange(RangeText(start, count) + rest) == Some((start, rest))
  {
    if count == 1 {
      DecimalRoundTrip(start, rest);
    } else {
      var tail := "," + Decimal(count) + rest;
      assert RangeText(start, count) + rest == Decimal(start) + tail;
      DecimalRoundTrip(start, tail);
      DecimalRoundTrip(count, rest);
      assert tail[1..] == Decimal(count) + rest;
    }
  }

  lemma HeaderRoundTrip(h: Hunk)
    ensures ParseHeader(Header(h)) == Some((h.oldStart, h.newStart))
  {
    var d := " @@" + h.section;
    var c := RangeText(h.newStart, Count(h.ops, Right)) + d;
    var b := " +" + c;
    var a := RangeText(h.oldStart, Count(h.ops, Left)) + b;
    assert Header(h) == "@@ -" + a;
    assert Skip(Header(h), "@@ -") == Some(a) by { SkipPrefix("@@ -", a); }
    assert ReadRange(a) == Some((h.oldStart, b)) by { RangeRoundTrip(h.oldStart, Count(h.ops, Left), b); }
    assert Skip(b, " +") == Some(c) by { SkipPrefix(" +", c); }
    assert ReadRange(c) == Some((h.newStart, d)) by { RangeRoundTrip(h.newStart, Count(h.ops, Right), d); }
  }

  /******* The scanner *******/

  datatype FileDiffIndex = FileDiffIndex(
    rightLines: set<nat>,
    addedLines: set<nat>,
    leftLines: set<nat>,
    rightHunk: map<nat, int>,
    leftHunk: map<nat, int>)

  const EMPTY_INDEX := FileDiffIndex({}, {}, {}, map[], map[])

  datatype Scanner = Scanner(index: FileDiffIndex, oldLine: nat, newLine: nat, hunk: int, inHunk: bool)

  const START := Scanner(EMPTY_INDEX, 0, 0, -1, false)

  function ShowRight(index: FileDiffIndex, line: nat, hunk: int): FileDiffIndex {
    index.(rightLines := index.rightLines + {line}, rightHunk := index.rightHunk[line := hunk])
  }

  function ShowLeft(index: FileDiffIndex, line: nat, hunk: int): FileDiffIndex {
    index.(leftLines := index.leftLines + {line}, leftHunk := index.leftHunk[line := hunk])
  }

  function Feed(s: Scanner, line: string): Scanner {
    match ParseHeader(line)
    case Some(starts) => Scanner(s.index, starts.0, starts.1, s.hunk + 1, true)
    case None =>
      if !s.inHunk then s
      else if "+" <= line then
        var index := ShowRight(s.index, s.newLine, s.hunk);
        s.(index := index.(addedLines := index.addedLines + {s.newLine}), newLine := s.newLine + 1)
      else if "-" <= line then
        s.(index := ShowLeft(s.index, s.oldLine, s.hunk), oldLine := s.oldLine + 1)
      else if "\\" <= line then s
      else
        s.(index := ShowLeft(ShowRight(s.index, s.newLine, s.hunk), s.oldLine, s.hunk),
           newLine := s.newLine + 1, oldLine := s.oldLine + 1)
  }

  function FeedAll(s: Scanner, lines: seq<string>): Scanner {
    if lines == [] then s else Feed(FeedAll(s, lines[..|lines| - 1]), lines[|lines| - 1])
  }

  /** The index of a patch text. */
  function IndexOf(patch: string): FileDiffIndex { FeedAll(START, Lines(patch)).index }

  method BuildFileDiffIndex(patch: string) returns (index: FileDiffIndex)
    ensures index == IndexOf(patch)
  {
    index := EMPTY_INDEX;
    var oldLine, newLine, hunk, inHunk := 0, 0, -1, false;
    var lines := Lines(patch);
    for i := 0 to |lines|
      invariant oldLine >= 0 && newLine >= 0
      invariant Scanner(index, oldLine, newLine, hunk, inHunk) == FeedAll(START, lines[..i])
    {
      assert lines[..i + 1][..i] == lines[..i];
      var line := lines[i];
      var header := ParseHeader(line);
      if header.Some? {
        oldLine, newLine := header.value.0, header.value.1;
        hunk := hunk + 1;
        inHunk := true;
        continue;
      }
      if !inHunk {
        continue;
      }
      if StartsWith(line, "+") {
        index := ShowRight(index, newLine, hunk);
        index := index.(addedLines := index.addedLines + {newLine});
        newLine := newLine + 1;
      } else if StartsWith(line, "-") {
        index := ShowLeft(index, oldLine, hunk);
        oldLine := oldLine + 1;
      } else if StartsWith(line, "\\") {
      } else {
        index := ShowLeft(ShowRight(index, newLine, hunk), oldLine, hunk);
        newLine := newLine + 1;
        oldLine := oldLine + 1;
      }
    }
    assert lines[..|lines|] == lines;
  }

  /******* The scanner recovers the script *******/

  /** The hunk map holds exactly the lines the script shows on a side, each with the number of its hunk. */
  ghost predicate ShownExactly(hunkOf: map<nat, int>, hs: seq<Hunk>, side: Side) {
    && (forall p: nat :: p in hunkOf ==> 0 <= hunkOf[p] < |hs| && Shows(hs[hunkOf[p]], side, p))
    && (forall i, p: nat :: 0 <= i < |hs| && Shows(hs[i], side, p) ==> p in hunkOf && hunkOf[p] == i)
  }

  /** The set holds exactly the lines the script adds. */
  ghost predicate AddedExactly(added: set<nat>, hs: seq<Hunk>) {
    && (forall p: nat :: p in added ==> exists i :: 0 <= i < |hs| && Adds(hs[i], p))
    && (forall i, p: nat :: 0 <= i < |hs| && Adds(hs[i], p) ==> p in added)
  }

  /** The index holds exactly the positions of the script's operations. */
  ghost predicate Indexes(index: FileDiffIndex, hs: seq<Hunk>) {
    && index.rightLines == index.rightHunk.Keys
    && index.leftLines == index.leftHunk.Keys
    && ShownExactly(index.rightHunk, hs, Right)
    && ShownExactly(index.leftHunk, hs, Left)
    && AddedExactly(index.addedLines, hs)
  }

  /** The scanner has read the script and stands behind its last operation. */
  ghost predicate Reads(s: Scanner, hs: seq<Hunk>) {
    && Indexes(s.index, hs)
    && s.hunk == |hs| - 1
    && (s.inHunk <==> hs != [])
    && (hs != [] ==> s.newLine == End(hs[|hs| - 1], Right) && s.oldLine == End(hs[|hs| - 1], Left))
  }

  lemma {:induction false} FeedAllConcat(s: Scanner, a: seq<string>, b: seq<string>)
    ensures FeedAll(s, a + b) == FeedAll(FeedAll(s, a), b)
    decreases |b|
  {
    if b == [] {
      assert a + b == a;
    } else {
      var n := |b| - 1;
      FeedAllConcat(s, a, b[..n]);
      assert (a + b)[..|a + b| - 1] == a + b[..n];
    }
  }

  /** What an operation does to a scanner inside a hunk. */
  function Perform(s: Scanner, op: Op): Scanner {
    match op
    case Add(_) =>
      var index := ShowRight(s.index, s.newLine, s.hunk);
      s.(index := index.(addedLines := index.addedLines + {s.newLine}), newLine := s.newLine + 1)
    case Delete(_) => s.(index := ShowLeft(s.index, s.oldLine, s.hunk), oldLine := s.oldLine + 1)
    case Context(_) =>
      s.(index := ShowLeft(ShowRight(s.index, s.newLine, s.hunk), s.oldLine, s.hunk),
         newLine := s.newLine + 1, oldLine := s.oldLine + 1)
    case NoNewline => s
  }

  /** An operation line is no header, and its first character tells its kind. */
  lemma OpLineIsPerformed(s: Scanner, op: Op)
    requires s.inHunk
    ensures Feed(s, OpLine(op)) == Perform(s, op)
  {
    assert OpLine(op)[0] != '@' && "@@ -"[0] == '@';
    assert ParseHeader(OpLine(op)).None?;
  }

  /** A header opens a hunk that shows nothing yet. */
  lemma EmptyHunkShowsNothing(index: FileDiffIndex, hs: seq<Hunk>, h: Hunk)
    requires Indexes(index, hs)
    requires h.ops == []
    ensures Indexes(index, hs + [h])
  {
    var more := hs + [h];
    assert more[|hs|] == h && forall i :: 0 <= i < |hs| ==> more[i] == hs[i];
    assert forall side, p :: !Shows(h, side, p);
    assert forall p :: !Adds(h, p);
    EmptyHunkSide(index.leftHunk, hs, h, Left);
    EmptyHunkSide(index.rightHunk, hs, h, Right);
    forall p: nat | p in index.addedLines ensures exists i :: 0 <= i < |more| && Adds(more[i], p) {
      var i :| 0 <= i < |hs| && Adds(hs[i], p);
      assert Adds(more[i], p);
    }
  }

  lemma EmptyHunkSide(hunkOf: map<nat, int>, hs: seq<Hunk>, h: Hunk, side: Side)
    requires ShownExactly(hunkOf, hs, side)
    requires h.ops == []
    ensures ShownExactly(hunkOf, hs + [h], side)
  {
    var more := hs + [h];
    assert more[|hs|] == h && forall i :: 0 <= i < |hs| ==> more[i] == hs[i];
    assert forall p :: !Shows(h, side, p);
  }

  lemma HeaderOpens(s: Scanner, hs: seq<Hunk>, h: Hunk)
    requires Reads(s, hs)
    ensures Reads(Feed(s, Header(h)), hs + [h.(ops := [])])
  {
    HeaderRoundTrip(h);
    EmptyHunkShowsNothing(s.index, hs, h.(ops := []));
  }

  /** An earlier hunk does not show the line a later operation stands on. */
  lemma NotShownBefore(earlier: Hunk, h: Hunk, op: Op, side: Side)
    requires Before(earlier, Grow(h, op), side)
    requires op.On(side)
    ensures !Shows(earlier, side, End(h, side))
  {
    Grown(h, op, side);
    HunkIsContiguous(earlier, side, End(h, side));
  }

  /** An operation adds one line to the hunk map of each side it is on. */
  lemma SideGrows(hunkOf: map<nat, int>, before: seq<Hunk>, h: Hunk, op: Op, side: Side)
    requires ShownExactly(hunkOf, before + [h], side)
    requires Ordered(before + [Grow(h, op)])
    ensures ShownExactly(if op.On(side) then hunkOf[End(h, side) := |before|] else hunkOf, before + [Grow(h, op)], side)
  {
    var hs, more := before + [h], before + [Grow(h, op)];
    var last := |before|;
    var grown := if op.On(side) then hunkOf[End(h, side) := last] else hunkOf;
    assert hs[last] == h && more[last] == Grow(h, op);
    forall i, p: nat | 0 <= i < |more| && Shows(more[i], side, p) ensures p in grown && grown[p] == i {
      if i < last {
        assert hs[i] == more[i] && Before(more[i], more[last], side);
        if op.On(side) { NotShownBefore(more[i], h, op, side); }
      } else {
        GrownShows(h, op, side, p);
        assert Shows(h, side, p) ==> Shows(hs[last], side, p);
      }
    }
    forall p: nat | p in grown ensures 0 <= grown[p] < |more| && Shows(more[grown[p]], side, p) {
      GrownShows(h, op, side, p);
    }
  }

  lemma AddedGrows(added: set<nat>, before: seq<Hunk>, h: Hunk, op: Op)
    requires AddedExactly(added, before + [h])
    ensures AddedExactly(if op.Add? then added + {End(h, Right)} else added, before + [Grow(h, op)])
  {
    var hs, more := before + [h], before + [Grow(h, op)];
    var last := |before|;
    var grown := if op.Add? then added + {End(h, Right)} else added;
    assert hs[last] == h && more[last] == Grow(h, op);
    forall p: nat ensures p in grown ==> exists i :: 0 <= i < |more| && Adds(more[i], p)
      ensures forall i | 0 <= i < |more| && Adds(more[i], p) :: p in grown
    {
      GrownShows(h, op, Right, p);
      if p in added {
        var i :| 0 <= i < |hs| && Adds(hs[i], p);
        assert Adds(more[i], p);
      }
      forall i | 0 <= i < |more| && Adds(more[i], p) ensures p in grown {
        assert i < last ==> Adds(hs[i], p);
        assert i == last && !(op.Add? && p == End(h, Right)) ==> Adds(hs[i], p);
      }
    }
  }

  /** On each side the operation is on, it shows the scanner's line as part of the current hunk. */
  lemma PerformShows(s: Scanner, op: Op)
    ensures var t := Perform(s, op);
      && t.index.leftHunk == (if op.On(Left) then s.index.leftHunk[s.oldLine := s.hunk] else s.index.leftHunk)
      && t.index.rightHunk == (if op.On(Right) then s.index.rightHunk[s.newLine := s.hunk] else s.index.rightHunk)
      && t.index.addedLines == (if op.Add? then s.index.addedLines + {s.newLine} else s.index.addedLines)
      && t.oldLine == s.oldLine + (if op.On(Left) then 1 else 0)
      && t.newLine == s.newLine + (if op.On(Right) then 1 else 0)
      && t.hunk == s.hunk && t.inHunk == s.inHunk
    ensures s.index.leftLines == s.index.leftHunk.Keys ==>
        Perform(s, op).index.leftLines == Perform(s, op).index.leftHunk.Keys
    ensures s.index.rightLines == s.index.rightHunk.Keys ==>
        Perform(s, op).index.rightLines == Perform(s, op).index.rightHunk.Keys
  {
  }

  lemma OpIsRead(s: Scanner, before: seq<Hunk>, h: Hunk, op: Op)
    requires Reads(s, before + [h])
    requires Ordered(before + [Grow(h, op)])
    ensures Reads(Feed(s, OpLine(op)), before + [Grow(h, op)])
  {
    var t := Feed(s, OpLine(op));
    assert t == Perform(s, op) by { OpLineIsPerformed(s, op); }
    assert (before + [h])[|before|] == h;
    assert Indexes(t.index, before + [Grow(h, op)]) by {
      PerformShows(s, op);
      SideGrows(s.index.leftHunk, before, h, op, Left);
      SideGrows(s.index.rightHunk, before, h, op, Right);
      AddedGrows(s.index.addedLines, before, h, op);
    }
    PerformShows(s, op);
    Grown(h, op, Left);
    Grown(h, op, Right);
  }

  /** The hunk cut after its first `k` operations. */
  function Cut(h: Hunk, k: nat): Hunk
    requires k <= |h.ops|
  {
    h.(ops := h.ops[..k])
  }

  lemma NextOpIsRead(s: Scanner, before: seq<Hunk>, h: Hunk, k: nat)
    requires k < |h.ops|
    requires Ordered(before + [h])
    requires Reads(s, before + [Cut(h, k)])
    ensures Reads(Feed(s, OpLine(h.ops[k])), before + [Cut(h, k + 1)])
  {
    assert Cut(h, k + 1) == Grow(Cut(h, k), h.ops[k]) by {
      assert h.ops[..k + 1] == h.ops[..k] + [h.ops[k]];
    }
    PrefixStaysOrdered(before, h, k + 1);
    OpIsRead(s, before, Cut(h, k), h.ops[k]);
  }

  lemma FeedAllNext(s: Scanner, lines: seq<string>, k: nat)
    requires k < |lines|
    ensures FeedAll(s, lines[..k + 1]) == Feed(FeedAll(s, lines[..k]), lines[k])
  {
    assert lines[..k + 1][..k] == lines[..k];
  }

  /** After the header and the first `k` operations of a hunk the scanner has read just those. */
  lemma {:induction false} HunkIsRead(s: Scanner, before: seq<Hunk>, h: Hunk, k: nat)
    requires Reads(s, before)
    requires Ordered(before + [h])
    requires k <= |h.ops|
    ensures Reads(FeedAll(s, HunkLines(h)[..k + 1]), before + [Cut(h, k)])
    decreases k
  {
    FeedAllNext(s, HunkLines(h), k);
    if k == 0 {
      HeaderOpens(s, before, h);
    } else {
      HunkIsRead(s, before, h, k - 1);
      NextOpIsRead(FeedAll(s, HunkLines(h)[..k]), before, h, k - 1);
    }
  }

  lemma {:induction false} CountsGrow(ops: seq<Op>, k: nat, side: Side)
    requires k <= |ops|
    ensures Count(ops[..k], side) <= Count(ops, side)
  {
    if k < |ops| {
      CountsGrow(ops[..|ops| - 1], k, side);
      assert ops[..|ops| - 1][..k] == ops[..k];
    } else {
      assert ops[..k] == ops;
    }
  }

  lemma PrefixStaysOrdered(before: seq<Hunk>, h: Hunk, k: nat)
    requires Ordered(before + [h])
    requires k <= |h.ops|
    ensures Ordered(before + [Cut(h, k)])
  {
    var hs := before + [h];
    var cut := before + [Cut(h, k)];
    forall i, j, side | 0 <= i < j < |cut| ensures Before(cut[i], cut[j], side) {
      CountsGrow(h.ops, k, side);
      assert Before(hs[i], hs[j], side);
    }
  }

  lemma {:induction false} ScriptIsRead(hs: seq<Hunk>)
    requires Ordered(hs)
    ensures Reads(FeedAll(START, ScriptLines(hs)), hs)
  {
    if hs != [] {
      var before, h := hs[..|hs| - 1], hs[|hs| - 1];
      assert hs == before + [h];
      ScriptIsRead(before);
      HunkIsRead(FeedAll(START, ScriptLines(before)), before, h, |h.ops|);
      assert h.ops[..|h.ops|] == h.ops && HunkLines(h)[..|h.ops| + 1] == HunkLines(h);
      FeedAllConcat(START, ScriptLines(before), HunkLines(h));
    }
  }

  lemma {:induction false} ScriptLinesAreOneLine(hs: seq<Hunk>)
    requires forall h :: h in hs ==> OneLineHunk(h)
    ensures forall l :: l in ScriptLines(hs) ==> OneLine(l)
  {
    if hs != [] {
      var h := hs[|hs| - 1];
      ScriptLinesAreOneLine(hs[..|hs| - 1]);
      assert OneLineHunk(h);
      HeaderIsOneLine(h);
      forall k | 0 <= k < |h.ops| ensures OneLine(OpLine(h.ops[k])) {
        assert OneLineOp(h.ops[k]);
      }
      assert forall l :: l in HunkLines(h) ==> OneLine(l);
    }
  }

  lemma HeaderIsOneLine(h: Hunk)
    requires OneLine(h.section)
    ensures OneLine(Header(h))
  {
    RangeIsOneLine(h.oldStart, Count(h.ops, Left));
    RangeIsOneLine(h.newStart, Count(h.ops, Right));
  }

  lemma RangeIsOneLine(start: nat, count: nat)
    ensures OneLine(RangeText(start, count))
  {
    assert !IsDigit('\n');
  }

  /** Splitting the patch text gives the script's lines back; an empty script is a text of one empty line. */
  lemma PatchLines(hs: seq<Hunk>)
    requires Script(hs)
    ensures FeedAll(START, Lines(Patch(hs))) == FeedAll(START, ScriptLines(hs))
  {
    if hs == [] {
      assert Lines(Patch(hs)) == [""];
      assert FeedAll(START, [""]) == Feed(FeedAll(START, [""][..0]), "");
    } else {
      ScriptLinesAreOneLine(hs);
      assert |ScriptLines(hs)| >= |HunkLines(hs[|hs| - 1])|;
      LinesRoundTrip(ScriptLines(hs));
    }
  }

  /**
   * From the text of any ordered script the index recovers exactly the file positions of its operations, on
   * both sides, and for each the hunk it belongs to.
   */
  lemma IndexRecoversScript(hs: seq<Hunk>)
    requires Script(hs)
    ensures Indexes(IndexOf(Patch(hs)), hs)
  {
    PatchLines(hs);
    ScriptIsRead(hs);
  }

  lemma EmptyLineIsContext(s: Scanner)
    requires s.inHunk
    ensures Feed(s, "") == Perform(s, Context(""))
  {
  }

  /**
   * The split leaves an empty last line for a patch that ends in a newline, and the scanner takes it for a
   * context line: the index then shows one line too many on each side.
   */
  lemma TrailingNewlineShowsOneMore(hs: seq<Hunk>)
    requires Script(hs) && hs != []
    ensures var last := hs[|hs| - 1];
      IndexOf(Patch(hs) + "\n") ==
      ShowLeft(ShowRight(IndexOf(Patch(hs)), End(last, Right), |hs| - 1), End(last, Left), |hs| - 1)
  {
    var lines := Lines(Patch(hs));
    var s := FeedAll(START, lines);
    assert Lines(Patch(hs) + "\n") == lines + [""] by {
      LinesOfConcat(Patch(hs), "");
      assert Patch(hs) + "\n" + "" == Patch(hs) + "\n";
    }
    assert FeedAll(START, lines + [""]) == Feed(s, "") by {
      assert (lines + [""])[..|lines|] == lines;
    }
    assert s.inHunk && s.hunk == |hs| - 1 && s.newLine == End(hs[|hs| - 1], Right) &&
        s.oldLine == End(hs[|hs| - 1], Left) by {
      PatchLines(hs);
      ScriptIsRead(hs);
    }
    EmptyLineIsContext(s);
  }
}
