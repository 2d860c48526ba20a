/**
 * The changed ranges of a whole git diff (src/core/diff.ts), against the ranges taken from the patch of each
 * file alone (src/github/line-mapping.ts).
 */
module UnifiedDiff {
  import opened Text
  import opened DiffIndex
  import opened ChangedRanges

  /******* The parser *******/

  datatype FileDiff = FileDiff(path: string, changedRanges: seq<ChangedRange>)

  datatype Section = Section(path: string, added: seq<nat>)

  datatype Parser = Parser(files: seq<FileDiff>, current: Option<Section>, newLineNo: nat, inHunk: bool)

  const BEGIN := Parser([], None, 0, false)

  /** The text before the first "@@". */
  function UpToMarks(s: string): string {
    if s == "" || "@@" <= s then "" else [s[0]] + UpToMarks(s[1..])
  }

  /** The first number that directly follows a plus sign, or zero. */
  function FirstPlus(s: string): nat {
    if s == "" then 0
    else if s[0] == '+' && ReadNat(s[1..]).Some? then ReadNat(s[1..]).value.0
    else FirstPlus(s[1..])
  }

  /** The start on the new side, found between the two marks of a line that begins with "@@". */
  function NewStart(line: string): nat
    requires "@@" <= line
  {
    FirstPlus(UpToMarks(line[2..]))
  }

  function PathOf(name: string): string {
    var target := Trim(name);
    if target == "/dev/null" then ""
    else if "a/" <= target || "b/" <= target then target[2..]
    else target
  }

  function Flush(p: Parser): seq<FileDiff> {
    if p.current.Some? && p.current.value.path != "" then
      p.files + [FileDiff(p.current.value.path, Cover(SetOf(p.current.value.added)))]
    else p.files
  }

  function Take(p: Parser, line: string): Parser {
    if "diff --git" <= line then Parser(Flush(p), Some(Section("", [])), p.newLineNo, false)
    else if "+++ " <= line then
      if p.current.Some? then p.(current := Some(p.current.value.(path := PathOf(line[4..])))) else p
    else if "--- " <= line then p
    else if "@@" <= line then p.(newLineNo := NewStart(line), inHunk := true)
    else if !p.inHunk || p.current.None? then p
    else if "+" <= line then
      var section := p.current.value;
      p.(current := Some(section.(added := section.added + [p.newLineNo])), newLineNo := p.newLineNo + 1)
    else if "-" <= line || "\\" <= line then p
    else p.(newLineNo := p.newLineNo + 1)
  }

  function TakeAll(p: Parser, lines: seq<string>): Parser {
    if lines == [] then p else Take(TakeAll(p, lines[..|lines| - 1]), lines[|lines| - 1])
  }

  function FilesOf(diff: string): seq<FileDiff> { Flush(TakeAll(BEGIN, Lines(diff))) }

  method ParseUnifiedDiff(diff: string) returns (files: seq<FileDiff>)
    ensures files == FilesOf(diff)
  {
    files := [];
    var current: Option<Section> := None;
    var newLineNo, inHunk := 0, false;
    var lines := Lines(diff);
    for i := 0 to |lines|
      invariant newLineNo >= 0
      invariant Parser(files, current, newLineNo, inHunk) == TakeAll(BEGIN, lines[..i])
    {
      assert lines[..i + 1][..i] == lines[..i];
      var line := lines[i];
      if StartsWith(line, "diff --git") {
        files := PushCurrent(files, current, newLineNo, inHunk);
        current := Some(Section("", []));
        inHunk := false;
        continue;
      }
      if StartsWith(line, "+++ ") {
        if current.Some? {
          current := Some(current.value.(path := PathOf(line[4..])));
        }
        continue;
      }
      if StartsWith(line, "--- ") {
        continue;
      }
      if StartsWith(line, "@@") {
        newLineNo := NewStart(line);
        inHunk := true;
        continue;
      }
      if !inHunk || current.None? {
        continue;
      }
      if StartsWith(line, "+") {
        current := Some(current.value.(added := current.value.added + [newLineNo]));
        newLineNo := newLineNo + 1;
      } else if StartsWith(line, "-") || StartsWith(line, "\\") {
      } else {
        newLineNo := newLineNo + 1;
      }
    }
    assert lines[..|lines|] == lines;
    files := PushCurrent(files, current, newLineNo, inHunk);
  }

  method PushCurrent(files: seq<FileDiff>, current: Option<Section>, newLineNo: nat, inHunk: bool)
        returns (more: seq<FileDiff>)
    ensures more == Flush(Parser(files, current, newLineNo, inHunk))
  {
    more := files;
    if current.Some? && current.value.path != "" {
      var ranges := Coalesce(current.value.added);
      more := files + [FileDiff(current.value.path, ranges)];
    }
  }

  /******* Git's rendering of changed files *******/

  /** A new or deleted file has no path on one side, and an unusual path is escaped and put in quotes. */
  datatype GitPath = DevNull | Bare(path: string) | Quoted(escaped: string)

  /** Without hunks the names are not written. */
  datatype GitFile = GitFile(oldPath: GitPath, newPath: GitPath, extended: seq<string>, hunks: seq<Hunk>)

  function Name(side: string, path: GitPath): string {
    match path
    case Bare(p) => side + p
    case Quoted(escaped) => "\"" + side + escaped + "\""
    case DevNull => "/dev/null"
  }

  /** On the lines that name the two sides, a tab ends a name with a space in it. */
  function NameField(side: string, path: GitPath): string {
    Name(side, path) + if path.Bare? && ' ' in path.path then "\t" else ""
  }

  /** The path under which the parser reports the file: white space at its end is lost, and quotes stay. */
  function ReadAs(path: GitPath): string {
    match path
    case Bare(p) => TrimRight(p)
    case Quoted(escaped) => Name("b/", path)
    case DevNull => ""
  }

  function Command(f: GitFile): string {
    "diff --git " + Name("a/", f.oldPath) + " " + Name("b/", f.newPath)
  }

  function NameLines(f: GitFile): seq<string> {
    if f.hunks == [] then [] else ["--- " + NameField("a/", f.oldPath), "+++ " + NameField("b/", f.newPath)]
  }

  function GitLines(f: GitFile): seq<string> {
    [Command(f)] + f.extended + NameLines(f) + ScriptLines(f.hunks)
  }

  function DiffLines(files: seq<GitFile>): seq<string> {
    if files == [] then [] else DiffLines(files[..|files| - 1]) + GitLines(files[|files| - 1])
  }

  function GitDiff(files: seq<GitFile>): string { Join(DiffLines(files)) }

  /** A line that opens no file, names no file and opens no hunk. */
  predicate Quiet(line: string) {
    !("diff --git" <= line) && !("+++ " <= line) && !("--- " <= line) && !("@@" <= line)
  }

  predicate OneLinePath(path: GitPath) {
    match path
    case Bare(p) => OneLine(p)
    case Quoted(escaped) => OneLine(escaped)
    case DevNull => true
  }

  predicate WellFormed(f: GitFile) {
    && OneLinePath(f.oldPath) && OneLinePath(f.newPath)
    && (forall line :: line in f.extended ==> OneLine(line) && Quiet(line))
    && Script(f.hunks)
  }

  /** An added line with such a text is rendered like the line that names the new file. */
  predicate LooksLikeName(op: Op) { op.Add? && "++ " <= op.text }

  predicate PlainHunk(h: Hunk) { forall op :: op in h.ops ==> !LooksLikeName(op) }

  /** The guard under which the parser reads a file correctly: no added text begins with "++ ". */
  predicate Plain(f: GitFile) { forall h :: h in f.hunks ==> PlainHunk(h) }

  /** The file as the other extractor sees it. */
  function Report(f: GitFile): seq<FileDiff> {
    if f.hunks != [] && ReadAs(f.newPath) != "" then [FileDiff(ReadAs(f.newPath), PatchRanges(Patch(f.hunks)))] else []
  }

  function Reports(files: seq<GitFile>): seq<FileDiff> {
    if files == [] then [] else Reports(files[..|files| - 1]) + Report(files[|files| - 1])
  }

  /******* Both scanners read hunks alike *******/

  /** A hunk line that both scanners take for the same thing. */
  predicate Common(line: string) {
    && !("diff --git" <= line) && !("+++ " <= line)
    && ("@@" <= line <==> ParseHeader(line).Some?)
    && ("@@" <= line ==> ParseHeader(line) == Some((ParseHeader(line).value.0, NewStart(line))))
  }

  ghost predicate Alike(p: Parser, s: Scanner) {
    && p.current.Some?
    && SetOf(p.current.value.added) == s.index.addedLines
    && p.inHunk == s.inHunk
    && (s.inHunk ==> p.newLineNo == s.newLine)
  }

  lemma CommonStep(p: Parser, s: Scanner, line: string)
    requires Alike(p, s) && Common(line)
    ensures Alike(Take(p, line), Feed(s, line))
    ensures Take(p, line).files == p.files && Take(p, line).current.value.path == p.current.value.path
  {
    var added := p.current.value.added;
    assert SetOf(added + [p.newLineNo]) == SetOf(added) + {p.newLineNo};
    assert "--- " <= line ==> line[..1] == "-" && "-" <= line;
    assert "-" <= line ==> line[0] == '-';
    assert "+" <= line ==> line[0] == '+';
  }

  lemma {:induction false} CommonRun(p: Parser, s: Scanner, lines: seq<string>)
    requires Alike(p, s)
    requires forall line :: line in lines ==> Common(line)
    ensures var q := TakeAll(p, lines);
      Alike(q, FeedAll(s, lines)) && q.files == p.files && q.current.value.path == p.current.value.path
  {
    if lines != [] {
      var n := |lines| - 1;
      CommonRun(p, s, lines[..n]);
      CommonStep(TakeAll(p, lines[..n]), FeedAll(s, lines[..n]), lines[n]);
    }
  }

  lemma {:induction false} UpToMarksStops(a: string, b: string)
    requires '@' !in a
    ensures UpToMarks(a + "@@" + b) == a
  {
    var s := a + "@@" + b;
    if a != "" {
      UpToMarksStops(a[1..], b);
      assert s[1..] == a[1..] + "@@" + b;
    } else {
      assert s[..2] == "@@";
    }
  }

  lemma {:induction false} FirstPlusSkips(a: string, b: string)
    requires '+' !in a
    ensures FirstPlus(a + b) == FirstPlus(b)
  {
    if a == "" {
      assert a + b == b;
    } else {
      FirstPlusSkips(a[1..], b);
      assert (a + b)[1..] == a[1..] + b;
    }
  }

  lemma HeaderIsCommon(h: Hunk)
    ensures Common(Header(h))
  {
    HeaderRoundTrip(h);
    NewStartOfHeader(h);
    assert Header(h)[0] == '@';
    assert "@@ -"[..2] == "@@";
  }

  lemma NewStartOfHeader(h: Hunk)
    ensures "@@" <= Header(h) && NewStart(Header(h)) == h.newStart
  {
    var left := " -" + RangeText(h.oldStart, Count(h.ops, Left)) + " ";
    var right := "+" + RangeText(h.newStart, Count(h.ops, Right)) + " ";
    RangeChars(h.oldStart, Count(h.ops, Left));
    RangeChars(h.newStart, Count(h.ops, Right));
    HeaderSplits(h);
    assert Header(h)[2..] == (left + right) + "@@" + h.section;
    UpToMarksStops(left + right, h.section);
    FirstPlusSkips(left, right);
    NumberComesFirst(h.newStart, Count(h.ops, Right));
    assert right[1..] == RangeText(h.newStart, Count(h.ops, Right)) + " ";
  }

  lemma RangeChars(start: nat, count: nat)
    ensures forall c :: c in RangeText(start, count) ==> c != '@' && c != '+'
  {
  }

  lemma HeaderSplits(h: Hunk)
    ensures var left := " -" + RangeText(h.oldStart, Count(h.ops, Left)) + " ";
      var right := "+" + RangeText(h.newStart, Count(h.ops, Right)) + " ";
      Header(h) == "@@" + (left + right + "@@" + h.section)
  {
  }

  lemma NumberComesFirst(start: nat, count: nat)
    ensures ReadNat(RangeText(start, count) + " ").Some?
    ensures ReadNat(RangeText(start, count) + " ").value.0 == start
  {
    if count == 1 {
      DecimalRoundTrip(start, " ");
    } else {
      assert RangeText(start, count) + " " == Decimal(start) + ("," + Decimal(count) + " ");
      DecimalRoundTrip(start, "," + Decimal(count) + " ");
    }
  }

  lemma OpIsCommon(op: Op)
    ensures Common(OpLine(op)) <==> !LooksLikeName(op)
  {
    var line := OpLine(op);
    assert line[0] != '@' && line[0] != 'd' && "@@ -"[0] == '@' && "@@"[0] == '@' && "diff --git"[0] == 'd';
    assert ParseHeader(line).None?;
    if op.Add? {
      assert "++ " <= op.text <==> "+++ " <= line by {
        if "++ " <= op.text { assert line[..4] == "+" + op.text[..3]; }
        if "+++ " <= line { assert op.text == line[1..]; }
      }
    }
  }

  /******* The parser reads every file of a diff *******/

  /** Trimming at the end stops before a character that is no white space. */
  lemma {:induction false} TrimRightKeepsFront(front: string, back: string)
    requires front != "" && !IsSpace(front[|front| - 1])
    ensures TrimRight(front + back) == front + TrimRight(back)
  {
    var s := front + back;
    if back == "" {
      assert s == front;
    } else {
      assert s[|s| - 1] == back[|back| - 1];
      if IsSpace(back[|back| - 1]) {
        TrimRightKeepsFront(front, back[..|back| - 1]);
        assert s[..|s| - 1] == front + back[..|back| - 1];
      }
    }
  }

  lemma TabIsTrimmed(s: string)
    ensures TrimRight(s + "\t") == TrimRight(s)
  {
    assert (s + "\t")[..|s|] == s;
  }

  /** A bare path is read right exactly if it does not end in white space. */
  lemma BarePathIsReadExactly(path: string)
    ensures ReadAs(Bare(path)) == path <==> path == "" || !IsSpace(path[|path| - 1])
  {
    TrimRightShrinks(path);
    if path != "" && IsSpace(path[|path| - 1]) {
      TrimRightShrinks(path[..|path| - 1]);
    }
  }

  lemma {:induction false} TrimRightShrinks(s: string)
    ensures |TrimRight(s)| <= |s|
  {
    if s != "" && IsSpace(s[|s| - 1]) {
      TrimRightShrinks(s[..|s| - 1]);
    }
  }

  lemma BareNameIsRead(path: string)
    ensures PathOf(NameField("b/", Bare(path))) == TrimRight(path)
  {
    BareNameIsTrimmed(path);
    var target := "b/" + TrimRight(path);
    assert target[..2] == "b/" && target[2..] == TrimRight(path) && target[0] == 'b' && "/dev/null"[0] == '/';
  }

  lemma BareNameIsTrimmed(path: string)
    ensures Trim(NameField("b/", Bare(path))) == "b/" + TrimRight(path)
  {
    var name := "b/" + path;
    var field := NameField("b/", Bare(path));
    assert field[0] == 'b' && !IsSpace('b');
    assert TrimLeft(field) == field;
    TabIsTrimmed(name);
    assert name + "" == name;
    TrimRightKeepsFront("b/", path);
  }

  lemma NameIsRead(path: GitPath)
    ensures PathOf(NameField("b/", path)) == ReadAs(path)
  {
    var field := NameField("b/", path);
    match path
    case Bare(p) => BareNameIsRead(p);
    case Quoted(escaped) =>
      assert field == Name("b/", path);
      assert field[0] == '"' && field[|field| - 1] == '"' && !IsSpace('"');
      assert "/dev/null"[0] == '/' && "a/"[0] == 'a' && "b/"[0] == 'b';
    case DevNull =>
      assert field == "/dev/null" && !IsSpace(field[0]) && !IsSpace(field[|field| - 1]);
  }

  lemma {:induction false} TakeAllConcat(p: Parser, a: seq<string>, b: seq<string>)
    ensures TakeAll(p, a + b) == TakeAll(TakeAll(p, a), b)
    decreases |b|
  {
    if b == [] {
      assert a + b == a;
    } else {
      var n := |b| - 1;
      TakeAllConcat(p, a, b[..n]);
      assert (a + b)[..|a + b| - 1] == a + b[..n];
    }
  }

  lemma {:induction false} QuietLinesAreSkipped(p: Parser, lines: seq<string>)
    requires !p.inHunk
    requires forall line :: line in lines ==> Quiet(line)
    ensures TakeAll(p, lines) == p
  {
    if lines != [] {
      QuietLinesAreSkipped(p, lines[..|lines| - 1]);
      assert Quiet(lines[|lines| - 1]);
    }
  }

  /** Everything before the hunks opens a section under the file's new path. */
  function Opened(p: Parser, f: GitFile): Parser {
    Parser(Flush(p), Some(Section(if f.hunks == [] then "" else ReadAs(f.newPath), [])), p.newLineNo, false)
  }

  lemma NamesAreTaken(p: Parser, f: GitFile)
    requires WellFormed(f)
    requires p.current == Some(Section("", []))
    ensures TakeAll(p, NameLines(f)) ==
      p.(current := Some(Section(if f.hunks == [] then "" else ReadAs(f.newPath), [])))
  {
    if f.hunks != [] {
      var names := NameLines(f);
      var line := names[1];
      assert line[..4] == "+++ " && line[4..] == NameField("b/", f.newPath);
      assert names[..1] == ["--- " + NameField("a/", f.oldPath)] && names[..1][..0] == [];
      assert TakeAll(p, names) == Take(Take(TakeAll(p, []), names[0]), line);
      assert names[0][0] == '-' && names[0][..4] == "--- ";
      assert Take(p, names[0]) == p;
      assert line[0] == '+';
      assert Take(p, line) == p.(current := Some(Section(PathOf(line[4..]), [])));
      NameIsRead(f.newPath);
    }
  }

  lemma FileIsOpened(p: Parser, f: GitFile)
    requires WellFormed(f)
    ensures TakeAll(p, [Command(f)] + f.extended + NameLines(f)) == Opened(p, f)
  {
    var unnamed := Parser(Flush(p), Some(Section("", [])), p.newLineNo, false);
    assert Command(f)[..10] == "diff --git";
    assert [Command(f)][..0] == [];
    assert TakeAll(p, [Command(f)]) == Take(TakeAll(p, []), Command(f)) == unnamed;
    TakeAllConcat(p, [Command(f)], f.extended);
    QuietLinesAreSkipped(unnamed, f.extended);
    TakeAllConcat(p, [Command(f)] + f.extended, NameLines(f));
    NamesAreTaken(unnamed, f);
  }

  lemma {:induction false} PlainScriptIsCommon(hs: seq<Hunk>)
    requires forall h :: h in hs ==> PlainHunk(h)
    ensures forall line :: line in ScriptLines(hs) ==> Common(line)
  {
    if hs != [] {
      var h := hs[|hs| - 1];
      PlainScriptIsCommon(hs[..|hs| - 1]);
      HeaderIsCommon(h);
      assert PlainHunk(h);
      forall k | 0 <= k < |h.ops| ensures Common(OpLine(h.ops[k])) {
        OpIsCommon(h.ops[k]);
      }
      assert forall line :: line in HunkLines(h) ==> Common(line);
    }
  }

  lemma FileIsTaken(p: Parser, f: GitFile)
    requires WellFormed(f) && Plain(f)
    ensures Flush(TakeAll(p, GitLines(f))) == Flush(p) + Report(f)
  {
    var o := Opened(p, f);
    FileIsOpened(p, f);
    TakeAllConcat(p, [Command(f)] + f.extended + NameLines(f), ScriptLines(f.hunks));
    PlainScriptIsCommon(f.hunks);
    assert SetOf([]) == {};
    CommonRun(o, START, ScriptLines(f.hunks));
    PatchLines(f.hunks);
  }

  lemma {:induction false} FilesAreTaken(files: seq<GitFile>)
    requires forall f :: f in files ==> WellFormed(f) && Plain(f)
    ensures Flush(TakeAll(BEGIN, DiffLines(files))) == Reports(files)
  {
    if files != [] {
      var n := |files| - 1;
      FilesAreTaken(files[..n]);
      FileIsTaken(TakeAll(BEGIN, DiffLines(files[..n])), files[n]);
      TakeAllConcat(BEGIN, DiffLines(files[..n]), GitLines(files[n]));
    }
  }

  lemma GitLinesAreOneLine(f: GitFile)
    requires WellFormed(f)
    ensures forall line :: line in GitLines(f) ==> OneLine(line)
  {
    ScriptLinesAreOneLine(f.hunks);
    assert OneLine(Name("a/", f.oldPath)) && OneLine(Name("b/", f.newPath));
    assert OneLine(Command(f));
    assert forall line :: line in NameLines(f) ==> OneLine(line);
  }

  lemma {:induction false} DiffLinesAreOneLine(files: seq<GitFile>)
    requires forall f :: f in files ==> WellFormed(f)
    ensures forall line :: line in DiffLines(files) ==> OneLine(line)
  {
    if files != [] {
      DiffLinesAreOneLine(files[..|files| - 1]);
      GitLinesAreOneLine(files[|files| - 1]);
    }
  }

  /** One empty line more, as the newline that ends git's output leaves it, changes no file. */
  lemma EmptyLineAddsNothing(p: Parser)
    ensures Flush(Take(p, "")) == Flush(p)
  {
  }

  lemma DiffIsSplit(files: seq<GitFile>)
    requires forall f :: f in files ==> WellFormed(f)
    ensures FilesOf(GitDiff(files)) == Flush(TakeAll(BEGIN, DiffLines(files)))
    ensures FilesOf(GitDiff(files) + "\n") == FilesOf(GitDiff(files))
  {
    var lines := Lines(GitDiff(files));
    if files == [] {
      assert lines == [""] && [""][..0] == [];
      assert TakeAll(BEGIN, lines) == Take(TakeAll(BEGIN, []), "");
      EmptyLineAddsNothing(BEGIN);
    } else {
      DiffLinesAreOneLine(files);
      assert |DiffLines(files)| >= |GitLines(files[|files| - 1])| >= 1;
      LinesRoundTrip(DiffLines(files));
    }
    LinesOfConcat(GitDiff(files), "");
    assert GitDiff(files) + "\n" + "" == GitDiff(files) + "\n";
    assert (lines + [""])[..|lines|] == lines;
    assert TakeAll(BEGIN, lines + [""]) == Take(TakeAll(BEGIN, lines), "");
    EmptyLineAddsNothing(TakeAll(BEGIN, lines));
  }

  /**
   * The two extractors agree: from git's diff of any files, with or without its final newline, the parser
   * reports each file that has hunks and a new path, in order, with exactly the ranges of its own patch. A path
   * that git quotes is reported in its quotes, and one that ends in white space without it.
   */
  lemma ExtractorsAgree(files: seq<GitFile>)
    requires forall f :: f in files ==> WellFormed(f) && Plain(f)
    ensures FilesOf(GitDiff(files)) == Reports(files)
    ensures FilesOf(GitDiff(files) + "\n") == Reports(files)
  {
    DiffIsSplit(files);
    FilesAreTaken(files);
  }

  /******* And they agree on no other diff *******/

  function AddOps(ops: seq<Op>): nat {
    if ops == [] then 0 else AddOps(ops[..|ops| - 1]) + if ops[|ops| - 1].Add? then 1 else 0
  }

  /** Added lines the parser takes for the name of a file. */
  function NameOps(ops: seq<Op>): nat {
    if ops == [] then 0 else NameOps(ops[..|ops| - 1]) + if LooksLikeName(ops[|ops| - 1]) then 1 else 0
  }

  function TotalAdds(hs: seq<Hunk>): nat {
    if hs == [] then 0 else TotalAdds(hs[..|hs| - 1]) + AddOps(hs[|hs| - 1].ops)
  }

  function TotalNames(hs: seq<Hunk>): nat {
    if hs == [] then 0 else TotalNames(hs[..|hs| - 1]) + NameOps(hs[|hs| - 1].ops)
  }

  lemma {:induction false} NamedOpCounts(ops: seq<Op>, op: Op)
    requires op in ops && LooksLikeName(op)
    ensures NameOps(ops) > 0
  {
    if ops[|ops| - 1] != op {
      NamedOpCounts(ops[..|ops| - 1], op);
    }
  }

  lemma {:induction false} NamedHunkCounts(hs: seq<Hunk>, h: Hunk)
    requires h in hs && !PlainHunk(h)
    ensures TotalNames(hs) > 0
  {
    if hs[|hs| - 1] == h {
      var op :| op in h.ops && LooksLikeName(op);
      NamedOpCounts(h.ops, op);
    } else {
      NamedHunkCounts(hs[..|hs| - 1], h);
    }
  }

  /** Taking back an operation takes back its line. */
  lemma OneOpLess(added: set<nat>, before: seq<Hunk>, h: Hunk, k: nat) returns (fewer: set<nat>)
    requires k < |h.ops|
    requires Ordered(before + [h])
    requires AddedExactly(added, before + [Cut(h, k + 1)])
    ensures AddedExactly(fewer, before + [Cut(h, k)])
    ensures |added| == |fewer| + if h.ops[k].Add? then 1 else 0
  {
    var op := h.ops[k];
    assert Cut(h, k + 1) == Grow(Cut(h, k), op) by {
      assert h.ops[..k + 1] == h.ops[..k] + [op];
    }
    PrefixStaysOrdered(before, h, k + 1);
    AddedShrinks(added, before, Cut(h, k), op);
    fewer := if op.Add? then added - {End(Cut(h, k), Right)} else added;
  }

  lemma {:induction false} AddedInHunk(added: set<nat>, before: seq<Hunk>, h: Hunk, k: nat) returns (earlier: set<nat>)
    requires k <= |h.ops|
    requires Ordered(before + [h])
    requires AddedExactly(added, before + [Cut(h, k)])
    ensures AddedExactly(earlier, before)
    ensures |added| == |earlier| + AddOps(h.ops[..k])
    decreases k
  {
    if k == 0 {
      earlier := added;
      FewerHunks(added, before, Cut(h, 0));
    } else {
      var fewer := OneOpLess(added, before, h, k - 1);
      earlier := AddedInHunk(fewer, before, h, k - 1);
      assert h.ops[..k][..k - 1] == h.ops[..k - 1];
    }
  }

  /** The script adds as many distinct lines as it has added operations. */
  lemma {:induction false} AddedSize(added: set<nat>, hs: seq<Hunk>)
    requires Ordered(hs)
    requires AddedExactly(added, hs)
    ensures |added| == TotalAdds(hs)
  {
    if hs == [] {
      assert added == {};
    } else {
      var before, h := hs[..|hs| - 1], hs[|hs| - 1];
      assert hs == before + [h] && h.ops[..|h.ops|] == h.ops && Cut(h, |h.ops|) == h;
      var earlier := AddedInHunk(added, before, h, |h.ops|);
      OrderedPrefix(before, h);
      AddedSize(earlier, before);
    }
  }

  lemma FewerHunks(added: set<nat>, before: seq<Hunk>, h: Hunk)
    requires AddedExactly(added, before + [h]) && h.ops == []
    ensures AddedExactly(added, before)
  {
    var hs := before + [h];
    assert hs[|before|] == h && forall i :: 0 <= i < |before| ==> hs[i] == before[i];
    forall p: nat | p in added ensures exists i :: 0 <= i < |before| && Adds(before[i], p) {
      var i :| 0 <= i < |hs| && Adds(hs[i], p);
      assert i < |before|;
    }
  }

  lemma OrderedPrefix(before: seq<Hunk>, h: Hunk)
    requires Ordered(before + [h])
    ensures Ordered(before)
  {
    var hs := before + [h];
    forall i, j, side | 0 <= i < j < |before| ensures Before(before[i], before[j], side) {
      assert Before(hs[i], hs[j], side);
    }
  }

  /** Without its last operation the script adds one line less, or the same lines. */
  lemma AddedShrinks(added: set<nat>, before: seq<Hunk>, h: Hunk, op: Op)
    requires AddedExactly(added, before + [Grow(h, op)])
    requires Ordered(before + [Grow(h, op)])
    ensures var p := End(h, Right);
      && (op.Add? ==> p in added)
      && AddedExactly(if op.Add? then added - {p} else added, before + [h])
  {
    var hs, more := before + [h], before + [Grow(h, op)];
    var last, at := |before|, End(h, Right);
    assert hs[last] == h && more[last] == Grow(h, op);
    GrownShows(h, op, Right, at);
    var fewer := if op.Add? then added - {at} else added;
    forall p: nat | p in fewer ensures exists i :: 0 <= i < |hs| && Adds(hs[i], p) {
      var i :| 0 <= i < |more| && Adds(more[i], p);
      GrownShows(h, op, Right, p);
      assert Adds(hs[i], p);
    }
    forall i, p: nat | 0 <= i < |hs| && Adds(hs[i], p) ensures p in fewer {
      GrownShows(h, op, Right, p);
      assert Adds(more[i], p);
      AddedIsShown(hs[i], p);
      if op.Add? && p == at {
        if i < last {
          assert Before(more[i], more[last], Right);
          NotShownBefore(hs[i], h, op, Right);
        } else {
          HunkIsContiguous(h, Right, at);
        }
      }
    }
  }

  lemma AddedIsShown(h: Hunk, p: nat)
    requires Adds(h, p)
    ensures Shows(h, Right, p)
  {
    var k :| 0 <= k < |h.ops| && h.ops[k].Add? && Pos(h, k, Right) == p;
    assert h.ops[k].On(Right);
  }

  /** The section the parser is in, whose added lines are counted. */
  function Size(p: Parser): nat
    requires p.current.Some?
  {
    |p.current.value.added|
  }

  /** An operation inside a hunk: an added line is recorded unless it looks like a name. */
  lemma OpIsTaken(p: Parser, op: Op)
    requires p.current.Some? && p.inHunk
    ensures var q := Take(p, OpLine(op));
      && q.current.Some? && q.inHunk && q.files == p.files
      && Size(q) == Size(p) + if op.Add? && !LooksLikeName(op) then 1 else 0
  {
    var line := OpLine(op);
    OpIsCommon(op);
    assert line[0] != '@' && line[0] != 'd' && "@@"[0] == '@' && "diff --git"[0] == 'd';
    assert "+"[0] == '+' && "-"[0] == '-' && "+++ "[0] == '+' && "--- "[0] == '-' && "\\"[0] == '\\';
    if LooksLikeName(op) {
      assert line == "+" + op.text && line[..4] == "+" + op.text[..3];
    }
  }

  lemma {:induction false} HunkIsTaken(p: Parser, h: Hunk, k: nat)
    requires p.current.Some?
    requires k <= |h.ops|
    ensures var q := TakeAll(p, HunkLines(h)[..k + 1]);
      && q.current.Some? && q.inHunk && q.files == p.files
      && Size(q) + NameOps(h.ops[..k]) == Size(p) + AddOps(h.ops[..k])
  {
    var lines := HunkLines(h);
    assert lines[..k + 1][..k] == lines[..k];
    assert TakeAll(p, lines[..k + 1]) == Take(TakeAll(p, lines[..k]), lines[k]);
    if k == 0 {
      HeaderIsCommon(h);
      HeaderRoundTrip(h);
      assert Header(h)[0] == '@';
    } else {
      HunkIsTaken(p, h, k - 1);
      assert h.ops[..k][..k - 1] == h.ops[..k - 1];
      OpIsTaken(TakeAll(p, lines[..k]), h.ops[k - 1]);
    }
  }

  lemma {:induction false} ScriptIsTaken(p: Parser, hs: seq<Hunk>)
    requires p.current.Some?
    ensures var q := TakeAll(p, ScriptLines(hs));
      && q.current.Some? && q.files == p.files
      && Size(q) + TotalNames(hs) == Size(p) + TotalAdds(hs)
  {
    if hs != [] {
      var before, h := hs[..|hs| - 1], hs[|hs| - 1];
      ScriptIsTaken(p, before);
      var q := TakeAll(p, ScriptLines(before));
      HunkIsTaken(q, h, |h.ops|);
      assert h.ops[..|h.ops|] == h.ops && HunkLines(h)[..|h.ops| + 1] == HunkLines(h);
      TakeAllConcat(p, ScriptLines(before), HunkLines(h));
    }
  }

  lemma {:induction false} SetOfSize(lines: seq<nat>)
    ensures |SetOf(lines)| <= |lines|
  {
    if lines != [] {
      var n := |lines| - 1;
      SetOfSize(lines[..n]);
      assert SetOf(lines) == SetOf(lines[..n]) + {lines[n]};
    }
  }

  lemma SameCoverSameLines(a: set<nat>, b: set<nat>)
    requires Cover(a) == Cover(b)
    ensures a == b
  {
    CoverIsCanonical(a);
    CoverIsCanonical(b);
    assert forall n: nat :: n in a <==> Covered(n, Cover(a));
    assert forall n: nat :: n in b <==> Covered(n, Cover(b));
  }

  lemma PatchAddsAll(hs: seq<Hunk>)
    requires Script(hs) && hs != []
    ensures |IndexOf(Patch(hs)).addedLines| == TotalAdds(hs)
  {
    IndexRecoversScript(hs);
    AddedSize(IndexOf(Patch(hs)).addedLines, hs);
  }

  /** The patch adds lines only if the file has a new path to report: a deleted file adds none. */
  predicate Reportable(f: GitFile) { ReadAs(f.newPath) == "" ==> Plain(f) }

  /** The reports that one file adds. */
  lemma FileIsReported(p: Parser, f: GitFile) returns (more: seq<FileDiff>)
    requires WellFormed(f) && Reportable(f)
    ensures Flush(TakeAll(p, GitLines(f))) == Flush(p) + more
    ensures |more| <= |Report(f)|
    ensures more == Report(f) <==> Plain(f)
  {
    if Plain(f) {
      FileIsTaken(p, f);
      more := Report(f);
    } else {
      more := NamedFileIsReported(p, f);
    }
  }

  /** A file with an added line that looks like a name is reported with fewer lines, or not at all. */
  lemma NamedFileIsReported(p: Parser, f: GitFile) returns (more: seq<FileDiff>)
    requires WellFormed(f) && !Plain(f) && ReadAs(f.newPath) != ""
    ensures Flush(TakeAll(p, GitLines(f))) == Flush(p) + more
    ensures |more| <= |Report(f)| && more != Report(f)
  {
    var h :| h in f.hunks && !PlainHunk(h);
    NamedHunkCounts(f.hunks, h);
    var o := Opened(p, f);
    var q := TakeAll(o, ScriptLines(f.hunks));
    FileIsOpened(p, f);
    TakeAllConcat(p, [Command(f)] + f.extended + NameLines(f), ScriptLines(f.hunks));
    ScriptIsTaken(o, f.hunks);
    more := Flush(q)[|Flush(p)|..];
    if more == Report(f) {
      assert more[0].changedRanges == Cover(SetOf(q.current.value.added));
      FewerAreReported(q.current.value.added, f.hunks);
    }
  }

  lemma FewerAreReported(added: seq<nat>, hs: seq<Hunk>)
    requires Script(hs) && hs != [] && |added| < TotalAdds(hs)
    ensures Cover(SetOf(added)) != PatchRanges(Patch(hs))
  {
    PatchAddsAll(hs);
    SetOfSize(added);
    if Cover(SetOf(added)) == Cover(IndexOf(Patch(hs)).addedLines) {
      SameCoverSameLines(SetOf(added), IndexOf(Patch(hs)).addedLines);
    }
  }

  ghost predicate AllPlain(files: seq<GitFile>) { forall f :: f in files ==> Plain(f) }

  /** What the parser makes of the lines of a diff. */
  function Parsed(files: seq<GitFile>): seq<FileDiff> { Flush(TakeAll(BEGIN, DiffLines(files))) }

  lemma OneMoreParsed(files: seq<GitFile>, f: GitFile) returns (more: seq<FileDiff>)
    requires WellFormed(f) && Reportable(f)
    ensures Parsed(files + [f]) == Parsed(files) + more
    ensures |more| <= |Report(f)| && (more == Report(f) <==> Plain(f))
  {
    assert (files + [f])[..|files|] == files;
    TakeAllConcat(BEGIN, DiffLines(files), GitLines(f));
    more := FileIsReported(TakeAll(BEGIN, DiffLines(files)), f);
  }

  lemma OneMoreReport(files: seq<GitFile>, f: GitFile)
    ensures Reports(files + [f]) == Reports(files) + Report(f)
    ensures AllPlain(files + [f]) <==> AllPlain(files) && Plain(f)
  {
    assert (files + [f])[..|files|] == files;
    assert f in files + [f] && forall g :: g in files ==> g in files + [f];
  }

  /** No more is parsed than is reported, and the same exactly if the files are plain. */
  ghost predicate Told(files: seq<GitFile>) {
    |Parsed(files)| <= |Reports(files)| && (Parsed(files) == Reports(files) <==> AllPlain(files))
  }

  ghost predicate AllReportable(files: seq<GitFile>) {
    forall i :: 0 <= i < |files| ==> WellFormed(files[i]) && Reportable(files[i])
  }

  lemma OneMoreTold(files: seq<GitFile>, f: GitFile)
    requires Told(files) && AllReportable([f])
    ensures Told(files + [f])
  {
    assert [f][0] == f;
    var more := OneMoreParsed(files, f);
    OneMoreReport(files, f);
    SameSplit(Parsed(files), more, Reports(files), Report(f));
  }

  lemma NoFilesTold()
    ensures Told([])
  {
  }

  lemma OneReportable(files: seq<GitFile>, n: nat)
    requires n < |files| && AllReportable(files)
    ensures AllReportable([files[n]])
  {
  }

  lemma OneLonger<T>(s: seq<T>, n: nat)
    requires n < |s|
    ensures s[..n + 1] == s[..n] + [s[n]]
  {
  }

  lemma NextTold(files: seq<GitFile>, n: nat)
    requires n < |files| && AllReportable(files) && Told(files[..n])
    ensures Told(files[..n + 1])
  {
    OneReportable(files, n);
    OneMoreTold(files[..n], files[n]);
    OneLonger(files, n);
  }

  lemma {:induction false} FilesAreReported(files: seq<GitFile>, n: nat)
    requires n <= |files| && AllReportable(files)
    ensures Told(files[..n])
  {
    if n == 0 {
      NoFilesTold();
      assert files[..n] == [];
    } else {
      FilesAreReported(files, n - 1);
      NextTold(files, n - 1);
    }
  }

  lemma SameSplit<T>(a: seq<T>, b: seq<T>, x: seq<T>, y: seq<T>)
    requires |a| <= |x| && |b| <= |y|
    ensures a + b == x + y <==> a == x && b == y
  {
    if a + b == x + y {
      assert |a| == |x|;
      assert a == (a + b)[..|a|] && x == (x + y)[..|x|];
      assert b == (a + b)[|a|..] && y == (x + y)[|x|..];
    }
  }

  /**
   * On any diff the extractors agree if and only if no added line of any file begins with "++ ": such a line is
   * read as a file name, is not recorded, and the cover of its file then misses a line.
   */
  lemma ExtractorsAgreeExactly(files: seq<GitFile>)
    requires AllReportable(files)
    ensures FilesOf(GitDiff(files)) == Reports(files) <==> AllPlain(files)
  {
    assert forall f :: f in files ==> WellFormed(f);
    DiffIsSplit(files);
    FilesAreReported(files, |files|);
    assert files[..|files|] == files;
  }
}
