/**
 * Hosted reviews of one pull request. Jobs for different heads run at the same
 * time; each reviews only what changed since the head it found stored, or
 * everything when the comparison is unavailable, and then stores its own head.
 *
 * The base commit is fixed. A comparison, when it is available, names exactly
 * the paths whose content differs, and the file list is that of the job's head.
 */
module HostedReview {
  import opened Text

  type Sha = nat
  type Path = nat
  type Content = nat

  /** The files of every commit; a path missing from a tree is absent there. */
  type Trees = Sha -> map<Path, Content>

  function At(trees: Trees, sha: Sha, path: Path): Option<Content> {
    if path in trees(sha) then Some(trees(sha)[path]) else None
  }

  function Changed(trees: Trees, a: Sha, b: Sha): set<Path> {
    set p | p in trees(a).Keys + trees(b).Keys && At(trees, a, p) != At(trees, b, p)
  }

  datatype Entry = Entry(path: Path, content: Option<Content>)

  datatype Phase =
    | Queued
    | HeadCurrent
    | StateRead(seen: Option<Sha>)
    | Locked(seen: Option<Sha>)
    | Compared(onlyPaths: Option<set<Path>>)
    | Offered
    | Finished

  datatype Job = Job(head: Sha, phase: Phase)

  /** `offered` and `reviewed` are history: what was put up for review, and what was not skipped then. */
  datatype State = State(
    base: Sha,
    prHead: Sha,
    stored: Option<Sha>,
    locks: set<Sha>,
    jobs: map<nat, Job>,
    offered: set<Entry>,
    reviewed: set<Entry>)

  datatype Event =
    | CheckHead
    | ReadState
    | TakeLock
    | Compare(available: bool)
    | Review(skipped: set<Path>)     // ignored, too large, unreadable or over budget this time
    | Store
    | Fail                           // any error or exhausted budget after the lock

  datatype Step = Push(sha: Sha) | Submit(j: nat, sha: Sha) | Does(job: nat, event: Event)

  ghost predicate Initial(s: State) {
    s.stored == None && s.locks == {} && s.jobs == map[] && s.offered == {} && s.reviewed == {}
  }

  predicate InLock(p: Phase) { p.Locked? || p.Compared? || p.Offered? }

  predicate Enabled(s: State, step: Step) {
    match step
    case Push(_) => true
    case Submit(j, _) => j !in s.jobs
    case Does(j, event) =>
      j in s.jobs &&
      var p := s.jobs[j].phase;
      match event
      case CheckHead => p.Queued?
      case ReadState => p.HeadCurrent?
      case TakeLock => p.StateRead?
      case Compare(_) => p.Locked?
      case Review(_) => p.Compared?
      case Store => p.Offered?
      case Fail => InLock(p)
  }

  function To(s: State, j: nat, phase: Phase): State
    requires j in s.jobs
  {
    s.(jobs := s.jobs[j := s.jobs[j].(phase := phase)])
  }

  /** The files a job puts up for review: the pull request's, cut down to the changed ones on an incremental run. */
  function Files(trees: Trees, base: Sha, head: Sha, onlyPaths: Option<set<Path>>): set<Path> {
    set p | p in Changed(trees, base, head) && (onlyPaths == None || p in onlyPaths.value)
  }

  function Entries(trees: Trees, head: Sha, paths: set<Path>): set<Entry> {
    set p | p in paths :: Entry(p, At(trees, head, p))
  }

  function Apply(trees: Trees, s: State, step: Step): State
    requires Enabled(s, step)
  {
    match step
    case Push(sha) => s.(prHead := sha)
    case Submit(j, sha) => s.(jobs := s.jobs[j := Job(sha, Queued)])
    case Does(j, event) =>
      var job := s.jobs[j];
      match event
      case CheckHead => To(s, j, if s.prHead == job.head then HeadCurrent else Finished)
      case ReadState => To(s, j, if s.stored == Some(job.head) then Finished else StateRead(s.stored))
      case TakeLock =>
        if job.head in s.locks then To(s, j, Finished)
        else To(s, j, Locked(job.phase.seen)).(locks := s.locks + {job.head})
      case Compare(available) =>
        To(s, j, Compared(
          if job.phase.seen != None && available
          then Some(Changed(trees, job.phase.seen.value, job.head))
          else None))
      case Review(skipped) =>
        var files := Files(trees, s.base, job.head, job.phase.onlyPaths);
        To(s, j, Offered).(
          offered := s.offered + Entries(trees, job.head, files),
          reviewed := s.reviewed + Entries(trees, job.head, files - skipped))
      case Store => To(s, j, Finished).(stored := Some(job.head), locks := s.locks - {job.head})
      case Fail => To(s, j, Finished).(locks := s.locks - {job.head})
  }

  ghost predicate Run(trees: Trees, s: State, steps: seq<Step>)
    decreases |steps|
  {
    steps == [] || (Enabled(s, steps[0]) && Run(trees, Apply(trees, s, steps[0]), steps[1..]))
  }

  ghost function After(trees: Trees, s: State, steps: seq<Step>): State
    requires Run(trees, s, steps)
    decreases |steps|
  {
    if steps == [] then s else After(trees, Apply(trees, s, steps[0]), steps[1..])
  }

  /******* One job for a head *******/

  /** What a job checks before it works: its head is current, was not reviewed yet, and nobody is reviewing it. */
  lemma ChecksTold(trees: Trees, s: State, j: nat, event: Event)
    requires Enabled(s, Does(j, event))
    ensures var job, after := s.jobs[j], Apply(trees, s, Does(j, event)).jobs[j];
      && (event.CheckHead? ==> (after.phase.Finished? <==> s.prHead != job.head))
      && (event.ReadState? ==> (after.phase.Finished? <==> s.stored == Some(job.head)))
      && (event.ReadState? && !after.phase.Finished? ==> after.phase == StateRead(s.stored))
      && (event.TakeLock? ==> (after.phase.Finished? <==> job.head in s.locks))
      && (event.Store? || event.Fail? ==> after.phase.Finished?)
      && (event.Store? ==> Apply(trees, s, Does(j, event)).stored == Some(job.head))
      && (!event.Store? ==> Apply(trees, s, Does(j, event)).stored == s.stored)
      && after.head == job.head
  {
  }

  /** A job compares with the head it found stored, if there is one and the comparison is available. */
  lemma CompareTold(trees: Trees, s: State, j: nat, available: bool)
    requires Enabled(s, Does(j, Compare(available)))
    ensures var job, phase := s.jobs[j], Apply(trees, s, Does(j, Compare(available))).jobs[j].phase;
      && phase.Compared?
      && (phase.onlyPaths.Some? <==> available && job.phase.seen.Some?)
      && (phase.onlyPaths.Some? ==>
            forall p :: p in phase.onlyPaths.value <==> At(trees, job.phase.seen.value, p) != At(trees, job.head, p))
  {
  }

  /** It offers what differs from base, and on an incremental run also from that head; and reviews what it can. */
  lemma ReviewTold(trees: Trees, s: State, j: nat, skipped: set<Path>, e: Entry)
    requires Enabled(s, Does(j, Review(skipped)))
    ensures var job, t := s.jobs[j], Apply(trees, s, Does(j, Review(skipped)));
      var shown :=
        && At(trees, s.base, e.path) != At(trees, job.head, e.path) && e.content == At(trees, job.head, e.path)
        && (job.phase.onlyPaths == None || e.path in job.phase.onlyPaths.value);
      && (e in t.offered <==> e in s.offered || shown)
      && (e in t.reviewed <==> e in s.reviewed || (shown && e.path !in skipped))
  {
  }

  /** The locks are those of the jobs in them, one job for each head. */
  ghost predicate LocksAreHeld(s: State) { HoldersApart(s) && forall head :: head in s.locks ==> HasHolder(s, head) }

  ghost predicate HoldersApart(s: State) {
    && (forall j :: j in s.jobs && InLock(s.jobs[j].phase) ==> s.jobs[j].head in s.locks)
    && (forall j, k :: j in s.jobs && k in s.jobs && j != k && InLock(s.jobs[j].phase) && InLock(s.jobs[k].phase) ==>
          s.jobs[j].head != s.jobs[k].head)
  }

  ghost predicate HasHolder(s: State, head: Sha) {
    exists j :: j in s.jobs && InLock(s.jobs[j].phase) && s.jobs[j].head == head
  }

  lemma StepKeepsHolders(trees: Trees, s: State, step: Step)
    requires Enabled(s, step) && HoldersApart(s)
    ensures HoldersApart(Apply(trees, s, step))
  {
  }

  lemma StepKeepsLocks(trees: Trees, s: State, step: Step)
    requires Enabled(s, step) && LocksAreHeld(s)
    ensures LocksAreHeld(Apply(trees, s, step))
  {
    StepKeepsHolders(trees, s, step);
    var t := Apply(trees, s, step);
    forall head | head in t.locks ensures HasHolder(t, head) {
      if head in s.locks {
        var j :| j in s.jobs && InLock(s.jobs[j].phase) && s.jobs[j].head == head;
        assert j in t.jobs && InLock(t.jobs[j].phase) && t.jobs[j].head == head;
      } else {
        assert InLock(t.jobs[step.job].phase);
      }
    }
  }

  lemma {:induction false} RunKeepsLocks(trees: Trees, s: State, steps: seq<Step>)
    requires Run(trees, s, steps) && LocksAreHeld(s)
    ensures LocksAreHeld(After(trees, s, steps))
    decreases |steps|
  {
    if steps != [] {
      StepKeepsLocks(trees, s, steps[0]);
      RunKeepsLocks(trees, Apply(trees, s, steps[0]), steps[1..]);
    }
  }

  /** Over any interleaving at most one job reviews a head at a time, and a lock is there exactly while one does. */
  lemma OneJobPerHead(trees: Trees, init: State, steps: seq<Step>)
    requires Initial(init) && Run(trees, init, steps)
    ensures LocksAreHeld(After(trees, init, steps))
  {
    RunKeepsLocks(trees, init, steps);
  }

  /******* Coverage *******/

  /** Everything that differs from base at `sha` is among the entries with exactly its content there. */
  ghost predicate Covered(trees: Trees, base: Sha, sha: Sha, entries: set<Entry>) {
    forall p :: p in Changed(trees, base, sha) ==> Entry(p, At(trees, sha, p)) in entries
  }

  ghost predicate JobCovered(trees: Trees, s: State, job: Job) {
    match job.phase
    case StateRead(seen) => seen != None ==> Covered(trees, s.base, seen.value, s.offered)
    case Locked(seen) => seen != None ==> Covered(trees, s.base, seen.value, s.offered)
    case Compared(onlyPaths) =>
      forall p :: p in Changed(trees, s.base, job.head) && onlyPaths != None && p !in onlyPaths.value ==>
        Entry(p, At(trees, job.head, p)) in s.offered
    case Offered => Covered(trees, s.base, job.head, s.offered)
    case _ => true
  }

  ghost predicate Coverage(trees: Trees, s: State) {
    && (s.stored != None ==> Covered(trees, s.base, s.stored.value, s.offered))
    && (forall j :: j in s.jobs ==> JobCovered(trees, s, s.jobs[j]))
  }

  /** A path outside the comparison has at the new head the content it had at the old one. */
  lemma UnchangedStaysCovered(trees: Trees, base: Sha, seen: Sha, head: Sha, entries: set<Entry>, p: Path)
    requires Covered(trees, base, seen, entries)
    requires p in Changed(trees, base, head) && p !in Changed(trees, seen, head)
    ensures Entry(p, At(trees, head, p)) in entries
  {
    assert At(trees, seen, p) == At(trees, head, p);
    assert p in Changed(trees, base, seen);
  }

  lemma CompareCovers(trees: Trees, s: State, j: nat, available: bool)
    requires Coverage(trees, s) && Enabled(s, Does(j, Compare(available)))
    ensures JobCovered(trees, s, Apply(trees, s, Does(j, Compare(available))).jobs[j])
  {
    var job := s.jobs[j];
    assert JobCovered(trees, s, job);
    if job.phase.seen != None && available {
      forall p | p in Changed(trees, s.base, job.head) && p !in Changed(trees, job.phase.seen.value, job.head)
        ensures Entry(p, At(trees, job.head, p)) in s.offered
      {
        UnchangedStaysCovered(trees, s.base, job.phase.seen.value, job.head, s.offered, p);
      }
    }
  }

  lemma ReviewCovers(trees: Trees, s: State, j: nat, skipped: set<Path>)
    requires Coverage(trees, s) && Enabled(s, Does(j, Review(skipped)))
    ensures Covered(trees, s.base, s.jobs[j].head, Apply(trees, s, Does(j, Review(skipped))).offered)
  {
    var job := s.jobs[j];
    assert JobCovered(trees, s, job);
    var offered := Apply(trees, s, Does(j, Review(skipped))).offered;
    forall p | p in Changed(trees, s.base, job.head) ensures Entry(p, At(trees, job.head, p)) in offered {
      if p in Files(trees, s.base, job.head, job.phase.onlyPaths) {
        assert Entry(p, At(trees, job.head, p)) in
               Entries(trees, job.head, Files(trees, s.base, job.head, job.phase.onlyPaths));
      }
    }
  }

  lemma StepKeepsCoverage(trees: Trees, s: State, step: Step)
    requires Enabled(s, step) && Coverage(trees, s)
    ensures Coverage(trees, Apply(trees, s, step))
  {
    var t := Apply(trees, s, step);
    if step.Does? && step.event.Review? {
      ReviewCovers(trees, s, step.job, step.event.skipped);
    }
    if step.Does? && step.event.Compare? {
      CompareCovers(trees, s, step.job, step.event.available);
    }
    forall j | j in t.jobs ensures JobCovered(trees, t, t.jobs[j]) {
      assert j in s.jobs ==> JobCovered(trees, s, s.jobs[j]);
    }
    if step.Does? {
      assert JobCovered(trees, s, s.jobs[step.job]);
    }
  }

  lemma {:induction false} RunKeepsCoverage(trees: Trees, s: State, steps: seq<Step>)
    requires Run(trees, s, steps) && Coverage(trees, s)
    ensures Coverage(trees, After(trees, s, steps)) && After(trees, s, steps).base == s.base
    decreases |steps|
  {
    if steps != [] {
      StepKeepsCoverage(trees, s, steps[0]);
      RunKeepsCoverage(trees, Apply(trees, s, steps[0]), steps[1..]);
    }
  }

  /**
   * Over any interleaving of jobs, pushes, skips, failures and unavailable
   * comparisons: every path that differs from base at the stored head has been
   * put up for review with exactly the content it has there.
   */
  lemma IncrementalReviewCoversEverything(trees: Trees, init: State, steps: seq<Step>)
    requires Initial(init) && Run(trees, init, steps)
    requires After(trees, init, steps).stored != None
    ensures var s := After(trees, init, steps);
            Covered(trees, init.base, s.stored.value, s.offered)
  {
    RunKeepsCoverage(trees, init, steps);
  }

  /******* What is put up need not be looked at *******/

  /** The step puts the entry up: a job reviews a file list that has the path, at a head with that content. */
  predicate Offers(trees: Trees, s: State, step: Step, e: Entry)
    requires Enabled(s, step)
  {
    step.Does? && step.event.Review? &&
    var job := s.jobs[step.job];
    e.path in Files(trees, s.base, job.head, job.phase.onlyPaths) && e.content == At(trees, job.head, e.path)
  }

  /** Some step of the run puts the entry up. */
  ghost predicate EverOffered(trees: Trees, s: State, steps: seq<Step>, e: Entry)
    requires Run(trees, s, steps)
    decreases |steps|
  {
    steps != [] && (Offers(trees, s, steps[0], e) || EverOffered(trees, Apply(trees, s, steps[0]), steps[1..], e))
  }

  /** Every step that puts the entry up skips its path that time. */
  ghost predicate AlwaysSkipped(trees: Trees, s: State, steps: seq<Step>, e: Entry)
    requires Run(trees, s, steps)
    decreases |steps|
  {
    steps != [] ==>
      && (Offers(trees, s, steps[0], e) ==> e.path in steps[0].event.skipped)
      && AlwaysSkipped(trees, Apply(trees, s, steps[0]), steps[1..], e)
  }

  /** The history of a run, told by its steps. */
  lemma {:induction false} HistoryFollowsSteps(trees: Trees, s: State, steps: seq<Step>, e: Entry)
    requires Run(trees, s, steps)
    ensures e in After(trees, s, steps).offered <==> e in s.offered || EverOffered(trees, s, steps, e)
    ensures e in After(trees, s, steps).reviewed <==> e in s.reviewed || !AlwaysSkipped(trees, s, steps, e)
    decreases |steps|
  {
    if steps != [] {
      HistoryFollowsSteps(trees, Apply(trees, s, steps[0]), steps[1..], e);
    }
  }

  /**
   * What differs from base at the stored head was put up with exactly its content there, and it was reviewed
   * with that content if and only if not every step that put it up skipped it.
   */
  lemma ReviewedUnlessSkipped(trees: Trees, init: State, steps: seq<Step>, path: Path)
    requires Initial(init) && Run(trees, init, steps)
    requires var s := After(trees, init, steps);
             s.stored != None && path in Changed(trees, init.base, s.stored.value)
    ensures var s := After(trees, init, steps);
            var e := Entry(path, At(trees, s.stored.value, path));
            && EverOffered(trees, init, steps, e)
            && (e in s.reviewed <==> !AlwaysSkipped(trees, init, steps, e))
  {
    var s := After(trees, init, steps);
    IncrementalReviewCoversEverything(trees, init, steps);
    HistoryFollowsSteps(trees, init, steps, Entry(path, At(trees, s.stored.value, path)));
  }

  /** No run skips the path: a condition on the steps alone. */
  ghost predicate NeverSkips(steps: seq<Step>, path: Path) {
    forall step :: step in steps && step.Does? && step.event.Review? ==> path !in step.event.skipped
  }

  /** In particular a path that no step skips was reviewed. */
  lemma {:induction false} NeverSkippedIsReviewed(trees: Trees, s: State, steps: seq<Step>, e: Entry)
    requires Run(trees, s, steps) && NeverSkips(steps, e.path)
    ensures EverOffered(trees, s, steps, e) <==> !AlwaysSkipped(trees, s, steps, e)
    decreases |steps|
  {
    if steps != [] {
      NeverSkippedIsReviewed(trees, Apply(trees, s, steps[0]), steps[1..], e);
    }
  }

  ghost predicate Reaches(trees: Trees, s: State, t: State) {
    exists steps :: Run(trees, s, steps) && After(trees, s, steps) == t
  }

  lemma {:induction false} RunThenStep(trees: Trees, s: State, steps: seq<Step>, step: Step)
    requires Run(trees, s, steps) && Enabled(After(trees, s, steps), step)
    ensures Run(trees, s, steps + [step])
    ensures After(trees, s, steps + [step]) == Apply(trees, After(trees, s, steps), step)
    decreases |steps|
  {
    if steps == [] {
      assert steps + [step] == [step];
      assert Run(trees, Apply(trees, s, step), []);
    } else {
      assert (steps + [step])[1..] == steps[1..] + [step];
      RunThenStep(trees, Apply(trees, s, steps[0]), steps[1..], step);
    }
  }

  lemma Extend(trees: Trees, s: State, t: State, step: Step) returns (u: State)
    requires Reaches(trees, s, t) && Enabled(t, step)
    ensures u == Apply(trees, t, step) && Reaches(trees, s, u)
  {
    u := Apply(trees, t, step);
    var steps :| Run(trees, s, steps) && After(trees, s, steps) == t;
    RunThenStep(trees, s, steps, step);
  }

  /** One whole job for `head` on an otherwise idle pull request. */
  lemma WholeJob(trees: Trees, init: State, start: State, j: nat, head: Sha, skipped: set<Path>) returns (s: State)
    requires Reaches(trees, init, start) && j !in start.jobs && start.locks == {} && start.stored != Some(head)
    ensures Reaches(trees, init, s)
    ensures var only := if start.stored == None then None else Some(Changed(trees, start.stored.value, head));
            var files := Files(trees, start.base, head, only);
            && s.base == start.base && s.locks == {} && s.stored == Some(head)
            && s.jobs.Keys == start.jobs.Keys + {j}
            && s.reviewed == start.reviewed + Entries(trees, head, files - skipped)
  {
    s := Extend(trees, init, start, Push(head));
    s := Extend(trees, init, s, Submit(j, head));
    s := Extend(trees, init, s, Does(j, CheckHead));
    s := Extend(trees, init, s, Does(j, ReadState));
    s := Extend(trees, init, s, Does(j, TakeLock));
    s := Extend(trees, init, s, Does(j, Compare(true)));
    s := Extend(trees, init, s, Does(j, Review(skipped)));
    s := Extend(trees, init, s, Does(j, Store));
  }

  /** Base has no files; both later heads have the same file 7, and head 2 also has a file 8. */
  function SampleTrees(sha: Sha): map<Path, Content> {
    if sha == 0 then map[] else if sha == 1 then map[7 := 70] else map[7 := 70, 8 := 80]
  }

  /**
   * A file that is skipped once, say because its content could not be fetched,
   * is not looked at again: the head is stored all the same, and later
   * incremental runs leave the unchanged file out even when they skip nothing.
   */
  lemma SkippedOnceNeverReviewed()
    ensures exists init, s ::
              && Initial(init) && Reaches(SampleTrees, init, s) && s.stored == Some(2)
              && 7 in Changed(SampleTrees, init.base, 2)
              && Entry(7, At(SampleTrees, 2, 7)) !in s.reviewed
              && Entry(8, At(SampleTrees, 2, 8)) in s.reviewed
  {
    var init := State(0, 0, None, {}, map[], {}, {});
    assert Run(SampleTrees, init, []) && After(SampleTrees, init, []) == init;
    var s1 := WholeJob(SampleTrees, init, init, 0, 1, {7});
    var s2 := WholeJob(SampleTrees, init, s1, 1, 2, {});
    assert Changed(SampleTrees, 1, 2) == {8};
    assert Changed(SampleTrees, 0, 2) == {7, 8};
    assert Files(SampleTrees, 0, 2, Some({8})) == {8};
    assert Entry(8, Some(80)) in Entries(SampleTrees, 2, {8});
  }
}
