/**
 * The context of a hosted review (src/queue/review-context.ts): files are classified, fetched by a pool of
 * workers that share one counter, and cut to the token budget.
 */
module HostedContext {
  import opened Text
  import opened Budget

  const BYTES_PER_TOKEN: nat := 4

  /** Bytes to tokens, rounded up. */
  function EstimateTokens(bytes: nat): nat { (bytes + BYTES_PER_TOKEN - 1) / BYTES_PER_TOKEN }

  datatype Skip = Deleted | Ignored | TooLarge | Unreadable | OverBudget

  /** The content is its bytes; a file that is skipped, or has no content, is no candidate. */
  datatype ReviewFile = ReviewFile(path: string, skipped: Option<Skip>, content: Option<string>)

  function Cost(file: ReviewFile): Option<nat> {
    if file.skipped.Some? || file.content.None? then None else Some(EstimateTokens(|file.content.value|))
  }

  function CostsOf(files: seq<ReviewFile>): (items: seq<Option<nat>>)
    ensures |items| == |files|
    ensures forall i :: 0 <= i < |items| ==> items[i] == Cost(files[i])
  {
    seq(|files|, i requires 0 <= i < |files| => Cost(files[i]))
  }

  /** What the pass leaves of a file, given whether it was taken. */
  function Kept(file: ReviewFile, taken: bool): ReviewFile {
    if Cost(file).Some? && !taken then file.(skipped := Some(OverBudget), content := None) else file
  }

  predicate Reviewable(file: ReviewFile) { file.skipped.None? && file.content.Some? }

  method EnforceBudget(files: array<ReviewFile>, maxContextTokens: nat)
    modifies files
    ensures var before := old(files[..]);
      var picks := Greedy(CostsOf(before), maxContextTokens);
      forall i :: 0 <= i < files.Length ==> files[i] == Kept(before[i], picks[i])
  {
    var remainingTokens := maxContextTokens;
    ghost var before := files[..];
    ghost var items := CostsOf(before);
    ghost var picks := Greedy(items, maxContextTokens);
    for i := 0 to files.Length
      invariant remainingTokens >= 0
      invariant remainingTokens == maxContextTokens - Spent(items[..i], picks[..i])
      invariant forall k :: 0 <= k < i ==> files[k] == Kept(before[k], picks[k])
      invariant forall k :: i <= k < files.Length ==> files[k] == before[k]
    {
      NextPick(items, maxContextTokens, i);
      SpentNext(items, picks, i);
      var file := files[i];
      if file.skipped.Some? || file.content.None? {
        continue;
      }
      var tokens := EstimateTokens(|file.content.value|);
      if tokens > remainingTokens {
        files[i] := file.(skipped := Some(OverBudget), content := None);
        continue;
      }
      remainingTokens := remainingTokens - tokens;
    }
  }

  /**
   * After the pass the reviewable files are the candidates that were taken: they keep their content and fit
   * the budget together, and no file that lost its content would fit in what remains.
   */
  lemma ReviewableFitTheBudget(before: seq<ReviewFile>, maxContextTokens: nat, i: nat)
    requires i < |before|
    ensures var items := CostsOf(before);
      var picks := Greedy(items, maxContextTokens);
      && Spent(items, picks) <= maxContextTokens
      && (Reviewable(Kept(before[i], picks[i])) <==> picks[i])
      && (picks[i] ==> Kept(before[i], picks[i]) == before[i])
      && (Reviewable(before[i]) && !picks[i] ==>
          EstimateTokens(|before[i].content.value|) > maxContextTokens - Spent(items, picks))
  {
    var items := CostsOf(before);
    if Reviewable(before[i]) && !Greedy(items, maxContextTokens)[i] {
      GreedyIsTight(items, maxContextTokens, i);
    }
  }

  /** An estimate covers the bytes, and no smaller number of tokens would. */
  lemma EstimateCovers(bytes: nat)
    ensures EstimateTokens(bytes) * BYTES_PER_TOKEN >= bytes
    ensures forall tokens: nat :: tokens * BYTES_PER_TOKEN >= bytes ==> tokens >= EstimateTokens(bytes)
  {
  }

  /******* The worker pool *******/

  const CONTENT_FETCH_CONCURRENCY: nat := 5

  /** What fetching a file comes to; a fetch that throws counts as a missing file. */
  datatype Fetched = Content(bytes: string) | Missing | Throws

  /** What a task makes of its entry. */
  function Loaded(file: ReviewFile, fetched: Fetched, maxBytes: nat): ReviewFile {
    match fetched
    case Content(bytes) =>
      if |bytes| > maxBytes then file.(skipped := Some(TooLarge)) else file.(content := Some(bytes))
    case _ => file.(skipped := Some(Unreadable))
  }

  /** The entries to work on, where they stand in the list, and what each fetch will come to. */
  datatype Job = Job(entries: seq<ReviewFile>, targets: seq<nat>, fetched: seq<Fetched>, maxBytes: nat, limit: nat)

  predicate ValidJob(job: Job) {
    && |job.fetched| == |job.targets| && job.limit > 0
    && (forall k :: 0 <= k < |job.targets| ==> job.targets[k] < |job.entries|)
    && (forall k, l :: 0 <= k < l < |job.targets| ==> job.targets[k] != job.targets[l])
  }

  /** A worker is before the test of its loop, waits for a fetch, or has left its loop. */
  datatype Worker = Ready | Fetching(item: nat) | Finished

  datatype Pool = Pool(next: nat, workers: seq<Worker>, entries: seq<ReviewFile>, started: seq<nat>)

  function Start(job: Job): Pool {
    var count := if job.limit < |job.targets| then job.limit else |job.targets|;
    Pool(0, seq(count, _ => Ready), job.entries, seq(|job.targets|, _ => 0))
  }

  predicate Enabled(p: Pool, w: nat) { w < |p.workers| && p.workers[w] != Finished }

  predicate Fits(job: Job, p: Pool) {
    && |p.entries| == |job.entries| && |p.started| == |job.targets|
    && forall w :: 0 <= w < |p.workers| && p.workers[w].Fetching? ==> p.workers[w].item < |job.targets|
  }

  /** Up to its next wait a worker is not interrupted: it takes the next item, leaves, or finishes its task. */
  function Step(job: Job, p: Pool, w: nat): Pool
    requires ValidJob(job)
  {
    if !Enabled(p, w) || !Fits(job, p) then p
    else
      match p.workers[w]
      case Ready =>
        if p.next < |job.targets| then
          Pool(p.next + 1, p.workers[w := Fetching(p.next)], p.entries, p.started[p.next := p.started[p.next] + 1])
        else p.(workers := p.workers[w := Finished])
      case Fetching(item) =>
        var at := job.targets[item];
        p.(workers := p.workers[w := Ready],
           entries := p.entries[at := Loaded(p.entries[at], job.fetched[item], job.maxBytes)])
      case Finished => p
  }

  /** The pool after a schedule, which says which worker moves next. */
  function After(job: Job, schedule: seq<nat>): Pool
    requires ValidJob(job)
  {
    if schedule == [] then Start(job) else Step(job, After(job, schedule[..|schedule| - 1]), schedule[|schedule| - 1])
  }

  /** Every worker that is scheduled can move. */
  predicate Live(job: Job, schedule: seq<nat>)
    requires ValidJob(job)
  {
    schedule != [] ==>
      Live(job, schedule[..|schedule| - 1]) && Enabled(After(job, schedule[..|schedule| - 1]), schedule[|schedule| - 1])
  }

  predicate Done(p: Pool) { forall w :: 0 <= w < |p.workers| ==> p.workers[w].Finished? }

  /** Somebody is fetching the item. */
  predicate InFlight(p: Pool, item: nat) {
    exists w :: 0 <= w < |p.workers| && p.workers[w] == Fetching(item)
  }

  /** Items below the counter were started once and the others never, and no item is fetched by two workers. */
  ghost predicate Counted(job: Job, p: Pool) {
    && Fits(job, p)
    && p.next <= |job.targets|
    && |p.workers| == |Start(job).workers|
    && (forall k :: 0 <= k < |job.targets| ==> p.started[k] == if k < p.next then 1 else 0)
    && (forall w :: 0 <= w < |p.workers| && p.workers[w].Fetching? ==> p.workers[w].item < p.next)
    && (forall v, w :: 0 <= v < w < |p.workers| && p.workers[v].Fetching? ==> p.workers[v] != p.workers[w])
    && (forall w :: 0 <= w < |p.workers| && p.workers[w].Finished? ==> p.next == |job.targets|)
  }

  /** An entry is loaded exactly when its fetch is over; the other entries are as they were. */
  ghost predicate LoadedSoFar(job: Job, p: Pool)
    requires ValidJob(job) && Fits(job, p)
  {
    && (forall k :: 0 <= k < |job.targets| ==>
          p.entries[job.targets[k]] ==
            if k < p.next && !InFlight(p, k) then Loaded(job.entries[job.targets[k]], job.fetched[k], job.maxBytes)
            else job.entries[job.targets[k]])
    && (forall i :: 0 <= i < |job.entries| && i !in job.targets ==> p.entries[i] == job.entries[i])
  }

  lemma StartIsCounted(job: Job)
    requires ValidJob(job)
    ensures Counted(job, Start(job)) && LoadedSoFar(job, Start(job))
  {
  }

  lemma StepCounts(job: Job, p: Pool, w: nat)
    requires ValidJob(job) && Counted(job, p)
    ensures Counted(job, Step(job, p, w))
  {
  }

  lemma StepLoads(job: Job, p: Pool, w: nat)
    requires ValidJob(job) && Counted(job, p) && LoadedSoFar(job, p)
    ensures Fits(job, Step(job, p, w)) && LoadedSoFar(job, Step(job, p, w))
  {
    var q := Step(job, p, w);
    if Enabled(p, w) {
      match p.workers[w]
      case Ready =>
        forall k | 0 <= k < |job.targets|
          ensures InFlight(q, k) <==> InFlight(p, k) || (k == p.next && p.next < |job.targets|)
        {
          TurnInFlight(p, q, w, k);
        }
      case Fetching(item) =>
        forall k | 0 <= k < |job.targets| ensures InFlight(q, k) <==> InFlight(p, k) && k != item {
          TurnInFlight(p, q, w, k);
        }
      case Finished =>
    }
  }

  /** Another worker's item stays in flight. */
  lemma TurnInFlight(p: Pool, q: Pool, w: nat, k: nat)
    requires w < |p.workers| == |q.workers|
    requires q.workers == p.workers[w := q.workers[w]]
    requires forall u, v :: 0 <= u < v < |p.workers| && p.workers[u].Fetching? ==> p.workers[u] != p.workers[v]
    ensures InFlight(q, k) <==> q.workers[w] == Fetching(k) || (InFlight(p, k) && p.workers[w] != Fetching(k))
  {
    if v :| 0 <= v < |p.workers| && p.workers[v] == Fetching(k) && v != w {
      assert q.workers[v] == Fetching(k);
    }
    if v :| 0 <= v < |q.workers| && q.workers[v] == Fetching(k) && v != w {
      assert p.workers[v] == Fetching(k);
    }
  }

  lemma {:induction false} PoolIsCounted(job: Job, schedule: seq<nat>)
    requires ValidJob(job)
    ensures Counted(job, After(job, schedule)) && LoadedSoFar(job, After(job, schedule))
  {
    if schedule == [] {
      StartIsCounted(job);
    } else {
      var n := |schedule| - 1;
      PoolIsCounted(job, schedule[..n]);
      StepCounts(job, After(job, schedule[..n]), schedule[n]);
      StepLoads(job, After(job, schedule[..n]), schedule[n]);
    }
  }

  /******* Every schedule ends, in the same result *******/

  function Moves(worker: Worker): nat {
    match worker
    case Ready => 1
    case Fetching(_) => 2
    case Finished => 0
  }

  function TotalMoves(workers: seq<Worker>): nat {
    if workers == [] then 0 else TotalMoves(workers[..|workers| - 1]) + Moves(workers[|workers| - 1])
  }

  /** The number of steps that are left. */
  function Left(job: Job, p: Pool): int { 2 * (|job.targets| - p.next) + TotalMoves(p.workers) }

  lemma {:induction false} OneWorkerMoves(workers: seq<Worker>, w: nat, worker: Worker)
    requires w < |workers|
    ensures TotalMoves(workers[w := worker]) == TotalMoves(workers) - Moves(workers[w]) + Moves(worker)
  {
    var n := |workers| - 1;
    if w < n {
      OneWorkerMoves(workers[..n], w, worker);
      assert workers[w := worker][..n] == workers[..n][w := worker];
    } else {
      assert workers[w := worker][..n] == workers[..n];
    }
  }

  lemma {:induction false} FinishedMoves(workers: seq<Worker>)
    ensures TotalMoves(workers) == 0 <==> forall w :: 0 <= w < |workers| ==> workers[w].Finished?
  {
    if workers != [] {
      FinishedMoves(workers[..|workers| - 1]);
    }
  }

  lemma {:induction false} ReadyMoves(n: nat)
    ensures TotalMoves(seq(n, _ => Ready)) == n
  {
    if n > 0 {
      ReadyMoves(n - 1);
      assert seq(n, _ => Ready)[..n - 1] == seq(n - 1, _ => Ready);
    }
  }

  lemma {:induction false} StepsAreCounted(job: Job, schedule: seq<nat>)
    requires ValidJob(job) && Live(job, schedule)
    ensures Left(job, After(job, schedule)) + |schedule| == 2 * |job.targets| + |Start(job).workers|
  {
    if schedule == [] {
      ReadyMoves(|Start(job).workers|);
      assert Start(job).workers == seq(|Start(job).workers|, _ => Ready);
    } else {
      var n, w := |schedule| - 1, schedule[|schedule| - 1];
      var p := After(job, schedule[..n]);
      StepsAreCounted(job, schedule[..n]);
      PoolIsCounted(job, schedule[..n]);
      OneWorkerMoves(p.workers, w, Step(job, p, w).workers[w]);
    }
  }

  /**
   * The pool terminates and cannot get stuck: a schedule can go on unless every worker has left, and then it
   * has exactly two steps for each item and one for each worker. There are as many workers as items, up to the
   * limit.
   */
  lemma PoolTerminates(job: Job, schedule: seq<nat>)
    requires ValidJob(job) && Live(job, schedule)
    ensures var p := After(job, schedule);
      && |p.workers| == (if job.limit < |job.targets| then job.limit else |job.targets|)
      && |schedule| <= 2 * |job.targets| + |p.workers|
      && (Done(p) <==> |schedule| == 2 * |job.targets| + |p.workers|)
      && (!Done(p) <==> exists w :: Live(job, schedule + [w]))
  {
    var p := After(job, schedule);
    PoolIsCounted(job, schedule);
    StepsAreCounted(job, schedule);
    FinishedMoves(p.workers);
    forall w: nat ensures Live(job, schedule + [w]) <==> Enabled(p, w) {
      assert (schedule + [w])[..|schedule|] == schedule;
    }
    if !Done(p) {
      var w: nat :| w < |p.workers| && !p.workers[w].Finished?;
      assert Live(job, schedule + [w]);
    }
  }

  /** One fetch after the other, in order. */
  function Sequential(job: Job, n: nat): seq<ReviewFile>
    requires ValidJob(job) && n <= |job.targets|
    ensures |Sequential(job, n)| == |job.entries|
  {
    if n == 0 then job.entries
    else
      var before := Sequential(job, n - 1);
      var at := job.targets[n - 1];
      before[at := Loaded(before[at], job.fetched[n - 1], job.maxBytes)]
  }

  lemma {:induction false} SequentialLoads(job: Job, n: nat)
    requires ValidJob(job) && n <= |job.targets|
    ensures forall k :: 0 <= k < |job.targets| ==>
      Sequential(job, n)[job.targets[k]] ==
      (if k < n then Loaded(job.entries[job.targets[k]], job.fetched[k], job.maxBytes) else job.entries[job.targets[k]])
    ensures forall i :: 0 <= i < |job.entries| && i !in job.targets ==> Sequential(job, n)[i] == job.entries[i]
  {
    if n > 0 {
      SequentialLoads(job, n - 1);
    }
  }

  /**
   * The result does not depend on the schedule: at any time at most `limit` items are in flight, each in one
   * place and started once; and when every worker has left, each item was fetched exactly once and the entries
   * are those of fetching them one after the other.
   */
  lemma PoolIsScheduleIndependent(job: Job, schedule: seq<nat>)
    requires ValidJob(job)
    ensures var p := After(job, schedule);
      && |p.workers| <= job.limit
      && |p.started| == |job.targets|
      && (forall k :: 0 <= k < |job.targets| ==> p.started[k] <= 1 && (InFlight(p, k) ==> p.started[k] == 1))
      && (Done(p) ==>
            && (forall k :: 0 <= k < |job.targets| ==> p.started[k] == 1)
            && p.entries == Sequential(job, |job.targets|))
  {
    var p := After(job, schedule);
    PoolIsCounted(job, schedule);
    if Done(p) {
      assert |p.workers| > 0 ==> p.workers[0].Finished?;
      SequentialLoads(job, |job.targets|);
      forall i | 0 <= i < |job.entries| ensures p.entries[i] == Sequential(job, |job.targets|)[i] {
        if i in job.targets {
          var k :| 0 <= k < |job.targets| && job.targets[k] == i;
          assert !InFlight(p, k);
        }
      }
    }
  }

  /******* From the files of a pull request to the context *******/

  datatype PullFile = PullFile(filename: string, removed: bool, hasPatch: bool)

  datatype Params = Params(
    files: seq<PullFile>, onlyPaths: Option<set<string>>, ignored: string -> bool, fetch: string -> Fetched,
    maxBytes: nat, maxContextTokens: nat)

  predicate Selected(f: PullFile, params: Params) { params.onlyPaths.Some? ==> f.filename in params.onlyPaths.value }

  /** The first pass: what a file is before anything is fetched. */
  function Classify(f: PullFile, params: Params): ReviewFile {
    ReviewFile(f.filename,
               if f.removed then Some(Deleted)
               else if params.ignored(f.filename) then Some(Ignored)
               else if !f.hasPatch then Some(TooLarge)
               else None,
               None)
  }

  function SelectedFiles(files: seq<PullFile>, params: Params): seq<PullFile> {
    if files == [] then []
    else
      var n := |files| - 1;
      SelectedFiles(files[..n], params) + if Selected(files[n], params) then [files[n]] else []
  }

  function Classified(files: seq<PullFile>, params: Params): (r: seq<ReviewFile>)
    ensures |r| == |files|
    ensures forall i :: 0 <= i < |r| ==> r[i] == Classify(files[i], params)
  {
    seq(|files|, i requires 0 <= i < |files| => Classify(files[i], params))
  }

  /** Where the entries stand that are to be fetched. */
  function Targets(entries: seq<ReviewFile>): (r: seq<nat>)
    ensures forall k :: 0 <= k < |r| ==> r[k] < |entries| && entries[r[k]].skipped.None?
    ensures forall k, l :: 0 <= k < l < |r| ==> r[k] < r[l]
    ensures forall i :: 0 <= i < |entries| && entries[i].skipped.None? ==> i in r
  {
    if entries == [] then []
    else
      var n := |entries| - 1;
      Targets(entries[..n]) + if entries[n].skipped.None? then [n] else []
  }

  function JobFor(params: Params): Job {
    var entries := Classified(SelectedFiles(params.files, params), params);
    var targets := Targets(entries);
    Job(entries, targets, seq(|targets|, k requires 0 <= k < |targets| => params.fetch(entries[targets[k]].path)),
        params.maxBytes, CONTENT_FETCH_CONCURRENCY)
  }

  /** What a file comes to by itself, before the budget: its own status, or what fetching it gave. */
  function Candidate(f: PullFile, params: Params): ReviewFile {
    var entry := Classify(f, params);
    if entry.skipped.Some? then entry else Loaded(entry, params.fetch(f.filename), params.maxBytes)
  }

  function Candidates(files: seq<PullFile>, params: Params): (r: seq<ReviewFile>)
    ensures |r| == |files|
    ensures forall i :: 0 <= i < |r| ==> r[i] == Candidate(files[i], params)
  {
    seq(|files|, i requires 0 <= i < |files| => Candidate(files[i], params))
  }

  /** The context: the selected files in their order, each as it comes to, cut greedily to the budget. */
  function Context(params: Params): (r: seq<ReviewFile>)
    ensures |r| == |SelectedFiles(params.files, params)|
  {
    var candidates := Candidates(SelectedFiles(params.files, params), params);
    var picks := Greedy(CostsOf(candidates), params.maxContextTokens);
    seq(|candidates|, i requires 0 <= i < |candidates| => Kept(candidates[i], picks[i]))
  }

  /** Whatever the schedule, the fetched entries are the candidates, so the budget pass ends in the one context. */
  lemma PoolLoadsTheCandidates(params: Params, schedule: seq<nat>)
    ensures ValidJob(JobFor(params))
    ensures Done(After(JobFor(params), schedule)) ==>
      After(JobFor(params), schedule).entries == Candidates(SelectedFiles(params.files, params), params)
  {
    var job := JobFor(params);
    var files := SelectedFiles(params.files, params);
    PoolIsScheduleIndependent(job, schedule);
    forall i | 0 <= i < |files| ensures Sequential(job, |job.targets|)[i] == Candidate(files[i], params) {
      FetchingGivesTheCandidate(params, i);
    }
  }

  lemma FetchingGivesTheCandidate(params: Params, i: nat)
    requires i < |SelectedFiles(params.files, params)|
    ensures ValidJob(JobFor(params))
    ensures Sequential(JobFor(params), |JobFor(params).targets|)[i] ==
        Candidate(SelectedFiles(params.files, params)[i], params)
  {
    var job := JobFor(params);
    SequentialLoads(job, |job.targets|);
    if job.entries[i].skipped.None? {
      assert i in job.targets;
      var k :| 0 <= k < |job.targets| && job.targets[k] == i;
      assert job.fetched[k] == params.fetch(job.entries[i].path);
    } else {
      assert i !in job.targets;
    }
  }

  /** The array of entries that a finished pool leaves is cut to exactly the context. */
  method FinishContext(files: array<ReviewFile>, params: Params, ghost schedule: seq<nat>)
    requires ValidJob(JobFor(params))
    requires Done(After(JobFor(params), schedule))
    requires files[..] == After(JobFor(params), schedule).entries
    modifies files
    ensures files[..] == Context(params)
  {
    PoolLoadsTheCandidates(params, schedule);
    EnforceBudget(files, params.maxContextTokens);
  }

  /**
   * Told for one file: it is reviewed only if it was not removed, not ignored,
   * has a patch, and could be fetched within the size limit, and then with exactly the fetched content; and such
   * a file is reviewed or marked as over the budget.
   */
  lemma ReviewedExactly(params: Params, i: nat)
    requires i < |SelectedFiles(params.files, params)|
    ensures var f, result := SelectedFiles(params.files, params)[i], Context(params)[i];
      var fetched := params.fetch(f.filename);
      var fit := !f.removed && !params.ignored(f.filename) && f.hasPatch && fetched.Content? &&
          |fetched.bytes| <= params.maxBytes;
      && result.path == f.filename
      && (Reviewable(result) ==> fit && result.content == Some(fetched.bytes))
      && (fit ==> Reviewable(result) || result.skipped == Some(OverBudget))
      && (!fit ==> result.skipped.Some? && result.skipped != Some(OverBudget))
  {
  }

  /** How many of the first `n` files are selected. */
  function SelectedBefore(files: seq<PullFile>, onlyPaths: Option<set<string>>, n: nat): (r: nat)
    requires n <= |files|
    ensures r <= n
  {
    if n == 0 then 0
    else
      SelectedBefore(files, onlyPaths, n - 1)
      + if onlyPaths == None || files[n - 1].filename in onlyPaths.value then 1 else 0
  }

  /** All files are selected, or on an incremental run those with a changed path, in their order. */
  lemma {:induction false} SelectedTold(files: seq<PullFile>, params: Params, i: nat)
    requires i < |files|
    ensures var selected, at := SelectedFiles(files, params), SelectedBefore(files, params.onlyPaths, i);
      && |selected| == SelectedBefore(files, params.onlyPaths, |files|)
      && (params.onlyPaths == None || files[i].filename in params.onlyPaths.value ==>
            at < |selected| && selected[at] == files[i])
  {
    var n := |files| - 1;
    SelectedAreCounted(files, params);
    SelectedAreCounted(files[..n], params);
    FewerFiles(files, params.onlyPaths, n);
    if i < n {
      SelectedTold(files[..n], params, i);
      FewerFiles(files, params.onlyPaths, i);
    }
  }

  lemma {:induction false} FewerFiles(files: seq<PullFile>, onlyPaths: Option<set<string>>, n: nat)
    requires n < |files|
    ensures SelectedBefore(files[..|files| - 1], onlyPaths, n) == SelectedBefore(files, onlyPaths, n)
  {
    if n > 0 {
      FewerFiles(files, onlyPaths, n - 1);
    }
  }

  lemma {:induction false} SelectedAreCounted(files: seq<PullFile>, params: Params)
    ensures |SelectedFiles(files, params)| == SelectedBefore(files, params.onlyPaths, |files|)
  {
    if files != [] {
      SelectedAreCounted(files[..|files| - 1], params);
      FewerFiles(files, params.onlyPaths, |files| - 1);
    }
  }

  /** Why a file is not reviewed: the first of its reasons, and no content is left of it. */
  lemma StatusTold(params: Params, i: nat)
    requires i < |SelectedFiles(params.files, params)|
    ensures var f, result := SelectedFiles(params.files, params)[i], Context(params)[i];
      && (f.removed ==> result == ReviewFile(f.filename, Some(Deleted), None))
      && (!f.removed && params.ignored(f.filename) ==> result == ReviewFile(f.filename, Some(Ignored), None))
      && (!f.removed && !params.ignored(f.filename) && !f.hasPatch ==>
            result == ReviewFile(f.filename, Some(TooLarge), None))
      && (!f.removed && !params.ignored(f.filename) && f.hasPatch ==>
            match params.fetch(f.filename)
            case Content(bytes) =>
              if |bytes| > params.maxBytes then result == ReviewFile(f.filename, Some(TooLarge), None)
              else
                || result == ReviewFile(f.filename, None, Some(bytes))
                || result == ReviewFile(f.filename, Some(OverBudget), None)
            case _ => result == ReviewFile(f.filename, Some(Unreadable), None))
  {
  }
}
