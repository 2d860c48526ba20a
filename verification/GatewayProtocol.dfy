/**
 * The gateway's spend settlement as a step system: clients that reserve an
 * estimate, arm a reservation row and enqueue a job; workers that finish jobs;
 * and settlement handlers that react to (possibly duplicated, late or lost)
 * completion events. Every SQL statement, transaction and queue call is one
 * atomic step, and the steps of all parties interleave freely.
 *
 * One (organisation, provider) ledger is modelled. A job id is the hash of the
 * request including its organisation and provider, so one job never touches
 * two ledgers.
 */
module GatewayProtocol {
  import opened Totals

  // Amounts handed to SQL are cut off here before they are added or subtracted.
  const CLAMP: int := 999_999_999
  // A reserved row younger than this belongs to a request still arming it.
  const RESERVATION_STALE_MS: int := 90_000

  // Stands for the request hash.
  type JobId = nat

  /******* Persistent state *******/

  datatype Status = Reserved | Reconciled | Refunded

  /** A reservation row. `arming` numbers the write that last put it to Reserved. */
  datatype Row = Row(est: nat, status: Status, arming: nat, updatedAt: int)

  datatype JobState = Live | Completed | Failed

  datatype Job = Job(est: nat, arming: nat, state: JobState)

  /** Where one request (or one direct user of the ledger) stands. */
  datatype Client =
    | Holding(job: JobId, est: nat)                            // charged, before the second queue probe
    | Leaked(est: nat)                                         // gone without giving its charge back
    | Preparing(job: JobId, est: nat)                          // before reading the row
    | Creating(job: JobId, est: nat)                           // saw no row
    | Rereading(job: JobId, est: nat)                          // lost the race to create it
    | Waiting(job: JobId, est: nat, snap: Row)                 // saw a reserved row, polling for its job
    | Overwriting(job: JobId, est: nat, snap: Row)             // about to write the row unconditionally
    | Armed(job: JobId, est: nat, arming: nat, at: int)        // wrote the row, not yet enqueued
    | Unwinding(job: JobId, est: nat, arming: nat, at: int,    // enqueue threw or found a job: refund through the row
                found: bool)
    | Enqueued(job: JobId, est: nat, arming: nat)              // created the job, waiting for its result
    | Abandoning(job: JobId, est: nat, arming: nat)            // waiting threw, job inactive: refund through the row
    | Returning(job: JobId, est: nat, again: bool)             // about to refund the charge directly, once or twice
    | Direct(est: nat)                                         // ingest or hosted review: charged without a row
    | Done

  /** Settlement work in flight: emitted events and handlers between two awaits. */
  datatype Notice =
    | CompletedEvent(job: JobId, arming: nat, reported: nat, usable: bool)
    | FailedEvent(job: JobId, arming: nat)
    | ReconcileReady(job: JobId, arming: nat, est: nat, actual: nat)
    | FailedChecked(job: JobId, arming: nat)
    | RefundReady(job: JobId, arming: nat, est: nat)

  /**
   * The last four fields are history: estimates by arming, which armings were
   * settled, what reconciled work cost, and reserved estimates that a later
   * arming overwrote.
   */
  datatype State = State(
    now: int,
    limit: int,
    cost: int,
    clients: map<nat, Client>,
    rows: map<JobId, Row>,
    jobs: map<JobId, Job>,
    notices: map<nat, Notice>,
    armings: seq<nat>,
    settlements: multiset<nat>,
    spent: nat,
    lost: nat)

  ghost predicate Initial(s: State) {
    && s.cost == 0 <= s.limit
    && s.clients == map[] && s.rows == map[] && s.jobs == map[] && s.notices == map[]
    && s.armings == [] && s.settlements == multiset{} && s.spent == 0 && s.lost == 0
  }

  /** The request has armed a row, through which its charge is settled. */
  predicate HasArming(x: Client) { x.Armed? || x.Unwinding? || x.Enqueued? || x.Abandoning? }

  /** What a request that has no row of its own has on the ledger. */
  function Carried(c: Client): nat {
    match c
    case Armed(_, _, _, _) => 0
    case Unwinding(_, _, _, _, _) => 0
    case Enqueued(_, _, _) => 0
    case Abandoning(_, _, _) => 0
    case Done => 0
    case _ => c.est
  }

  /** The part of it that somebody will still arm, settle or give back. */
  function Held(c: Client): nat { if c.Leaked? then 0 else Carried(c) }

  /** The part of it that nobody will. */
  function LeakedEst(c: Client): nat { if c.Leaked? then c.est else 0 }

  function ReservedEst(r: Row): nat {
    if r.status == Reserved then r.est else 0
  }

  /******* Ledger arithmetic *******/

  function Min(a: int, b: int): int { if a <= b then a else b }

  function SafeDecrement(cost: int, amount: int): int {
    if amount <= 0 then cost
    else if cost - Min(amount, CLAMP) < 0 then 0
    else cost - Min(amount, CLAMP)
  }

  function SafeIncrement(cost: int, amount: int): int {
    if amount <= 0 then cost else cost + Min(amount, CLAMP)
  }

  /** Book the difference between an estimate and what the work really cost. */
  function Adjust(cost: int, est: nat, actual: nat): int {
    if est > actual then SafeDecrement(cost, est - actual) else SafeIncrement(cost, actual - est)
  }

  predicate IsReserved(s: State, job: JobId) {
    job in s.rows && s.rows[job].status == Reserved
  }

  function Settle(s: State, job: JobId, status: Status, cost: int): State
    requires IsReserved(s, job)
  {
    s.(rows := s.rows[job := s.rows[job].(status := status, updatedAt := s.now)],
       settlements := s.settlements + multiset{s.rows[job].arming},
       cost := cost)
  }

  /** Compare-and-set refund: only a row still reserved is paid back. */
  function CasRefund(s: State, job: JobId, est: nat): State {
    if IsReserved(s, job) then Settle(s, job, Refunded, SafeDecrement(s.cost, est)) else s
  }

  /** Compare-and-set reconciliation to the actual cost. */
  function CasReconcile(s: State, job: JobId, est: nat, actual: nat): State {
    if IsReserved(s, job)
    then Settle(s, job, Reconciled, Adjust(s.cost, est, actual)).(spent := s.spent + actual)
    else s
  }

  function Put(s: State, c: nat, client: Client): State {
    s.(clients := s.clients[c := client])
  }

  /** Write the row unconditionally, whatever it said before. */
  function Arm(s: State, c: nat, job: JobId, est: nat): State {
    Put(s, c, Armed(job, est, |s.armings|, s.now)).(
      rows := s.rows[job := Row(est, Reserved, |s.armings|, s.now)],
      armings := s.armings + [est],
      lost := s.lost + (if job in s.rows then ReservedEst(s.rows[job]) else 0))
  }

  /******* Steps *******/

  /** Steps of one request that touch neither ledger nor rows. */
  datatype Move =
    | ProbeThrows       // the probe after the reservation fails
    | ProbeFound        // it finds a job to share
    | ProbeNone
    | ReadRow
    | PollFound         // waiting for a reserved row's job, and it appeared
    | PrepareThrows     // any failure while preparing the row, a still fresh reservation included
    | EnqueueCreated
    | EnqueueExisting
    | EnqueueThrows
    | ResultArrives                  // or the word that the job failed or timed out
    | WaitThrows(active: bool)       // and whether the queue then calls the job active: not all live jobs are
    | ReturnThrows                   // giving the charge back fails
    | RefundFails(another: bool)     // the refund through the row fails: silently, or with another try
    | DirectThrows                   // an ingest or a review cannot give its charge back
    | Crashes                        // the process that serves the request is gone

  /** Steps of one request that write its reservation row. */
  datatype Write = CreateRow | TakeOver | Overwrite | Unwind | Abandon

  /** Ledger bookings that involve no row; ingest and hosted reviews use only these. */
  datatype Booking =
    | Reserve(job: JobId, est: nat)
    | ReturnCharge
    | DirectReserve(amount: nat)
    | DirectSettle(actual: nat)
    | DirectRefund

  /** What happens to a job; the three worker outcomes emit an event under a new notice number. */
  datatype JobEvent =
    | RemoveJob
    | Complete(n: nat, reported: nat, usable: bool)
    | FailFinally(n: nat)
    | FailAttempt(n: nat)

  /** Event delivery and the reading steps of the settlement handlers. */
  datatype Delivery = Duplicate(copy: nat) | Drop | ReadCompleted | CheckFailed | ReadFailed

  datatype Step =
    | Tick(ms: nat)
    | Moves(c: nat, move: Move)
    | Writes(c: nat, write: Write)
    | Books(c: nat, booking: Booking)
    | Queue(job: JobId, event: JobEvent)
    | Deliver(n: nat, delivery: Delivery)
    | Settles(n: nat)                      // a handler's compare-and-set transaction

  predicate Finds(s: State, job: JobId) { job in s.jobs && s.jobs[job].state != Failed }

  predicate IsLive(s: State, job: JobId) { job in s.jobs && s.jobs[job].state == Live }

  /** The limit is looked at only if there is something to reserve. */
  predicate Affords(s: State, amount: nat) { amount == 0 || s.cost + amount <= s.limit }

  predicate MoveEnabled(s: State, c: nat, move: Move) {
    c in s.clients &&
    var x := s.clients[c];
    match move
    case ProbeThrows => x.Holding?
    case ProbeFound => x.Holding? && Finds(s, x.job)
    case ProbeNone => x.Holding? && x.job !in s.jobs
    case ReadRow => x.Preparing? || x.Rereading?
    case PollFound => x.Waiting? && Finds(s, x.job)
    case PrepareThrows => x.Preparing? || x.Creating? || x.Rereading? || x.Waiting? || x.Overwriting?
    case EnqueueCreated => x.Armed? && x.job !in s.jobs
    case EnqueueExisting => x.Armed? && x.job in s.jobs
    case EnqueueThrows => x.Armed?
    case ResultArrives => x.Enqueued?
    case WaitThrows(_) => x.Enqueued?
    case ReturnThrows => x.Returning?
    case RefundFails(another) => if another then x.Unwinding? && x.found else x.Unwinding? || x.Abandoning?
    case DirectThrows => x.Direct?
    case Crashes => !x.Done? && !x.Leaked?
  }

  predicate WriteEnabled(s: State, c: nat, write: Write) {
    c in s.clients &&
    var x := s.clients[c];
    match write
    case CreateRow => x.Creating?
    case TakeOver => x.Waiting? && s.now - x.snap.updatedAt >= RESERVATION_STALE_MS
    case Overwrite => x.Overwriting? && x.job in s.rows
    case Unwind => x.Unwinding?
    case Abandon => x.Abandoning?
  }

  predicate BookingEnabled(s: State, c: nat, booking: Booking) {
    match booking
    case Reserve(_, est) => c !in s.clients && Affords(s, est)
    case DirectReserve(amount) => c !in s.clients && Affords(s, amount)
    case ReturnCharge => c in s.clients && s.clients[c].Returning?
    case DirectSettle(_) => c in s.clients && s.clients[c].Direct?
    case DirectRefund => c in s.clients && s.clients[c].Direct?
  }

  predicate JobEventEnabled(s: State, job: JobId, event: JobEvent) {
    match event
    case RemoveJob => job in s.jobs && s.jobs[job].state != Live
    case _ => IsLive(s, job) && event.n !in s.notices
  }

  predicate DeliveryEnabled(s: State, n: nat, delivery: Delivery) {
    n in s.notices &&
    match delivery
    case Duplicate(copy) => copy !in s.notices
    case Drop => true
    case ReadCompleted => s.notices[n].CompletedEvent?
    case CheckFailed => s.notices[n].FailedEvent?
    case ReadFailed => s.notices[n].FailedChecked?
  }

  predicate Enabled(s: State, step: Step) {
    match step
    case Tick(_) => true
    case Moves(c, move) => MoveEnabled(s, c, move)
    case Writes(c, write) => WriteEnabled(s, c, write)
    case Books(c, booking) => BookingEnabled(s, c, booking)
    case Queue(job, event) => JobEventEnabled(s, job, event)
    case Deliver(n, delivery) => DeliveryEnabled(s, n, delivery)
    case Settles(n) => n in s.notices && (s.notices[n].ReconcileReady? || s.notices[n].RefundReady?)
  }

  function Moved(s: State, c: nat, move: Move): Client
    requires MoveEnabled(s, c, move)
  {
    var x := s.clients[c];
    match move
    case ProbeThrows => Leaked(x.est)
    case ProbeFound => Returning(x.job, x.est, false)
    case ProbeNone => Preparing(x.job, x.est)
    case ReadRow =>
      if x.job in s.rows then
        if s.rows[x.job].status == Reserved
        then Waiting(x.job, x.est, s.rows[x.job])
        else Overwriting(x.job, x.est, s.rows[x.job])
      else if x.Preparing? then Creating(x.job, x.est)
      else Returning(x.job, x.est, false)
    case PollFound => Returning(x.job, x.est, true)
    case PrepareThrows => Returning(x.job, x.est, false)
    case EnqueueCreated => Enqueued(x.job, x.est, x.arming)
    case EnqueueExisting => Unwinding(x.job, x.est, x.arming, x.at, true)
    case EnqueueThrows => Unwinding(x.job, x.est, x.arming, x.at, false)
    case ResultArrives => Done
    case WaitThrows(active) => if active then Done else Abandoning(x.job, x.est, x.arming)
    case ReturnThrows => if x.again then Returning(x.job, x.est, false) else Leaked(x.est)
    case RefundFails(another) => if another then Abandoning(x.job, x.est, x.arming) else Done
    case DirectThrows => Leaked(x.est)
    case Crashes => if HasArming(x) then Done else Leaked(x.est)
  }

  function ApplyMove(s: State, c: nat, move: Move): State
    requires MoveEnabled(s, c, move)
  {
    var t := Put(s, c, Moved(s, c, move));
    if move.EnqueueCreated?
    then t.(jobs := s.jobs[s.clients[c].job := Job(s.clients[c].est, s.clients[c].arming, Live)])
    else t
  }

  function ApplyWrite(s: State, c: nat, write: Write): State
    requires WriteEnabled(s, c, write)
  {
    var x := s.clients[c];
    match write
    case CreateRow => if x.job in s.rows then Put(s, c, Rereading(x.job, x.est)) else Arm(s, c, x.job, x.est)
    case TakeOver => Put(CasRefund(s, x.job, x.snap.est), c, Overwriting(x.job, x.est, x.snap))
    case Overwrite => Arm(s, c, x.job, x.est)
    case Unwind => Put(CasRefund(s, x.job, x.est), c, Done)
    case Abandon => Put(CasRefund(s, x.job, x.est), c, Done)
  }

  function ApplyBooking(s: State, c: nat, booking: Booking): State
    requires BookingEnabled(s, c, booking)
  {
    match booking
    case Reserve(job, est) => Put(s, c, Holding(job, est)).(cost := s.cost + est)
    case DirectReserve(amount) => Put(s, c, Direct(amount)).(cost := s.cost + amount)
    case ReturnCharge => Put(s, c, Done).(cost := SafeDecrement(s.cost, s.clients[c].est))
    case DirectSettle(actual) =>
      Put(s, c, Done).(cost := Adjust(s.cost, s.clients[c].est, actual), spent := s.spent + actual)
    case DirectRefund => Put(s, c, Done).(cost := SafeDecrement(s.cost, s.clients[c].est))
  }

  function FinishJob(s: State, job: JobId, state: JobState, n: nat, notice: Notice): State
    requires job in s.jobs
  {
    s.(jobs := s.jobs[job := s.jobs[job].(state := state)], notices := s.notices[n := notice])
  }

  function ApplyJobEvent(s: State, job: JobId, event: JobEvent): State
    requires JobEventEnabled(s, job, event)
  {
    match event
    case RemoveJob => s.(jobs := s.jobs - {job})
    case Complete(n, reported, usable) =>
      FinishJob(s, job, Completed, n, CompletedEvent(job, s.jobs[job].arming, reported, usable))
    case FailFinally(n) => FinishJob(s, job, Failed, n, FailedEvent(job, s.jobs[job].arming))
    case FailAttempt(n) => FinishJob(s, job, Live, n, FailedEvent(job, s.jobs[job].arming))
  }

  function SetNotice(s: State, n: nat, notice: Notice): State {
    s.(notices := s.notices[n := notice])
  }

  function Forget(s: State, n: nat): State {
    s.(notices := s.notices - {n})
  }

  /** A completed event's own figure, or the job's estimate when it carries none. */
  function ActualCost(event: Notice, est: nat): nat
    requires event.CompletedEvent?
  {
    if event.usable then event.reported else est
  }

  function ApplyDelivery(s: State, n: nat, delivery: Delivery): State
    requires DeliveryEnabled(s, n, delivery)
  {
    var e := s.notices[n];
    match delivery
    case Duplicate(copy) => SetNotice(s, copy, e)
    case Drop => Forget(s, n)
    case ReadCompleted =>
      if e.job in s.jobs
      then SetNotice(s, n, ReconcileReady(e.job, e.arming, s.jobs[e.job].est, ActualCost(e, s.jobs[e.job].est)))
      else Forget(s, n)
    case CheckFailed =>
      if e.job in s.jobs && s.jobs[e.job].state == Failed
      then SetNotice(s, n, FailedChecked(e.job, e.arming))
      else Forget(s, n)
    case ReadFailed =>
      if e.job in s.jobs then SetNotice(s, n, RefundReady(e.job, e.arming, s.jobs[e.job].est)) else Forget(s, n)
  }

  function ApplySettlement(s: State, n: nat): State
    requires n in s.notices && (s.notices[n].ReconcileReady? || s.notices[n].RefundReady?)
  {
    var e := s.notices[n];
    Forget(if e.ReconcileReady? then CasReconcile(s, e.job, e.est, e.actual) else CasRefund(s, e.job, e.est), n)
  }

  function Apply(s: State, step: Step): State
    requires Enabled(s, step)
  {
    match step
    case Tick(ms) => s.(now := s.now + ms)
    case Moves(c, move) => ApplyMove(s, c, move)
    case Writes(c, write) => ApplyWrite(s, c, write)
    case Books(c, booking) => ApplyBooking(s, c, booking)
    case Queue(job, event) => ApplyJobEvent(s, job, event)
    case Deliver(n, delivery) => ApplyDelivery(s, n, delivery)
    case Settles(n) => ApplySettlement(s, n)
  }

  /** All runs: finite sequences of enabled steps. */
  ghost predicate Run(s: State, steps: seq<Step>)
    decreases |steps|
  {
    steps == [] || (Enabled(s, steps[0]) && Run(Apply(s, steps[0]), steps[1..]))
  }

  ghost function After(s: State, steps: seq<Step>): State
    requires Run(s, steps)
    decreases |steps|
  {
    if steps == [] then s else After(Apply(s, steps[0]), steps[1..])
  }

  /******* The steps, told by what they bring about *******/

  /** A move changes its own client, and else at most the queue, to which it adds the job of an armed request. */
  lemma MoveKeeps(s: State, c: nat, move: Move)
    requires MoveEnabled(s, c, move)
    ensures var x, t := s.clients[c], ApplyMove(s, c, move);
      && t == s.(clients := t.clients, jobs := t.jobs) && t.clients - {c} == s.clients - {c} && c in t.clients
      && t.jobs == (if move.EnqueueCreated? then s.jobs[x.job := Job(x.est, x.arming, Live)] else s.jobs)
      && (move.EnqueueCreated? ==> x.Armed? && x.job !in s.jobs && t.clients[c] == Enqueued(x.job, x.est, x.arming))
  {
  }

  /** A request leaks its charge exactly by a failing probe or last refund, or by a crash before it has armed a row. */
  lemma LeakTold(s: State, c: nat, move: Move)
    requires MoveEnabled(s, c, move)
    ensures var x, y := s.clients[c], Moved(s, c, move);
      && (y.Leaked? <==>
            || move.ProbeThrows? || move.DirectThrows? || (move.ReturnThrows? && !x.again)
            || (move.Crashes? && !x.Armed? && !x.Unwinding? && !x.Enqueued? && !x.Abandoning?))
      && (y.Leaked? ==> y.est == x.est)
  {
  }

  /** It gives its charge back directly exactly if it shares a job or does not get to arm a row. */
  lemma ReturnTold(s: State, c: nat, move: Move)
    requires MoveEnabled(s, c, move)
    ensures var x, y := s.clients[c], Moved(s, c, move);
      && (move.ProbeFound? || move.PollFound? ==> x.job in s.jobs && s.jobs[x.job].state != Failed)
      && (move.ProbeNone? ==> x.job !in s.jobs && y == Preparing(x.job, x.est))
      && (y.Returning? <==>
            || move.ProbeFound? || move.PollFound? || move.PrepareThrows?
            || (move.ReadRow? && x.Rereading? && x.job !in s.rows)
            || (move.ReturnThrows? && x.again))
      && (y.Returning? ==> y.job == x.job && y.est == x.est && (y.again <==> move.PollFound?))
  {
  }

  /** What reading its row tells a request. */
  lemma ReadTold(s: State, c: nat)
    requires MoveEnabled(s, c, ReadRow) && s.clients[c].job in s.rows
    ensures var x, y := s.clients[c], Moved(s, c, ReadRow);
      var row := s.rows[x.job];
      y == if row.status == Reserved then Waiting(x.job, x.est, row) else Overwriting(x.job, x.est, row)
  {
  }

  /**
   * An armed request that fails undoes its row, unless the queue calls its job active; and if undoing throws, it
   * has one more try exactly if it had found another request's job.
   */
  lemma UndoTold(s: State, c: nat, move: Move)
    requires MoveEnabled(s, c, move)
    ensures var x, y := s.clients[c], Moved(s, c, move);
      && (y.Unwinding? <==> move.EnqueueExisting? || move.EnqueueThrows?)
      && (y.Unwinding? ==> y == Unwinding(x.job, x.est, x.arming, x.at, move.EnqueueExisting?))
      && (y.Abandoning? <==> (move.WaitThrows? && !move.active) || (move.RefundFails? && move.another))
      && (y.Abandoning? ==> y == Abandoning(x.job, x.est, x.arming))
      && (move.RefundFails? && move.another ==> x.Unwinding? && x.found)
      && (y.Done? <==>
            || move.ResultArrives? || (move.WaitThrows? && move.active) || (move.RefundFails? && !move.another)
            || (move.Crashes? && (x.Armed? || x.Unwinding? || x.Enqueued? || x.Abandoning?)))
  {
  }

  /** A row is armed if there is none, or over one that was settled or is stale; a stale one is refunded before. */
  lemma WriteTold(s: State, c: nat, write: Write)
    requires WriteEnabled(s, c, write)
    ensures var x, t := s.clients[c], ApplyWrite(s, c, write);
      && t.now == s.now && t.jobs == s.jobs && t.notices == s.notices && t.spent == s.spent
      && t.clients - {c} == s.clients - {c} && t.rows - {x.job} == s.rows - {x.job}
    ensures write.TakeOver? ==> s.now - s.clients[c].snap.updatedAt >= 90_000
    ensures write.Overwrite? || (write.CreateRow? && s.clients[c].job !in s.rows) ==>
      var x, t := s.clients[c], ApplyWrite(s, c, write);
      && t.rows[x.job] == Row(x.est, Reserved, |s.armings|, s.now) && t.cost == s.cost
      && t.clients[c] == Armed(x.job, x.est, |s.armings|, s.now)
    ensures write.CreateRow? && s.clients[c].job in s.rows ==>
      var x := s.clients[c];
      ApplyWrite(s, c, write) == s.(clients := s.clients[c := Rereading(x.job, x.est)])
    ensures write.TakeOver? || write.Unwind? || write.Abandon? ==>
      var x, t := s.clients[c], ApplyWrite(s, c, write);
      && (x.job in t.rows ==> t.rows[x.job].status != Reserved)
      && (x.job !in s.rows || s.rows[x.job].status != Reserved ==> t.rows == s.rows && t.cost == s.cost)
      && t.clients[c] == if write.TakeOver? then Overwriting(x.job, x.est, x.snap) else Done
  {
  }

  /** An outcome is emitted once, for the arming the job was made for; a failed attempt leaves the job in the queue. */
  lemma JobEventTold(s: State, job: JobId, event: JobEvent)
    requires JobEventEnabled(s, job, event)
    ensures var was, t := s.jobs[job], ApplyJobEvent(s, job, event);
      && t == s.(jobs := t.jobs, notices := t.notices)
      && t.jobs == (match event
                    case RemoveJob => s.jobs - {job}
                    case Complete(_, _, _) => s.jobs[job := Job(was.est, was.arming, Completed)]
                    case FailFinally(_) => s.jobs[job := Job(was.est, was.arming, Failed)]
                    case FailAttempt(_) => s.jobs)
      && t.notices == (match event
                       case RemoveJob => s.notices
                       case Complete(n, reported, usable) =>
                         s.notices[n := CompletedEvent(job, was.arming, reported, usable)]
                       case FailFinally(n) => s.notices[n := FailedEvent(job, was.arming)]
                       case FailAttempt(n) => s.notices[n := FailedEvent(job, was.arming)])
      && (event.RemoveJob? <==> was.state != Live)
  {
  }

  /** A handler goes on as long as the job is there, and on a failure only if it has failed for good. */
  lemma DeliveryTold(s: State, n: nat, delivery: Delivery)
    requires DeliveryEnabled(s, n, delivery)
    ensures var e, t := s.notices[n], ApplyDelivery(s, n, delivery);
      && t == s.(notices := t.notices)
      && (delivery.Duplicate? ==> delivery.copy !in s.notices && t.notices == s.notices[delivery.copy := e])
      && (!delivery.Duplicate? ==> t.notices - {n} == s.notices - {n})
      && (n in t.notices <==>
            || delivery.Duplicate?
            || (!delivery.Drop? && e.job in s.jobs && (delivery.CheckFailed? ==> s.jobs[e.job].state == Failed)))
      && (delivery.ReadCompleted? && e.job in s.jobs ==>
            t.notices[n] == ReconcileReady(e.job, e.arming, s.jobs[e.job].est,
              if e.usable then e.reported else s.jobs[e.job].est))
      && (delivery.CheckFailed? && n in t.notices ==> t.notices[n] == FailedChecked(e.job, e.arming))
      && (delivery.ReadFailed? && e.job in s.jobs ==>
            t.notices[n] == RefundReady(e.job, e.arming, s.jobs[e.job].est))
  {
  }

  /** A settlement marks the row, if it is still reserved, and books the cost exactly if it reconciles. */
  lemma SettlementTold(s: State, n: nat)
    requires n in s.notices && (s.notices[n].ReconcileReady? || s.notices[n].RefundReady?)
    ensures var e, t := s.notices[n], ApplySettlement(s, n);
      && t.notices == s.notices - {n} && t.clients == s.clients && t.jobs == s.jobs && t.lost == s.lost
      && t.rows - {e.job} == s.rows - {e.job}
      && (if e.job in s.rows && s.rows[e.job].status == Reserved then
            && t.rows[e.job] == s.rows[e.job].(status := if e.ReconcileReady? then Reconciled else Refunded,
                                               updatedAt := s.now)
            && t.spent == s.spent + (if e.ReconcileReady? then e.actual else 0)
          else t.rows == s.rows && t.cost == s.cost && t.spent == s.spent)
  {
  }

  /** A job is reserved for up to the limit; nobody else's charge is touched. */
  lemma BookingTold(s: State, c: nat, booking: Booking)
    requires BookingEnabled(s, c, booking)
    ensures var t := ApplyBooking(s, c, booking);
      && t == s.(clients := t.clients, cost := t.cost, spent := t.spent)
      && t.clients - {c} == s.clients - {c} && c in t.clients
      && (booking.Reserve? ==>
            && (booking.est == 0 || s.cost + booking.est <= s.limit) && c !in s.clients
            && t.clients[c] == Holding(booking.job, booking.est) && t.cost == s.cost + booking.est)
      && (booking.DirectReserve? ==>
            && (booking.amount == 0 || s.cost + booking.amount <= s.limit) && c !in s.clients
            && t.clients[c] == Direct(booking.amount) && t.cost == s.cost + booking.amount)
      && (!booking.Reserve? && !booking.DirectReserve? ==> t.clients[c] == Done)
      && t.spent == s.spent + (if booking.DirectSettle? then booking.actual else 0)
  {
  }

  /******* The balance equation *******/

  /** The month's cost is exactly what requests carry, what is reserved, spent, or lost to an overwrite. */
  ghost predicate Balanced(s: State) {
    s.cost == Total(s.clients, Carried) + Total(s.rows, ReservedEst) + s.spent + s.lost
  }

  predicate SmallClient(x: Client) { x.Done? || x.est <= CLAMP }

  predicate SmallNotice(e: Notice) {
    && (e.CompletedEvent? ==> e.reported <= CLAMP)
    && (e.ReconcileReady? ==> e.actual <= CLAMP)
  }

  /** Every amount in play is below the SQL cut-off. */
  ghost predicate Small(s: State) {
    && (forall c :: c in s.clients ==> SmallClient(s.clients[c]))
    && (forall j :: j in s.rows ==> s.rows[j].est <= CLAMP)
    && (forall j :: j in s.jobs ==> s.jobs[j].est <= CLAMP)
    && (forall n :: n in s.notices ==> SmallNotice(s.notices[n]))
  }

  predicate SmallStep(step: Step) {
    && (step.Books? && step.booking.Reserve? ==> step.booking.est <= CLAMP)
    && (step.Books? && step.booking.DirectReserve? ==> step.booking.amount <= CLAMP)
    && (step.Books? && step.booking.DirectSettle? ==> step.booking.actual <= CLAMP)
    && (step.Queue? && step.event.Complete? ==> step.event.reported <= CLAMP)
  }

  /** The job and the estimate a step's compare-and-set is called with. */
  function CasCall(s: State, step: Step): (JobId, nat)
    requires Enabled(s, step) && IsCas(step)
  {
    if step.Settles? then (s.notices[step.n].job, s.notices[step.n].est)
    else if step.write.TakeOver? then (s.clients[step.c].job, s.clients[step.c].snap.est)
    else (s.clients[step.c].job, s.clients[step.c].est)
  }

  predicate IsCas(step: Step) {
    step.Settles? || (step.Writes? && (step.write.TakeOver? || step.write.Unwind? || step.write.Abandon?))
  }

  /** The estimate a compare-and-set passes is the one its row was armed with. */
  predicate Agrees(s: State, step: Step)
    requires Enabled(s, step)
  {
    IsCas(step) ==>
      var (job, est) := CasCall(s, step);
      IsReserved(s, job) ==> s.rows[job].est == est
  }

  /** The change of cost a step stands for, with no cut-off and no floor at zero. */
  function Delta(s: State, step: Step): int
    requires Enabled(s, step)
  {
    if IsCas(step) then
      var (job, est) := CasCall(s, step);
      if !IsReserved(s, job) then 0
      else if step.Settles? && s.notices[step.n].ReconcileReady? then s.notices[step.n].actual - est
      else 0 - est
    else if step.Books? then
      match step.booking
      case Reserve(_, est) => est
      case DirectReserve(amount) => amount
      case DirectSettle(actual) => actual - s.clients[step.c].est
      case _ => 0 - s.clients[step.c].est
    else 0
  }

  /** After the step the books balance, and cost moved by exactly what the step stands for. */
  ghost predicate BooksKept(s: State, step: Step)
    requires Enabled(s, step)
  {
    var t := Apply(s, step);
    Balanced(t) && Small(t) && t.cost == s.cost + Delta(s, step)
  }

  lemma CasRefundBalances(s: State, job: JobId, est: nat)
    requires Balanced(s) && Small(s)
    requires IsReserved(s, job) ==> s.rows[job].est == est
    ensures var t := CasRefund(s, job, est);
            && Balanced(t) && Small(t)
            && t.cost == s.cost - (if IsReserved(s, job) then est else 0)
  {
    if IsReserved(s, job) {
      TotalRemove(s.rows, job, ReservedEst);
      TotalPut(s.rows, job, s.rows[job].(status := Refunded, updatedAt := s.now), ReservedEst);
    }
  }

  lemma CasReconcileBalances(s: State, job: JobId, est: nat, actual: nat)
    requires Balanced(s) && Small(s) && actual <= CLAMP
    requires IsReserved(s, job) ==> s.rows[job].est == est
    ensures var t := CasReconcile(s, job, est, actual);
            && Balanced(t) && Small(t)
            && t.cost == s.cost + (if IsReserved(s, job) then actual - est else 0)
  {
    if IsReserved(s, job) {
      TotalRemove(s.rows, job, ReservedEst);
      TotalPut(s.rows, job, s.rows[job].(status := Reconciled, updatedAt := s.now), ReservedEst);
    }
  }

  lemma ArmBalances(s: State, c: nat, job: JobId, est: nat)
    requires Balanced(s) && Small(s)
    requires c in s.clients && Carried(s.clients[c]) == est <= CLAMP
    ensures Balanced(Arm(s, c, job, est)) && Small(Arm(s, c, job, est))
  {
    TotalPut(s.rows, job, Row(est, Reserved, |s.armings|, s.now), ReservedEst);
    TotalPut(s.clients, c, Armed(job, est, |s.armings|, s.now), Carried);
  }

  lemma PutBalances(s: State, c: nat, client: Client)
    requires Balanced(s) && Small(s)
    requires Carried(client) == if c in s.clients then Carried(s.clients[c]) else 0
    requires SmallClient(client)
    ensures Balanced(Put(s, c, client)) && Small(Put(s, c, client))
  {
    TotalPut(s.clients, c, client, Carried);
  }

  /** A change of one client together with the matching change of cost and of what was spent. */
  lemma ChargeBalances(s: State, c: nat, client: Client, cost: int, spent: nat)
    requires Balanced(s) && Small(s) && SmallClient(client)
    requires cost - s.cost == Carried(client) - (if c in s.clients then Carried(s.clients[c]) else 0) + spent - s.spent
    ensures var t := Put(s, c, client).(cost := cost, spent := spent); Balanced(t) && Small(t)
  {
    TotalPut(s.clients, c, client, Carried);
  }

  lemma CarriedIsCovered(s: State, c: nat)
    requires Balanced(s) && c in s.clients
    ensures Carried(s.clients[c]) <= s.cost
  {
    TotalRemove(s.clients, c, Carried);
  }

  lemma MoveBalances(s: State, step: Step)
    requires Enabled(s, step) && Balanced(s) && Small(s) && step.Moves?
    ensures BooksKept(s, step)
  {
    PutBalances(s, step.c, Moved(s, step.c, step.move));
  }

  lemma ArmStepBalances(s: State, c: nat, write: Write)
    requires WriteEnabled(s, c, write) && Balanced(s) && Small(s) && (write.CreateRow? || write.Overwrite?)
    ensures BooksKept(s, Writes(c, write))
  {
    var x := s.clients[c];
    if write.CreateRow? && x.job in s.rows {
      PutBalances(s, c, Rereading(x.job, x.est));
    } else {
      ArmBalances(s, c, x.job, x.est);
    }
  }

  lemma CasStepBalances(s: State, c: nat, write: Write)
    requires WriteEnabled(s, c, write) && Balanced(s) && Small(s)
    requires (write.TakeOver? || write.Unwind? || write.Abandon?) && Agrees(s, Writes(c, write))
    ensures BooksKept(s, Writes(c, write))
  {
    var x := s.clients[c];
    var est := if write.TakeOver? then x.snap.est else x.est;
    CasRefundBalances(s, x.job, est);
    PutBalances(CasRefund(s, x.job, est), c, if write.TakeOver? then Overwriting(x.job, x.est, x.snap) else Done);
  }

  lemma OpeningBalances(s: State, c: nat, booking: Booking)
    requires BookingEnabled(s, c, booking) && Balanced(s) && Small(s) && SmallStep(Books(c, booking))
    requires booking.Reserve? || booking.DirectReserve?
    ensures BooksKept(s, Books(c, booking))
  {
    var client := if booking.Reserve? then Holding(booking.job, booking.est) else Direct(booking.amount);
    ChargeBalances(s, c, client, s.cost + Carried(client), s.spent);
  }

  lemma ClosingBalances(s: State, c: nat, booking: Booking)
    requires BookingEnabled(s, c, booking) && Balanced(s) && Small(s) && SmallStep(Books(c, booking))
    requires booking.ReturnCharge? || booking.DirectSettle? || booking.DirectRefund?
    ensures BooksKept(s, Books(c, booking))
  {
    CarriedIsCovered(s, c);
    var actual := if booking.DirectSettle? then booking.actual else 0;
    ChargeBalances(s, c, Done, s.cost - s.clients[c].est + actual, s.spent + actual);
  }

  lemma NoticesBalance(s: State, jobs: map<JobId, Job>, notices: map<nat, Notice>)
    requires Balanced(s) && Small(s)
    requires forall j :: j in jobs ==> jobs[j].est <= CLAMP
    requires forall n :: n in notices ==> SmallNotice(notices[n])
    ensures var t := s.(jobs := jobs, notices := notices); Balanced(t) && Small(t)
  {
  }

  lemma QueueBalances(s: State, step: Step)
    requires Enabled(s, step) && Balanced(s) && Small(s) && SmallStep(step) && step.Queue?
    ensures BooksKept(s, step)
  {
    var t := ApplyJobEvent(s, step.job, step.event);
    NoticesBalance(s, t.jobs, t.notices);
  }

  lemma DeliveryBalances(s: State, step: Step)
    requires Enabled(s, step) && Balanced(s) && Small(s) && step.Deliver?
    ensures BooksKept(s, step)
  {
    var t := ApplyDelivery(s, step.n, step.delivery);
    NoticesBalance(s, t.jobs, t.notices);
  }

  lemma SettlementBalances(s: State, step: Step)
    requires Enabled(s, step) && Balanced(s) && Small(s) && step.Settles? && Agrees(s, step)
    ensures BooksKept(s, step)
  {
    var e := s.notices[step.n];
    if e.ReconcileReady? {
      CasReconcileBalances(s, e.job, e.est, e.actual);
    } else {
      CasRefundBalances(s, e.job, e.est);
    }
  }

  /** A step whose compare-and-set agrees keeps the books, and no floor or cut-off ever bites. */
  lemma StepBalances(s: State, step: Step)
    requires Enabled(s, step) && Balanced(s) && Small(s) && SmallStep(step) && Agrees(s, step)
    ensures BooksKept(s, step)
  {
    match step
    case Moves(_, _) => MoveBalances(s, step);
    case Writes(c, write) =>
      if IsCas(step) { CasStepBalances(s, c, write); } else { ArmStepBalances(s, c, write); }
    case Books(c, booking) =>
      if c in s.clients { ClosingBalances(s, c, booking); } else { OpeningBalances(s, c, booking); }
    case Settles(_) => SettlementBalances(s, step);
    case Queue(_, _) => QueueBalances(s, step);
    case Deliver(_, _) => DeliveryBalances(s, step);
    case Tick(_) =>
  }
}
