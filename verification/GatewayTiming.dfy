/**
 * Conservation when the estimates of one job may differ between requests: the
 * hash that names a job does not cover the caller's token estimate. Then the
 * code relies on timing, and the guards below say on which timing exactly.
 */
module GatewayTiming {
  import opened GatewayProtocol
  import opened GatewayConservation
  import opened Totals

  /******* Guards *******/

  predicate BeforeEnqueue(x: Client) { x.Armed? || x.Unwinding? }

  predicate SameArming(s: State, job: JobId, arming: nat) {
    job in s.rows && s.rows[job].arming == arming
  }

  /** No settlement of any earlier arming of the job is still under way or still to come. */
  ghost predicate Quiescent(s: State, job: JobId) {
    && !IsLive(s, job)
    && (forall n :: n in s.notices ==> s.notices[n].job != job)
    && (forall c :: c in s.clients && s.clients[c].Abandoning? ==> s.clients[c].job != job)
  }

  /** The clock never catches a request between arming its row and being done with enqueueing. */
  ghost predicate Prompt(s: State, ms: nat) {
    forall c :: c in s.clients && BeforeEnqueue(s.clients[c]) ==>
      s.now + ms - s.clients[c].at < RESERVATION_STALE_MS
  }

  /**
   * - requests enqueue, or fail, before their row counts as stale;
   * - only one request at a time takes a row over: the row it read is the row it writes;
   * - every settlement of an arming is over before the row is armed again;
   * - a waiting request that gives up still owns the current arming.
   */
  ghost predicate Guarded(s: State, step: Step) {
    && SmallStep(step)
    && (step.Tick? ==> Prompt(s, step.ms))
    && (step.Writes? && step.c in s.clients ==>
          var x := s.clients[step.c];
          && (step.write.TakeOver? && x.Waiting? ==> SameArming(s, x.job, x.snap.arming))
          && (step.write.Overwrite? && x.Overwriting? ==>
                SameArming(s, x.job, x.snap.arming) && Quiescent(s, x.job)))
    && (step.Moves? && step.move.WaitThrows? && step.c in s.clients && s.clients[step.c].Enqueued? ==>
          SameArming(s, s.clients[step.c].job, s.clients[step.c].arming))
  }

  ghost predicate GuardedRun(s: State, steps: seq<Step>)
    requires Run(s, steps)
    decreases |steps|
  {
    steps == [] || (Guarded(s, steps[0]) && GuardedRun(Apply(s, steps[0]), steps[1..]))
  }

  /******* What guarded runs keep *******/

  ghost predicate ArmingHasEst(s: State, arming: nat, est: nat) {
    arming < |s.armings| && s.armings[arming] == est
  }

  ghost predicate RowOk(s: State, j: JobId)
    requires j in s.rows
  {
    ArmingHasEst(s, s.rows[j].arming, s.rows[j].est)
  }

  ghost predicate ClientOk(s: State, x: Client) {
    && (HasArming(x) ==> x.job in s.rows && ArmingHasEst(s, x.arming, x.est))
    && (BeforeEnqueue(x) ==>
          && s.rows[x.job] == Row(x.est, Reserved, x.arming, x.at)
          && s.now - x.at < RESERVATION_STALE_MS
          && !IsLive(s, x.job)
          && forall n :: n in s.notices ==> s.notices[n].job != x.job)
    && (x.Abandoning? ==> s.rows[x.job].arming == x.arming)
    && (x.Waiting? || x.Overwriting? ==> x.job in s.rows && ArmingHasEst(s, x.snap.arming, x.snap.est))
    && (x.Waiting? && s.rows[x.job].arming == x.snap.arming && IsReserved(s, x.job) ==> s.rows[x.job] == x.snap)
    && (x.Overwriting? && s.rows[x.job].arming == x.snap.arming ==> !IsReserved(s, x.job))
  }

  ghost predicate JobOk(s: State, j: JobId)
    requires j in s.jobs
  {
    IsLive(s, j) ==> SameArming(s, j, s.jobs[j].arming) && s.jobs[j].est == s.rows[j].est
  }

  ghost predicate NoticeOk(s: State, e: Notice) {
    && SameArming(s, e.job, e.arming)
    && (e.ReconcileReady? || e.RefundReady? ==> e.est == s.rows[e.job].est)
    && (e.job in s.jobs ==> s.jobs[e.job].arming == e.arming && s.jobs[e.job].est == s.rows[e.job].est)
  }

  ghost predicate ClientsOk(s: State) {
    forall c :: c in s.clients ==> ClientOk(s, s.clients[c])
  }

  ghost predicate ArmingsApart(s: State) {
    forall c, d :: c in s.clients && d in s.clients && c != d && HasArming(s.clients[c]) && HasArming(s.clients[d]) ==>
      s.clients[c].arming != s.clients[d].arming
  }

  ghost predicate Orderly(s: State) {
    && (forall j :: j in s.rows ==> RowOk(s, j))
    && ClientsOk(s)
    && ArmingsApart(s)
    && (forall j :: j in s.jobs ==> JobOk(s, j))
    && (forall n :: n in s.notices ==> NoticeOk(s, s.notices[n]))
  }

  lemma OrderlyAgrees(s: State, step: Step)
    requires Enabled(s, step) && Orderly(s) && Guarded(s, step)
    ensures Agrees(s, step)
    ensures !OverwritesReserved(s, step)
  {
    if step.Writes? {
      assert ClientOk(s, s.clients[step.c]);
    }
  }

  /** At most one request stands between arming a given row and being done with enqueueing. */
  lemma SoleArmer(s: State, c: nat, d: nat)
    requires Orderly(s) && c in s.clients && d in s.clients && c != d
    requires BeforeEnqueue(s.clients[c]) && (BeforeEnqueue(s.clients[d]) || s.clients[d].Abandoning?)
    ensures s.clients[c].job != s.clients[d].job
  {
    assert ClientOk(s, s.clients[c]) && ClientOk(s, s.clients[d]);
  }

  lemma SettleOrderly(s: State, job: JobId, status: Status, cost: int, spent: nat)
    requires Orderly(s) && IsReserved(s, job) && status != Reserved
    requires forall c :: c in s.clients && BeforeEnqueue(s.clients[c]) ==> s.clients[c].job != job
    ensures Orderly(Settle(s, job, status, cost).(spent := spent))
  {
    var t := Settle(s, job, status, cost).(spent := spent);
    forall c | c in t.clients ensures ClientOk(t, t.clients[c]) {
      assert ClientOk(s, s.clients[c]);
    }
    forall n | n in t.notices ensures NoticeOk(t, t.notices[n]) {
      assert NoticeOk(s, s.notices[n]);
    }
    forall j | j in t.jobs ensures JobOk(t, j) {
      assert JobOk(s, j);
    }
  }

  lemma ArmOrderly(s: State, c: nat, job: JobId, est: nat)
    requires Orderly(s) && c in s.clients
    requires Quiescent(s, job) && !IsReserved(s, job)
    ensures Orderly(Arm(s, c, job, est))
  {
    var t := Arm(s, c, job, est);
    forall d | d in t.clients ensures ClientOk(t, t.clients[d]) {
      if d != c {
        assert ClientOk(s, s.clients[d]);
      }
    }
    forall n | n in t.notices ensures NoticeOk(t, t.notices[n]) {
      assert NoticeOk(s, s.notices[n]);
    }
    forall j | j in t.jobs ensures JobOk(t, j) {
      assert JobOk(s, j);
    }
  }

  lemma PutOrderly(s: State, c: nat, client: Client, cost: int, spent: nat)
    requires Orderly(s) && ClientOk(s, client)
    requires HasArming(client) ==> c in s.clients && HasArming(s.clients[c]) && s.clients[c].arming == client.arming
    ensures Orderly(Put(s, c, client).(cost := cost, spent := spent))
  {
    var t := Put(s, c, client).(cost := cost, spent := spent);
    forall d | d in t.clients ensures ClientOk(t, t.clients[d]) {
      if d != c {
        assert ClientOk(s, s.clients[d]);
      }
    }
    forall n | n in t.notices ensures NoticeOk(t, t.notices[n]) {
      assert NoticeOk(s, s.notices[n]);
    }
    forall j | j in t.jobs ensures JobOk(t, j) {
      assert JobOk(s, j);
    }
  }

  lemma EnqueueOrderly(s: State, c: nat)
    requires Orderly(s) && MoveEnabled(s, c, EnqueueCreated)
    ensures Orderly(ApplyMove(s, c, EnqueueCreated))
  {
    var x, t := s.clients[c], ApplyMove(s, c, EnqueueCreated);
    assert ClientOk(s, x);
    forall d | d in t.clients ensures ClientOk(t, t.clients[d]) {
      if d != c {
        assert ClientOk(s, s.clients[d]);
      }
    }
    forall n | n in t.notices ensures NoticeOk(t, t.notices[n]) {
      assert NoticeOk(s, s.notices[n]);
    }
    forall j | j in t.jobs ensures JobOk(t, j) {
      assert j == x.job || JobOk(s, j);
    }
  }

  lemma MoveOrderly(s: State, c: nat, move: Move)
    requires Orderly(s) && MoveEnabled(s, c, move) && Guarded(s, Moves(c, move))
    ensures Orderly(ApplyMove(s, c, move))
  {
    assert ClientOk(s, s.clients[c]);
    if move.EnqueueCreated? {
      EnqueueOrderly(s, c);
    } else {
      if move.ReadRow? && s.clients[c].job in s.rows {
        assert RowOk(s, s.clients[c].job);
      }
      PutOrderly(s, c, Moved(s, c, move), s.cost, s.spent);
    }
  }

  /** A compare-and-set by the owner of the current arming, or by a stale takeover, leaves everyone else in order. */
  lemma CasOrderly(s: State, job: JobId, est: nat, actual: nat)
    requires Orderly(s)
    requires forall c :: c in s.clients && BeforeEnqueue(s.clients[c]) ==> s.clients[c].job != job
    ensures Orderly(CasRefund(s, job, est)) && Orderly(CasReconcile(s, job, est, actual))
  {
    CasRefundOrderly(s, job, est);
    CasReconcileOrderly(s, job, est, actual);
  }

  lemma CasRefundOrderly(s: State, job: JobId, est: nat)
    requires Orderly(s)
    requires forall c :: c in s.clients && BeforeEnqueue(s.clients[c]) ==> s.clients[c].job != job
    ensures Orderly(CasRefund(s, job, est))
  {
    if IsReserved(s, job) {
      SettleOrderly(s, job, Refunded, SafeDecrement(s.cost, est), s.spent);
    }
  }

  lemma CasReconcileOrderly(s: State, job: JobId, est: nat, actual: nat)
    requires Orderly(s)
    requires forall c :: c in s.clients && BeforeEnqueue(s.clients[c]) ==> s.clients[c].job != job
    ensures Orderly(CasReconcile(s, job, est, actual))
  {
    if IsReserved(s, job) {
      SettleOrderly(s, job, Reconciled, Adjust(s.cost, est, actual), s.spent + actual);
    }
  }

  lemma ArmStepOrderly(s: State, c: nat, write: Write)
    requires Orderly(s) && WriteEnabled(s, c, write) && Guarded(s, Writes(c, write))
    requires write.CreateRow? || write.Overwrite?
    ensures Orderly(ApplyWrite(s, c, write))
  {
    var x := s.clients[c];
    assert ClientOk(s, x);
    if write.CreateRow? && x.job in s.rows {
      PutOrderly(s, c, Rereading(x.job, x.est), s.cost, s.spent);
    } else {
      if write.CreateRow? {
        UnknownJobIsQuiescent(s, x.job);
      }
      ArmOrderly(s, c, x.job, x.est);
    }
  }

  lemma UnknownJobIsQuiescent(s: State, job: JobId)
    requires Orderly(s) && job !in s.rows
    ensures Quiescent(s, job)
  {
    assert job in s.jobs ==> JobOk(s, job);
    forall n | n in s.notices ensures s.notices[n].job != job {
      assert NoticeOk(s, s.notices[n]);
    }
    forall c | c in s.clients && s.clients[c].Abandoning? ensures s.clients[c].job != job {
      assert ClientOk(s, s.clients[c]);
    }
  }

  lemma TakeOverOrderly(s: State, c: nat)
    requires Orderly(s) && WriteEnabled(s, c, TakeOver) && Guarded(s, Writes(c, TakeOver))
    ensures Orderly(ApplyWrite(s, c, TakeOver))
  {
    var x := s.clients[c];
    assert ClientOk(s, x);
    forall d | d in s.clients && BeforeEnqueue(s.clients[d]) ensures s.clients[d].job != x.job {
      assert ClientOk(s, s.clients[d]);
    }
    CasOrderly(s, x.job, x.snap.est, 0);
    PutOrderly(CasRefund(s, x.job, x.snap.est), c, Overwriting(x.job, x.est, x.snap),
               CasRefund(s, x.job, x.snap.est).cost, s.spent);
  }

  /** A request that refunds itself first leaves, then settles its row: nobody else is before enqueueing on it. */
  lemma OwnRefundOrderly(s: State, c: nat, write: Write)
    requires Orderly(s) && WriteEnabled(s, c, write) && (write.Unwind? || write.Abandon?)
    ensures Orderly(ApplyWrite(s, c, write))
  {
    var x := s.clients[c];
    var t := Put(s, c, Done);
    PutOrderly(s, c, Done, s.cost, s.spent);
    forall d | d in t.clients && BeforeEnqueue(t.clients[d]) ensures t.clients[d].job != x.job {
      assert d != c && t.clients[d] == s.clients[d];
      SoleArmer(s, d, c);
    }
    CasOrderly(t, x.job, x.est, 0);
    assert CasRefund(t, x.job, x.est) == ApplyWrite(s, c, write);
  }

  lemma BookingOrderly(s: State, c: nat, booking: Booking)
    requires Orderly(s) && BookingEnabled(s, c, booking)
    ensures Orderly(ApplyBooking(s, c, booking))
  {
    var t := ApplyBooking(s, c, booking);
    PutOrderly(s, c, t.clients[c], t.cost, t.spent);
  }

  /** Bookkeeping of events and jobs: rows and clients stay, no job goes live, no notice comes before the enqueueing. */
  lemma NoticesOrderly(s: State, jobs: map<JobId, Job>, notices: map<nat, Notice>)
    requires Orderly(s)
    requires forall j :: j in jobs ==> j in s.jobs && (jobs[j].state == Live ==> s.jobs[j].state == Live)
    requires forall j :: j in jobs ==> jobs[j].arming == s.jobs[j].arming && jobs[j].est == s.jobs[j].est
    requires forall n :: n in notices ==> NoticeOk(s, notices[n])
    requires forall n, c :: n in notices && c in s.clients && BeforeEnqueue(s.clients[c]) ==>
               notices[n].job != s.clients[c].job
    ensures Orderly(s.(jobs := jobs, notices := notices))
  {
    var t := s.(jobs := jobs, notices := notices);
    forall d | d in t.clients ensures ClientOk(t, t.clients[d]) {
      assert ClientOk(s, s.clients[d]);
    }
    forall j | j in t.jobs ensures JobOk(t, j) {
      assert JobOk(s, j);
    }
  }

  lemma BusyJobsAreEnqueued(s: State, job: JobId, c: nat)
    requires Orderly(s) && c in s.clients && BeforeEnqueue(s.clients[c])
    requires IsLive(s, job) || exists n :: n in s.notices && s.notices[n].job == job
    ensures s.clients[c].job != job
  {
    assert ClientOk(s, s.clients[c]);
  }

  lemma QueueOrderly(s: State, job: JobId, event: JobEvent)
    requires Orderly(s) && JobEventEnabled(s, job, event)
    ensures Orderly(ApplyJobEvent(s, job, event))
  {
    var t := ApplyJobEvent(s, job, event);
    assert JobOk(s, job);
    forall n | n in t.notices ensures NoticeOk(s, t.notices[n]) {
      assert n in s.notices && t.notices[n] == s.notices[n] ==> NoticeOk(s, s.notices[n]);
    }
    forall n, c | n in t.notices && c in s.clients && BeforeEnqueue(s.clients[c])
      ensures t.notices[n].job != s.clients[c].job
    {
      BusyJobsAreEnqueued(s, t.notices[n].job, c);
    }
    NoticesOrderly(s, t.jobs, t.notices);
  }

  lemma DeliveryOrderly(s: State, n: nat, delivery: Delivery)
    requires Orderly(s) && DeliveryEnabled(s, n, delivery)
    ensures Orderly(ApplyDelivery(s, n, delivery))
  {
    var t := ApplyDelivery(s, n, delivery);
    assert NoticeOk(s, s.notices[n]);
    forall m | m in t.notices ensures NoticeOk(s, t.notices[m]) {
      assert m in s.notices && t.notices[m] == s.notices[m] ==> NoticeOk(s, s.notices[m]);
    }
    forall m, c | m in t.notices && c in s.clients && BeforeEnqueue(s.clients[c])
      ensures t.notices[m].job != s.clients[c].job
    {
      BusyJobsAreEnqueued(s, t.notices[m].job, c);
    }
    NoticesOrderly(s, t.jobs, t.notices);
  }

  lemma SettlementOrderly(s: State, n: nat)
    requires Orderly(s) && Enabled(s, Settles(n))
    ensures Orderly(ApplySettlement(s, n))
  {
    var e := s.notices[n];
    forall c | c in s.clients && BeforeEnqueue(s.clients[c]) ensures s.clients[c].job != e.job {
      BusyJobsAreEnqueued(s, e.job, c);
    }
    var actual := if e.ReconcileReady? then e.actual else 0;
    CasOrderly(s, e.job, e.est, actual);
    var t := if e.ReconcileReady? then CasReconcile(s, e.job, e.est, actual) else CasRefund(s, e.job, e.est);
    forall m, c | m in t.notices && c in t.clients && BeforeEnqueue(t.clients[c])
      ensures t.notices[m].job != t.clients[c].job
    {
      BusyJobsAreEnqueued(t, t.notices[m].job, c);
    }
    NoticesOrderly(t, t.jobs, t.notices - {n});
  }

  lemma TickOrderly(s: State, ms: nat)
    requires Orderly(s) && Prompt(s, ms)
    ensures Orderly(s.(now := s.now + ms))
  {
    var t := s.(now := s.now + ms);
    forall d | d in t.clients ensures ClientOk(t, t.clients[d]) {
      assert ClientOk(s, s.clients[d]);
    }
    forall n | n in t.notices ensures NoticeOk(t, t.notices[n]) {
      assert NoticeOk(s, s.notices[n]);
    }
    forall j | j in t.jobs ensures JobOk(t, j) {
      assert JobOk(s, j);
    }
  }

  lemma StepOrderly(s: State, step: Step)
    requires Enabled(s, step) && Orderly(s) && Guarded(s, step)
    ensures Orderly(Apply(s, step))
  {
    match step
    case Tick(ms) => TickOrderly(s, ms);
    case Moves(c, move) => MoveOrderly(s, c, move);
    case Writes(c, write) =>
      if write.TakeOver? { TakeOverOrderly(s, c); }
      else if write.CreateRow? || write.Overwrite? { ArmStepOrderly(s, c, write); }
      else { OwnRefundOrderly(s, c, write); }
    case Books(c, booking) => BookingOrderly(s, c, booking);
    case Queue(job, event) => QueueOrderly(s, job, event);
    case Deliver(n, delivery) => DeliveryOrderly(s, n, delivery);
    case Settles(n) => SettlementOrderly(s, n);
  }

  lemma {:induction false} GuardedRunBalances(s: State, steps: seq<Step>)
    requires Run(s, steps) && GuardedRun(s, steps)
    requires Balanced(s) && Small(s) && Orderly(s) && ArmingsDistinct(s)
    ensures Balanced(After(s, steps)) && ArmingsDistinct(After(s, steps)) && ChargedExactly(s, steps)
    ensures NeverOverwrites(s, steps)
    decreases |steps|
  {
    if steps != [] {
      OrderlyAgrees(s, steps[0]);
      StepBalances(s, steps[0]);
      StepOrderly(s, steps[0]);
      StepKeepsArmings(s, steps[0]);
      GuardedRunBalances(Apply(s, steps[0]), steps[1..]);
    }
  }

  /**
   * Under the timing guards, whatever each request estimates: the month's cost
   * is the estimates of requests not yet armed, plus the estimates of reserved
   * rows, plus the actual cost of everything reconciled, plus what failing
   * probes and refunds leaked. No reserved row is ever lost, no floor or cut-off
   * bites, and each arming is settled at most once.
   */
  lemma GuardedConservation(init: State, steps: seq<Step>)
    requires Initial(init) && Run(init, steps) && GuardedRun(init, steps)
    ensures var s := After(init, steps);
            && s.cost == Total(s.clients, Held) + Total(s.rows, ReservedEst) + s.spent + LeakedTotal(s)
            && (LeakedTotal(s) == 0 <==> NeverLeaks(init, steps))
            && (forall a :: s.settlements[a] <= 1)
    ensures ChargedExactly(init, steps)
  {
    GuardedRunBalances(init, steps);
    LostOnlyGrows(init, steps);
    LeakOnlyGrows(init, steps);
    TotalSplits(After(init, steps).clients, Carried, Held, LeakedEst);
  }
}
