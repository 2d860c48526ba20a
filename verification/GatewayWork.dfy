/**
 * What the jobs of the gateway cost, and how much of it the ledger ever learns. The step system books a cost
 * when a handler reconciles a row; here a history notes, for every arming, what its job cost when it completed
 * and how often that was booked.
 */
module GatewayWork {
  import opened GatewayProtocol
  import opened GatewayConservation
  import opened GatewayTiming
  import opened Totals

  /** The cost of the completed job of one arming, and how often it was booked. */
  datatype Work = Work(cost: nat, times: nat)

  /** By arming; and what ingests and hosted reviews, which have no rows, have spent. */
  datatype History = History(work: map<nat, Work>, direct: nat)

  const NOTHING := History(map[], 0)

  /** What the provider call behind a completing job cost: what it reports, or else its estimate. */
  function CostOf(s: State, step: Step): nat
    requires Enabled(s, step) && step.Queue? && step.event.Complete?
  {
    if step.event.usable then step.event.reported else s.jobs[step.job].est
  }

  predicate Completes(step: Step) { step.Queue? && step.event.Complete? }

  /** A handler finds its row still reserved and books the cost it has read. */
  predicate Reconciles(s: State, step: Step)
    requires Enabled(s, step)
  {
    step.Settles? && s.notices[step.n].ReconcileReady? && IsReserved(s, s.notices[step.n].job)
  }

  function Note(h: History, s: State, step: Step): History
    requires Enabled(s, step)
  {
    if Completes(step) then h.(work := h.work[s.jobs[step.job].arming := Work(CostOf(s, step), 0)])
    else if Reconciles(s, step) then
      var e := s.notices[step.n];
      h.(work := h.work[e.arming :=
        if e.arming in h.work then Work(h.work[e.arming].cost, h.work[e.arming].times + 1) else Work(e.actual, 1)])
    else if step.Books? && step.booking.DirectSettle? then h.(direct := h.direct + step.booking.actual)
    else h
  }

  /** The history of a run that goes on from `h`. */
  ghost function Noted(h: History, s: State, steps: seq<Step>): History
    requires Run(s, steps)
    decreases |steps|
  {
    if steps == [] then h else Noted(Note(h, s, steps[0]), Apply(s, steps[0]), steps[1..])
  }

  function Cost(w: Work): nat { w.cost }

  function BookedCost(w: Work): nat { w.times * w.cost }

  function UnbookedCost(w: Work): nat { if w.times == 0 then w.cost else 0 }

  function RebookedCost(w: Work): nat { if w.times == 0 then 0 else (w.times - 1) * w.cost }

  /** What all completed jobs cost, what of it was never booked, and what was booked more than once. */
  ghost function Worked(h: History): nat { Total(h.work, Cost) }

  ghost function Unbooked(h: History): nat { Total(h.work, UnbookedCost) }

  ghost function Rebooked(h: History): nat { Total(h.work, RebookedCost) }

  /******* The history and the state *******/

  /** An arming is enqueued once, and a job completes once. */
  ghost predicate JobTraced(s: State, h: History, job: Job) {
    && job.arming < |s.armings| && s.armings[job.arming] == job.est
    && (job.state != Completed ==> job.arming !in h.work)
  }

  ghost predicate ArmerTraced(s: State, h: History, x: Client) {
    x.Armed? ==>
      && x.arming < |s.armings| && s.armings[x.arming] == x.est && x.arming !in h.work
      && forall j :: j in s.jobs ==> s.jobs[j].arming != x.arming
  }

  ghost predicate NoticeTraced(s: State, h: History, e: Notice) {
    && (e.CompletedEvent? ==>
          && e.arming in h.work && e.arming < |s.armings|
          && h.work[e.arming].cost == if e.usable then e.reported else s.armings[e.arming])
    && (e.ReconcileReady? ==> e.arming in h.work && h.work[e.arming].cost == e.actual)
  }

  ghost predicate JobsApart(s: State) {
    forall j, k :: j in s.jobs && k in s.jobs && j != k ==> s.jobs[j].arming != s.jobs[k].arming
  }

  ghost predicate ArmersApart(s: State) {
    forall c, d :: c in s.clients && d in s.clients && c != d && s.clients[c].Armed? && s.clients[d].Armed? ==>
      s.clients[c].arming != s.clients[d].arming
  }

  ghost predicate SpentTraced(s: State, h: History) { s.spent == h.direct + Total(h.work, BookedCost) }

  ghost predicate Traced(s: State, h: History) {
    && (forall a :: a in h.work ==> a < |s.armings|)
    && (forall j :: j in s.jobs ==> JobTraced(s, h, s.jobs[j]))
    && JobsApart(s)
    && (forall c :: c in s.clients ==> ArmerTraced(s, h, s.clients[c]))
    && ArmersApart(s)
    && (forall n :: n in s.notices ==> NoticeTraced(s, h, s.notices[n]))
    && SpentTraced(s, h)
  }

  /** A handler that falls back on the job's estimate reads that of its own arming. */
  predicate ReadsOwn(s: State, step: Step)
    requires Enabled(s, step)
  {
    step.Deliver? && step.delivery.ReadCompleted? ==>
      var e := s.notices[step.n];
      e.job in s.jobs && !e.usable && e.arming < |s.armings| ==> s.jobs[e.job].est == s.armings[e.arming]
  }

  lemma MoveTraced(s: State, h: History, c: nat, move: Move)
    requires MoveEnabled(s, c, move) && Traced(s, h)
    ensures Traced(ApplyMove(s, c, move), h)
  {
    var t := ApplyMove(s, c, move);
    assert ArmerTraced(s, h, s.clients[c]);
    forall j | j in t.jobs ensures JobTraced(t, h, t.jobs[j]) {
      assert j in s.jobs ==> JobTraced(s, h, s.jobs[j]);
    }
    forall d | d in t.clients ensures ArmerTraced(t, h, t.clients[d]) {
      assert d in s.clients ==> ArmerTraced(s, h, s.clients[d]);
    }
    forall n | n in t.notices ensures NoticeTraced(t, h, t.notices[n]) {
      assert NoticeTraced(s, h, s.notices[n]);
    }
  }

  /** The traces depend on the estimates by arming, which only ever grow, and on jobs, clients and notices. */
  lemma ArmTraced(s: State, h: History, c: nat, job: JobId, est: nat)
    requires Traced(s, h)
    ensures Traced(Arm(s, c, job, est), h)
  {
    var t := Arm(s, c, job, est);
    forall j | j in t.jobs ensures JobTraced(t, h, t.jobs[j]) {
      assert JobTraced(s, h, s.jobs[j]);
    }
    forall d | d in t.clients ensures ArmerTraced(t, h, t.clients[d]) {
      if d == c {
        forall j | j in s.jobs ensures s.jobs[j].arming != |s.armings| {
          assert JobTraced(s, h, s.jobs[j]);
        }
      } else {
        assert ArmerTraced(s, h, s.clients[d]);
      }
    }
    forall n | n in t.notices ensures NoticeTraced(t, h, t.notices[n]) {
      assert NoticeTraced(s, h, s.notices[n]);
    }
    forall d, e | d in t.clients && e in t.clients && d != e && t.clients[d].Armed? && t.clients[e].Armed?
      ensures t.clients[d].arming != t.clients[e].arming
    {
      assert d != c ==> ArmerTraced(s, h, s.clients[d]);
      assert e != c ==> ArmerTraced(s, h, s.clients[e]);
    }
  }

  /** A step that changes one client, not to an armed one, and perhaps rows, settlements and amounts. */
  lemma OtherTraced(s: State, h: History, t: State, g: History, c: nat)
    requires Traced(s, h)
    requires t.jobs == s.jobs && t.notices == s.notices && t.armings == s.armings && g.work == h.work
    requires t.spent - g.direct == s.spent - h.direct
    requires c in t.clients && t.clients == s.clients[c := t.clients[c]] && !t.clients[c].Armed?
    ensures Traced(t, g)
  {
    forall d | d in t.clients ensures ArmerTraced(t, g, t.clients[d]) {
      assert d != c ==> ArmerTraced(s, h, s.clients[d]);
    }
    forall j | j in t.jobs ensures JobTraced(t, g, t.jobs[j]) {
      assert JobTraced(s, h, s.jobs[j]);
    }
    forall n | n in t.notices ensures NoticeTraced(t, g, t.notices[n]) {
      assert NoticeTraced(s, h, s.notices[n]);
    }
  }

  lemma WriteTraced(s: State, h: History, c: nat, write: Write)
    requires WriteEnabled(s, c, write) && Traced(s, h)
    ensures Traced(ApplyWrite(s, c, write), h)
  {
    var x := s.clients[c];
    if write.Overwrite? || (write.CreateRow? && x.job !in s.rows) {
      ArmTraced(s, h, c, x.job, x.est);
    } else {
      OtherTraced(s, h, ApplyWrite(s, c, write), h, c);
    }
  }

  lemma CompleteTraced(s: State, h: History, step: Step)
    requires Enabled(s, step) && Completes(step) && Traced(s, h)
    ensures Traced(Apply(s, step), Note(h, s, step))
  {
    var t, g := Apply(s, step), Note(h, s, step);
    var a := s.jobs[step.job].arming;
    assert JobTraced(s, h, s.jobs[step.job]);
    TotalPut(h.work, a, Work(CostOf(s, step), 0), BookedCost);
    forall j | j in t.jobs ensures JobTraced(t, g, t.jobs[j]) {
      assert JobTraced(s, h, s.jobs[j]);
    }
    forall c | c in t.clients ensures ArmerTraced(t, g, t.clients[c]) {
      assert ArmerTraced(s, h, s.clients[c]);
    }
    forall n | n in t.notices ensures NoticeTraced(t, g, t.notices[n]) {
      assert n in s.notices ==> NoticeTraced(s, h, s.notices[n]);
    }
  }

  /** Jobs only go, or fail; notices are made from those that were there. */
  lemma NoticesTraced(s: State, h: History, jobs: map<JobId, Job>, notices: map<nat, Notice>)
    requires Traced(s, h)
    requires forall j :: j in jobs ==>
      j in s.jobs && jobs[j].arming == s.jobs[j].arming && jobs[j].est == s.jobs[j].est
      && (s.jobs[j].state == Completed <==> jobs[j].state == Completed)
    requires forall n :: n in notices ==> NoticeTraced(s, h, notices[n])
    ensures Traced(s.(jobs := jobs, notices := notices), h)
  {
    var t := s.(jobs := jobs, notices := notices);
    forall j | j in t.jobs ensures JobTraced(t, h, t.jobs[j]) {
      assert JobTraced(s, h, s.jobs[j]);
    }
    forall c | c in t.clients ensures ArmerTraced(t, h, t.clients[c]) {
      assert ArmerTraced(s, h, s.clients[c]);
    }
  }

  lemma QueueTraced(s: State, h: History, job: JobId, event: JobEvent)
    requires JobEventEnabled(s, job, event) && !event.Complete? && Traced(s, h)
    ensures Traced(ApplyJobEvent(s, job, event), h)
  {
    var t := ApplyJobEvent(s, job, event);
    forall n | n in t.notices ensures NoticeTraced(s, h, t.notices[n]) {
      assert n in s.notices ==> NoticeTraced(s, h, s.notices[n]);
    }
    NoticesTraced(s, h, t.jobs, t.notices);
  }

  lemma DeliveryTraced(s: State, h: History, n: nat, delivery: Delivery)
    requires DeliveryEnabled(s, n, delivery) && ReadsOwn(s, Deliver(n, delivery)) && Traced(s, h)
    ensures Traced(ApplyDelivery(s, n, delivery), h)
  {
    var t := ApplyDelivery(s, n, delivery);
    assert NoticeTraced(s, h, s.notices[n]);
    forall m | m in t.notices ensures NoticeTraced(s, h, t.notices[m]) {
      assert m in s.notices ==> NoticeTraced(s, h, s.notices[m]);
    }
    NoticesTraced(s, h, t.jobs, t.notices);
  }

  lemma OnceMore(w: Work)
    ensures BookedCost(Work(w.cost, w.times + 1)) == BookedCost(w) + w.cost
  {
  }

  /** A booking raises what was spent by the cost of the arming it is made for. */
  lemma ReconcileTraced(s: State, h: History, step: Step)
    requires Enabled(s, step) && Reconciles(s, step) && Traced(s, h)
    ensures Traced(Apply(s, step), Note(h, s, step))
  {
    var e, t, g := s.notices[step.n], Apply(s, step), Note(h, s, step);
    assert NoticeTraced(s, h, e);
    OnceMore(h.work[e.arming]);
    TotalPut(h.work, e.arming, g.work[e.arming], BookedCost);
    forall j | j in t.jobs ensures JobTraced(t, g, t.jobs[j]) {
      assert JobTraced(s, h, s.jobs[j]);
    }
    forall c | c in t.clients ensures ArmerTraced(t, g, t.clients[c]) {
      assert ArmerTraced(s, h, s.clients[c]);
    }
    forall n | n in t.notices ensures NoticeTraced(t, g, t.notices[n]) {
      assert NoticeTraced(s, h, s.notices[n]);
    }
  }

  lemma SettlementTraced(s: State, h: History, n: nat)
    requires Enabled(s, Settles(n)) && !Reconciles(s, Settles(n)) && Traced(s, h)
    ensures Traced(ApplySettlement(s, n), h)
  {
    var t := ApplySettlement(s, n);
    forall j | j in t.jobs ensures JobTraced(t, h, t.jobs[j]) {
      assert JobTraced(s, h, s.jobs[j]);
    }
    forall c | c in t.clients ensures ArmerTraced(t, h, t.clients[c]) {
      assert ArmerTraced(s, h, s.clients[c]);
    }
    forall m | m in t.notices ensures NoticeTraced(t, h, t.notices[m]) {
      assert NoticeTraced(s, h, s.notices[m]);
    }
  }

  lemma BookingTraced(s: State, h: History, c: nat, booking: Booking)
    requires BookingEnabled(s, c, booking) && Traced(s, h)
    ensures Traced(ApplyBooking(s, c, booking), Note(h, s, Books(c, booking)))
  {
    OtherTraced(s, h, ApplyBooking(s, c, booking), Note(h, s, Books(c, booking)), c);
  }

  /** Every step of every run keeps the history in step with the state. */
  lemma StepTraced(s: State, h: History, step: Step)
    requires Enabled(s, step) && Traced(s, h) && ReadsOwn(s, step)
    ensures Traced(Apply(s, step), Note(h, s, step))
  {
    match step
    case Moves(c, move) => MoveTraced(s, h, c, move);
    case Writes(c, write) => WriteTraced(s, h, c, write);
    case Queue(job, event) =>
      if event.Complete? { CompleteTraced(s, h, step); } else { QueueTraced(s, h, job, event); }
    case Deliver(n, delivery) => DeliveryTraced(s, h, n, delivery);
    case Books(c, booking) => BookingTraced(s, h, c, booking);
    case Settles(n) =>
      if Reconciles(s, step) { ReconcileTraced(s, h, step); } else { SettlementTraced(s, h, n); }
    case Tick(ms) => TickTraced(s, h, ms);
  }

  lemma TickTraced(s: State, h: History, ms: nat)
    requires Traced(s, h)
    ensures Traced(s.(now := s.now + ms), h)
  {
    NoticesTraced(s.(now := s.now + ms), h, s.jobs, s.notices);
  }

  /******* Runs in which a job's estimate never varies *******/

  /** The completed events of a job stand for an arming with its estimate. */
  ghost predicate EventsFixed(s: State, estOf: JobId -> nat) {
    forall n :: n in s.notices && s.notices[n].CompletedEvent? ==>
      s.notices[n].arming < |s.armings| && s.armings[s.notices[n].arming] == estOf(s.notices[n].job)
  }

  lemma FixedReadsOwn(s: State, step: Step, estOf: JobId -> nat)
    requires Enabled(s, step) && Fixed(s, estOf) && EventsFixed(s, estOf)
    ensures ReadsOwn(s, step)
  {
  }

  lemma QueueKeepsEvents(s: State, h: History, job: JobId, event: JobEvent, estOf: JobId -> nat)
    requires JobEventEnabled(s, job, event) && Traced(s, h) && Fixed(s, estOf) && EventsFixed(s, estOf)
    ensures EventsFixed(ApplyJobEvent(s, job, event), estOf)
  {
    assert JobTraced(s, h, s.jobs[job]);
  }

  lemma DeliveryKeepsEvents(s: State, n: nat, delivery: Delivery, estOf: JobId -> nat)
    requires DeliveryEnabled(s, n, delivery) && EventsFixed(s, estOf)
    ensures EventsFixed(ApplyDelivery(s, n, delivery), estOf)
  {
  }

  lemma SettlementKeepsEvents(s: State, n: nat, estOf: JobId -> nat)
    requires Enabled(s, Settles(n)) && EventsFixed(s, estOf)
    ensures EventsFixed(ApplySettlement(s, n), estOf)
  {
  }

  lemma RequestsKeepEvents(s: State, step: Step, estOf: JobId -> nat)
    requires Enabled(s, step) && (step.Tick? || step.Moves? || step.Writes? || step.Books?) && EventsFixed(s, estOf)
    ensures EventsFixed(Apply(s, step), estOf)
  {
    var t := Apply(s, step);
    assert t.notices == s.notices;
    assert forall a :: 0 <= a < |s.armings| ==> a < |t.armings| && t.armings[a] == s.armings[a];
  }

  lemma StepKeepsEvents(s: State, h: History, step: Step, estOf: JobId -> nat)
    requires Enabled(s, step) && Traced(s, h) && Fixed(s, estOf) && EventsFixed(s, estOf)
    ensures EventsFixed(Apply(s, step), estOf)
  {
    match step
    case Queue(job, event) => QueueKeepsEvents(s, h, job, event, estOf);
    case Deliver(n, delivery) => DeliveryKeepsEvents(s, n, delivery, estOf);
    case Settles(n) => SettlementKeepsEvents(s, n, estOf);
    case _ => RequestsKeepEvents(s, step, estOf);
  }

  lemma FixedStepTraced(s: State, h: History, step: Step, estOf: JobId -> nat)
    requires Enabled(s, step) && FixedStep(step, estOf)
    requires Traced(s, h) && Fixed(s, estOf) && EventsFixed(s, estOf)
    ensures var t := Apply(s, step); Traced(t, Note(h, s, step)) && Fixed(t, estOf) && EventsFixed(t, estOf)
  {
    FixedReadsOwn(s, step, estOf);
    StepTraced(s, h, step);
    StepKeepsFixed(s, step, estOf);
    StepKeepsEvents(s, h, step, estOf);
  }

  lemma {:induction false} FixedRunTraced(s: State, h: History, steps: seq<Step>, estOf: JobId -> nat)
    requires Run(s, steps) && Traced(s, h) && Fixed(s, estOf) && EventsFixed(s, estOf)
    requires forall step :: step in steps ==> FixedStep(step, estOf)
    ensures Traced(After(s, steps), Noted(h, s, steps))
    decreases |steps|
  {
    if steps != [] {
      FixedStepTraced(s, h, steps[0], estOf);
      FixedRunTraced(Apply(s, steps[0]), Note(h, s, steps[0]), steps[1..], estOf);
    }
  }

  /** What was booked is what was worked, without what was not booked, and with what was booked again. */
  lemma {:induction false} BookedIsWorked(work: map<nat, Work>)
    ensures Total(work, BookedCost) + Total(work, UnbookedCost) == Total(work, Cost) + Total(work, RebookedCost)
    decreases |work|
  {
    if work != map[] {
      var k := PickKey(work);
      OneIsWorked(work[k]);
      BookedIsWorked(work - {k});
    }
  }

  lemma OneIsWorked(w: Work)
    ensures BookedCost(w) + UnbookedCost(w) == Cost(w) + RebookedCost(w)
  {
  }

  lemma InitiallyTraced(init: State)
    requires Initial(init)
    ensures Traced(init, NOTHING)
  {
    assert Total(NOTHING.work, BookedCost) == 0;
  }

  /** The booking of a cost that was booked before. */
  predicate Rebooks(h: History, s: State, step: Step)
    requires Enabled(s, step)
  {
    Reconciles(s, step) &&
    var e := s.notices[step.n];
    e.arming in h.work && h.work[e.arming].times > 0 && h.work[e.arming].cost > 0
  }

  ghost predicate NeverRebooks(h: History, s: State, steps: seq<Step>)
    requires Run(s, steps)
    decreases |steps|
  {
    steps == [] || (!Rebooks(h, s, steps[0]) && NeverRebooks(Note(h, s, steps[0]), Apply(s, steps[0]), steps[1..]))
  }

  lemma RebookedMore(w: Work)
    ensures RebookedCost(Work(w.cost, w.times + 1)) == RebookedCost(w) + if w.times > 0 then w.cost else 0
  {
  }

  lemma StepRebooks(h: History, s: State, step: Step)
    requires Enabled(s, step) && Traced(s, h)
    ensures Rebooked(Note(h, s, step)) == Rebooked(h)
      + if Rebooks(h, s, step) then h.work[s.notices[step.n].arming].cost else 0
  {
    if Completes(step) {
      var a := s.jobs[step.job].arming;
      assert JobTraced(s, h, s.jobs[step.job]);
      TotalPut(h.work, a, Work(CostOf(s, step), 0), RebookedCost);
    } else if Reconciles(s, step) {
      var e := s.notices[step.n];
      assert NoticeTraced(s, h, e);
      RebookedMore(h.work[e.arming]);
      TotalPut(h.work, e.arming, Work(h.work[e.arming].cost, h.work[e.arming].times + 1), RebookedCost);
    }
  }

  lemma {:induction false} RebookedOnlyGrows(h: History, s: State, steps: seq<Step>, estOf: JobId -> nat)
    requires Run(s, steps) && Traced(s, h) && Fixed(s, estOf) && EventsFixed(s, estOf)
    requires forall step :: step in steps ==> FixedStep(step, estOf)
    ensures Rebooked(Noted(h, s, steps)) >= Rebooked(h)
    ensures Rebooked(Noted(h, s, steps)) == Rebooked(h) <==> NeverRebooks(h, s, steps)
    decreases |steps|
  {
    if steps != [] {
      StepRebooks(h, s, steps[0]);
      FixedStepTraced(s, h, steps[0], estOf);
      RebookedOnlyGrows(Note(h, s, steps[0]), Apply(s, steps[0]), steps[1..], estOf);
    }
  }

  /**
   * The ledger against the work, with no timing assumption: when all is at rest, cost is what all completed jobs
   * cost and direct users spent, without what was never booked, and with what was booked again, lost or leaked.
   */
  lemma RestingWork(init: State, steps: seq<Step>, estOf: JobId -> nat)
    requires Initial(init) && Run(init, steps)
    requires forall step :: step in steps ==> FixedStep(step, estOf) && SmallStep(step)
    requires AtRest(After(init, steps))
    ensures var s, h := After(init, steps), Noted(NOTHING, init, steps);
      && s.cost == Worked(h) - Unbooked(h) + Rebooked(h) + h.direct + s.lost + LeakedTotal(s)
      && (Rebooked(h) == 0 <==> NeverRebooks(NOTHING, init, steps))
  {
    InitiallyTraced(init);
    FixedRunTraced(init, NOTHING, steps, estOf);
    RebookedOnlyGrows(NOTHING, init, steps, estOf);
    assert Rebooked(NOTHING) == 0;
    BookedIsWorked(Noted(NOTHING, init, steps).work);
    RestingCost(init, steps, estOf);
  }

  /******* Under the timing guards: exactly when work is never booked *******/

  /** An arming is settled, or its row is reserved. */
  ghost predicate SettledOrReserved(s: State, a: nat) {
    s.settlements[a] == 1 || exists j :: IsReserved(s, j) && s.rows[j].arming == a
  }

  ghost predicate ArmingsSettled(s: State) {
    forall a: nat :: a < |s.armings| ==> SettledOrReserved(s, a)
  }

  /** What is being refunded after a failure never completed, nor did what is not enqueued yet. */
  ghost predicate RefundUnworked(s: State, h: History, e: Notice) {
    e.FailedChecked? || e.RefundReady? ==>
      e.arming !in h.work && (e.job in s.jobs ==> s.jobs[e.job].state == Failed)
  }

  ghost predicate Unworked(s: State, h: History) {
    && (forall n :: n in s.notices ==> RefundUnworked(s, h, s.notices[n]))
    && (forall c :: c in s.clients && BeforeEnqueue(s.clients[c]) ==> s.clients[c].arming !in h.work)
  }

  /** Work is booked once at most, and only by settling its arming. */
  ghost predicate BookedOnce(s: State, h: History) {
    forall a :: a in h.work ==> h.work[a].times <= 1 && (h.work[a].times == 1 ==> s.settlements[a] == 1)
  }

  ghost predicate WorkKept(s: State, h: History) {
    ArmingsSettled(s) && Unworked(s, h) && BookedOnce(s, h)
  }

  /** Everything the steps of guarded runs keep. */
  ghost predicate InOrder(s: State, h: History) {
    Orderly(s) && ArmingsDistinct(s) && Traced(s, h) && WorkKept(s, h)
  }

  lemma GuardedReadsOwn(s: State, h: History, step: Step)
    requires Enabled(s, step) && Orderly(s) && Traced(s, h)
    ensures ReadsOwn(s, step)
  {
    if step.Deliver? && step.delivery.ReadCompleted? {
      var e := s.notices[step.n];
      assert NoticeOk(s, e);
      assert e.job in s.jobs ==> JobTraced(s, h, s.jobs[e.job]);
    }
  }

  /******* Armings stay settled or reserved *******/

  lemma SettleKeepsSettled(s: State, job: JobId, status: Status, cost: int)
    requires IsReserved(s, job) && ArmingsDistinct(s) && ArmingsSettled(s)
    ensures ArmingsSettled(Settle(s, job, status, cost))
  {
    var t := Settle(s, job, status, cost);
    forall a: nat | a < |t.armings| ensures SettledOrReserved(t, a) {
      assert SettledOrReserved(s, a);
      if a != s.rows[job].arming && s.settlements[a] != 1 {
        var j :| IsReserved(s, j) && s.rows[j].arming == a;
        assert IsReserved(t, j) && t.rows[j].arming == a;
      }
    }
  }

  lemma ArmKeepsSettled(s: State, c: nat, job: JobId, est: nat)
    requires ArmingsSettled(s) && !IsReserved(s, job)
    ensures ArmingsSettled(Arm(s, c, job, est))
  {
    var t := Arm(s, c, job, est);
    forall a: nat | a < |t.armings| ensures SettledOrReserved(t, a) {
      if a == |s.armings| {
        assert IsReserved(t, job) && t.rows[job].arming == a;
      } else {
        assert SettledOrReserved(s, a);
        if s.settlements[a] != 1 {
          var j :| IsReserved(s, j) && s.rows[j].arming == a;
          assert IsReserved(t, j) && t.rows[j].arming == a;
        }
      }
    }
  }

  lemma SameRowsSameSettled(s: State, t: State)
    requires ArmingsSettled(s)
    requires t.rows == s.rows && t.armings == s.armings && t.settlements == s.settlements
    ensures ArmingsSettled(t)
  {
    forall a: nat | a < |t.armings| ensures SettledOrReserved(t, a) {
      assert SettledOrReserved(s, a);
      if s.settlements[a] != 1 {
        var j :| IsReserved(s, j) && s.rows[j].arming == a;
        assert IsReserved(t, j);
      }
    }
  }

  lemma CasKeepsSettled(s: State, job: JobId, est: nat, actual: nat)
    requires ArmingsDistinct(s) && ArmingsSettled(s)
    ensures ArmingsSettled(CasRefund(s, job, est)) && ArmingsSettled(CasReconcile(s, job, est, actual))
  {
    if IsReserved(s, job) {
      SettleKeepsSettled(s, job, Refunded, SafeDecrement(s.cost, est));
      SettleKeepsSettled(s, job, Reconciled, Adjust(s.cost, est, actual));
      SameRowsSameSettled(Settle(s, job, Reconciled, Adjust(s.cost, est, actual)), CasReconcile(s, job, est, actual));
    }
  }

  lemma WriteKeepsSettled(s: State, c: nat, write: Write)
    requires WriteEnabled(s, c, write) && Orderly(s) && Guarded(s, Writes(c, write))
    requires ArmingsDistinct(s) && ArmingsSettled(s)
    ensures ArmingsSettled(ApplyWrite(s, c, write))
  {
    var x := s.clients[c];
    assert ClientOk(s, x);
    if write.CreateRow? && x.job in s.rows {
      SameRowsSameSettled(s, ApplyWrite(s, c, write));
    } else if write.CreateRow? || write.Overwrite? {
      ArmKeepsSettled(s, c, x.job, x.est);
    } else {
      var est := if write.TakeOver? then x.snap.est else x.est;
      CasKeepsSettled(s, x.job, est, 0);
      SameRowsSameSettled(CasRefund(s, x.job, est), ApplyWrite(s, c, write));
    }
  }

  lemma StepKeepsSettled(s: State, step: Step)
    requires Enabled(s, step) && Orderly(s) && Guarded(s, step)
    requires ArmingsDistinct(s) && ArmingsSettled(s)
    ensures ArmingsSettled(Apply(s, step))
  {
    if step.Writes? {
      WriteKeepsSettled(s, step.c, step.write);
    } else if step.Settles? {
      var e := s.notices[step.n];
      var actual := if e.ReconcileReady? then e.actual else 0;
      CasKeepsSettled(s, e.job, e.est, actual);
      var settled := if e.ReconcileReady? then CasReconcile(s, e.job, e.est, actual) else CasRefund(s, e.job, e.est);
      SameRowsSameSettled(settled, Apply(s, step));
    } else {
      OtherStepsLeaveRows(s, step);
      SameRowsSameSettled(s, Apply(s, step));
    }
  }

  /******* What has not completed, and what is booked once *******/

  /** The completing job's arming is that of its row, and of no other row. */
  lemma CompletingArming(s: State, step: Step, job: JobId)
    requires Enabled(s, step) && Completes(step) && Orderly(s) && ArmingsDistinct(s)
    ensures SameArming(s, step.job, s.jobs[step.job].arming)
    ensures SameArming(s, job, s.jobs[step.job].arming) ==> job == step.job
  {
    assert JobOk(s, step.job);
  }

  lemma CompleteKeepsUnworked(s: State, h: History, step: Step)
    requires Enabled(s, step) && Completes(step) && InOrder(s, h)
    ensures Unworked(Apply(s, step), Note(h, s, step))
  {
    var t, g := Apply(s, step), Note(h, s, step);
    forall n | n in t.notices ensures RefundUnworked(t, g, t.notices[n]) {
      if n in s.notices && t.notices[n] == s.notices[n] {
        var e := s.notices[n];
        assert NoticeOk(s, e) && RefundUnworked(s, h, e);
        CompletingArming(s, step, e.job);
      }
    }
    forall c | c in t.clients && BeforeEnqueue(t.clients[c]) ensures t.clients[c].arming !in g.work {
      var x := s.clients[c];
      assert ClientOk(s, x);
      CompletingArming(s, step, x.job);
    }
  }

  lemma NoticesKeepUnworked(s: State, h: History, notices: map<nat, Notice>)
    requires Unworked(s, h)
    requires forall m :: m in notices ==> RefundUnworked(s, h, notices[m])
    ensures Unworked(s.(notices := notices), h)
  {
    var t := s.(notices := notices);
    forall m | m in t.notices ensures RefundUnworked(t, h, t.notices[m]) {
      assert RefundUnworked(s, h, notices[m]);
    }
  }

  /** What a handler has checked is a failed job, which never completed. */
  lemma DeliveredUnworked(s: State, h: History, n: nat, delivery: Delivery)
    requires DeliveryEnabled(s, n, delivery) && InOrder(s, h)
    ensures n in ApplyDelivery(s, n, delivery).notices ==>
      RefundUnworked(s, h, ApplyDelivery(s, n, delivery).notices[n])
  {
    var e := s.notices[n];
    assert NoticeOk(s, e) && RefundUnworked(s, h, e);
    assert e.job in s.jobs ==> JobTraced(s, h, s.jobs[e.job]);
  }

  lemma DeliveryKeepsUnworked(s: State, h: History, n: nat, delivery: Delivery)
    requires DeliveryEnabled(s, n, delivery) && InOrder(s, h)
    ensures Unworked(ApplyDelivery(s, n, delivery), h)
  {
    var t := ApplyDelivery(s, n, delivery);
    DeliveredUnworked(s, h, n, delivery);
    assert RefundUnworked(s, h, s.notices[n]);
    forall m | m in t.notices ensures RefundUnworked(s, h, t.notices[m]) {
      assert m in s.notices ==> RefundUnworked(s, h, s.notices[m]);
    }
    NoticesKeepUnworked(s, h, t.notices);
  }

  lemma QueueKeepsUnworked(s: State, h: History, job: JobId, event: JobEvent)
    requires JobEventEnabled(s, job, event) && !event.Complete? && InOrder(s, h)
    ensures Unworked(ApplyJobEvent(s, job, event), h)
  {
    var t := ApplyJobEvent(s, job, event);
    forall m | m in t.notices ensures RefundUnworked(t, h, t.notices[m]) {
      assert m in s.notices ==> RefundUnworked(s, h, s.notices[m]);
    }
  }

  lemma MoveKeepsUnworked(s: State, h: History, c: nat, move: Move)
    requires MoveEnabled(s, c, move) && InOrder(s, h)
    ensures Unworked(ApplyMove(s, c, move), h)
  {
    var t, x := ApplyMove(s, c, move), s.clients[c];
    assert ClientOk(s, x);
    forall m | m in t.notices ensures RefundUnworked(t, h, t.notices[m]) {
      assert RefundUnworked(s, h, s.notices[m]);
    }
  }

  /** Only the requests that have just armed a row, or are unwinding, count here. */
  lemma ClientKeepsUnworked(s: State, h: History, t: State, c: nat)
    requires Unworked(s, h) && t.notices == s.notices && t.jobs == s.jobs
    requires c in t.clients && t.clients == s.clients[c := t.clients[c]]
    requires BeforeEnqueue(t.clients[c]) ==> t.clients[c].arming !in h.work
    ensures Unworked(t, h)
  {
    forall m | m in t.notices ensures RefundUnworked(t, h, t.notices[m]) {
      assert RefundUnworked(s, h, s.notices[m]);
    }
  }

  lemma WriteKeepsUnworked(s: State, h: History, c: nat, write: Write)
    requires WriteEnabled(s, c, write) && Traced(s, h) && Unworked(s, h)
    ensures Unworked(ApplyWrite(s, c, write), h)
  {
    ClientKeepsUnworked(s, h, ApplyWrite(s, c, write), c);
  }

  lemma BookingKeepsUnworked(s: State, h: History, c: nat, booking: Booking)
    requires BookingEnabled(s, c, booking) && InOrder(s, h)
    ensures Unworked(ApplyBooking(s, c, booking), Note(h, s, Books(c, booking)))
  {
    var t, g := ApplyBooking(s, c, booking), Note(h, s, Books(c, booking));
    forall m | m in t.notices ensures RefundUnworked(t, g, t.notices[m]) {
      assert RefundUnworked(s, h, s.notices[m]);
    }
  }

  lemma SettlementKeepsUnworked(s: State, h: History, step: Step)
    requires Enabled(s, step) && step.Settles? && InOrder(s, h)
    ensures Unworked(Apply(s, step), Note(h, s, step))
  {
    var t, g := Apply(s, step), Note(h, s, step);
    assert NoticeTraced(s, h, s.notices[step.n]);
    forall m | m in t.notices ensures RefundUnworked(t, g, t.notices[m]) {
      assert RefundUnworked(s, h, s.notices[m]);
    }
  }

  lemma RequestKeepsUnworked(s: State, h: History, step: Step)
    requires Enabled(s, step) && (step.Moves? || step.Writes? || step.Books?) && InOrder(s, h)
    ensures Unworked(Apply(s, step), Note(h, s, step))
  {
    match step
    case Moves(c, move) => MoveKeepsUnworked(s, h, c, move);
    case Writes(c, write) => WriteKeepsUnworked(s, h, c, write);
    case Books(c, booking) => BookingKeepsUnworked(s, h, c, booking);
  }

  lemma TickKeepsUnworked(s: State, h: History, ms: nat)
    requires Unworked(s, h)
    ensures Unworked(s.(now := s.now + ms), h)
  {
    NoticesKeepUnworked(s.(now := s.now + ms), h, s.notices);
  }

  lemma StepKeepsUnworked(s: State, h: History, step: Step)
    requires Enabled(s, step) && InOrder(s, h)
    ensures Unworked(Apply(s, step), Note(h, s, step))
  {
    match step
    case Tick(ms) => TickKeepsUnworked(s, h, ms);
    case Queue(job, event) =>
      if event.Complete? { CompleteKeepsUnworked(s, h, step); } else { QueueKeepsUnworked(s, h, job, event); }
    case Deliver(n, delivery) => DeliveryKeepsUnworked(s, h, n, delivery);
    case Settles(_) => SettlementKeepsUnworked(s, h, step);
    case _ => RequestKeepsUnworked(s, h, step);
  }

  /******* What wastes work *******/

  /** A request refunds a row that is still reserved, because it stops waiting or takes the row over. */
  predicate Refunds(s: State, step: Step)
    requires Enabled(s, step)
  {
    step.Writes? && (step.write.TakeOver? || step.write.Abandon?) && IsReserved(s, s.clients[step.c].job)
  }

  /** The arming whose row the step refunds. */
  function RefundedArming(s: State, step: Step): nat
    requires Enabled(s, step) && Refunds(s, step)
  {
    s.rows[s.clients[step.c].job].arming
  }

  /** A job completes at a cost when its row is not reserved any more, or such a job's row is refunded. */
  predicate Wastes(h: History, s: State, step: Step)
    requires Enabled(s, step)
  {
    || (Completes(step) && CostOf(s, step) > 0 && !IsReserved(s, step.job))
    || (Refunds(s, step) && RefundedArming(s, step) in h.work && h.work[RefundedArming(s, step)].cost > 0)
  }

  ghost predicate NeverWastes(h: History, s: State, steps: seq<Step>)
    requires Run(s, steps)
    decreases |steps|
  {
    steps == [] || (!Wastes(h, s, steps[0]) && NeverWastes(Note(h, s, steps[0]), Apply(s, steps[0]), steps[1..]))
  }

  /** Work that cost something and whose arming is settled was booked. */
  ghost predicate NoneWasted(s: State, h: History) {
    forall a :: a in h.work && h.work[a].cost > 0 && s.settlements[a] == 1 ==> h.work[a].times == 1
  }

  /** What the step says about booked work and wasted work. */
  ghost predicate WasteTold(s: State, h: History, step: Step)
    requires Enabled(s, step)
  {
    var t, g := Apply(s, step), Note(h, s, step);
    && BookedOnce(t, g)
    && (NoneWasted(t, g) <==> NoneWasted(s, h) && !Wastes(h, s, step))
  }

  lemma CompleteTells(s: State, h: History, step: Step)
    requires Enabled(s, step) && Completes(step) && InOrder(s, h)
    ensures WasteTold(s, h, step)
  {
    var t, g, j := Apply(s, step), Note(h, s, step), step.job;
    var a := s.jobs[j].arming;
    assert JobOk(s, j) && JobTraced(s, h, s.jobs[j]) && SettledOrReserved(s, a);
    assert s.settlements[a] == 1 <==> !IsReserved(s, j);
    assert g.work == h.work[a := Work(CostOf(s, step), 0)] && a !in h.work;
    if CostOf(s, step) > 0 && s.settlements[a] == 1 {
      assert g.work[a].times == 0;
    } else if NoneWasted(t, g) {
      forall b | b in h.work && h.work[b].cost > 0 && s.settlements[b] == 1 ensures h.work[b].times == 1 {
        assert g.work[b] == h.work[b];
      }
    }
  }

  lemma ReconcileTells(s: State, h: History, step: Step)
    requires Enabled(s, step) && Reconciles(s, step) && InOrder(s, h)
    ensures WasteTold(s, h, step)
  {
    var e, t, g := s.notices[step.n], Apply(s, step), Note(h, s, step);
    assert NoticeOk(s, e) && NoticeTraced(s, h, e);
    assert t.settlements == s.settlements + multiset{e.arming} && s.settlements[e.arming] == 0;
    assert g.work == h.work[e.arming := Work(h.work[e.arming].cost, 1)];
    if NoneWasted(t, g) {
      forall b | b in h.work && h.work[b].cost > 0 && s.settlements[b] == 1 ensures h.work[b].times == 1 {
        assert g.work[b] == h.work[b];
      }
    }
  }

  /** A row is settled without a booking: wasted exactly if its arming's job has completed at a cost. */
  lemma SettleTells(s: State, h: History, t: State, a: nat)
    requires BookedOnce(s, h) && s.settlements[a] == 0 && t.settlements == s.settlements + multiset{a}
    ensures BookedOnce(t, h)
    ensures NoneWasted(t, h) <==> NoneWasted(s, h) && !(a in h.work && h.work[a].cost > 0)
  {
    if NoneWasted(t, h) {
      forall b | b in h.work && h.work[b].cost > 0 && s.settlements[b] == 1 ensures h.work[b].times == 1 {
        assert t.settlements[b] == 1;
      }
    }
  }

  lemma RefundEventTells(s: State, h: History, step: Step)
    requires Enabled(s, step) && step.Settles? && !Reconciles(s, step) && InOrder(s, h)
    ensures WasteTold(s, h, step)
  {
    var e := s.notices[step.n];
    assert NoticeOk(s, e) && RefundUnworked(s, h, e);
    if IsReserved(s, e.job) {
      SettleTells(s, h, Apply(s, step), e.arming);
    }
  }

  lemma SameTells(s: State, h: History, t: State, g: History)
    requires BookedOnce(s, h) && t.settlements == s.settlements && g.work == h.work
    ensures BookedOnce(t, g) && (NoneWasted(t, g) <==> NoneWasted(s, h))
  {
  }

  /** A compare-and-set of a request that finds its row reserved settles it. */
  lemma CasSettles(s: State, c: nat, write: Write)
    requires WriteEnabled(s, c, write) && IsCas(Writes(c, write)) && IsReserved(s, s.clients[c].job)
    ensures ApplyWrite(s, c, write).settlements == s.settlements + multiset{s.rows[s.clients[c].job].arming}
  {
  }

  lemma OtherWritesSettleNothing(s: State, c: nat, write: Write)
    requires WriteEnabled(s, c, write) && (IsCas(Writes(c, write)) ==> !IsReserved(s, s.clients[c].job))
    ensures ApplyWrite(s, c, write).settlements == s.settlements
  {
  }

  lemma WriteTells(s: State, h: History, c: nat, write: Write)
    requires WriteEnabled(s, c, write) && InOrder(s, h)
    ensures WasteTold(s, h, Writes(c, write))
  {
    var x, t := s.clients[c], ApplyWrite(s, c, write);
    if IsCas(Writes(c, write)) && IsReserved(s, x.job) {
      assert ClientOk(s, x);
      CasSettles(s, c, write);
      SettleTells(s, h, t, s.rows[x.job].arming);
    } else {
      OtherWritesSettleNothing(s, c, write);
      SameTells(s, h, t, h);
    }
  }

  lemma OthersTell(s: State, h: History, step: Step)
    requires Enabled(s, step) && !step.Writes? && !step.Settles? && !Completes(step) && BookedOnce(s, h)
    ensures WasteTold(s, h, step)
  {
    OtherStepsLeaveRows(s, step);
    SameTells(s, h, Apply(s, step), Note(h, s, step));
  }

  lemma StepTells(s: State, h: History, step: Step)
    requires Enabled(s, step) && InOrder(s, h)
    ensures WasteTold(s, h, step)
  {
    if Completes(step) {
      CompleteTells(s, h, step);
    } else if step.Writes? {
      WriteTells(s, h, step.c, step.write);
    } else if !step.Settles? {
      OthersTell(s, h, step);
    } else if Reconciles(s, step) {
      ReconcileTells(s, h, step);
    } else {
      RefundEventTells(s, h, step);
    }
  }

  lemma StepInOrder(s: State, h: History, step: Step)
    requires Enabled(s, step) && InOrder(s, h) && Guarded(s, step)
    ensures InOrder(Apply(s, step), Note(h, s, step))
  {
    GuardedReadsOwn(s, h, step);
    StepOrderly(s, step);
    StepKeepsArmings(s, step);
    StepTraced(s, h, step);
    StepKeepsSettled(s, step);
    StepKeepsUnworked(s, h, step);
    StepTells(s, h, step);
  }

  lemma {:induction false} GuardedRunTells(s: State, h: History, steps: seq<Step>)
    requires Run(s, steps) && GuardedRun(s, steps) && InOrder(s, h)
    ensures InOrder(After(s, steps), Noted(h, s, steps))
    ensures NoneWasted(After(s, steps), Noted(h, s, steps)) <==> NoneWasted(s, h) && NeverWastes(h, s, steps)
    decreases |steps|
  {
    if steps != [] {
      StepTells(s, h, steps[0]);
      StepInOrder(s, h, steps[0]);
      GuardedRunTells(Apply(s, steps[0]), Note(h, s, steps[0]), steps[1..]);
    }
  }

  lemma InitiallyInOrder(init: State)
    requires Initial(init)
    ensures InOrder(init, NOTHING) && NoneWasted(init, NOTHING)
  {
    InitiallyTraced(init);
  }

  /** At rest every arming is settled, so what was not booked is what was wasted. */
  lemma RestingWaste(s: State, h: History)
    requires InOrder(s, h) && AtRest(s)
    ensures Unbooked(h) == 0 <==> NoneWasted(s, h)
  {
    if NoneWasted(s, h) {
      forall a | a in h.work ensures UnbookedCost(h.work[a]) == 0 {
        assert SettledOrReserved(s, a);
      }
      TotalZero(h.work, UnbookedCost);
    } else {
      var a :| a in h.work && h.work[a].cost > 0 && s.settlements[a] == 1 && h.work[a].times != 1;
      TotalCovers(h.work, a, UnbookedCost);
    }
  }

  lemma NothingIsRebooked(s: State, h: History)
    requires BookedOnce(s, h)
    ensures Rebooked(h) == 0
  {
    TotalZero(h.work, RebookedCost);
  }

  /** At rest the ledger has what was booked and what leaked. */
  lemma RestingLedger(init: State, steps: seq<Step>)
    requires Initial(init) && Run(init, steps) && GuardedRun(init, steps)
    requires AtRest(After(init, steps))
    ensures After(init, steps).cost == After(init, steps).spent + LeakedTotal(After(init, steps))
  {
    var s := After(init, steps);
    GuardedConservation(init, steps);
    TotalZero(s.clients, Held);
    TotalZero(s.rows, ReservedEst);
  }

  /**
   * Under the timing guards the ledger learns all work exactly if none is wasted: at rest cost is what all
   * completed jobs cost and direct users spent, with what leaked and without what was never booked; nothing is
   * booked twice; and nothing stays unbooked if and only if no job completes at a cost when its row has been
   * refunded already, and no request refunds the row of a job that has.
   */
  lemma PaidWorkIsBooked(init: State, steps: seq<Step>)
    requires Initial(init) && Run(init, steps) && GuardedRun(init, steps)
    requires AtRest(After(init, steps))
    ensures var s, h := After(init, steps), Noted(NOTHING, init, steps);
      && s.cost == Worked(h) - Unbooked(h) + h.direct + LeakedTotal(s)
      && (Unbooked(h) == 0 <==> NeverWastes(NOTHING, init, steps))
  {
    var s, h := After(init, steps), Noted(NOTHING, init, steps);
    InitiallyInOrder(init);
    GuardedRunTells(init, NOTHING, steps);
    RestingLedger(init, steps);
    BookedIsWorked(h.work);
    NothingIsRebooked(s, h);
    RestingWaste(s, h);
  }

  /******* A condition on refunds alone *******/

  /** A request refunds the row of a job that is live, or has completed at a cost. */
  predicate Cancels(h: History, s: State, step: Step)
    requires Enabled(s, step)
  {
    Refunds(s, step) &&
    (|| IsLive(s, s.clients[step.c].job)
     || (RefundedArming(s, step) in h.work && h.work[RefundedArming(s, step)].cost > 0))
  }

  ghost predicate NeverCancels(h: History, s: State, steps: seq<Step>)
    requires Run(s, steps)
    decreases |steps|
  {
    steps == [] || (!Cancels(h, s, steps[0]) && NeverCancels(Note(h, s, steps[0]), Apply(s, steps[0]), steps[1..]))
  }

  ghost predicate LiveAreReserved(s: State) {
    forall j :: IsLive(s, j) ==> IsReserved(s, j)
  }

  lemma SettlementKeepsLive(s: State, h: History, n: nat)
    requires Enabled(s, Settles(n)) && InOrder(s, h) && LiveAreReserved(s)
    ensures LiveAreReserved(ApplySettlement(s, n))
  {
    var e := s.notices[n];
    assert NoticeOk(s, e) && NoticeTraced(s, h, e) && RefundUnworked(s, h, e);
    assert e.job in s.jobs ==> JobTraced(s, h, s.jobs[e.job]);
    var t := ApplySettlement(s, n);
    forall j | IsLive(t, j) ensures IsReserved(t, j) {
      assert IsLive(s, j);
    }
  }

  lemma WriteKeepsLive(s: State, h: History, c: nat, write: Write)
    requires WriteEnabled(s, c, write) && InOrder(s, h) && LiveAreReserved(s) && !Cancels(h, s, Writes(c, write))
    ensures LiveAreReserved(ApplyWrite(s, c, write))
  {
    var t := ApplyWrite(s, c, write);
    assert ClientOk(s, s.clients[c]);
    forall j | IsLive(t, j) ensures IsReserved(t, j) {
      assert IsLive(s, j);
    }
  }

  lemma MoveKeepsLive(s: State, c: nat, move: Move)
    requires MoveEnabled(s, c, move) && Orderly(s) && LiveAreReserved(s)
    ensures LiveAreReserved(ApplyMove(s, c, move))
  {
    var t := ApplyMove(s, c, move);
    assert ClientOk(s, s.clients[c]);
    forall j | IsLive(t, j) ensures IsReserved(t, j) {
      assert !move.EnqueueCreated? || j != s.clients[c].job ==> IsLive(s, j);
    }
  }

  lemma OthersKeepLive(s: State, step: Step)
    requires Enabled(s, step) && (step.Tick? || step.Books? || step.Queue? || step.Deliver?) && LiveAreReserved(s)
    ensures LiveAreReserved(Apply(s, step))
  {
    var t := Apply(s, step);
    OtherStepsLeaveRows(s, step);
    forall j | IsLive(t, j) ensures IsReserved(t, j) {
      assert IsLive(s, j);
    }
  }

  lemma StepKeepsLive(s: State, h: History, step: Step)
    requires Enabled(s, step) && InOrder(s, h) && LiveAreReserved(s) && !Cancels(h, s, step)
    ensures LiveAreReserved(Apply(s, step))
  {
    match step
    case Moves(c, move) => MoveKeepsLive(s, c, move);
    case Writes(c, write) => WriteKeepsLive(s, h, c, write);
    case Settles(n) => SettlementKeepsLive(s, h, n);
    case _ => OthersKeepLive(s, step);
  }

  lemma {:induction false} CarefulRunWastesNothing(s: State, h: History, steps: seq<Step>)
    requires Run(s, steps) && GuardedRun(s, steps) && InOrder(s, h) && LiveAreReserved(s)
    requires NeverCancels(h, s, steps)
    ensures NeverWastes(h, s, steps)
    decreases |steps|
  {
    if steps != [] {
      StepKeepsLive(s, h, steps[0]);
      StepInOrder(s, h, steps[0]);
      CarefulRunWastesNothing(Apply(s, steps[0]), Note(h, s, steps[0]), steps[1..]);
    }
  }

  /**
   * So all work is booked if requests refund no row of a job that is live or has completed at a cost, however
   * many events are late, doubled or dropped.
   */
  lemma CarefulRefundsBookAll(init: State, steps: seq<Step>)
    requires Initial(init) && Run(init, steps) && GuardedRun(init, steps)
    requires AtRest(After(init, steps)) && NeverCancels(NOTHING, init, steps)
    ensures var s, h := After(init, steps), Noted(NOTHING, init, steps);
      s.cost == Worked(h) + h.direct + LeakedTotal(s)
  {
    InitiallyInOrder(init);
    CarefulRunWastesNothing(init, NOTHING, steps);
    PaidWorkIsBooked(init, steps);
  }

  /******* Runs in which work is wasted, and one in which it is not *******/

  /** A guarded run leads to the state and the history; `careful` tells whether it refunds no job's row. */
  ghost predicate Leads(t: State, h: History, careful: bool) {
    exists steps ::
      && Run(EMPTY, steps) && GuardedRun(EMPTY, steps)
      && After(EMPTY, steps) == t && Noted(NOTHING, EMPTY, steps) == h
      && (NeverCancels(NOTHING, EMPTY, steps) <==> careful)
  }

  lemma {:induction false} GuardedThenStep(s: State, h: History, steps: seq<Step>, step: Step)
    requires Run(s, steps) && GuardedRun(s, steps)
    requires Enabled(After(s, steps), step) && Guarded(After(s, steps), step)
    ensures Run(s, steps + [step]) && GuardedRun(s, steps + [step])
    ensures After(s, steps + [step]) == Apply(After(s, steps), step)
    ensures Noted(h, s, steps + [step]) == Note(Noted(h, s, steps), After(s, steps), step)
    ensures NeverCancels(h, s, steps + [step]) <==>
      NeverCancels(h, s, steps) && !Cancels(Noted(h, s, steps), After(s, steps), step)
    decreases |steps|
  {
    if steps == [] {
      assert steps + [step] == [step];
      assert Run(Apply(s, step), []);
    } else {
      assert (steps + [step])[1..] == steps[1..] + [step];
      GuardedThenStep(Apply(s, steps[0]), Note(h, s, steps[0]), steps[1..], step);
    }
  }

  lemma Goes(t: State, h: History, careful: bool, step: Step)
    requires Leads(t, h, careful) && Enabled(t, step) && Guarded(t, step)
    ensures Leads(Apply(t, step), Note(h, t, step), careful && !Cancels(h, t, step))
  {
    var steps :| Run(EMPTY, steps) && GuardedRun(EMPTY, steps)
      && After(EMPTY, steps) == t && Noted(NOTHING, EMPTY, steps) == h
      && (NeverCancels(NOTHING, EMPTY, steps) <==> careful);
    GuardedThenStep(EMPTY, NOTHING, steps, step);
  }

  /** Most steps need no guard, and refund nothing. */
  predicate Free(step: Step) {
    && SmallStep(step) && !step.Tick? && (step.Writes? ==> step.write.CreateRow? || step.write.Unwind?)
    && (step.Moves? ==> !step.move.WaitThrows?)
  }

  lemma GoesOn(t: State, h: History, careful: bool, step: Step) returns (u: State)
    requires Leads(t, h, careful) && Enabled(t, step) && Free(step)
    ensures u == Apply(t, step) && Leads(u, Note(h, t, step), careful)
  {
    u := Apply(t, step);
    Goes(t, h, careful, step);
  }

  lemma NothingHappened()
    ensures Leads(EMPTY, NOTHING, true)
  {
    var steps: seq<Step> := [];
    assert Run(EMPTY, steps) && After(EMPTY, steps) == EMPTY && Noted(NOTHING, EMPTY, steps) == NOTHING;
  }

  /** The row that request 0 arms for job 7, in a status. */
  function Row0(status: Status): map<JobId, Row> { map[7 := Row(5, status, 0, 0)] }

  /** What it has enqueued has completed, and was not booked yet. */
  function Work0(): History { History(map[0 := Work(5, 0)], 0) }

  lemma Work0IsUnbooked()
    ensures Worked(Work0()) == Unbooked(Work0()) == 5
  {
    var none: map<nat, Work> := map[];
    TotalPut(none, 0, Work(5, 0), Cost);
    TotalPut(none, 0, Work(5, 0), UnbookedCost);
    assert Work0().work == none[0 := Work(5, 0)];
  }

  /** Request 0 reserves 5 for job 7 and finds no row ... */
  lemma Finds0() returns (s: State)
    ensures s == EMPTY.(cost := 5, clients := map[0 := Creating(7, 5)]) && Leads(s, NOTHING, true)
  {
    NothingHappened();
    s := GoesOn(EMPTY, NOTHING, true, Books(0, Reserve(7, 5)));
    s := GoesOn(s, NOTHING, true, Moves(0, ProbeNone));
    s := GoesOn(s, NOTHING, true, Moves(0, ReadRow));
  }

  /** ... arms one, and enqueues the job. */
  lemma Enqueues0() returns (s: State)
    ensures s == EMPTY.(cost := 5, clients := map[0 := Enqueued(7, 5, 0)], rows := Row0(Reserved),
                        jobs := map[7 := Job(5, 0, Live)], armings := [5])
    ensures Leads(s, NOTHING, true)
  {
    s := Finds0();
    s := GoesOn(s, NOTHING, true, Writes(0, CreateRow));
    s := GoesOn(s, NOTHING, true, Moves(0, EnqueueCreated));
  }

  /** It stops waiting for the live job, which the queue does not call active ... */
  lemma StopsWaiting0() returns (s: State)
    ensures s == EMPTY.(cost := 5, clients := map[0 := Abandoning(7, 5, 0)], rows := Row0(Reserved),
                        jobs := map[7 := Job(5, 0, Live)], armings := [5])
    ensures Leads(s, NOTHING, true)
  {
    var s1 := Enqueues0();
    s := Apply(s1, Moves(0, WaitThrows(false)));
    Goes(s1, NOTHING, true, Moves(0, WaitThrows(false)));
  }

  /** ... and is refunded. */
  lemma Abandons0() returns (s: State)
    ensures s == EMPTY.(clients := map[0 := Done], rows := Row0(Refunded), jobs := map[7 := Job(5, 0, Live)],
                        armings := [5], settlements := multiset{0})
    ensures Leads(s, NOTHING, false)
  {
    var s1 := StopsWaiting0();
    s := Apply(s1, Writes(0, Abandon));
    Goes(s1, NOTHING, true, Writes(0, Abandon));
  }

  /** The job completes all the same ... */
  lemma CompletesAbandoned() returns (s: State)
    ensures s == EMPTY.(clients := map[0 := Done], rows := Row0(Refunded), jobs := map[7 := Job(5, 0, Completed)],
                        notices := map[0 := ReconcileReady(7, 0, 5, 5)], armings := [5], settlements := multiset{0})
    ensures Leads(s, Work0(), false)
  {
    s := Abandons0();
    s := GoesOn(s, NOTHING, false, Queue(7, Complete(0, 5, true)));
    s := GoesOn(s, Work0(), false, Deliver(0, ReadCompleted));
  }

  /** ... and its row is not reserved any more when it is settled: its cost is nowhere on the ledger. */
  lemma AbandonedJobIsNotBooked()
    ensures exists t, h :: Leads(t, h, false) && AtRest(t) && t.notices == map[] && t.cost == 0 && Unbooked(h) == 5
  {
    var s := CompletesAbandoned();
    s := GoesOn(s, Work0(), false, Settles(0));
    assert s.notices == map[];
    Work0IsUnbooked();
  }

  /** But a job so abandoned may fail as well, and then no work is wasted. */
  lemma AbandonedJobMayFail()
    ensures exists t :: Leads(t, NOTHING, false) && AtRest(t) && t.notices == map[] && t.cost == 0
  {
    var s := Abandons0();
    s := GoesOn(s, NOTHING, false, Queue(7, FailFinally(0)));
    s := GoesOn(s, NOTHING, false, Deliver(0, Drop));
    assert s.notices == map[];
  }

  /** The job completes, and its event is dropped ... */
  lemma CompletesUnheard() returns (s: State)
    ensures s == EMPTY.(cost := 5, clients := map[0 := Enqueued(7, 5, 0)], rows := Row0(Reserved),
                        jobs := map[7 := Job(5, 0, Completed)], armings := [5])
    ensures Leads(s, Work0(), true)
  {
    s := Enqueues0();
    s := GoesOn(s, NOTHING, true, Queue(7, Complete(0, 5, true)));
    s := GoesOn(s, Work0(), true, Deliver(0, Drop));
    assert s.notices == map[];
  }

  /** ... request 0 has its answer, and the job is removed. */
  lemma IsRemoved() returns (s: State)
    ensures s == EMPTY.(cost := 5, clients := map[0 := Done], rows := Row0(Reserved), armings := [5])
    ensures Leads(s, Work0(), true)
  {
    s := CompletesUnheard();
    s := GoesOn(s, Work0(), true, Moves(0, ResultArrives));
    s := GoesOn(s, Work0(), true, Queue(7, RemoveJob));
    assert s.jobs == map[];
  }

  /** When the row is stale ... */
  lemma RowIsStale() returns (s: State)
    ensures s == EMPTY.(now := RESERVATION_STALE_MS, cost := 5, clients := map[0 := Done], rows := Row0(Reserved),
                        armings := [5])
    ensures Leads(s, Work0(), true)
  {
    var s1 := IsRemoved();
    s := Apply(s1, Tick(RESERVATION_STALE_MS));
    Goes(s1, Work0(), true, Tick(RESERVATION_STALE_MS));
  }

  /** ... another request reserves, finds it, waits for its job in vain ... */
  lemma FindsStaleRow() returns (s: State)
    ensures s == EMPTY.(now := RESERVATION_STALE_MS, cost := 10,
                        clients := map[0 := Done, 1 := Waiting(7, 5, Row(5, Reserved, 0, 0))],
                        rows := Row0(Reserved), armings := [5])
    ensures Leads(s, Work0(), true)
  {
    s := RowIsStale();
    s := GoesOn(s, Work0(), true, Books(1, Reserve(7, 5)));
    s := GoesOn(s, Work0(), true, Moves(1, ProbeNone));
    s := GoesOn(s, Work0(), true, Moves(1, ReadRow));
  }

  /** ... takes it over, refunding the first estimate ... */
  lemma TakesStaleRow() returns (s: State)
    ensures s == EMPTY.(now := RESERVATION_STALE_MS, cost := 5,
                        clients := map[0 := Done, 1 := Overwriting(7, 5, Row(5, Reserved, 0, 0))],
                        rows := map[7 := Row(5, Refunded, 0, RESERVATION_STALE_MS)],
                        armings := [5], settlements := multiset{0})
    ensures Leads(s, Work0(), false)
  {
    var s1 := FindsStaleRow();
    s := Apply(s1, Writes(1, TakeOver));
    Goes(s1, Work0(), true, Writes(1, TakeOver));
  }

  /** ... and arms it for itself. */
  lemma ArmsStaleRow() returns (s: State)
    ensures s == EMPTY.(now := RESERVATION_STALE_MS, cost := 5,
                        clients := map[0 := Done, 1 := Armed(7, 5, 1, RESERVATION_STALE_MS)],
                        rows := map[7 := Row(5, Reserved, 1, RESERVATION_STALE_MS)],
                        armings := [5, 5], settlements := multiset{0})
    ensures Leads(s, Work0(), false)
  {
    var s1 := TakesStaleRow();
    s := Apply(s1, Writes(1, Overwrite));
    Goes(s1, Work0(), false, Writes(1, Overwrite));
  }

  /** The queue refuses its job, and it unwinds. */
  lemma UnwindsStaleRow() returns (s: State)
    ensures s == EMPTY.(now := RESERVATION_STALE_MS, clients := map[0 := Done, 1 := Done],
                        rows := map[7 := Row(5, Refunded, 1, RESERVATION_STALE_MS)],
                        armings := [5, 5], settlements := multiset{0, 1})
    ensures Leads(s, Work0(), false)
  {
    s := ArmsStaleRow();
    s := GoesOn(s, Work0(), false, Moves(1, EnqueueThrows));
    s := GoesOn(s, Work0(), false, Writes(1, Unwind));
  }

  /** So the first job's cost is nowhere, though its row was reserved when it completed. */
  lemma UnheardJobIsNotBooked()
    ensures exists t, h :: Leads(t, h, false) && AtRest(t) && t.notices == map[] && t.cost == 0 && Unbooked(h) == 5
  {
    var s := UnwindsStaleRow();
    Work0IsUnbooked();
  }
}
