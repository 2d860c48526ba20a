/** What every interleaving of the gateway protocol keeps. */
module GatewayConservation {
  import opened GatewayProtocol
  import opened Totals

  /******* Each arming is settled at most once *******/

  ghost predicate ArmingsDistinct(s: State) {
    && (forall j :: j in s.rows ==> s.rows[j].arming < |s.armings|)
    && (forall j, k :: j in s.rows && k in s.rows && j != k ==> s.rows[j].arming != s.rows[k].arming)
    && (forall j :: IsReserved(s, j) ==> s.settlements[s.rows[j].arming] == 0)
    && (forall a :: s.settlements[a] <= 1)
    && (forall a :: a in s.settlements ==> a < |s.armings|)
  }

  lemma SettleKeepsArmings(s: State, job: JobId, status: Status, cost: int)
    requires ArmingsDistinct(s) && IsReserved(s, job) && status != Reserved
    ensures ArmingsDistinct(Settle(s, job, status, cost))
  {
  }

  lemma ArmKeepsArmings(s: State, c: nat, job: JobId, est: nat)
    requires ArmingsDistinct(s)
    ensures ArmingsDistinct(Arm(s, c, job, est))
  {
  }

  /** Only row writes and settlements touch rows, arming numbers or settlement records. */
  lemma OtherStepsLeaveRows(s: State, step: Step)
    requires Enabled(s, step) && !step.Writes? && !step.Settles?
    ensures var t := Apply(s, step);
            t.rows == s.rows && t.armings == s.armings && t.settlements == s.settlements
  {
  }

  lemma SameRowsSameArmings(s: State, t: State)
    requires ArmingsDistinct(s)
    requires t.rows == s.rows && t.armings == s.armings && t.settlements == s.settlements
    ensures ArmingsDistinct(t)
  {
  }

  lemma CasKeepsArmings(s: State, job: JobId, est: nat, actual: nat)
    requires ArmingsDistinct(s)
    ensures ArmingsDistinct(CasRefund(s, job, est)) && ArmingsDistinct(CasReconcile(s, job, est, actual))
  {
    if IsReserved(s, job) {
      SettleKeepsArmings(s, job, Refunded, SafeDecrement(s.cost, est));
      SettleKeepsArmings(s, job, Reconciled, Adjust(s.cost, est, actual));
    }
  }

  lemma WriteKeepsArmings(s: State, c: nat, write: Write)
    requires WriteEnabled(s, c, write) && ArmingsDistinct(s)
    ensures ArmingsDistinct(ApplyWrite(s, c, write))
  {
    var x := s.clients[c];
    if write.CreateRow? && x.job in s.rows {
      SameRowsSameArmings(s, ApplyWrite(s, c, write));
    } else if write.CreateRow? || write.Overwrite? {
      ArmKeepsArmings(s, c, x.job, x.est);
    } else {
      var est := if write.TakeOver? then x.snap.est else x.est;
      CasKeepsArmings(s, x.job, est, 0);
      SameRowsSameArmings(CasRefund(s, x.job, est), ApplyWrite(s, c, write));
    }
  }

  lemma SettlementKeepsArmings(s: State, n: nat)
    requires Enabled(s, Settles(n)) && ArmingsDistinct(s)
    ensures ArmingsDistinct(ApplySettlement(s, n))
  {
    var e := s.notices[n];
    CasKeepsArmings(s, e.job, e.est, if e.ReconcileReady? then e.actual else 0);
  }

  lemma StepKeepsArmings(s: State, step: Step)
    requires Enabled(s, step) && ArmingsDistinct(s)
    ensures ArmingsDistinct(Apply(s, step))
  {
    if step.Writes? {
      WriteKeepsArmings(s, step.c, step.write);
    } else if step.Settles? {
      SettlementKeepsArmings(s, step.n);
    } else {
      OtherStepsLeaveRows(s, step);
      SameRowsSameArmings(s, Apply(s, step));
    }
  }

  /******* Runs in which a job's estimate never varies *******/

  ghost predicate FixedClient(x: Client, estOf: JobId -> nat) {
    && (!x.Direct? && !x.Leaked? && !x.Done? ==> x.est == estOf(x.job))
    && (x.Waiting? || x.Overwriting? ==> x.snap.est == estOf(x.job))
  }

  ghost predicate FixedNotice(e: Notice, estOf: JobId -> nat) {
    e.ReconcileReady? || e.RefundReady? ==> e.est == estOf(e.job)
  }

  ghost predicate Fixed(s: State, estOf: JobId -> nat) {
    && (forall c :: c in s.clients ==> FixedClient(s.clients[c], estOf))
    && (forall j :: j in s.rows ==> s.rows[j].est == estOf(j))
    && (forall j :: j in s.jobs ==> s.jobs[j].est == estOf(j))
    && (forall n :: n in s.notices ==> FixedNotice(s.notices[n], estOf))
  }

  predicate FixedStep(step: Step, estOf: JobId -> nat) {
    step.Books? && step.booking.Reserve? ==> step.booking.est == estOf(step.booking.job)
  }

  lemma FixedAgrees(s: State, step: Step, estOf: JobId -> nat)
    requires Enabled(s, step) && Fixed(s, estOf)
    ensures Agrees(s, step)
  {
  }

  lemma MoveKeepsFixed(s: State, c: nat, move: Move, estOf: JobId -> nat)
    requires MoveEnabled(s, c, move) && Fixed(s, estOf)
    ensures Fixed(ApplyMove(s, c, move), estOf)
  {
    assert FixedClient(Moved(s, c, move), estOf);
  }

  lemma WriteKeepsFixed(s: State, c: nat, write: Write, estOf: JobId -> nat)
    requires WriteEnabled(s, c, write) && Fixed(s, estOf)
    ensures Fixed(ApplyWrite(s, c, write), estOf)
  {
  }

  lemma QueueKeepsFixed(s: State, job: JobId, event: JobEvent, estOf: JobId -> nat)
    requires JobEventEnabled(s, job, event) && Fixed(s, estOf)
    ensures Fixed(ApplyJobEvent(s, job, event), estOf)
  {
  }

  lemma DeliveryKeepsFixed(s: State, n: nat, delivery: Delivery, estOf: JobId -> nat)
    requires DeliveryEnabled(s, n, delivery) && Fixed(s, estOf)
    ensures Fixed(ApplyDelivery(s, n, delivery), estOf)
  {
  }

  lemma BookingKeepsFixed(s: State, c: nat, booking: Booking, estOf: JobId -> nat)
    requires BookingEnabled(s, c, booking) && Fixed(s, estOf) && FixedStep(Books(c, booking), estOf)
    ensures Fixed(ApplyBooking(s, c, booking), estOf)
  {
  }

  lemma SettlementKeepsFixed(s: State, n: nat, estOf: JobId -> nat)
    requires Enabled(s, Settles(n)) && Fixed(s, estOf)
    ensures Fixed(ApplySettlement(s, n), estOf)
  {
  }

  lemma StepKeepsFixed(s: State, step: Step, estOf: JobId -> nat)
    requires Enabled(s, step) && Fixed(s, estOf) && FixedStep(step, estOf)
    ensures Fixed(Apply(s, step), estOf)
  {
    match step
    case Moves(c, move) => MoveKeepsFixed(s, c, move, estOf);
    case Writes(c, write) => WriteKeepsFixed(s, c, write, estOf);
    case Queue(job, event) => QueueKeepsFixed(s, job, event, estOf);
    case Deliver(n, delivery) => DeliveryKeepsFixed(s, n, delivery, estOf);
    case Books(c, booking) => BookingKeepsFixed(s, c, booking, estOf);
    case Settles(n) => SettlementKeepsFixed(s, n, estOf);
    case Tick(_) =>
  }

  /** The step writes over a row that still carries someone's reserved estimate. */
  predicate OverwritesReserved(s: State, step: Step)
    requires Enabled(s, step)
  {
    step.Writes? && step.write.Overwrite? &&
    IsReserved(s, s.clients[step.c].job) && s.rows[s.clients[step.c].job].est > 0
  }

  ghost predicate NeverOverwrites(s: State, steps: seq<Step>)
    requires Run(s, steps)
    decreases |steps|
  {
    steps == [] || (!OverwritesReserved(s, steps[0]) && NeverOverwrites(Apply(s, steps[0]), steps[1..]))
  }

  /** Along the run every step moves the cost by exactly its own amount: no floor, no cut-off. */
  ghost predicate ChargedExactly(s: State, steps: seq<Step>)
    requires Run(s, steps)
    decreases |steps|
  {
    steps == [] ||
    (Apply(s, steps[0]).cost == s.cost + Delta(s, steps[0]) && ChargedExactly(Apply(s, steps[0]), steps[1..]))
  }

  lemma StepLoses(s: State, step: Step)
    requires Enabled(s, step)
    ensures Apply(s, step).lost >= s.lost
    ensures Apply(s, step).lost == s.lost <==> !OverwritesReserved(s, step)
  {
  }

  lemma {:induction false} LostOnlyGrows(s: State, steps: seq<Step>)
    requires Run(s, steps)
    ensures After(s, steps).lost >= s.lost
    ensures After(s, steps).lost == s.lost <==> NeverOverwrites(s, steps)
    decreases |steps|
  {
    if steps != [] {
      StepLoses(s, steps[0]);
      LostOnlyGrows(Apply(s, steps[0]), steps[1..]);
    }
  }

  /** Whether the step lets a request go without giving its charge back: a guard on the step and the request alone. */
  predicate LeaksCharge(s: State, step: Step)
    requires Enabled(s, step)
  {
    step.Moves? &&
    var x := s.clients[step.c];
    && (|| step.move.ProbeThrows? || (step.move.ReturnThrows? && !x.again) || step.move.DirectThrows?
        || (step.move.Crashes? && !HasArming(x)))
    && x.est > 0
  }

  ghost predicate NeverLeaks(s: State, steps: seq<Step>)
    requires Run(s, steps)
    decreases |steps|
  {
    steps == [] || (!LeaksCharge(s, steps[0]) && NeverLeaks(Apply(s, steps[0]), steps[1..]))
  }

  /** What requests that are gone have left on the ledger. */
  ghost function LeakedTotal(s: State): nat { Total(s.clients, LeakedEst) }

  lemma MoveLeaks(s: State, c: nat, move: Move)
    requires MoveEnabled(s, c, move)
    ensures LeakedTotal(ApplyMove(s, c, move)) ==
            LeakedTotal(s) + if LeaksCharge(s, Moves(c, move)) then s.clients[c].est else 0
  {
    TotalPut(s.clients, c, Moved(s, c, move), LeakedEst);
  }

  lemma WriteLeaksNothing(s: State, c: nat, write: Write)
    requires WriteEnabled(s, c, write)
    ensures LeakedTotal(ApplyWrite(s, c, write)) == LeakedTotal(s)
  {
    var x := ApplyWrite(s, c, write).clients[c];
    assert ApplyWrite(s, c, write).clients == s.clients[c := x];
    TotalPut(s.clients, c, x, LeakedEst);
  }

  lemma BookingLeaksNothing(s: State, c: nat, booking: Booking)
    requires BookingEnabled(s, c, booking)
    ensures LeakedTotal(ApplyBooking(s, c, booking)) == LeakedTotal(s)
  {
    TotalPut(s.clients, c, ApplyBooking(s, c, booking).clients[c], LeakedEst);
  }

  lemma OtherStepsLeakNothing(s: State, step: Step)
    requires Enabled(s, step) && (step.Tick? || step.Queue? || step.Deliver? || step.Settles?)
    ensures Apply(s, step).clients == s.clients
  {
  }

  lemma StepLeaks(s: State, step: Step)
    requires Enabled(s, step)
    ensures LeakedTotal(Apply(s, step)) ==
            LeakedTotal(s) + if LeaksCharge(s, step) then s.clients[step.c].est else 0
  {
    match step
    case Moves(c, move) => MoveLeaks(s, c, move);
    case Writes(c, write) => WriteLeaksNothing(s, c, write);
    case Books(c, booking) => BookingLeaksNothing(s, c, booking);
    case _ => OtherStepsLeakNothing(s, step);
  }

  /** A leaked charge never comes back, and there is one exactly if some step of the run leaked it. */
  lemma {:induction false} LeakOnlyGrows(s: State, steps: seq<Step>)
    requires Run(s, steps)
    ensures LeakedTotal(After(s, steps)) >= LeakedTotal(s)
    ensures LeakedTotal(After(s, steps)) == LeakedTotal(s) <==> NeverLeaks(s, steps)
    decreases |steps|
  {
    if steps != [] {
      StepLeaks(s, steps[0]);
      LeakOnlyGrows(Apply(s, steps[0]), steps[1..]);
    }
  }

  lemma {:induction false} FixedRunBalances(s: State, steps: seq<Step>, estOf: JobId -> nat)
    requires Run(s, steps) && Balanced(s) && Small(s) && Fixed(s, estOf) && ArmingsDistinct(s)
    requires forall step :: step in steps ==> FixedStep(step, estOf) && SmallStep(step)
    ensures Balanced(After(s, steps)) && ArmingsDistinct(After(s, steps)) && ChargedExactly(s, steps)
    decreases |steps|
  {
    if steps != [] {
      FixedAgrees(s, steps[0], estOf);
      StepBalances(s, steps[0]);
      StepKeepsFixed(s, steps[0], estOf);
      StepKeepsArmings(s, steps[0]);
      FixedRunBalances(Apply(s, steps[0]), steps[1..], estOf);
    }
  }

  /**
   * Conservation with no timing assumption at all. As long as one job id always
   * carries the same estimate, every interleaving of requests, workers, late,
   * lost and duplicated events keeps the books; no arming is settled twice; no
   * floor or cut-off bites; a reserved estimate is lost exactly when some
   * request overwrote a row that was still reserved; and a charge is leaked
   * exactly when some request went away without giving it back.
   */
  lemma Conservation(init: State, steps: seq<Step>, estOf: JobId -> nat)
    requires Initial(init) && Run(init, steps)
    requires forall step :: step in steps ==> FixedStep(step, estOf) && SmallStep(step)
    ensures var s := After(init, steps);
            && s.cost == Total(s.clients, Held) + Total(s.rows, ReservedEst) + s.spent + s.lost + LeakedTotal(s)
            && (forall a :: s.settlements[a] <= 1)
            && (s.lost == 0 <==> NeverOverwrites(init, steps))
            && (LeakedTotal(s) == 0 <==> NeverLeaks(init, steps))
    ensures ChargedExactly(init, steps)
  {
    FixedRunBalances(init, steps, estOf);
    LostOnlyGrows(init, steps);
    LeakOnlyGrows(init, steps);
    TotalSplits(After(init, steps).clients, Carried, Held, LeakedEst);
  }

  /** Every request is finished, one way or another, and every row is settled. */
  ghost predicate AtRest(s: State) {
    && (forall c :: c in s.clients ==> s.clients[c].Done? || s.clients[c].Leaked?)
    && (forall j :: j in s.rows ==> s.rows[j].status != Reserved)
  }

  /**
   * When everything is at rest the cost is what reconciled work really cost, what was lost and what was leaked;
   * so it is exactly the first if and only if no step overwrote a reserved row or leaked a charge.
   */
  lemma RestingCost(init: State, steps: seq<Step>, estOf: JobId -> nat)
    requires Initial(init) && Run(init, steps)
    requires forall step :: step in steps ==> FixedStep(step, estOf) && SmallStep(step)
    requires AtRest(After(init, steps))
    ensures var s := After(init, steps); s.cost == s.spent + s.lost + LeakedTotal(s)
    ensures After(init, steps).cost == After(init, steps).spent <==>
            NeverOverwrites(init, steps) && NeverLeaks(init, steps)
  {
    var s := After(init, steps);
    Conservation(init, steps, estOf);
    TotalZero(s.clients, Held);
    TotalZero(s.rows, ReservedEst);
  }

  /******* A run that loses a charge *******/

  /** A ledger with a limit of 100, and nothing else yet. */
  const EMPTY := State(0, 100, 0, map[], map[], map[], map[], [], multiset{}, 0, 0)

  /** `t` can be reached from `s` with all estimates equal to `est`. */
  ghost predicate Reaches(s: State, t: State, est: nat) {
    exists steps ::
      && Run(s, steps) && After(s, steps) == t
      && forall step :: step in steps ==> FixedStep(step, _ => est) && SmallStep(step)
  }

  lemma {:induction false} RunThenStep(s: State, steps: seq<Step>, step: Step)
    requires Run(s, steps) && Enabled(After(s, steps), step)
    ensures Run(s, steps + [step]) && After(s, steps + [step]) == Apply(After(s, steps), step)
    decreases |steps|
  {
    if steps == [] {
      assert steps + [step] == [step];
      assert Run(Apply(s, step), []);
    } else {
      assert (steps + [step])[1..] == steps[1..] + [step];
      RunThenStep(Apply(s, steps[0]), steps[1..], step);
    }
  }

  lemma Extend(s: State, t: State, est: nat, step: Step) returns (u: State)
    requires Reaches(s, t, est) && Enabled(t, step) && FixedStep(step, _ => est) && SmallStep(step)
    ensures u == Apply(t, step) && Reaches(s, u, est)
  {
    u := Apply(t, step);
    var steps :| Run(s, steps) && After(s, steps) == t &&
      forall st :: st in steps ==> FixedStep(st, _ => est) && SmallStep(st);
    RunThenStep(s, steps, step);
    assert forall st :: st in steps + [step] ==> FixedStep(st, _ => est) && SmallStep(st);
  }

  /** A request finds no row for job 7 ... */
  lemma FindNoRow(init: State) returns (s: State)
    requires init == EMPTY
    ensures Reaches(init, s, 5)
    ensures s == State(0, 100, 5, map[0 := Creating(7, 5)], map[], map[], map[], [], multiset{}, 0, 0)
  {
    assert Run(init, []) && After(init, []) == init;
    s := Extend(init, init, 5, Books(0, Reserve(7, 5)));
    s := Extend(init, s, 5, Moves(0, ProbeNone));
    s := Extend(init, s, 5, Moves(0, ReadRow));
  }

  /** ... arms one, fails to enqueue, and is refunded. */
  lemma ArmAndReturn(init: State, start: State) returns (s: State)
    requires Reaches(init, start, 5)
    requires start == State(0, 100, 5, map[0 := Creating(7, 5)], map[], map[], map[], [], multiset{}, 0, 0)
    ensures Reaches(init, s, 5)
    ensures s == State(0, 100, 0, map[0 := Done], map[7 := Row(5, Refunded, 0, 0)], map[], map[], [5],
                         multiset{0}, 0, 0)
  {
    s := Extend(init, start, 5, Writes(0, CreateRow));
    s := Extend(init, s, 5, Moves(0, EnqueueThrows));
    s := Extend(init, s, 5, Writes(0, Unwind));
  }

  /** Another request reserves and reads that settled row. */
  lemma ReadSettledRow(init: State, start: State, c: nat) returns (s: State)
    requires Reaches(init, start, 5) && start.cost <= 50 && start.limit == 100 && c !in start.clients
    requires start.jobs == map[] && start.rows == map[7 := Row(5, Refunded, 0, 0)]
    ensures Reaches(init, s, 5)
    ensures s == start.(clients := start.clients[c := Overwriting(7, 5, Row(5, Refunded, 0, 0))],
        cost := start.cost + 5)
  {
    s := Extend(init, start, 5, Books(c, Reserve(7, 5)));
    s := Extend(init, s, 5, Moves(c, ProbeNone));
    s := Extend(init, s, 5, Moves(c, ReadRow));
  }

  lemma OverwriteTwice(init: State, start: State) returns (s: State)
    requires Reaches(init, start, 5)
    requires start.jobs == map[] && start.rows == map[7 := Row(5, Refunded, 0, 0)] && start.armings == [5]
    requires start.clients.Keys == {0, 1, 2} && start.clients[0] == Done
    requires start.clients[1] == start.clients[2] == Overwriting(7, 5, Row(5, Refunded, 0, 0))
    ensures Reaches(init, s, 5) && s.jobs == map[] && s.cost == start.cost && s.spent == start.spent &&
        s.now == start.now
    ensures s.rows == map[7 := Row(5, Reserved, 2, start.now)]
    ensures s.clients == start.clients[1 := Armed(7, 5, 1, start.now)][2 := Armed(7, 5, 2, start.now)]
  {
    s := Extend(init, start, 5, Writes(1, Overwrite));
    s := Extend(init, s, 5, Writes(2, Overwrite));
  }

  /** The first enqueues; the second finds that job ... */
  lemma EnqueueBoth(init: State, start: State) returns (s: State)
    requires Reaches(init, start, 5) && start.jobs == map[]
    requires start.clients.Keys == {0, 1, 2} && start.clients[0] == Done
    requires start.clients[1] == Armed(7, 5, 1, start.now) && start.clients[2] == Armed(7, 5, 2, start.now)
    ensures Reaches(init, s, 5)
    ensures s == start.(
        clients := map[0 := Done, 1 := Enqueued(7, 5, 1), 2 := Unwinding(7, 5, 2, start.now, true)],
        jobs := map[7 := Job(5, 1, Live)])
  {
    s := Extend(init, start, 5, Moves(1, EnqueueCreated));
    s := Extend(init, s, 5, Moves(2, EnqueueExisting));
  }

  /** ... and refunds itself through the row, which is no longer the first one's. */
  lemma RefundSecond(init: State, start: State) returns (s: State)
    requires Reaches(init, start, 5) && start.cost == 10 && start.spent == 0
    requires start.rows == map[7 := Row(5, Reserved, 2, start.now)]
    requires start.clients == map[0 := Done, 1 := Enqueued(7, 5, 1), 2 := Unwinding(7, 5, 2, start.now, true)]
    ensures Reaches(init, s, 5) && AtRest(s) && s.spent == 0 && s.cost == 5
  {
    s := Extend(init, start, 5, Writes(2, Unwind));
    s := Extend(init, s, 5, Moves(1, ResultArrives));
  }

  /**
   * Two requests that both read a row already settled both overwrite it. The
   * first one's estimate is then refunded by nobody: everything comes to rest
   * with nothing spent and a positive cost.
   */
  lemma TwoRequestsReadingASettledRow()
    ensures exists init, t :: Initial(init) && Reaches(init, t, 5) && AtRest(t) && t.spent == 0 && t.cost == 5
  {
    var init := EMPTY;
    var s := BothReadTheRow(init);
    s := OverwriteTwice(init, s);
    s := EnqueueBoth(init, s);
    s := RefundSecond(init, s);
  }

  lemma BothReadTheRow(init: State) returns (s: State)
    requires init == EMPTY
    ensures Reaches(init, s, 5)
    ensures s == State(0, 100, 10,
      map[0 := Done, 1 := Overwriting(7, 5, Row(5, Refunded, 0, 0)), 2 := Overwriting(7, 5, Row(5, Refunded, 0, 0))],
      map[7 := Row(5, Refunded, 0, 0)], map[], map[], [5], multiset{0}, 0, 0)
  {
    s := FindNoRow(init);
    s := ArmAndReturn(init, s);
    s := ReadSettledRow(init, s, 1);
    s := ReadSettledRow(init, s, 2);
  }

  /******* Runs that leak a charge *******/

  /**
   * A request reserves, the queue probe after that fails, and the request is over: no row exists, nothing was
   * spent or overwritten, and the charge stays on the ledger.
   */
  lemma FailedProbeLeaksTheCharge()
    ensures exists init, t :: Initial(init) && Reaches(init, t, 5) && AtRest(t) &&
              t.rows == map[] && t.spent == 0 && t.lost == 0 && t.cost == 5
  {
    var init := EMPTY;
    assert Run(init, []) && After(init, []) == init;
    var s := Extend(init, init, 5, Books(0, Reserve(7, 5)));
    s := Extend(init, s, 5, Moves(0, ProbeThrows));
    assert s.clients == map[0 := Leaked(5)];
  }
}
