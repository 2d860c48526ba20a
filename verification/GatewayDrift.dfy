/**
 * What settling with another arming's estimate does to the ledger. No estimate is fixed here, no timing is
 * assumed, and no amount is bounded: the books of every run balance up to a drift that its steps tell.
 */
module GatewayDrift {
  import opened GatewayProtocol
  import opened GatewayConservation
  import opened Totals

  /** What requests carry, what is reserved, what was spent, and what was lost to overwrites. */
  ghost function Owned(s: State): int {
    Total(s.clients, Carried) + Total(s.rows, ReservedEst) + s.spent + s.lost
  }

  /** By how much a step settles a row with another estimate than the row was armed with. */
  function Mismatch(s: State, step: Step): int
    requires Enabled(s, step)
  {
    if IsCas(step) && IsReserved(s, CasCall(s, step).0)
    then s.rows[CasCall(s, step).0].est - CasCall(s, step).1
    else 0
  }

  /** By how much the floor at zero, or the cut-off, keeps the step from booking its amount. */
  function Floored(s: State, step: Step): int
    requires Enabled(s, step)
  {
    Apply(s, step).cost - s.cost - Delta(s, step)
  }

  ghost function Drift(s: State, steps: seq<Step>): int
    requires Run(s, steps)
    decreases |steps|
  {
    if steps == [] then 0
    else Mismatch(s, steps[0]) + Floored(s, steps[0]) + Drift(Apply(s, steps[0]), steps[1..])
  }

  /** The step changes what is owned by its amount, up to its mismatch. */
  ghost predicate Owns(s: State, step: Step)
    requires Enabled(s, step)
  {
    Owned(Apply(s, step)) == Owned(s) + Delta(s, step) - Mismatch(s, step)
  }

  lemma ClientOwns(s: State, c: nat, client: Client)
    ensures Total(s.clients[c := client], Carried)
      == Total(s.clients, Carried) + Carried(client) - if c in s.clients then Carried(s.clients[c]) else 0
  {
    TotalPut(s.clients, c, client, Carried);
  }

  lemma RowOwns(s: State, job: JobId, row: Row)
    ensures Total(s.rows[job := row], ReservedEst)
      == Total(s.rows, ReservedEst) + ReservedEst(row) - if job in s.rows then ReservedEst(s.rows[job]) else 0
  {
    TotalPut(s.rows, job, row, ReservedEst);
  }

  lemma MoveOwns(s: State, c: nat, move: Move)
    requires MoveEnabled(s, c, move)
    ensures Owns(s, Moves(c, move))
  {
    ClientOwns(s, c, Moved(s, c, move));
  }

  lemma BookingOwns(s: State, c: nat, booking: Booking)
    requires BookingEnabled(s, c, booking)
    ensures Owns(s, Books(c, booking))
  {
    ClientOwns(s, c, ApplyBooking(s, c, booking).clients[c]);
  }

  lemma ArmOwns(s: State, c: nat, job: JobId, est: nat)
    requires c in s.clients && Carried(s.clients[c]) == est
    ensures Owned(Arm(s, c, job, est)) == Owned(s)
  {
    ClientOwns(s, c, Armed(job, est, |s.armings|, s.now));
    RowOwns(s, job, Row(est, Reserved, |s.armings|, s.now));
  }

  lemma CasOwns(s: State, job: JobId, est: nat, actual: nat)
    ensures Owned(CasRefund(s, job, est)) == Owned(s) - if IsReserved(s, job) then s.rows[job].est else 0
    ensures Owned(CasReconcile(s, job, est, actual))
      == Owned(s) + if IsReserved(s, job) then actual - s.rows[job].est else 0
  {
    if IsReserved(s, job) {
      RowOwns(s, job, s.rows[job].(status := Refunded, updatedAt := s.now));
      RowOwns(s, job, s.rows[job].(status := Reconciled, updatedAt := s.now));
    }
  }

  lemma WriteOwns(s: State, c: nat, write: Write)
    requires WriteEnabled(s, c, write)
    ensures Owns(s, Writes(c, write))
  {
    var x, t := s.clients[c], ApplyWrite(s, c, write);
    if IsCas(Writes(c, write)) {
      var est := if write.TakeOver? then x.snap.est else x.est;
      CasOwns(s, x.job, est, 0);
      ClientOwns(CasRefund(s, x.job, est), c, t.clients[c]);
    } else if write.CreateRow? && x.job in s.rows {
      ClientOwns(s, c, t.clients[c]);
    } else {
      ArmOwns(s, c, x.job, x.est);
    }
  }

  lemma SettlementOwns(s: State, n: nat)
    requires Enabled(s, Settles(n))
    ensures Owns(s, Settles(n))
  {
    var e := s.notices[n];
    CasOwns(s, e.job, e.est, if e.ReconcileReady? then e.actual else 0);
  }

  lemma OthersOwn(s: State, step: Step)
    requires Enabled(s, step) && (step.Tick? || step.Queue? || step.Deliver?)
    ensures Owns(s, step)
  {
  }

  lemma StepOwns(s: State, step: Step)
    requires Enabled(s, step)
    ensures Owns(s, step)
  {
    match step
    case Moves(c, move) => MoveOwns(s, c, move);
    case Writes(c, write) => WriteOwns(s, c, write);
    case Books(c, booking) => BookingOwns(s, c, booking);
    case Settles(n) => SettlementOwns(s, n);
    case _ => OthersOwn(s, step);
  }

  lemma {:induction false} RunDrifts(s: State, steps: seq<Step>)
    requires Run(s, steps)
    ensures After(s, steps).cost - Owned(After(s, steps)) == s.cost - Owned(s) + Drift(s, steps)
    decreases |steps|
  {
    if steps != [] {
      StepOwns(s, steps[0]);
      RunDrifts(Apply(s, steps[0]), steps[1..]);
    }
  }

  /**
   * The cost after any run whatever: held, reserved, spent, lost and leaked, and the drift of its steps.
   */
  lemma DriftedConservation(init: State, steps: seq<Step>)
    requires Initial(init) && Run(init, steps)
    ensures var s := After(init, steps);
      s.cost == Total(s.clients, Held) + Total(s.rows, ReservedEst) + s.spent + s.lost + LeakedTotal(s)
        + Drift(init, steps)
  {
    RunDrifts(init, steps);
    TotalSplits(After(init, steps).clients, Carried, Held, LeakedEst);
  }

  /******* Exactly when no step drifts *******/

  ghost predicate NeverDrifts(s: State, steps: seq<Step>)
    requires Run(s, steps)
    decreases |steps|
  {
    steps == [] ||
    (Mismatch(s, steps[0]) == 0 && Floored(s, steps[0]) == 0 && NeverDrifts(Apply(s, steps[0]), steps[1..]))
  }

  /** Every settling step passes the estimate its row was armed with. */
  ghost predicate AlwaysAgrees(s: State, steps: seq<Step>)
    requires Run(s, steps)
    decreases |steps|
  {
    steps == [] || (Agrees(s, steps[0]) && AlwaysAgrees(Apply(s, steps[0]), steps[1..]))
  }

  lemma {:induction false} DriftingRun(s: State, steps: seq<Step>)
    requires Run(s, steps) && Balanced(s) && Small(s)
    requires forall step :: step in steps ==> SmallStep(step)
    ensures NeverDrifts(s, steps) <==> AlwaysAgrees(s, steps)
    ensures NeverDrifts(s, steps) ==> Drift(s, steps) == 0
    decreases |steps|
  {
    if steps != [] && Agrees(s, steps[0]) {
      StepBalances(s, steps[0]);
      DriftingRun(Apply(s, steps[0]), steps[1..]);
    }
  }

  /** With amounts below the cut-off no step drifts if and only if every settling step agrees with its row. */
  lemma NoDriftExactly(init: State, steps: seq<Step>)
    requires Initial(init) && Run(init, steps)
    requires forall step :: step in steps ==> SmallStep(step)
    ensures NeverDrifts(init, steps) <==> AlwaysAgrees(init, steps)
    ensures NeverDrifts(init, steps) ==> Drift(init, steps) == 0
  {
    DriftingRun(init, steps);
  }

  /******* A run that drifts *******/

  ghost predicate Arrives(t: State) {
    exists steps :: Run(EMPTY, steps) && After(EMPTY, steps) == t && forall step :: step in steps ==> SmallStep(step)
  }

  lemma Then(t: State, step: Step) returns (u: State)
    requires Arrives(t) && Enabled(t, step) && SmallStep(step)
    ensures u == Apply(t, step) && Arrives(u)
  {
    u := Apply(t, step);
    var steps :| Run(EMPTY, steps) && After(EMPTY, steps) == t && forall step :: step in steps ==> SmallStep(step);
    RunThenStep(EMPTY, steps, step);
  }

  /** Two requests for one job, estimated at 5 and at 8, both find no row ... */
  lemma BothFindNoRow() returns (s: State)
    ensures Arrives(s) && s == EMPTY.(cost := 13, clients := map[0 := Creating(7, 5), 1 := Creating(7, 8)])
  {
    assert Run(EMPTY, []) && After(EMPTY, []) == EMPTY;
    s := Then(EMPTY, Books(0, Reserve(7, 5)));
    s := Then(s, Moves(0, ProbeNone));
    s := Then(s, Moves(0, ReadRow));
    s := SecondFindsNoRow(s);
  }

  lemma SecondFindsNoRow(start: State) returns (s: State)
    requires Arrives(start) && start == EMPTY.(cost := 5, clients := map[0 := Creating(7, 5)])
    ensures Arrives(s) && s == EMPTY.(cost := 13, clients := map[0 := Creating(7, 5), 1 := Creating(7, 8)])
  {
    s := Then(start, Books(1, Reserve(7, 8)));
    s := Then(s, Moves(1, ProbeNone));
    s := Then(s, Moves(1, ReadRow));
  }

  /** ... the first arms one and cannot enqueue; the second reads it ... */
  lemma SecondReadsRow() returns (s: State)
    ensures Arrives(s)
    ensures s == EMPTY.(cost := 13, rows := map[7 := Row(5, Reserved, 0, 0)], armings := [5],
                        clients := map[0 := Unwinding(7, 5, 0, 0, false), 1 := Waiting(7, 8, Row(5, Reserved, 0, 0))])
  {
    s := BothFindNoRow();
    s := Then(s, Writes(0, CreateRow));
    s := Then(s, Moves(0, EnqueueThrows));
    s := Then(s, Writes(1, CreateRow));
    s := Then(s, Moves(1, ReadRow));
  }

  /** ... and, when it is stale, takes it over. */
  lemma SecondTakesOver() returns (s: State)
    ensures Arrives(s)
    ensures s == EMPTY.(now := RESERVATION_STALE_MS, cost := 8, settlements := multiset{0}, armings := [5, 8],
                        rows := map[7 := Row(8, Reserved, 1, RESERVATION_STALE_MS)],
                        clients := map[0 := Unwinding(7, 5, 0, 0, false), 1 := Armed(7, 8, 1, RESERVATION_STALE_MS)])
  {
    s := SecondReadsRow();
    s := Then(s, Tick(RESERVATION_STALE_MS));
    s := Then(s, Writes(1, TakeOver));
    s := Then(s, Writes(1, Overwrite));
  }

  /** The first now refunds 5 through a row of 8, and the second finds nothing left to refund: 3 stay for ever. */
  lemma DifferentEstimatesDrift()
    ensures exists t :: Arrives(t) && AtRest(t) && t.jobs == map[] && t.cost == 3 && t.spent == 0 && t.lost == 0
  {
    var s := SecondTakesOver();
    s := Then(s, Writes(0, Unwind));
    s := Then(s, Moves(1, EnqueueThrows));
    s := Then(s, Writes(1, Unwind));
  }
}
