/**
 * Ingest of one (repository, fingerprint): any number of concurrent or repeated
 * deliveries, a lock row with an expiry that does not record its owner, a check
 * made inside the lock, and a refund on failure. Each statement or transaction
 * is one step, and deliveries interleave freely.
 */
module Ingest {
  import opened Text

  const INGEST_LOCK_TTL_MS: int := 30 * 60 * 1000

  /** The row holds only the expiry; `owner` is history. */
  datatype Lock = Lock(expiresAt: int, owner: nat)

  /** `until` is the expiry of the lock row the delivery created. */
  datatype Phase =
    | Arrived
    | Holding(until: int)                       // acquired the lock
    | Reserving(until: int)                     // found no review
    | Persisting(until: int, reserved: bool)
    | Refunding(until: int)                     // the write failed after a reservation
    | Releasing(until: int)
    | Finished

  datatype State = State(
    now: int,
    lock: Option<Lock>,
    review: bool,
    deliveries: map<nat, Phase>,
    charged: set<nat>)

  datatype Event =
    | Arrives
    | Acquires
    | Refused                   // the lock row exists: answered with "already processing"
    | AcquireThrows
    | LooksUp
    | LookupThrows
    | Reserves
    | NotReserved               // over a limit, or the reservation threw
    | Persists
    | PersistThrows
    | Refunds
    | RefundThrows              // logged only
    | Releases
    | ReleaseThrows             // logged only; the row stays until it expires
    | Crashes

  datatype Step = Tick(ms: nat) | Does(d: nat, event: Event)

  ghost predicate Initial(s: State) {
    s.lock == None && !s.review && s.deliveries == map[] && s.charged == {}
  }

  predicate LockFree(s: State) { s.lock == None || s.lock.value.expiresAt < s.now }

  predicate InLock(p: Phase) { !p.Arrived? && !p.Finished? }

  /** The delivery has reserved, and has neither persisted nor given the charge back. */
  predicate HasReserved(p: Phase) { (p.Persisting? && p.reserved) || p.Refunding? }

  predicate Enabled(s: State, step: Step) {
    match step
    case Tick(_) => true
    case Does(d, event) =>
      if event.Arrives? then d !in s.deliveries
      else
        d in s.deliveries &&
        var p := s.deliveries[d];
        match event
        case Arrives => false
        case Acquires => p.Arrived? && LockFree(s)
        case Refused => p.Arrived? && !LockFree(s)
        case AcquireThrows => p.Arrived?
        case LooksUp => p.Holding?
        case LookupThrows => p.Holding?
        case Reserves => p.Reserving?
        case NotReserved => p.Reserving?
        case Persists => p.Persisting?
        case PersistThrows => p.Persisting?
        case Refunds => p.Refunding?
        case RefundThrows => p.Refunding?
        case Releases => p.Releasing?
        case ReleaseThrows => p.Releasing?
        case Crashes => InLock(p)
  }

  function To(s: State, d: nat, p: Phase): State {
    s.(deliveries := s.deliveries[d := p])
  }

  function Apply(s: State, step: Step): State
    requires Enabled(s, step)
  {
    match step
    case Tick(ms) => s.(now := s.now + ms)
    case Does(d, event) =>
      match event
      case Arrives => To(s, d, Arrived)
      case Acquires =>
        var until := s.now + INGEST_LOCK_TTL_MS;
        To(s, d, Holding(until)).(lock := Some(Lock(until, d)))
      case Refused => To(s, d, Finished)
      case AcquireThrows => To(s, d, Finished)
      case LooksUp =>
        var until := s.deliveries[d].until;
        To(s, d, if s.review then Persisting(until, false) else Reserving(until))
      case LookupThrows => To(s, d, Releasing(s.deliveries[d].until))
      case Reserves => To(s, d, Persisting(s.deliveries[d].until, true)).(charged := s.charged + {d})
      case NotReserved => To(s, d, Releasing(s.deliveries[d].until))
      case Persists => To(s, d, Releasing(s.deliveries[d].until)).(review := true)
      case PersistThrows =>
        var p := s.deliveries[d];
        To(s, d, if p.reserved then Refunding(p.until) else Releasing(p.until))
      case Refunds => To(s, d, Releasing(s.deliveries[d].until)).(charged := s.charged - {d})
      case RefundThrows => To(s, d, Releasing(s.deliveries[d].until))
      case Releases => To(s, d, Finished).(lock := None)
      case ReleaseThrows => To(s, d, Finished)
      case Crashes => To(s, d, Finished)
  }

  /** What can happen when, and what it changes, told by what is changed. */
  lemma EventTold(s: State, d: nat, event: Event)
    requires Enabled(s, Does(d, event))
    ensures var t := Apply(s, Does(d, event));
      && t.now == s.now && t.deliveries - {d} == s.deliveries - {d} && d in t.deliveries
      && (t.review <==> s.review || event.Persists?)
      && t.charged == (if event.Reserves? then s.charged + {d} else if event.Refunds? then s.charged - {d}
                       else s.charged)
      && t.lock == (if event.Acquires? then Some(Lock(s.now + 1_800_000, d)) else if event.Releases? then None
                    else s.lock)
    // a valid lock row refuses everybody else, and only then is a delivery refused
    ensures event.Acquires? || event.Refused? ==>
      (event.Refused? <==> s.lock.Some? && s.lock.value.expiresAt >= s.now)
    ensures !event.Arrives? ==> d in s.deliveries
    ensures event.Arrives? ==> d !in s.deliveries && Apply(s, Does(d, event)).deliveries[d].Arrived?
    ensures event.Acquires? ==> s.deliveries[d].Arrived? && Apply(s, Does(d, event)).deliveries[d].Holding?
    ensures event.Refused? || event.AcquireThrows? ==>
      s.deliveries[d].Arrived? && Apply(s, Does(d, event)).deliveries[d].Finished?
    ensures event.Releases? || event.ReleaseThrows? ==>
      s.deliveries[d].Releasing? && Apply(s, Does(d, event)).deliveries[d].Finished?
    ensures event.Crashes? ==> InLock(s.deliveries[d]) && Apply(s, Does(d, event)).deliveries[d].Finished?
  {
  }

  /** Of a delivery in the lock: a denied or failed one writes nothing, and whatever it comes to, it lets go next. */
  lemma InLockTold(s: State, d: nat, event: Event)
    requires Enabled(s, Does(d, event))
    requires event.LooksUp? || event.LookupThrows? || event.Reserves? || event.NotReserved? || event.Persists?
      || event.PersistThrows? || event.Refunds? || event.RefundThrows?
    ensures var p, q := s.deliveries[d], Apply(s, Does(d, event)).deliveries[d];
      && InLock(p) && InLock(q) && q.until == p.until
      && (event.LooksUp? ==> p.Holding? && (if s.review then q.Persisting? && !q.reserved else q.Reserving?))
      && (event.Reserves? ==> p.Reserving? && q.Persisting? && q.reserved)
      && (event.PersistThrows? ==> p.Persisting? && (if p.reserved then q.Refunding? else q.Releasing?))
      && (event.LookupThrows? ==> p.Holding?) && (event.NotReserved? ==> p.Reserving?)
      && (event.Persists? ==> p.Persisting?) && (event.Refunds? || event.RefundThrows? ==> p.Refunding?)
      && (!event.LooksUp? && !event.Reserves? && !event.PersistThrows? ==> q.Releasing?)
  {
  }

  ghost predicate Run(s: State, steps: seq<Step>)
    decreases |steps|
  {
    steps == [] || (Enabled(s, steps[0]) && Run(Apply(s, steps[0]), steps[1..]))
  }

  ghost function After(s: State, steps: seq<Step>): State
    requires Run(s, steps)
    decreases |steps|
  {
    if steps == [] then s else After(Apply(s, steps[0]), steps[1..])
  }

  /** Nobody in the lock outlives the row it created. */
  ghost predicate WithinTtl(s: State, step: Step) {
    step.Tick? ==>
      forall d :: d in s.deliveries && InLock(s.deliveries[d]) ==> s.now + step.ms <= s.deliveries[d].until
  }

  ghost predicate InTime(s: State, steps: seq<Step>)
    requires Run(s, steps)
    decreases |steps|
  {
    steps == [] || (WithinTtl(s, steps[0]) && InTime(Apply(s, steps[0]), steps[1..]))
  }

  /** The delivery goes on without its charge being given back: its refund fails, or it crashes holding the charge. */
  predicate Drops(s: State, step: Step)
    requires Enabled(s, step)
  {
    step.Does? &&
    (step.event.RefundThrows? || (step.event.Crashes? && HasReserved(s.deliveries[step.d])))
  }

  /** The deliveries that do so along the run. */
  ghost function Dropped(s: State, steps: seq<Step>): set<nat>
    requires Run(s, steps)
    decreases |steps|
  {
    if steps == [] then {}
    else (if Drops(s, steps[0]) then {steps[0].d} else {}) + Dropped(Apply(s, steps[0]), steps[1..])
  }

  /******* The invariant *******/

  ghost predicate LockIsOwn(s: State) {
    forall d :: d in s.deliveries && InLock(s.deliveries[d]) ==>
      s.lock == Some(Lock(s.deliveries[d].until, d)) && s.now <= s.deliveries[d].until
  }

  /**
   * Besides the dropped charges there is one for the review, if it exists, and else one for each delivery that
   * has reserved and still holds the charge.
   */
  ghost predicate ChargesFollow(s: State, dropped: set<nat>) {
    && (forall d :: d in dropped ==> d in s.deliveries && (s.deliveries[d].Releasing? || s.deliveries[d].Finished?))
    && if s.review
       then (exists d :: d !in dropped && s.charged == dropped + {d})
            && forall d :: d in s.deliveries ==> !HasReserved(s.deliveries[d]) && !s.deliveries[d].Reserving?
       else (forall d :: d in s.charged <==> d in dropped || (d in s.deliveries && HasReserved(s.deliveries[d])))
            && forall d :: d in s.deliveries && s.deliveries[d].Persisting? ==> s.deliveries[d].reserved
  }

  lemma StepKeepsLock(s: State, step: Step)
    requires Enabled(s, step) && WithinTtl(s, step) && LockIsOwn(s)
    ensures LockIsOwn(Apply(s, step))
  {
  }

  /** The delivery that writes the review carries the one charge that was not dropped. */
  lemma PersistKeepsCharges(s: State, d: nat, dropped: set<nat>)
    requires Enabled(s, Does(d, Persists)) && LockIsOwn(s) && ChargesFollow(s, dropped)
    ensures ChargesFollow(Apply(s, Does(d, Persists)), dropped)
  {
    if !s.review {
      forall e | e in s.charged && e !in dropped ensures e == d {
        assert InLock(s.deliveries[e]);
      }
      assert s.charged == dropped + {d};
    }
  }

  /** Everything else happens before there is a review, or leaves the charges alone. */
  lemma OthersKeepCharges(s: State, d: nat, event: Event, dropped: set<nat>)
    requires Enabled(s, Does(d, event)) && !event.Persists? && LockIsOwn(s) && ChargesFollow(s, dropped)
    requires !Drops(s, Does(d, event))
    ensures ChargesFollow(Apply(s, Does(d, event)), dropped)
  {
  }

  lemma DropKeepsCharges(s: State, d: nat, event: Event, dropped: set<nat>)
    requires Enabled(s, Does(d, event)) && ChargesFollow(s, dropped) && Drops(s, Does(d, event))
    ensures ChargesFollow(Apply(s, Does(d, event)), dropped + {d})
  {
  }

  lemma StepKeepsCharges(s: State, step: Step, dropped: set<nat>)
    requires Enabled(s, step) && LockIsOwn(s) && ChargesFollow(s, dropped)
    ensures ChargesFollow(Apply(s, step), dropped + if Drops(s, step) then {step.d} else {})
  {
    assert dropped + {} == dropped;
    if step.Does? {
      if Drops(s, step) {
        DropKeepsCharges(s, step.d, step.event, dropped);
      } else if step.event.Persists? {
        PersistKeepsCharges(s, step.d, dropped);
      } else {
        OthersKeepCharges(s, step.d, step.event, dropped);
      }
    }
  }

  lemma {:induction false} RunKeepsInvariant(s: State, steps: seq<Step>, dropped: set<nat>)
    requires Run(s, steps) && InTime(s, steps) && LockIsOwn(s) && ChargesFollow(s, dropped)
    ensures LockIsOwn(After(s, steps)) && ChargesFollow(After(s, steps), dropped + Dropped(s, steps))
    decreases |steps|
  {
    if steps == [] {
      assert dropped + {} == dropped;
    } else {
      var more := if Drops(s, steps[0]) then {steps[0].d} else {};
      StepKeepsLock(s, steps[0]);
      StepKeepsCharges(s, steps[0], dropped);
      RunKeepsInvariant(Apply(s, steps[0]), steps[1..], dropped + more);
      assert dropped + more + Dropped(Apply(s, steps[0]), steps[1..]) == dropped + Dropped(s, steps);
    }
  }

  /** The delivery that holds the lock, if it has reserved. */
  ghost predicate HolderHasReserved(s: State) {
    exists d :: d in s.deliveries && HasReserved(s.deliveries[d])
  }

  /** At most one charge, and one exactly when the review exists or the present holder has reserved. */
  ghost predicate ChargedOnce(s: State) {
    |s.charged| <= 1 && (|s.charged| == 1 <==> s.review || HolderHasReserved(s))
  }

  /**
   * Over any concurrent or repeated deliveries that keep to the lifetime of the lock, failing refunds and
   * crashes included, reservations minus refunds are the dropped charges, and one more exactly when the review
   * exists or the present holder has reserved.
   */
  lemma ChargesAddUp(init: State, steps: seq<Step>)
    requires Initial(init) && Run(init, steps) && InTime(init, steps)
    ensures var s := After(init, steps);
            |s.charged| == |Dropped(init, steps)| + if s.review || HolderHasReserved(s) then 1 else 0
  {
    RunKeepsInvariant(init, steps, {});
    var s := After(init, steps);
    var dropped := Dropped(init, steps);
    assert {} + dropped == dropped;
    if s.review {
      var d :| d !in dropped && s.charged == dropped + {d};
    } else if d :| d in s.deliveries && HasReserved(s.deliveries[d]) {
      forall e | e in s.charged && e !in dropped ensures e == d {
        assert InLock(s.deliveries[e]) && InLock(s.deliveries[d]);
      }
      assert s.charged == dropped + {d};
    } else {
      assert s.charged == dropped;
    }
  }

  /** So a review is charged once at most, and once exactly when it should be, if and only if no charge was dropped. */
  lemma ChargedAtMostOnce(init: State, steps: seq<Step>)
    requires Initial(init) && Run(init, steps) && InTime(init, steps)
    ensures ChargedOnce(After(init, steps)) <==> Dropped(init, steps) == {}
  {
    ChargesAddUp(init, steps);
  }

  /** The lock row of a delivery in the lock is only ever removed by that delivery itself. */
  lemma OnlyTheHolderReleases(init: State, steps: seq<Step>, step: Step, d: nat)
    requires Initial(init) && Run(init, steps) && InTime(init, steps)
    requires Enabled(After(init, steps), step) && WithinTtl(After(init, steps), step)
    requires d in After(init, steps).deliveries && InLock(After(init, steps).deliveries[d])
    ensures var s := After(init, steps);
            Apply(s, step).lock != s.lock ==> step == Does(d, Releases)
  {
    RunKeepsInvariant(init, steps, {});
    var s := After(init, steps);
    if step.Does? && step.event.Releases? {
      assert InLock(s.deliveries[step.d]);
    }
  }

  /******* The lock is let go *******/

  /** The delivery is over without the lock row being removed. */
  predicate LeavesLock(step: Step) { step.Does? && (step.event.ReleaseThrows? || step.event.Crashes?) }

  function Leavers(steps: seq<Step>): set<nat> {
    if steps == [] then {} else (if LeavesLock(steps[0]) then {steps[0].d} else {}) + Leavers(steps[1..])
  }

  /** The lock row belongs to a delivery that is in it, or that has left it behind. */
  ghost predicate LockFollows(s: State, left: set<nat>) {
    s.lock.Some? ==>
      var d := s.lock.value.owner;
      d in left || (d in s.deliveries && InLock(s.deliveries[d]))
  }

  lemma {:induction false} RunLetsGo(s: State, steps: seq<Step>, left: set<nat>)
    requires Run(s, steps) && InTime(s, steps) && LockIsOwn(s) && LockFollows(s, left)
    ensures LockFollows(After(s, steps), left + Leavers(steps))
    decreases |steps|
  {
    if steps == [] {
      assert left + {} == left;
    } else {
      var more := if LeavesLock(steps[0]) then {steps[0].d} else {};
      StepKeepsLock(s, steps[0]);
      RunLetsGo(Apply(s, steps[0]), steps[1..], left + more);
      assert left + more + Leavers(steps[1..]) == left + Leavers(steps);
    }
  }

  /** Within the lifetime of the lock its row outlives a delivery only if the release failed or the process crashed. */
  lemma LockIsLetGo(init: State, steps: seq<Step>)
    requires Initial(init) && Run(init, steps) && InTime(init, steps)
    ensures LockFollows(After(init, steps), Leavers(steps))
  {
    RunLetsGo(init, steps, {});
    assert {} + Leavers(steps) == Leavers(steps);
  }

  /******* Runs that charge a review twice *******/

  function EmptyState(): State { State(0, None, false, map[], {}) }

  /** A run that begins with this step. */
  lemma Prepend(s: State, step: Step, rest: seq<Step>) returns (steps: seq<Step>)
    requires Enabled(s, step) && Run(Apply(s, step), rest)
    ensures Run(s, steps) && After(s, steps) == After(Apply(s, step), rest)
    ensures WithinTtl(s, step) && InTime(Apply(s, step), rest) ==> InTime(s, steps)
    ensures Dropped(s, steps) == (if Drops(s, step) then {step.d} else {}) + Dropped(Apply(s, step), rest)
  {
    steps := [step] + rest;
    assert steps[1..] == rest;
  }

  /** A delivery comes, gets the free lock, finds no review, and reserves. */
  lemma ReservesFirst(s: State, d: nat, rest: seq<Step>) returns (steps: seq<Step>)
    requires d !in s.deliveries && LockFree(s) && !s.review
    requires Run(Reserved(s, d), rest) && InTime(Reserved(s, d), rest)
    ensures Run(s, steps) && InTime(s, steps) && After(s, steps) == After(Reserved(s, d), rest)
    ensures Dropped(s, steps) == Dropped(Reserved(s, d), rest)
  {
    var s1 := Apply(s, Does(d, Arrives));
    var s2 := Apply(s1, Does(d, Acquires));
    var s3 := Apply(s2, Does(d, LooksUp));
    assert Apply(s3, Does(d, Reserves)) == Reserved(s, d);
    steps := Prepend(s3, Does(d, Reserves), rest);
    steps := Prepend(s2, Does(d, LooksUp), steps);
    steps := Prepend(s1, Does(d, Acquires), steps);
    steps := Prepend(s, Does(d, Arrives), steps);
  }

  function Reserved(s: State, d: nat): State {
    var until := s.now + INGEST_LOCK_TTL_MS;
    s.(lock := Some(Lock(until, d)), deliveries := s.deliveries[d := Persisting(until, true)],
       charged := s.charged + {d})
  }

  /** The delivery that has reserved fails to write the review, fails to refund, and lets the lock go. */
  function AfterFailedRefund(): State {
    State(0, None, false, map[0 := Finished], {0})
  }

  lemma UntilFailedRefund(rest: seq<Step>) returns (steps: seq<Step>)
    requires Run(AfterFailedRefund(), rest) && InTime(AfterFailedRefund(), rest)
    ensures Run(EmptyState(), steps) && InTime(EmptyState(), steps)
    ensures After(EmptyState(), steps) == After(AfterFailedRefund(), rest)
    ensures Dropped(EmptyState(), steps) == {0} + Dropped(AfterFailedRefund(), rest)
  {
    var s1 := Reserved(EmptyState(), 0);
    var s2 := Apply(s1, Does(0, PersistThrows));
    var s3 := Apply(s2, Does(0, RefundThrows));
    assert Apply(s3, Does(0, Releases)) == AfterFailedRefund();
    steps := Prepend(s3, Does(0, Releases), rest);
    steps := Prepend(s2, Does(0, RefundThrows), steps);
    steps := Prepend(s1, Does(0, PersistThrows), steps);
    steps := ReservesFirst(EmptyState(), 0, steps);
  }

  /**
   * A delivery reserves, fails to write the review, and fails to refund, which is only logged; the next one finds
   * no review and reserves again. No time passes, and both charges stay.
   */
  lemma FailedRefundChargesTwice()
    ensures exists init, steps ::
              Initial(init) && Run(init, steps) && InTime(init, steps) && Dropped(init, steps) == {0} &&
              !After(init, steps).review && |After(init, steps).charged| == 2
  {
    var steps := ReservesFirst(AfterFailedRefund(), 1, []);
    assert After(AfterFailedRefund(), steps).charged == {0, 1};
    steps := UntilFailedRefund(steps);
  }

  /** The first delivery holds the lock, has found no review, and has just outlived its row. */
  function LateState(): State {
    State(INGEST_LOCK_TTL_MS + 1, Some(Lock(INGEST_LOCK_TTL_MS, 0)), false, map[0 := Reserving(INGEST_LOCK_TTL_MS)], {})
  }

  lemma UntilLate(rest: seq<Step>) returns (steps: seq<Step>)
    requires Run(LateState(), rest)
    ensures Run(EmptyState(), steps) && After(EmptyState(), steps) == After(LateState(), rest)
    ensures Dropped(EmptyState(), steps) == Dropped(LateState(), rest)
  {
    var s1 := Apply(EmptyState(), Does(0, Arrives));
    var s2 := Apply(s1, Does(0, Acquires));
    var s3 := Apply(s2, Does(0, LooksUp));
    assert Apply(s3, Tick(INGEST_LOCK_TTL_MS + 1)) == LateState();
    steps := Prepend(s3, Tick(INGEST_LOCK_TTL_MS + 1), rest);
    steps := Prepend(s2, Does(0, LooksUp), steps);
    steps := Prepend(s1, Does(0, Acquires), steps);
    steps := Prepend(EmptyState(), Does(0, Arrives), steps);
  }

  /** A second delivery gets the lock of the expired row, and finds no review either. */
  function BothFoundNoReview(): State {
    var until := 2 * INGEST_LOCK_TTL_MS + 1;
    State(INGEST_LOCK_TTL_MS + 1, Some(Lock(until, 1)), false,
          map[0 := Reserving(INGEST_LOCK_TTL_MS), 1 := Reserving(until)], {})
  }

  lemma BothReserve() returns (steps: seq<Step>)
    ensures Run(BothFoundNoReview(), steps) && After(BothFoundNoReview(), steps).charged == {0, 1}
    ensures Dropped(BothFoundNoReview(), steps) == {}
  {
    var s1 := Apply(BothFoundNoReview(), Does(0, Reserves));
    steps := Prepend(s1, Does(1, Reserves), []);
    steps := Prepend(BothFoundNoReview(), Does(0, Reserves), steps);
  }

  lemma AfterLate() returns (steps: seq<Step>)
    ensures Run(LateState(), steps) && After(LateState(), steps).charged == {0, 1}
    ensures Dropped(LateState(), steps) == {}
  {
    var s1 := Apply(LateState(), Does(1, Arrives));
    var s2 := Apply(s1, Does(1, Acquires));
    assert Apply(s2, Does(1, LooksUp)) == BothFoundNoReview();
    steps := BothReserve();
    steps := Prepend(s2, Does(1, LooksUp), steps);
    steps := Prepend(s1, Does(1, Acquires), steps);
    steps := Prepend(LateState(), Does(1, Arrives), steps);
  }

  /**
   * A holder that outlives its lock row lets a second delivery acquire the
   * lock; both have found no review, and both reserve. Nothing is dropped.
   */
  lemma LateHolderChargesTwice()
    ensures exists init, steps ::
              Initial(init) && Run(init, steps) && Dropped(init, steps) == {} && |After(init, steps).charged| == 2
  {
    var steps := AfterLate();
    steps := UntilLate(steps);
  }
}
