/**
 * What a hosted review does to the ledger (src/queue/review-processor.ts): an estimate is reserved before the
 * model is called, replaced by the actual cost after it, and given back if the review fails before that.
 */
module HostedBilling {
  import opened Text
  import opened Ledger

  datatype Review = Review(org: string, provider: string, model: string, est: nat)

  /** The model run with everything before it; a run need not report its usage. */
  datatype Pipeline = Fails | Runs(actual: Option<nat>)

  /** How the calls go, and when the review starts and when it ends. */
  datatype World = World(
    start: int, finish: int, nextMonth: int,
    reserveThrows: bool, pipeline: Pipeline, reconcileFault: DeductFault, persistThrows: bool,
    refundThrows: bool, slotRefundThrows: bool)

  datatype Exit = Skipped(statusCode: int) | Completed | Threw

  function Key(r: Review): BudgetKey { BudgetKey(r.org, r.provider) }

  function Slot(r: Review, now: int): WindowKey { WindowKey(r.org, r.provider, r.model, StartOfUtcDay(now)) }

  /** A failing budget system does not stop the review; only a real denial does. */
  predicate Admitted(b: Books, r: Review, w: World) {
    !w.reserveThrows && Reserve(b, Key(r), Slot(r, w.start), r.est, w.start, w.nextMonth).0 == Allowed
  }

  predicate Denies(b: Books, r: Review, w: World) { !w.reserveThrows && !Admitted(b, r, w) }

  /**
   * What the review is to cost: nothing if the model did not run, else what it used, or the estimate. A
   * reconciliation that fails late, on the alert, has booked the overage already.
   */
  function Owed(b: Books, r: Review, w: World): nat {
    var reserved := if Admitted(b, r, w) then r.est else 0;
    if Denies(b, r, w) then 0
    else
      match w.pipeline
      case Fails => if w.refundThrows then reserved else 0
      case Runs(actual) => if w.reconcileFault == FailsEarly then reserved else actual.GetOr(reserved)
  }

  /** The slot stays used if the review was admitted and the model ran, or giving it back failed. */
  predicate KeepsSlot(b: Books, r: Review, w: World) {
    Admitted(b, r, w) && (w.pipeline.Runs? || w.slotRefundThrows)
  }

  /** What a review owes and whether its slot stays used, situation by situation. */
  lemma OwedTold(b: Books, r: Review, w: World)
    ensures var outcome := Reserve(b, Key(r), Slot(r, w.start), r.est, w.start, w.nextMonth).0;
      var admitted := !w.reserveThrows && outcome == Allowed;
      var estimate := if admitted then r.est else 0;
      && (Denies(b, r, w) <==> !w.reserveThrows && outcome.Denied?)
      && (Denies(b, r, w) ==> Owed(b, r, w) == 0 && !KeepsSlot(b, r, w))
      && (!Denies(b, r, w) && w.pipeline.Fails? ==>
            && Owed(b, r, w) == (if w.refundThrows then estimate else 0)
            && (KeepsSlot(b, r, w) <==> admitted && w.slotRefundThrows))
      && (!Denies(b, r, w) && w.pipeline.Runs? ==>
            && Owed(b, r, w) == (if w.reconcileFault == FailsEarly || w.pipeline.actual.None? then estimate
                                 else w.pipeline.actual.value)
            && (KeepsSlot(b, r, w) <==> admitted))
  {
  }

  class ReviewProcessor {
    const db: Database
    const budgetService: BudgetService

    ghost predicate Valid() { budgetService.db == db }

    constructor (db: Database)
      ensures Valid() && this.db == db
      ensures fresh(budgetService)
    {
      this.db := db;
      budgetService := new BudgetService(db);
    }

    /** Best effort: what fails is logged, and an early failure leaves the estimate on the counter. */
    method Reconcile(r: Review, reservedCost: nat, actual: Option<nat>, fault: DeductFault)
      requires Valid()
      modifies db`budgets, db`alerts
      ensures db.Contents() ==
        if fault == FailsEarly then old(db.Contents())
        else ReplaceAll(old(db.Contents()), Key(r), reservedCost, actual.GetOr(reservedCost))
    {
      var delta := actual.GetOr(reservedCost) - reservedCost;
      if delta > 0 {
        var _ := budgetService.DeductBudget(r.org, r.provider, delta, fault);
      } else if delta < 0 && fault != FailsEarly {
        budgetService.RefundUsage(r.org, r.provider, 0 - delta);
      }
    }

    method RefundReservedUsage(r: Review, w: World)
      requires Valid()
      modifies db`budgets, db`windows
      ensures db.budgets == if w.refundThrows then old(db.budgets)
          else GiveBack(old(db.Contents()), Key(r), r.est).budgets
      ensures db.windows ==
        if w.slotRefundThrows then old(db.windows) else RefundSlot(old(db.Contents()), Slot(r, w.finish)).windows
    {
      if !w.refundThrows {
        budgetService.RefundUsage(r.org, r.provider, r.est);
      }
      if !w.slotRefundThrows {
        budgetService.RefundRateLimit(r.org, r.provider, r.model, w.finish);
      }
    }

    /** The reservation; nothing comes back from a budget system that fails. */
    method TryReserve(r: Review, w: World) returns (outcome: Option<Outcome>)
      requires Valid()
      modifies db, budgetService
      ensures outcome == if w.reserveThrows then None
        else Some(Reserve(old(db.Contents()), Key(r), Slot(r, w.start), r.est, w.start, w.nextMonth).0)
      ensures outcome != Some(Allowed) ==> db.Contents() == old(db.Contents())
      ensures db.rows == old(db.rows) && db.budgets - {Key(r)} == old(db.budgets) - {Key(r)}
      ensures outcome == Some(Allowed) ==>
        SlotCount(db.windows, r, w.start) == old(SlotCount(db.windows, r, w.start)) + 1
      ensures Current(old(db.budgets), r, w) ==>
        Current(db.budgets, r, w)
        && db.budgets[Key(r)] == old(db.budgets)[Key(r)].(cost := db.budgets[Key(r)].cost)
        && db.budgets[Key(r)].cost == old(db.budgets)[Key(r)].cost + if outcome == Some(Allowed) then r.est else 0
    {
      if w.reserveThrows {
        return None;
      }
      var allowed := budgetService.ReserveUsage(r.org, r.provider, r.model, r.est, w.start, w.nextMonth);
      return Some(allowed);
    }

    /**
     * Whatever fails on the way, the review costs exactly what it owes, also when the reservation itself failed
     * and when saving the review fails after the model was paid; and a denied review leaves no trace.
     */
    method ProcessReview(r: Review, w: World) returns (exit: Exit)
      requires Valid()
      modifies db, budgetService
      ensures old(Denies(db.Contents(), r, w)) <==> exit.Skipped?
      ensures exit.Skipped? ==> db.Contents() == old(db.Contents())
      // no reservation row, no other counter, and of its own counter only the cost is changed
      ensures db.rows == old(db.rows) && db.budgets - {Key(r)} == old(db.budgets) - {Key(r)}
      ensures Current(old(db.budgets), r, w) ==>
        Key(r) in db.budgets && db.budgets[Key(r)] == old(db.budgets)[Key(r)].(cost := db.budgets[Key(r)].cost)
      ensures !exit.Skipped? ==> (exit == Completed <==> w.pipeline.Runs? && !w.persistThrows)
      ensures Current(old(db.budgets), r, w) && r.est <= CLAMP ==>
        Key(r) in db.budgets && db.budgets[Key(r)].cost == old(db.budgets[Key(r)].cost + Owed(db.Contents(), r, w))
      ensures old(SlotCount(db.windows, r, w.start)) >= 0 && StartOfUtcDay(w.start) == StartOfUtcDay(w.finish) ==>
        SlotCount(db.windows, r, w.start)
          == old(SlotCount(db.windows, r, w.start)) + if old(KeepsSlot(db.Contents(), r, w)) then 1 else 0
    {
      var outcome := TryReserve(r, w);
      if outcome.Some? && outcome.value != Allowed {
        return Skipped(outcome.value.statusCode);
      }
      var reserved := outcome.Some?;
      var reservedCost := if reserved then r.est else 0;
      if w.pipeline.Fails? {
        if reserved {
          RefundReservedUsage(r, w);
        }
        return Threw;
      }
      Reconcile(r, reservedCost, w.pipeline.actual, w.reconcileFault);
      if w.persistThrows {
        return Threw;
      }
      return Completed;
    }
  }

  /** The organisation has a budget for the provider, and its month does not end before the reservation. */
  predicate Current(budgets: map<BudgetKey, Budget>, r: Review, w: World) {
    Key(r) in budgets && budgets[Key(r)].cost >= 0 && budgets[Key(r)].resets > w.start
  }

  /** The requests counted in the day's window. */
  function SlotCount(windows: map<WindowKey, Window>, r: Review, now: int): int {
    if Slot(r, now) in windows then windows[Slot(r, now)].count else 0
  }

  /** The estimate replaced by the actual cost; what is booked on top is not cut off. */
  function ReplaceAll(b: Books, key: BudgetKey, est: int, actual: int): Books {
    if est >= actual then GiveBack(b, key, est - actual) else Deduct(b, key, actual - est)
  }

  /** The windows after a review was admitted and its slot given back. */
  function WindowsAfterRefund(b: Books, r: Review, w: World): map<WindowKey, Window> {
    RefundSlot(Reserve(b, Key(r), Slot(r, w.start), r.est, w.start, w.nextMonth).1, Slot(r, w.finish)).windows
  }

  predicate Counts(windows: map<WindowKey, Window>, slot: WindowKey, count: int) {
    if slot in windows then windows[slot].count == count else count == 0
  }

  /**
   * The slot is given back for the day on which the review ends: the counts are as before if and only if that
   * is still the day on which it was reserved.
   */
  lemma SlotComesBackTheSameDayOnly(b: Books, r: Review, w: World)
    requires Admitted(b, r, w)
    requires forall slot :: slot in b.windows ==> b.windows[slot].count >= 0
    ensures (forall slot :: slot in WindowsAfterRefund(b, r, w) ==>
              Counts(b.windows, slot, WindowsAfterRefund(b, r, w)[slot].count))
      <==> StartOfUtcDay(w.start) == StartOfUtcDay(w.finish)
  {
    var taken, given := Slot(r, w.start), Slot(r, w.finish);
    var after := WindowsAfterRefund(b, r, w);
    if taken != given {
      assert taken in after;
      assert after[taken].count == (if taken in b.windows then b.windows[taken].count else 0) + 1;
    }
  }
}
