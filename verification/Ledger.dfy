/**
 * The spend ledger: a monthly cost counter per (organisation, provider) and a
 * daily request window per (organisation, provider, model). `Books` is the
 * value the tables hold; the functions on it say what each call means, and the
 * classes below carry the calls out statement by statement.
 */
module Ledger {
  import opened Text

  const CLAMP: int := 999_999_999
  const MAX_REQUESTS_PER_DAY: int := 1000
  const DAY_MS: int := 86_400_000
  const CLEANUP_INTERVAL_MS: int := 3_600_000
  const RETENTION_DAYS: int := 7

  datatype BudgetKey = BudgetKey(org: string, provider: string)
  datatype Budget = Budget(cost: int, limit: int, resets: int, alertPct: int)

  datatype WindowKey = WindowKey(org: string, provider: string, model: string, windowStart: int)
  datatype Window = Window(count: int, max: int)

  datatype Books = Books(budgets: map<BudgetKey, Budget>, windows: map<WindowKey, Window>)

  datatype Outcome = Allowed | Denied(statusCode: int)

  function Min(a: int, b: int): int { if a <= b then a else b }
  function Max(a: int, b: int): int { if a >= b then a else b }

  function StartOfUtcDay(now: int): int { now - now % DAY_MS }

  /******* What the calls mean *******/

  predicate Due(b: Books, key: BudgetKey, now: int) {
    key in b.budgets && b.budgets[key].resets <= now
  }

  function SetCost(b: Books, key: BudgetKey, cost: int): Books
    requires key in b.budgets
  {
    b.(budgets := b.budgets[key := b.budgets[key].(cost := cost)])
  }

  /** A new month starts the counter at zero. `nextMonth` is the first instant of the month after `now`. */
  function Rolled(b: Books, key: BudgetKey, now: int, nextMonth: int): Books {
    if Due(b, key, now)
    then b.(budgets := b.budgets[key := b.budgets[key].(cost := 0, resets := nextMonth)])
    else b
  }

  predicate OverBudget(b: Books, key: BudgetKey, est: int) {
    est > 0 && key in b.budgets && b.budgets[key].cost + est > b.budgets[key].limit
  }

  predicate WindowFull(b: Books, w: WindowKey) {
    w in b.windows && b.windows[w].count >= b.windows[w].max
  }

  function Charged(b: Books, key: BudgetKey, est: int): Books {
    if est > 0 && key in b.budgets then SetCost(b, key, b.budgets[key].cost + est) else b
  }

  function Counted(b: Books, w: WindowKey): Books {
    b.(windows := b.windows[w := if w in b.windows
                                 then b.windows[w].(count := b.windows[w].count + 1)
                                 else Window(1, MAX_REQUESTS_PER_DAY)])
  }

  /** Reserve money and a slot of the day's window, or neither. */
  function Reserve(b: Books, key: BudgetKey, w: WindowKey, est: int, now: int, nextMonth: int): (Outcome, Books) {
    var rolled := Rolled(b, key, now, nextMonth);
    if OverBudget(rolled, key, est) then (Denied(402), b)
    else if WindowFull(b, w) then (Denied(429), b)
    else (Allowed, Counted(Charged(rolled, key, est), w))
  }

  /** Give money back; amounts are cut off, and the counter never goes below zero. */
  function GiveBack(b: Books, key: BudgetKey, amount: int): Books {
    if amount > 0 && key in b.budgets
    then SetCost(b, key, Max(0, b.budgets[key].cost - Min(amount, CLAMP)))
    else b
  }

  function RefundSlot(b: Books, w: WindowKey): Books {
    if w in b.windows
    then b.(windows := b.windows[w := b.windows[w].(count := Max(0, b.windows[w].count - 1))])
    else b
  }

  /** Book an overage that no reservation covered. There is no cap here. */
  function Deduct(b: Books, key: BudgetKey, amount: int): Books {
    if amount > 0 && key in b.budgets then SetCost(b, key, b.budgets[key].cost + amount) else b
  }

  /** Replace a reserved estimate by the actual cost. */
  function ReplaceEstimate(b: Books, key: BudgetKey, est: int, actual: int): Books {
    if est >= actual then GiveBack(b, key, est - actual) else Deduct(b, key, Min(actual - est, CLAMP))
  }

  function ResetOne(b: Books, key: BudgetKey, nextMonth: int): Books {
    if key in b.budgets
    then b.(budgets := b.budgets[key := b.budgets[key].(cost := 0, resets := nextMonth)])
    else b
  }

  function ResetOrg(b: Books, org: string, nextMonth: int): Books {
    b.(budgets := map k | k in b.budgets ::
         if k.org == org then b.budgets[k].(cost := 0, resets := nextMonth) else b.budgets[k])
  }

  function DropWindowsBefore(b: Books, cutoff: int): Books {
    b.(windows := map w | w in b.windows && w.windowStart >= cutoff :: b.windows[w])
  }

  /******* Properties of the calls *******/

  /** A day begins at a multiple of its length, and the instant lies in it. */
  lemma DayHoldsInstant(now: int)
    ensures var day := StartOfUtcDay(now); day <= now < day + 86_400_000 && exists n: int :: day == n * 86_400_000
  {
    assert StartOfUtcDay(now) == (now / DAY_MS) * 86_400_000;
  }

  /** What a budget whose month is over starts with: nothing. */
  function Carried(b: Books, key: BudgetKey, now: int): int
    requires key in b.budgets
  {
    if b.budgets[key].resets <= now then 0 else b.budgets[key].cost
  }

  /**
   * A reservation is denied for money exactly if the month's cost would exceed the limit, and else for the slot
   * exactly if the day's window is used up. A denied one leaves no trace, not even the month's rollover; an
   * allowed one moves both counters, rolls a month that is over to the next reset date, and touches nothing else.
   */
  lemma ReserveAllOrNothing(b: Books, key: BudgetKey, w: WindowKey, est: int, now: int, nextMonth: int)
    ensures var (outcome, after) := Reserve(b, key, w, est, now, nextMonth);
            && (outcome == Denied(402) <==>
                  est > 0 && key in b.budgets && Carried(b, key, now) + est > b.budgets[key].limit)
            && (outcome == Denied(429) <==>
                  outcome != Denied(402) && w in b.windows && b.windows[w].count >= b.windows[w].max)
            && (outcome == Allowed || outcome == Denied(402) || outcome == Denied(429))
            && (outcome != Allowed ==> after == b)
            && (outcome == Allowed ==>
                  && after.windows == b.windows[w :=
                       if w in b.windows then Window(b.windows[w].count + 1, b.windows[w].max) else Window(1, 1000)]
                  && after.budgets.Keys == b.budgets.Keys
                  && (forall k :: k in b.budgets && k != key ==> after.budgets[k] == b.budgets[k])
                  && (key in b.budgets ==>
                        var was := b.budgets[key];
                        after.budgets[key] == Budget(Carried(b, key, now) + Max(est, 0), was.limit,
                          if was.resets <= now then nextMonth else was.resets, was.alertPct)))
  {
  }

  /** A reset empties the counter and sets the next reset date, of one budget or of all of an organisation. */
  lemma ResetsEmpty(b: Books, key: BudgetKey, nextMonth: int)
    requires key in b.budgets
    ensures var reset := b.budgets[key].(cost := 0, resets := nextMonth);
      && ResetOne(b, key, nextMonth) == b.(budgets := b.budgets[key := reset])
      && forall org ::
           var after := ResetOrg(b, org, nextMonth);
           && after.windows == b.windows && after.budgets.Keys == b.budgets.Keys
           && after.budgets[key] == if key.org == org then reset else b.budgets[key]
  {
  }

  /** The windows of the last seven days stay, as they are, and no older ones. */
  lemma RecentWindowsStay(b: Books, now: int, w: WindowKey)
    ensures var after := DropWindowsBefore(b, now - RETENTION_DAYS * DAY_MS);
      && after.budgets == b.budgets
      && (w in after.windows <==> w in b.windows && w.windowStart >= now - 7 * 86_400_000)
      && (w in after.windows ==> after.windows[w] == b.windows[w])
  {
  }

  /** Of a refund or a deduction: by how much the counter moves, and that nothing else does. */
  lemma AmountsMoveCost(b: Books, key: BudgetKey, amount: int)
    requires key in b.budgets && b.budgets[key].cost >= 0
    ensures var was := b.budgets[key];
      && GiveBack(b, key, amount) == b.(budgets := b.budgets[key := was.(cost :=
           if amount <= 0 then was.cost
           else if amount > 999_999_999 then (if was.cost >= 999_999_999 then was.cost - 999_999_999 else 0)
           else if amount <= was.cost then was.cost - amount else 0)])
      && Deduct(b, key, amount) == b.(budgets := b.budgets[key := was.(cost :=
           if amount > 0 then was.cost + amount else was.cost)])
  {
    assert b.budgets[key := b.budgets[key]] == b.budgets;
  }

  /** Refunding money and slot right after an allowed reservation undoes it exactly. */
  lemma RefundUndoesReserve(b: Books, key: BudgetKey, w: WindowKey, est: int, now: int, nextMonth: int)
    requires est <= CLAMP && Reserve(b, key, w, est, now, nextMonth).0 == Allowed
    requires key in b.budgets ==> b.budgets[key].cost >= 0
    requires w in b.windows ==> b.windows[w].count >= 0
    ensures var after := RefundSlot(GiveBack(Reserve(b, key, w, est, now, nextMonth).1, key, est), w);
            && after.budgets == Rolled(b, key, now, nextMonth).budgets
            && after.windows == b.windows[w := if w in b.windows then b.windows[w] else Window(0, MAX_REQUESTS_PER_DAY)]
  {
    var rolled := Rolled(b, key, now, nextMonth);
    if est > 0 && key in b.budgets {
      assert rolled.budgets[key := rolled.budgets[key]] == rolled.budgets;
    }
  }

  /** Reconciling after a reservation leaves exactly the actual cost on the counter. */
  lemma ReconcileReplacesEstimate(b: Books, key: BudgetKey, est: int, actual: int)
    requires key in b.budgets && b.budgets[key].cost >= 0
    requires 0 <= est <= CLAMP && 0 <= actual <= CLAMP
    ensures ReplaceEstimate(Charged(b, key, est), key, est, actual) == Charged(b, key, actual)
  {
    var charged := Charged(b, key, est);
    assert b.budgets[key := b.budgets[key]] == b.budgets;
    assert charged.budgets[key := charged.budgets[key]] == charged.budgets;
  }

  /******* The tables and the service *******/

  datatype Alert = Alert(org: string, provider: string, cost: int, limit: int)

  /** Where the calls of a deduction fail: up to the update of the counter, or after it. */
  datatype DeductFault = FailsNowhere | FailsEarly | FailsLate

  class Database {
    var budgets: map<BudgetKey, Budget>
    var windows: map<WindowKey, Window>
    var alerts: seq<Alert>
    var rows: map<string, Row>

    ghost function Contents(): Books
      reads this
    {
      Books(budgets, windows)
    }

    constructor (budgets: map<BudgetKey, Budget>, windows: map<WindowKey, Window>)
      ensures Contents() == Books(budgets, windows) && alerts == [] && rows == map[]
    {
      this.budgets := budgets;
      this.windows := windows;
      alerts := [];
      rows := map[];
    }
  }

  class BudgetService {
    const db: Database
    var lastWindowCleanupMs: int

    constructor (db: Database)
      ensures this.db == db && lastWindowCleanupMs == 0
    {
      this.db := db;
      lastWindowCleanupMs := 0;
    }

    /**
     * One transaction. The working copies are written back only if no check
     * fails, which is what a rollback amounts to.
     */
    method ReserveUsage(org: string, provider: string, model: string, est: int, now: int, nextMonth: int)
      returns (outcome: Outcome)
      modifies db, this
      ensures (outcome, db.Contents()) == old(
          var (o, b) := Reserve(db.Contents(), BudgetKey(org, provider),
                                WindowKey(org, provider, model, StartOfUtcDay(now)), est, now, nextMonth);
          (o, if o == Allowed && now - lastWindowCleanupMs >= CLEANUP_INTERVAL_MS
              then DropWindowsBefore(b, now - RETENTION_DAYS * DAY_MS)
              else b))
      ensures db.rows == old(db.rows)
      ensures var key := BudgetKey(org, provider);
              db.alerts == old(db.alerts) +
                if outcome == Allowed && est > 0 && key in db.budgets && db.budgets[key].limit > 0
                   && db.budgets[key].cost * 100 > db.budgets[key].limit * db.budgets[key].alertPct
                then [Alert(org, provider, db.budgets[key].cost, db.budgets[key].limit)] else []
    {
      var key := BudgetKey(org, provider);
      var window := WindowKey(org, provider, model, StartOfUtcDay(now));
      var budgets, windows, alerts := db.budgets, db.windows, db.alerts;

      if key in budgets && budgets[key].resets <= now {
        budgets := budgets[key := budgets[key].(cost := 0, resets := nextMonth)];
      }

      if est > 0 {
        if key in budgets && budgets[key].cost + est <= budgets[key].limit {
          budgets := budgets[key := budgets[key].(cost := budgets[key].cost + est)];
          var budget := budgets[key];
          if budget.limit > 0 && budget.cost * 100 > budget.limit * budget.alertPct {
            alerts := alerts + [Alert(org, provider, budget.cost, budget.limit)];
          }
        } else if key in budgets {
          return Denied(402);
        }
      }

      if window !in windows {
        windows := windows[window := Window(1, MAX_REQUESTS_PER_DAY)];
      } else if windows[window].count < windows[window].max {
        windows := windows[window := windows[window].(count := windows[window].count + 1)];
      } else {
        return Denied(429);
      }

      db.budgets, db.windows, db.alerts := budgets, windows, alerts;
      CleanupExpiredWindows(now);
      return Allowed;
    }

    /** Housekeeping, at most once an hour; taken here as finishing at once. */
    method CleanupExpiredWindows(now: int)
      modifies db`windows, this
      ensures db.Contents() == old(
          if now - lastWindowCleanupMs >= CLEANUP_INTERVAL_MS
          then DropWindowsBefore(db.Contents(), now - RETENTION_DAYS * DAY_MS)
          else db.Contents())
      ensures lastWindowCleanupMs == if now - old(lastWindowCleanupMs) < CLEANUP_INTERVAL_MS
                                     then old(lastWindowCleanupMs) else now
    {
      if now - lastWindowCleanupMs < CLEANUP_INTERVAL_MS {
        return;
      }
      lastWindowCleanupMs := now;
      var cutoff := now - RETENTION_DAYS * DAY_MS;
      db.windows := map w | w in db.windows && w.windowStart >= cutoff :: db.windows[w];
    }

    method RefundUsage(org: string, provider: string, cost: int)
      modifies db`budgets
      ensures db.Contents() == GiveBack(old(db.Contents()), BudgetKey(org, provider), cost)
    {
      if cost <= 0 {
        return;
      }
      var refund := Min(cost, CLAMP);
      var key := BudgetKey(org, provider);
      if key in db.budgets {
        db.budgets := db.budgets[key := db.budgets[key].(cost := Max(0, db.budgets[key].cost - refund))];
      }
    }

    method RefundRateLimit(org: string, provider: string, model: string, now: int)
      modifies db`windows
      ensures db.Contents() ==
              RefundSlot(old(db.Contents()), WindowKey(org, provider, model, StartOfUtcDay(now)))
    {
      var w := WindowKey(org, provider, model, StartOfUtcDay(now));
      if w in db.windows {
        db.windows := db.windows[w := db.windows[w].(count := Max(0, db.windows[w].count - 1))];
      }
    }

    /**
     * Not a transaction: a call that fails late, on the alert, has booked the cost all the same. It alerts for a
     * limit of zero too, where a reservation does not.
     */
    method DeductBudget(org: string, provider: string, cost: int, fault: DeductFault) returns (threw: bool)
      modifies db`budgets, db`alerts
      ensures var key := BudgetKey(org, provider);
        threw <==> cost > 0 && (fault == FailsEarly || (fault == FailsLate && key in old(db.budgets)))
      ensures db.Contents() ==
        if fault == FailsEarly then old(db.Contents()) else Deduct(old(db.Contents()), BudgetKey(org, provider), cost)
      ensures var key := BudgetKey(org, provider);
        db.alerts == old(db.alerts) +
          if cost > 0 && !threw && key in db.budgets
             && db.budgets[key].cost * 100 > db.budgets[key].limit * db.budgets[key].alertPct
          then [Alert(org, provider, db.budgets[key].cost, db.budgets[key].limit)] else []
    {
      if cost <= 0 {
        return false;
      }
      if fault == FailsEarly {
        return true;
      }
      var key := BudgetKey(org, provider);
      if key !in db.budgets {
        return false;
      }
      db.budgets := db.budgets[key := db.budgets[key].(cost := db.budgets[key].cost + cost)];
      if fault == FailsLate {
        return true;
      }
      var updated := db.budgets[key];
      if updated.cost * 100 > updated.limit * updated.alertPct {
        db.alerts := db.alerts + [Alert(org, provider, updated.cost, updated.limit)];
      }
      return false;
    }
  }

  /******* Reservation rows *******/

  datatype Status = Reserved | Reconciled | Refunded

  datatype Row = Row(org: string, provider: string, est: int, actual: int, status: Status)

  /** What a queued job carries along about its reservation. */
  datatype Reservation = Reservation(org: string, provider: string, est: int)

  /** The row a compare-and-set of this job and organisation would still match. */
  predicate Open(rows: map<string, Row>, jobId: string, org: string) {
    !Blank(jobId) && jobId in rows && rows[jobId].org == org && rows[jobId].status == Reserved
  }

  /** How a database call inside a settlement transaction may go wrong. */
  datatype Fault = NoFault | MarkFails | WriteFails

  class BudgetManager {
    const db: Database

    constructor (db: Database)
      ensures this.db == db
    {
      this.db := db;
    }

    /** A fault while marking is logged and read as "not mine"; a fault while writing rolls back and is thrown. */
    method ReconcileUsage(jobId: string, reservation: Reservation, actual: int, fault: Fault) returns (threw: bool)
      modifies db`rows, db`budgets
      // no row, one of another organisation, or one that is settled already: nothing happens
      ensures Blank(jobId) || jobId !in old(db.rows) || old(db.rows)[jobId].org != reservation.org
              || old(db.rows)[jobId].status != Reserved ==>
                !threw && db.rows == old(db.rows) && db.Contents() == old(db.Contents())
      ensures threw <==> fault == WriteFails && old(Open(db.rows, jobId, reservation.org)) && reservation.est != actual
      ensures old(Open(db.rows, jobId, reservation.org)) && fault != MarkFails && !threw ==>
                && db.rows == old(db.rows)[jobId := old(db.rows)[jobId].(status := Reconciled, actual := actual)]
                && db.Contents() == ReplaceEstimate(old(db.Contents()),
                     BudgetKey(reservation.org, reservation.provider), reservation.est, actual)
      ensures !old(Open(db.rows, jobId, reservation.org)) || fault == MarkFails || threw ==>
                db.rows == old(db.rows) && db.Contents() == old(db.Contents())
    {
      var marked, rows := MarkIfReserved(jobId, reservation.org, Reconciled, actual, fault);
      if !marked {
        return false;
      }
      var difference := reservation.est - actual;
      if difference != 0 && fault == WriteFails {
        return true;
      }
      var key := BudgetKey(reservation.org, reservation.provider);
      if difference > 0 {
        SafeDecrement(key, difference);
      } else if difference < 0 {
        SafeIncrement(key, -difference);
      }
      db.rows := rows;
      return false;
    }

    method Refund(jobId: string, reservation: Reservation, fault: Fault) returns (threw: bool)
      modifies db`rows, db`budgets
      // no row, one of another organisation, or one that is settled already: nothing happens
      ensures Blank(jobId) || jobId !in old(db.rows) || old(db.rows)[jobId].org != reservation.org
              || old(db.rows)[jobId].status != Reserved ==>
                !threw && db.rows == old(db.rows) && db.Contents() == old(db.Contents())
      ensures threw <==> fault == WriteFails && old(Open(db.rows, jobId, reservation.org)) && reservation.est > 0
      ensures old(Open(db.rows, jobId, reservation.org)) && fault != MarkFails && !threw ==>
                && db.rows == old(db.rows)[jobId := old(db.rows)[jobId].(status := Refunded)]
                && db.Contents() == GiveBack(old(db.Contents()),
                     BudgetKey(reservation.org, reservation.provider), reservation.est)
      ensures !old(Open(db.rows, jobId, reservation.org)) || fault == MarkFails || threw ==>
                db.rows == old(db.rows) && db.Contents() == old(db.Contents())
    {
      var marked, rows := MarkIfReserved(jobId, reservation.org, Refunded, 0, fault);
      if !marked {
        return false;
      }
      if reservation.est > 0 && fault == WriteFails {
        return true;
      }
      SafeDecrement(BudgetKey(reservation.org, reservation.provider), reservation.est);
      db.rows := rows;
      return false;
    }

    /** The updateMany that both marks share: it reports whether exactly the reserved row matched. */
    method MarkIfReserved(jobId: string, org: string, status: Status, actual: int, fault: Fault)
      returns (marked: bool, rows: map<string, Row>)
      ensures marked <==> Open(db.rows, jobId, org) && fault != MarkFails
      ensures rows == if !marked then db.rows
                      else if status == Reconciled
                      then db.rows[jobId := db.rows[jobId].(status := status, actual := actual)]
                      else db.rows[jobId := db.rows[jobId].(status := status)]
    {
      rows := db.rows;
      if Blank(jobId) || fault == MarkFails {
        return false, rows;
      }
      if jobId in rows && rows[jobId].org == org && rows[jobId].status == Reserved {
        var row := rows[jobId].(status := status);
        rows := rows[jobId := if status == Reconciled then row.(actual := actual) else row];
        return true, rows;
      }
      return false, rows;
    }

    method SafeDecrement(key: BudgetKey, amount: int)
      modifies db`budgets
      ensures db.Contents() == GiveBack(old(db.Contents()), key, amount)
    {
      if amount <= 0 {
        return;
      }
      if key in db.budgets {
        db.budgets := db.budgets[key := db.budgets[key].(cost := Max(0, db.budgets[key].cost - Min(amount, CLAMP)))];
      }
    }

    method SafeIncrement(key: BudgetKey, amount: int)
      modifies db`budgets
      ensures db.Contents() == Deduct(old(db.Contents()), key, Min(amount, CLAMP))
    {
      if amount <= 0 {
        return;
      }
      if key in db.budgets {
        db.budgets := db.budgets[key := db.budgets[key].(cost := db.budgets[key].cost + Min(amount, CLAMP))];
      }
    }
  }

  /******* The cap *******/

  /** One ledger statement or transaction, by whatever party. Limits and maxima are only ever raised. */
  datatype Op =
    | ReserveOp(key: BudgetKey, w: WindowKey, est: int, now: int, nextMonth: int)
    | RefundOp(key: BudgetKey, amount: int)
    | RefundSlotOp(w: WindowKey)
    | DeductOp(key: BudgetKey, amount: int)
    | ReconcileOp(key: BudgetKey, est: int, actual: int)
    | ResetWriteOp(key: BudgetKey, nextMonth: int)   // second half of a check that found the month over
    | ResetOrgOp(org: string, nextMonth: int)
    | RaiseLimitOp(key: BudgetKey, limit: int)
    | CreateBudgetOp(key: BudgetKey, limit: int, resets: int, alertPct: int)
    | RaiseMaxOp(w: WindowKey, max: int)
    | CleanupOp(cutoff: int)

  function Perform(b: Books, op: Op): Books {
    match op
    case ReserveOp(key, w, est, now, nextMonth) => Reserve(b, key, w, est, now, nextMonth).1
    case RefundOp(key, amount) => GiveBack(b, key, amount)
    case RefundSlotOp(w) => RefundSlot(b, w)
    case DeductOp(key, amount) => Deduct(b, key, amount)
    case ReconcileOp(key, est, actual) => ReplaceEstimate(b, key, est, actual)
    case ResetWriteOp(key, nextMonth) => ResetOne(b, key, nextMonth)
    case ResetOrgOp(org, nextMonth) => ResetOrg(b, org, nextMonth)
    case RaiseLimitOp(key, limit) =>
      if key in b.budgets && limit >= b.budgets[key].limit
      then b.(budgets := b.budgets[key := b.budgets[key].(limit := limit)])
      else b
    case CreateBudgetOp(key, limit, resets, alertPct) =>
      if key !in b.budgets && limit >= 0
      then b.(budgets := b.budgets[key := Budget(0, limit, resets, alertPct)])
      else b
    case RaiseMaxOp(w, max) =>
      if w in b.windows && max >= b.windows[w].max
      then b.(windows := b.windows[w := b.windows[w].(max := max)])
      else b
    case CleanupOp(cutoff) => DropWindowsBefore(b, cutoff)
  }

  /** A limit and a maximum are set to what they are raised to, and a new budget begins without cost. */
  lemma SettingsTold(b: Books, key: BudgetKey, limit: nat, resets: int, alertPct: int, w: WindowKey, max: int)
    ensures key in b.budgets && limit >= b.budgets[key].limit ==>
      Perform(b, RaiseLimitOp(key, limit)) == b.(budgets := b.budgets[key := b.budgets[key].(limit := limit)])
    ensures key !in b.budgets ==>
      Perform(b, CreateBudgetOp(key, limit, resets, alertPct))
        == b.(budgets := b.budgets[key := Budget(0, limit, resets, alertPct)])
    ensures w in b.windows && max >= b.windows[w].max ==>
      Perform(b, RaiseMaxOp(w, max)) == b.(windows := b.windows[w := b.windows[w].(max := max)])
  {
  }

  function PerformAll(b: Books, ops: seq<Op>): Books
    decreases |ops|
  {
    if ops == [] then b else PerformAll(Perform(b, ops[0]), ops[1..])
  }

  /** The op empties the counter of `key`: a reset, or an allowed reservation in a new month. */
  predicate Empties(b: Books, op: Op, key: BudgetKey) {
    match op
    case ReserveOp(k, w, est, now, nextMonth) =>
      k == key && Due(b, k, now) && Reserve(b, k, w, est, now, nextMonth).0 == Allowed
    case ResetWriteOp(k, _) => k == key
    case ResetOrgOp(org, _) => key.org == org
    case _ => false
  }

  /** What the op books on `key` beyond any reservation. */
  function Overage(op: Op, key: BudgetKey): nat {
    match op
    case DeductOp(k, amount) => if k == key && amount > 0 then amount else 0
    case ReconcileOp(k, est, actual) => if k == key && actual > est then actual - est else 0
    case _ => 0
  }

  /** Overages booked on `key` since its last reset, `before` being those booked before the run. */
  function OveragesSinceReset(b: Books, ops: seq<Op>, key: BudgetKey, before: nat): nat
    decreases |ops|
  {
    if ops == [] then before
    else
      var carried := if Empties(b, ops[0], key) then 0 else before;
      OveragesSinceReset(Perform(b, ops[0]), ops[1..], key, carried + Overage(ops[0], key))
  }

  ghost predicate WithinCap(b: Books, key: BudgetKey, overages: nat) {
    key in b.budgets ==> b.budgets[key].limit >= 0 && 0 <= b.budgets[key].cost <= b.budgets[key].limit + overages
  }

  ghost predicate WindowsWithinMax(b: Books) {
    forall w :: w in b.windows ==> 0 <= b.windows[w].count <= b.windows[w].max
  }

  lemma OpKeepsCap(b: Books, op: Op, key: BudgetKey, overages: nat)
    requires WithinCap(b, key, overages)
    ensures WithinCap(Perform(b, op), key, (if Empties(b, op, key) then 0 else overages) + Overage(op, key))
  {
  }

  lemma OpKeepsWindows(b: Books, op: Op)
    requires WindowsWithinMax(b)
    ensures WindowsWithinMax(Perform(b, op))
  {
  }

  /**
   * However reservations, refunds, reconciliations, deductions and resets of all
   * parties interleave, a month's cost never exceeds its limit by more than the
   * overages booked since the last reset, and no day's window overflows.
   */
  lemma {:induction false} CapBound(b: Books, ops: seq<Op>, key: BudgetKey, overages: nat)
    requires WithinCap(b, key, overages) && WindowsWithinMax(b)
    ensures WithinCap(PerformAll(b, ops), key, OveragesSinceReset(b, ops, key, overages))
    ensures WindowsWithinMax(PerformAll(b, ops))
    decreases |ops|
  {
    if ops != [] {
      var op := ops[0];
      OpKeepsCap(b, op, key, overages);
      OpKeepsWindows(b, op);
      CapBound(Perform(b, op), ops[1..], key, (if Empties(b, op, key) then 0 else overages) + Overage(op, key));
    }
  }

  /** The bound is reached: on a fresh budget, a full reservation and then an overage use up all of it. */
  lemma CapBoundIsTight(key: BudgetKey, w: WindowKey, limit: nat, overage: nat)
    requires 0 < limit && 0 < overage
    ensures var b := Books(map[key := Budget(0, limit, 1, 80)], map[]);
            var ops := [ReserveOp(key, w, limit, 0, 1), DeductOp(key, overage)];
            var after := PerformAll(b, ops).budgets;
            key in after && after[key].cost == limit + OveragesSinceReset(b, ops, key, 0)
  {
    var b := Books(map[key := Budget(0, limit, 1, 80)], map[]);
    var ops := [ReserveOp(key, w, limit, 0, 1), DeductOp(key, overage)];
    var b1 := Perform(b, ops[0]);
    var b2 := Perform(b1, ops[1]);
    assert ops[1..] == [ops[1]] && ops[1..][1..] == [];
    assert PerformAll(b1, ops[1..]) == PerformAll(b2, []) == b2;
    assert OveragesSinceReset(b1, ops[1..], key, 0) == OveragesSinceReset(b2, [], key, overage) == overage;
  }

  /******* One month *******/

  /** The run lies in the month before `nextMonth`, and no reset of its own touches the budget. */
  predicate InMonth(ops: seq<Op>, key: BudgetKey, nextMonth: int) {
    forall i :: 0 <= i < |ops| ==>
      match ops[i]
      case ReserveOp(k, _, _, now, next) => k == key ==> now < nextMonth && next == nextMonth
      case ResetWriteOp(k, _) => k != key
      case ResetOrgOp(org, _) => key.org != org
      case _ => true
  }

  /** The budget's month is over for all reservations of the run, or for none. */
  predicate DueThroughout(ops: seq<Op>, key: BudgetKey, resets: int, due: bool) {
    forall i :: 0 <= i < |ops| && ops[i].ReserveOp? && ops[i].key == key ==> (resets <= ops[i].now <==> due)
  }

  predicate Allows(b: Books, op: Op) {
    op.ReserveOp? && Reserve(b, op.key, op.w, op.est, op.now, op.nextMonth).0 == Allowed
  }

  /** How often the run empties the counter. */
  function Emptyings(b: Books, ops: seq<Op>, key: BudgetKey): nat
    decreases |ops|
  {
    if ops == [] then 0
    else
      (if key in b.budgets && Allows(b, ops[0]) && ops[0].key == key && b.budgets[key].resets <= ops[0].now
       then 1 else 0)
      + Emptyings(Perform(b, ops[0]), ops[1..], key)
  }

  /** The estimates that were allowed on the budget. */
  function Granted(b: Books, ops: seq<Op>, key: BudgetKey): nat
    decreases |ops|
  {
    if ops == [] then 0
    else
      (if Allows(b, ops[0]) && ops[0].key == key && ops[0].est > 0 then ops[0].est else 0)
      + Granted(Perform(b, ops[0]), ops[1..], key)
  }

  /** What refunds and reconciliations ask to be given back. */
  function Returned(ops: seq<Op>, key: BudgetKey): nat
    decreases |ops|
  {
    if ops == [] then 0
    else
      (match ops[0]
       case RefundOp(k, amount) => if k == key && amount > 0 then amount else 0
       case ReconcileOp(k, est, actual) => if k == key && est > actual then est - actual else 0
       case _ => 0)
      + Returned(ops[1..], key)
  }

  lemma FewerOps(ops: seq<Op>, key: BudgetKey, nextMonth: int, resets: int, due: bool)
    requires ops != [] && InMonth(ops, key, nextMonth) && DueThroughout(ops, key, resets, due)
    ensures InMonth(ops[1..], key, nextMonth) && DueThroughout(ops[1..], key, resets, due)
    ensures DueThroughout(ops[1..], key, nextMonth, false)
  {
    assert forall i :: 0 <= i < |ops| - 1 ==> ops[1..][i] == ops[i + 1];
  }

  /** One step: the reset date moves only when the counter is emptied, and the cost falls only by what is returned. */
  lemma OpInMonth(b: Books, op: Op, key: BudgetKey, nextMonth: int)
    requires key in b.budgets && b.budgets[key].cost >= 0 && InMonth([op], key, nextMonth)
    ensures var after, empties := Perform(b, op).budgets, Emptyings(b, [op], key) == 1;
      && key in after && after[key].cost >= 0
      && after[key].resets == (if empties then nextMonth else b.budgets[key].resets)
      && after[key].cost + Returned([op], key)
         >= Granted(b, [op], key) + if empties then 0 else b.budgets[key].cost
  {
    assert [op][0] == op && [op][1..] == [];
    assert Emptyings(Perform(b, op), [], key) == 0 && Granted(Perform(b, op), [], key) == 0 && Returned([], key) == 0;
  }

  lemma OneAndRest(b: Books, ops: seq<Op>, key: BudgetKey)
    requires ops != []
    ensures Emptyings(b, ops, key) == Emptyings(b, [ops[0]], key) + Emptyings(Perform(b, ops[0]), ops[1..], key)
    ensures Granted(b, ops, key) == Granted(b, [ops[0]], key) + Granted(Perform(b, ops[0]), ops[1..], key)
    ensures Returned(ops, key) == Returned([ops[0]], key) + Returned(ops[1..], key)
  {
    var op := ops[0];
    assert [op][0] == op && [op][1..] == [];
    assert Emptyings(Perform(b, op), [], key) == 0 && Granted(Perform(b, op), [], key) == 0 && Returned([], key) == 0;
  }

  lemma {:induction false} MonthAddsUp(b: Books, ops: seq<Op>, key: BudgetKey, nextMonth: int, due: bool)
    requires key in b.budgets && b.budgets[key].cost >= 0
    requires InMonth(ops, key, nextMonth) && DueThroughout(ops, key, b.budgets[key].resets, due)
    ensures Emptyings(b, ops, key) <= if due then 1 else 0
    ensures key in PerformAll(b, ops).budgets
    ensures PerformAll(b, ops).budgets[key].cost + Returned(ops, key)
      >= Granted(b, ops, key) + if Emptyings(b, ops, key) == 0 then b.budgets[key].cost else 0
    decreases |ops|
  {
    if ops != [] {
      var op := ops[0];
      assert InMonth([op], key, nextMonth) by { assert [op][0] == op; }
      OpInMonth(b, op, key, nextMonth);
      OneAndRest(b, ops, key);
      FewerOps(ops, key, nextMonth, b.budgets[key].resets, due);
      MonthAddsUp(Perform(b, op), ops[1..], key, nextMonth, due && Emptyings(b, [op], key) == 0);
    }
  }

  /**
   * Within one month the counter is emptied once at most, and the month's cap holds over all its reservations:
   * what they were allowed together, with the cost carried in if the month was not over, exceeds the limit only
   * by what was given back and what was booked beyond reservations.
   */
  lemma MonthlyCap(b: Books, ops: seq<Op>, key: BudgetKey, nextMonth: int, due: bool, overages: nat)
    requires key in b.budgets && WithinCap(b, key, overages) && WindowsWithinMax(b)
    requires InMonth(ops, key, nextMonth) && DueThroughout(ops, key, b.budgets[key].resets, due)
    ensures Emptyings(b, ops, key) <= if due then 1 else 0
    ensures var after := PerformAll(b, ops).budgets;
      key in after &&
      Granted(b, ops, key) + (if Emptyings(b, ops, key) == 0 then b.budgets[key].cost else 0)
        <= after[key].limit + Returned(ops, key) + OveragesSinceReset(b, ops, key, overages)
  {
    MonthAddsUp(b, ops, key, nextMonth, due);
    CapBound(b, ops, key, overages);
  }
}
