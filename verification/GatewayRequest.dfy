/**
 * One gateway request, with its nested error handling and its three flags, on
 * the real ledger classes. What the outside world answers is collected in an
 * Environment; the contract says what every one of its exits leaves behind.
 */
module GatewayRequest {
  import opened Ledger
  import opened Text

  datatype Probe = Found | NotFound | ProbeThrows

  datatype Enqueue = Created | Existing | EnqueueThrows

  /** The answers of the queue, the database and the clock, one per call, in the order they are needed. */
  datatype Environment = Environment(
    cacheHit: bool,
    firstProbe: Probe,
    reserveThrows: bool,
    secondProbe: Probe,
    dedupeRefundThrows: bool,
    readThrows: bool,
    raced: seq<Row>,              // a row another request creates first: none or one
    createThrows: bool,
    pollFinds: bool,
    rowIsFresh: bool,
    takeoverFault: Fault,
    overwriteThrows: bool,
    reusableRefundThrows: bool,
    enqueue: Enqueue,
    enqueueRefundFault: Fault,
    existingRefundFault: Fault,
    waitThrows: bool,
    resultFails: bool,            // the job failed or timed out, or its answer is invalid or cannot be logged
    jobActive: bool,
    abandonFault: Fault,
    lastRefundThrows: bool,
    slotRefundThrows: bool)

  datatype Request = Request(org: string, provider: string, model: string, jobId: string, est: nat)

  datatype Preparation = Prepared | Reusable | PreparationThrew

  /** How the request ended for its caller. */
  datatype Exit = FromCache | Shared | Rejected(statusCode: int) | Answered | Threw

  function Key(req: Request): BudgetKey { BudgetKey(req.org, req.provider) }

  function Slot(req: Request, now: int): WindowKey {
    WindowKey(req.org, req.provider, req.model, StartOfUtcDay(now))
  }

  /** The row the preparation works from: one already there, or one that won the race to create it. */
  function Seen(rows: map<string, Row>, jobId: string, env: Environment): map<string, Row> {
    if jobId in rows || env.readThrows || env.raced == [] then rows else rows[jobId := env.raced[0]]
  }

  /** The row of the job that a request finds, its own table's or that of a request that created it in between. */
  function RowSeen(rows: map<string, Row>, req: Request, env: Environment): Row
    requires req.jobId in rows || env.raced != []
  {
    if req.jobId in rows then rows[req.jobId] else env.raced[0]
  }

  /** Another request has just reserved the row, and its job is not there yet. */
  predicate FreshElsewhere(rows: map<string, Row>, req: Request, env: Environment) {
    && !env.readThrows && (req.jobId in rows || env.raced != [])
    && RowSeen(rows, req, env).status == Reserved && !env.pollFinds && env.rowIsFresh
  }

  function PreparationOf(rows: map<string, Row>, req: Request, env: Environment): Preparation {
    if env.readThrows then PreparationThrew
    else
      var seen := Seen(rows, req.jobId, env);
      if req.jobId !in seen then if env.createThrows then PreparationThrew else Prepared
      else if seen[req.jobId].status == Reserved && env.pollFinds then Reusable
      else if seen[req.jobId].status == Reserved && env.rowIsFresh then PreparationThrew
      else if TakeoverThrows(seen, req, env) || env.overwriteThrows then PreparationThrew
      else Prepared
  }

  predicate TakeoverThrows(seen: map<string, Row>, req: Request, env: Environment)
    requires req.jobId in seen
  {
    env.takeoverFault == WriteFails && Open(seen, req.jobId, seen[req.jobId].org) && seen[req.jobId].est > 0
  }

  /** An estimate that goes missing because a stale row's refund failed silently before it was overwritten. */
  function Overwritten(rows: map<string, Row>, req: Request, env: Environment): int {
    var seen := Seen(rows, req.jobId, env);
    if PreparationOf(rows, req, env) == Prepared && env.takeoverFault == MarkFails
       && Open(seen, req.jobId, req.org)
    then seen[req.jobId].est else 0
  }

  /** Money that no open row of the job accounts for. */
  function Unaccounted(budgets: map<BudgetKey, Budget>, rows: map<string, Row>, req: Request): int {
    (if Key(req) in budgets then budgets[Key(req)].cost else 0) -
    (if Open(rows, req.jobId, req.org) then rows[req.jobId].est else 0)
  }

  /** The amounts in the tables are sane, and the row of this job belongs to this ledger. */
  predicate Sane(budgets: map<BudgetKey, Budget>, rows: map<string, Row>, req: Request) {
    && req.est <= CLAMP
    && Key(req) in budgets
    && (req.jobId in rows ==>
          && rows[req.jobId].org == req.org && rows[req.jobId].provider == req.provider
          && 0 <= rows[req.jobId].est <= CLAMP)
  }

  /** Of all counters at most this request's has changed, and of that one only the cost. */
  predicate OwnCostMoved(before: map<BudgetKey, Budget>, after: map<BudgetKey, Budget>, req: Request) {
    && after.Keys == before.Keys && after - {Key(req)} == before - {Key(req)}
    && (Key(req) in after ==> after[Key(req)] == before[Key(req)].(cost := after[Key(req)].cost))
  }

  /** The request gets past its reservation, so it owes the ledger an account. */
  predicate Reserves(b: Books, req: Request, now: int, nextMonth: int, env: Environment) {
    && !env.cacheHit && env.firstProbe == NotFound && !env.reserveThrows
    && Reserve(b, Key(req), Slot(req, now), req.est, now, nextMonth).0 == Allowed
  }

  /** The row a request works on once it gets to preparing it. */
  function Reached(rows: map<string, Row>, req: Request, env: Environment): map<string, Row> {
    if env.secondProbe == NotFound then Seen(rows, req.jobId, env) else rows
  }

  /** The exits of the inner part that leave the charge with nobody. */
  predicate LeaksInside(rows: map<string, Row>, req: Request, env: Environment) {
    match PreparationOf(rows, req, env)
    case Prepared => false
    case Reusable => env.reusableRefundThrows && env.lastRefundThrows
    case PreparationThrew => env.lastRefundThrows
  }

  predicate Leaks(rows: map<string, Row>, req: Request, env: Environment) {
    match env.secondProbe
    case ProbeThrows => true
    case Found => env.dedupeRefundThrows
    case NotFound => LeaksInside(rows, req, env)
  }

  /** The exits of the inner part on which the day's slot is given back. */
  predicate ReturnsSlotInside(rows: map<string, Row>, req: Request, env: Environment) {
    match PreparationOf(rows, req, env)
       case Reusable => !(env.reusableRefundThrows && env.lastRefundThrows)
       case PreparationThrew => !env.lastRefundThrows
       case Prepared =>
         match env.enqueue
         case Created => false
         case Existing => !RefundThrows(req, env.existingRefundFault)
         case EnqueueThrows => !RefundThrows(req, env.enqueueRefundFault)
  }

  predicate ReturnsSlot(rows: map<string, Row>, req: Request, env: Environment) {
    match env.secondProbe
    case ProbeThrows => false
    case Found => !env.dedupeRefundThrows
    case NotFound => ReturnsSlotInside(rows, req, env)
  }

  /** The row is still open at the end: the job of this request will settle it, or a refund of it failed. */
  predicate KeepsRow(req: Request, env: Environment) {
    var abandoned := !env.jobActive && RefundWorks(req, env.abandonFault);
    match env.enqueue
    case Created => !(env.waitThrows && abandoned)
    case Existing =>
      || env.existingRefundFault == MarkFails
      || (RefundThrows(req, env.existingRefundFault) && !abandoned)
    case EnqueueThrows => !RefundWorks(req, env.enqueueRefundFault)
  }

  /** The inner part ends with an error. */
  predicate ThrowsInside(rows: map<string, Row>, req: Request, env: Environment) {
    match PreparationOf(rows, req, env)
    case PreparationThrew => true
    case Reusable => env.reusableRefundThrows || env.waitThrows
    case Prepared =>
      || env.enqueue == EnqueueThrows || env.waitThrows
      || (env.enqueue == Existing && RefundThrows(req, env.existingRefundFault))
  }

  /** An unsuccessful result is an error for the caller, whatever path led to it, and nothing is undone for it. */
  function Delivered(exit: Exit, env: Environment): Exit { if env.resultFails then Threw else exit }

  /** How the part that prepares and enqueues ends. */
  function ExitInside(rows: map<string, Row>, req: Request, env: Environment): Exit {
    if ThrowsInside(rows, req, env) then Threw
    else Delivered(if PreparationOf(rows, req, env) == Reusable then Shared else Answered, env)
  }

  /** How a request with a reservation ends for its caller. */
  function ExitWithReservation(rows: map<string, Row>, req: Request, env: Environment): Exit {
    match env.secondProbe
    case ProbeThrows => Threw
    case Found => if env.dedupeRefundThrows || env.waitThrows then Threw else Delivered(Shared, env)
    case NotFound => ExitInside(rows, req, env)
  }

  /** The request arms its row and turns to the queue. */
  predicate Arms(rows: map<string, Row>, req: Request, env: Environment) {
    env.secondProbe == NotFound && PreparationOf(rows, req, env) == Prepared
  }

  /** The queue refuses the job, and the refund after that does not work either. */
  predicate Strands(rows: map<string, Row>, req: Request, env: Environment) {
    Arms(rows, req, env) && env.enqueue == EnqueueThrows && !RefundWorks(req, env.enqueueRefundFault)
  }

  /**
   * The caller gets an error, but the request's row is open and its job in the queue, so the job will settle it:
   * it has an unsuccessful result, or is still active, or a refund did not work.
   */
  predicate Pends(rows: map<string, Row>, req: Request, env: Environment) {
    Arms(rows, req, env) &&
    var kept := env.jobActive || !RefundWorks(req, env.abandonFault);
    match env.enqueue
    case Created => if env.waitThrows then kept else env.resultFails
    case Existing =>
      if RefundThrows(req, env.existingRefundFault) then kept
      else env.existingRefundFault == MarkFails && (env.waitThrows || env.resultFails)
    case EnqueueThrows => false
  }

  predicate RefundThrows(req: Request, fault: Fault) { fault == WriteFails && req.est > 0 }

  predicate RefundWorks(req: Request, fault: Fault) { fault != MarkFails && !RefundThrows(req, fault) }

  /** Best effort: a slot refund that throws is logged and changes nothing. */
  function SlotReturned(windows: map<WindowKey, Window>, req: Request, now: int, env: Environment)
    : map<WindowKey, Window>
  {
    if env.slotRefundThrows then windows else RefundSlot(Books(map[], windows), Slot(req, now)).windows
  }

  predicate OwnsRow(rows: map<string, Row>, req: Request) {
    !Blank(req.jobId) && req.jobId in rows && rows[req.jobId] == Row(req.org, req.provider, req.est, 0, Reserved)
  }

  /** The ids of the jobs that the queue holds, as far as it has said so. */
  class RequestQueue {
    var jobs: set<string>

    constructor ()
      ensures jobs == {}
    {
      jobs := {};
    }

    /** A queue that creates the job, or finds it, holds it. */
    method Add(jobId: string, answer: Enqueue)
      modifies this
      ensures jobs == if answer == EnqueueThrows then old(jobs) else old(jobs) + {jobId}
    {
      if answer != EnqueueThrows {
        jobs := jobs + {jobId};
      }
    }
  }

  class LLMGateway {
    const db: Database
    const requestQueue: RequestQueue
    const budgetService: BudgetService
    const budgetManager: BudgetManager

    ghost predicate Valid()
      reads this
    {
      budgetService.db == db && budgetManager.db == db
    }

    constructor (db: Database)
      ensures Valid() && this.db == db && fresh(budgetService)
      ensures fresh(requestQueue) && requestQueue.jobs == {}
    {
      var queue := new RequestQueue();
      var service := new BudgetService(db);
      var manager := new BudgetManager(db);
      this.db := db;
      requestQueue := queue;
      budgetService := service;
      budgetManager := manager;
    }

    method RefundRateLimitSlot(req: Request, now: int, env: Environment)
      requires Valid()
      modifies db`windows
      ensures db.windows == SlotReturned(old(db.windows), req, now, env)
    {
      if !env.slotRefundThrows {
        budgetService.RefundRateLimit(req.org, req.provider, req.model, now);
      }
    }

    /** Make sure the job's row is reserved for this request, or find out that it should share a job. */
    method PreparePersistentBudgetReservation(req: Request, env: Environment) returns (result: Preparation)
      requires Valid() && !Blank(req.jobId)
      modifies db`rows, db`budgets
      ensures db.rows - {req.jobId} == old(db.rows) - {req.jobId}
      ensures Sane(old(db.budgets), Seen(old(db.rows), req.jobId, env), req) ==>
                OwnCostMoved(old(db.budgets), db.budgets, req)
      ensures result == PreparationOf(old(db.rows), req, env)
      // without a row, and without one that wins the race, the request's own is created
      ensures env.readThrows || (req.jobId !in old(db.rows) && env.raced == []) ==>
                && result == (if env.readThrows || env.createThrows then PreparationThrew else Prepared)
                && db.budgets == old(db.budgets) && (result == PreparationThrew ==> db.rows == old(db.rows))
      // a reserved row whose job is there is shared, and a fresh one is left alone
      ensures !env.readThrows && (req.jobId in old(db.rows) || env.raced != [])
              && RowSeen(old(db.rows), req, env).status == Reserved && (env.pollFinds || env.rowIsFresh) ==>
                && result == (if env.pollFinds then Reusable else PreparationThrew) && db.budgets == old(db.budgets)
                && db.rows == old(db.rows)[req.jobId := RowSeen(old(db.rows), req, env)]
      ensures result == Prepared ==>
                req.jobId in db.rows && db.rows[req.jobId] == Row(req.org, req.provider, req.est, 0, Reserved)
      ensures var seen := Seen(old(db.rows), req.jobId, env);
              Sane(old(db.budgets), seen, req) && Unaccounted(old(db.budgets), seen, req) >= 0 ==>
                && Unaccounted(db.budgets, db.rows, req) ==
                     Unaccounted(old(db.budgets), seen, req)
                     + Overwritten(old(db.rows), req, env)
                     - (if result == Prepared then req.est else 0)
                && Sane(db.budgets, db.rows, req)
    {
      if env.readThrows {
        return PreparationThrew;
      }
      if req.jobId in db.rows {
        result := PrepareFromExistingBudgetReservation(req, env);
        return;
      }
      if env.raced != [] {
        // creating the row hit the unique constraint, and reading again finds the winner's row
        db.rows := db.rows[req.jobId := env.raced[0]];
        result := PrepareFromExistingBudgetReservation(req, env);
        return;
      }
      if env.createThrows {
        return PreparationThrew;
      }
      db.rows := db.rows[req.jobId := Row(req.org, req.provider, req.est, 0, Reserved)];
      return Prepared;
    }

    method PrepareFromExistingBudgetReservation(req: Request, env: Environment) returns (result: Preparation)
      requires Valid() && !Blank(req.jobId) && req.jobId in db.rows && !env.readThrows
      modifies db`rows, db`budgets
      ensures db.rows - {req.jobId} == old(db.rows) - {req.jobId}
      ensures Sane(old(db.budgets), old(db.rows), req) ==> OwnCostMoved(old(db.budgets), db.budgets, req)
      ensures result == PreparationOf(old(db.rows), req, env)
      // a reserved row whose job is there is shared, and a fresh one is left alone
      ensures var row := old(db.rows)[req.jobId];
              row.status == Reserved && env.pollFinds ==>
                result == Reusable && db.rows == old(db.rows) && db.budgets == old(db.budgets)
      ensures var row := old(db.rows)[req.jobId];
              row.status == Reserved && !env.pollFinds && env.rowIsFresh ==>
                result == PreparationThrew && db.rows == old(db.rows) && db.budgets == old(db.budgets)
      // a stale one is refunded before it is overwritten, and a settled one is just overwritten
      ensures var row := old(db.rows)[req.jobId];
              row.status == Reserved && !env.pollFinds && !env.rowIsFresh && env.takeoverFault == NoFault ==>
                && db.Contents() == GiveBack(old(db.Contents()), BudgetKey(row.org, row.provider), row.est)
                && (result == PreparationThrew <==> env.overwriteThrows)
                && db.rows == old(db.rows)[req.jobId :=
                     if env.overwriteThrows then row.(status := Refunded)
                     else Row(req.org, req.provider, req.est, 0, Reserved)]
      ensures var row := old(db.rows)[req.jobId];
              row.status != Reserved ==>
                && db.budgets == old(db.budgets)
                && (result == PreparationThrew <==> env.overwriteThrows)
                && db.rows == if env.overwriteThrows then old(db.rows)
                              else old(db.rows)[req.jobId := Row(req.org, req.provider, req.est, 0, Reserved)]
      ensures result == Prepared ==>
                req.jobId in db.rows && db.rows[req.jobId] == Row(req.org, req.provider, req.est, 0, Reserved)
      ensures Sane(old(db.budgets), old(db.rows), req) && Unaccounted(old(db.budgets), old(db.rows), req) >= 0 ==>
                && Unaccounted(db.budgets, db.rows, req) ==
                     Unaccounted(old(db.budgets), old(db.rows), req)
                     + Overwritten(old(db.rows), req, env)
                     - (if result == Prepared then req.est else 0)
                && Sane(db.budgets, db.rows, req)
    {
      var existing := db.rows[req.jobId];
      if existing.status == Reserved {
        if env.pollFinds {
          return Reusable;
        }
        if env.rowIsFresh {
          return PreparationThrew;
        }
        var stale := Reservation(existing.org, existing.provider, existing.est);
        var threw := budgetManager.Refund(req.jobId, stale, env.takeoverFault);
        if threw {
          return PreparationThrew;
        }
      }
      if env.overwriteThrows {
        return PreparationThrew;
      }
      db.rows := db.rows[req.jobId := Row(req.org, req.provider, req.est, 0, Reserved)];
      return Prepared;
    }

    /** Refund through the row this request armed. */
    method RefundOwnRow(req: Request, fault: Fault) returns (threw: bool)
      requires Valid() && OwnsRow(db.rows, req)
      modifies db`rows, db`budgets
      ensures db.rows - {req.jobId} == old(db.rows) - {req.jobId}
      ensures OwnCostMoved(old(db.budgets), db.budgets, req)
      ensures threw <==> RefundThrows(req, fault)
      ensures Open(db.rows, req.jobId, req.org) <==> !RefundWorks(req, fault)
      ensures Open(db.rows, req.jobId, req.org) ==> db.rows == old(db.rows) && db.budgets == old(db.budgets)
      ensures req.est <= CLAMP && Key(req) in old(db.budgets) && old(db.budgets)[Key(req)].cost >= req.est ==>
                Unaccounted(db.budgets, db.rows, req) == old(Unaccounted(db.budgets, db.rows, req))
    {
      threw := budgetManager.Refund(req.jobId, Reservation(req.org, req.provider, req.est), fault);
    }

    /** Hand the armed request to the queue, or give its charge back through its row. */
    method EnqueuePrepared(req: Request, now: int, env: Environment)
      returns (threw: bool, budgetRefunded: bool, enqueuedSuccessfully: bool)
      requires Valid() && OwnsRow(db.rows, req)
      modifies db, requestQueue
      ensures db.rows - {req.jobId} == old(db.rows) - {req.jobId}
      ensures OwnCostMoved(old(db.budgets), db.budgets, req)
      ensures requestQueue.jobs ==
              old(requestQueue.jobs) + if env.enqueue == EnqueueThrows then {} else {req.jobId}
      ensures enqueuedSuccessfully <==> env.enqueue != EnqueueThrows
      ensures budgetRefunded <==> env.enqueue == Existing && !RefundThrows(req, env.existingRefundFault)
      ensures threw <==>
              || env.enqueue == EnqueueThrows || env.waitThrows
              || (env.enqueue == Existing && RefundThrows(req, env.existingRefundFault))
      ensures Open(db.rows, req.jobId, req.org) <==>
              match env.enqueue
              case Created => true
              case Existing => !RefundWorks(req, env.existingRefundFault)
              case EnqueueThrows => !RefundWorks(req, env.enqueueRefundFault)
      ensures Open(db.rows, req.jobId, req.org) ==> db.rows == old(db.rows) && db.budgets == old(db.budgets)
      ensures req.est <= CLAMP && Key(req) in old(db.budgets) && old(db.budgets)[Key(req)].cost >= req.est ==>
                Unaccounted(db.budgets, db.rows, req) == old(Unaccounted(db.budgets, db.rows, req))
      ensures db.windows == if (env.enqueue == EnqueueThrows && !RefundThrows(req, env.enqueueRefundFault))
                               || (env.enqueue == Existing && !RefundThrows(req, env.existingRefundFault))
                            then SlotReturned(old(db.windows), req, now, env)
                            else old(db.windows)
    {
      budgetRefunded := false;
      requestQueue.Add(req.jobId, env.enqueue);
      if env.enqueue == EnqueueThrows {
        var refundThrew := RefundOwnRow(req, env.enqueueRefundFault);
        if !refundThrew {
          RefundRateLimitSlot(req, now, env);
        }
        return true, false, false;
      }
      if env.enqueue == Existing {
        threw := RefundOwnRow(req, env.existingRefundFault);
        if threw {
          return true, false, true;
        }
        RefundRateLimitSlot(req, now, env);
        budgetRefunded := true;
      }
      return env.waitThrows, budgetRefunded, true;
    }

    /** Waiting failed: the row is refunded, unless its job may still be at work. */
    method AbandonJob(req: Request, env: Environment)
      requires Valid() && !Blank(req.jobId)
      modifies db`rows, db`budgets
      ensures db.rows - {req.jobId} == old(db.rows) - {req.jobId}
      ensures OwnCostMoved(old(db.budgets), db.budgets, req)
      ensures env.jobActive || !Open(old(db.rows), req.jobId, req.org) || !RefundWorks(req, env.abandonFault) ==>
                db.rows == old(db.rows) && db.budgets == old(db.budgets)
      ensures !env.jobActive && RefundWorks(req, env.abandonFault) ==> !Open(db.rows, req.jobId, req.org)
      ensures OwnsRow(old(db.rows), req) && req.est <= CLAMP && Key(req) in old(db.budgets)
              && old(db.budgets)[Key(req)].cost >= req.est ==>
                Unaccounted(db.budgets, db.rows, req) == old(Unaccounted(db.budgets, db.rows, req))
    {
      if !env.jobActive {
        var _ := budgetManager.Refund(req.jobId, Reservation(req.org, req.provider, req.est), env.abandonFault);
      }
    }

    /** Without a row of its own a request gives charge and slot back directly. */
    method GiveChargeBack(req: Request, now: int, env: Environment)
      requires Valid()
      modifies db`budgets, db`windows
      ensures OwnCostMoved(old(db.budgets), db.budgets, req)
      ensures db.windows == SlotReturned(old(db.windows), req, now, env)
      ensures Sane(old(db.budgets), db.rows, req) && Unaccounted(old(db.budgets), db.rows, req) >= req.est ==>
                Unaccounted(db.budgets, db.rows, req) == Unaccounted(old(db.budgets), db.rows, req) - req.est
    {
      budgetService.RefundUsage(req.org, req.provider, req.est);
      RefundRateLimitSlot(req, now, env);
    }

    /** The job of the reserved row is shared, if the charge can be given back. */
    method ShareReusable(req: Request, now: int, env: Environment) returns (threw: bool, budgetRefunded: bool)
      requires Valid()
      modifies db`budgets, db`windows
      ensures threw <==> env.reusableRefundThrows || env.waitThrows
      ensures budgetRefunded <==> !env.reusableRefundThrows
      ensures OwnCostMoved(old(db.budgets), db.budgets, req)
      ensures env.reusableRefundThrows ==> db.budgets == old(db.budgets) && db.windows == old(db.windows)
      ensures !env.reusableRefundThrows ==> db.windows == SlotReturned(old(db.windows), req, now, env)
      ensures !env.reusableRefundThrows && Sane(old(db.budgets), db.rows, req)
              && Unaccounted(old(db.budgets), db.rows, req) >= req.est ==>
                Unaccounted(db.budgets, db.rows, req) == Unaccounted(old(db.budgets), db.rows, req) - req.est
    {
      if env.reusableRefundThrows {
        return true, false;
      }
      GiveChargeBack(req, now, env);
      return env.waitThrows, true;
    }

    /** The part that may throw, as far as waiting for the result, and where it leaves the three flags. */
    method PrepareAndEnqueue(req: Request, now: int, env: Environment)
      returns (threw: bool, dbReservationCreated: bool, budgetRefunded: bool, enqueuedSuccessfully: bool)
      requires Valid() && !Blank(req.jobId)
      modifies db, requestQueue
      ensures db.rows - {req.jobId} == old(db.rows) - {req.jobId}
      ensures Sane(old(db.budgets), Seen(old(db.rows), req.jobId, env), req) ==>
                OwnCostMoved(old(db.budgets), db.budgets, req)
      ensures threw <==> ThrowsInside(old(db.rows), req, env)
      ensures dbReservationCreated <==> PreparationOf(old(db.rows), req, env) == Prepared
      ensures enqueuedSuccessfully <==> dbReservationCreated && env.enqueue != EnqueueThrows
      ensures budgetRefunded <==>
                if dbReservationCreated then env.enqueue == Existing && !RefundThrows(req, env.existingRefundFault)
                else PreparationOf(old(db.rows), req, env) == Reusable && !env.reusableRefundThrows
      ensures FreshElsewhere(old(db.rows), req, env) ==>
                db.rows == old(db.rows)[req.jobId := RowSeen(old(db.rows), req, env)]
      ensures requestQueue.jobs == old(requestQueue.jobs) + if enqueuedSuccessfully then {req.jobId} else {}
      ensures db.windows == if budgetRefunded || (dbReservationCreated && env.enqueue == EnqueueThrows
                                                  && !RefundThrows(req, env.enqueueRefundFault))
                            then SlotReturned(old(db.windows), req, now, env)
                            else old(db.windows)
      ensures dbReservationCreated ==>
                && (Open(db.rows, req.jobId, req.org) ==> OwnsRow(db.rows, req))
                && (Open(db.rows, req.jobId, req.org) <==>
                      match env.enqueue
                      case Created => true
                      case Existing => !RefundWorks(req, env.existingRefundFault)
                      case EnqueueThrows => !RefundWorks(req, env.enqueueRefundFault))
      ensures var seen := Seen(old(db.rows), req.jobId, env);
              Sane(old(db.budgets), seen, req) && Unaccounted(old(db.budgets), seen, req) >= req.est ==>
                && (dbReservationCreated || Sane(db.budgets, db.rows, req))
                && Unaccounted(db.budgets, db.rows, req) ==
                     Unaccounted(old(db.budgets), seen, req) + Overwritten(old(db.rows), req, env)
                     - if dbReservationCreated || budgetRefunded then req.est else 0
    {
      threw, dbReservationCreated, budgetRefunded, enqueuedSuccessfully := false, false, false, false;
      var prepared := PreparePersistentBudgetReservation(req, env);
      if prepared == PreparationThrew {
        threw := true;
      } else if prepared == Reusable {
        threw, budgetRefunded := ShareReusable(req, now, env);
      } else {
        dbReservationCreated := true;
        threw, budgetRefunded, enqueuedSuccessfully := EnqueuePrepared(req, now, env);
      }
    }

    /** The inner part, with the three flags the error handling reads. */
    method EnqueueAndWait(req: Request, now: int, env: Environment) returns (exit: Exit)
      requires Valid() && !Blank(req.jobId)
      modifies db, requestQueue
      ensures db.rows - {req.jobId} == old(db.rows) - {req.jobId}
      ensures Sane(old(db.budgets), Seen(old(db.rows), req.jobId, env), req) ==>
                OwnCostMoved(old(db.budgets), db.budgets, req)
      ensures exit == ExitInside(old(db.rows), req, env)
      // a fresh row of another request is left alone
      ensures FreshElsewhere(old(db.rows), req, env) ==>
                db.rows == old(db.rows)[req.jobId := RowSeen(old(db.rows), req, env)]
      ensures requestQueue.jobs == old(requestQueue.jobs) +
              if PreparationOf(old(db.rows), req, env) == Prepared && env.enqueue != EnqueueThrows
              then {req.jobId} else {}
      ensures var seen := Seen(old(db.rows), req.jobId, env);
              Sane(old(db.budgets), seen, req) && Unaccounted(old(db.budgets), seen, req) >= req.est ==>
                Unaccounted(db.budgets, db.rows, req) ==
                  Unaccounted(old(db.budgets), seen, req) - req.est
                  + (if LeaksInside(old(db.rows), req, env) then req.est else 0)
                  + Overwritten(old(db.rows), req, env)
      ensures db.windows == if ReturnsSlotInside(old(db.rows), req, env)
                            then SlotReturned(old(db.windows), req, now, env)
                            else old(db.windows)
      ensures PreparationOf(old(db.rows), req, env) == Prepared ==>
                && (Open(db.rows, req.jobId, req.org) <==> KeepsRow(req, env))
                && (Open(db.rows, req.jobId, req.org) ==> OwnsRow(db.rows, req))
    {
      var threw, dbReservationCreated, budgetRefunded, enqueuedSuccessfully := PrepareAndEnqueue(req, now, env);
      if !threw {
        return Delivered(if dbReservationCreated then Answered else Shared, env);
      }
      if !budgetRefunded && enqueuedSuccessfully && dbReservationCreated {
        AbandonJob(req, env);
      } else if !budgetRefunded && !dbReservationCreated && !env.lastRefundThrows {
        GiveChargeBack(req, now, env);
      }
      return Threw;
    }

    /** The reservation in terms of what this request is accountable for. */
    method ReserveFor(req: Request, now: int, nextMonth: int) returns (outcome: Outcome)
      requires Valid()
      modifies db, budgetService
      ensures Key(req) in old(db.budgets) && old(db.budgets)[Key(req)].resets > now ==>
                OwnCostMoved(old(db.budgets), db.budgets, req)
      ensures outcome == Reserve(old(db.Contents()), Key(req), Slot(req, now), req.est, now, nextMonth).0
      ensures outcome != Allowed ==> db.Contents() == old(db.Contents())
      ensures db.rows == old(db.rows)
      ensures outcome == Allowed ==>
                Slot(req, now) in db.windows && Used(db.windows, req, now) == old(Used(db.windows, req, now)) + 1
      ensures outcome == Allowed && Key(req) in old(db.budgets) && old(db.budgets)[Key(req)].resets > now ==>
                && Key(req) in db.budgets
                && db.budgets[Key(req)].cost == old(db.budgets)[Key(req)].cost + req.est
    {
      outcome := budgetService.ReserveUsage(req.org, req.provider, req.model, req.est, now, nextMonth);
    }

    /** Everything after a successful reservation, seen from the state that reservation left. */
    method ServeReserved(req: Request, now: int, env: Environment) returns (exit: Exit)
      requires Valid() && !Blank(req.jobId)
      modifies db, requestQueue
      ensures db.rows - {req.jobId} == old(db.rows) - {req.jobId}
      ensures Sane(old(db.budgets), Reached(old(db.rows), req, env), req) ==>
                OwnCostMoved(old(db.budgets), db.budgets, req)
      ensures exit == ExitWithReservation(old(db.rows), req, env)
      ensures env.secondProbe == NotFound && FreshElsewhere(old(db.rows), req, env) ==>
                && exit == Threw && requestQueue.jobs == old(requestQueue.jobs)
                && db.rows == old(db.rows)[req.jobId := RowSeen(old(db.rows), req, env)]
      ensures requestQueue.jobs == old(requestQueue.jobs) +
              if Arms(old(db.rows), req, env) && env.enqueue != EnqueueThrows then {req.jobId} else {}
      ensures Arms(old(db.rows), req, env) ==>
                && (Open(db.rows, req.jobId, req.org) <==> KeepsRow(req, env))
                && (Open(db.rows, req.jobId, req.org) ==> OwnsRow(db.rows, req))
      ensures var seen := Reached(old(db.rows), req, env);
              Sane(old(db.budgets), seen, req) && Unaccounted(old(db.budgets), seen, req) >= req.est ==>
                Unaccounted(db.budgets, db.rows, req) ==
                  Unaccounted(old(db.budgets), seen, req) - req.est
                  + (if Leaks(old(db.rows), req, env) then req.est else 0)
                  + (if env.secondProbe == NotFound then Overwritten(old(db.rows), req, env) else 0)
      ensures db.windows == if ReturnsSlot(old(db.rows), req, env)
                            then SlotReturned(old(db.windows), req, now, env)
                            else old(db.windows)
    {
      // this probe and the refund after it stand outside the inner error handling
      if env.secondProbe == ProbeThrows {
        return Threw;
      }
      if env.secondProbe == Found {
        if env.dedupeRefundThrows {
          return Threw;
        }
        budgetService.RefundUsage(req.org, req.provider, req.est);
        RefundRateLimitSlot(req, now, env);
        return if env.waitThrows then Threw else Delivered(Shared, env);
      }
      exit := EnqueueAndWait(req, now, env);
    }

    /**
     * Serve one request. Whatever goes wrong on the way: the charge ends up
     * refunded exactly once, or covered by the open row of its job, except on
     * the leaking exits; an open row has its job in the queue, except exactly if
     * the request is stranded; the day's slot is returned exactly on the
     * deduplicated and failed exits; and without a reservation nothing changes.
     */
    method ProcessRequest(req: Request, now: int, nextMonth: int, env: Environment) returns (exit: Exit)
      requires Valid() && !Blank(req.jobId)
      modifies db, budgetService, requestQueue
      // nothing of another job or of another counter is touched
      ensures db.rows - {req.jobId} == old(db.rows) - {req.jobId}
      ensures Sane(old(db.budgets), Reached(old(db.rows), req, env), req) && old(db.budgets)[Key(req)].resets > now ==>
                OwnCostMoved(old(db.budgets), db.budgets, req)
      ensures old(!Reserves(db.Contents(), req, now, nextMonth, env)) ==>
                && db.rows == old(db.rows) && db.Contents() == old(db.Contents())
                && requestQueue.jobs == old(requestQueue.jobs)
                && exit == ExitWithoutReservation(old(db.Contents()), req, now, nextMonth, env)
      ensures old(Reserves(db.Contents(), req, now, nextMonth, env)) ==>
                && exit == ExitWithReservation(old(db.rows), req, env)
                && requestQueue.jobs == old(requestQueue.jobs) +
                   if Arms(old(db.rows), req, env) && env.enqueue != EnqueueThrows then {req.jobId} else {}
      ensures exit == Answered ==> req.jobId in requestQueue.jobs
      // a fresh row of another request is left alone
      ensures old(Reserves(db.Contents(), req, now, nextMonth, env)) && env.secondProbe == NotFound
              && FreshElsewhere(old(db.rows), req, env) ==>
                && exit == Threw && requestQueue.jobs == old(requestQueue.jobs)
                && db.rows == old(db.rows)[req.jobId := RowSeen(old(db.rows), req, env)]
      ensures old(Reserves(db.Contents(), req, now, nextMonth, env)) && Arms(old(db.rows), req, env) ==>
                && (Open(db.rows, req.jobId, req.org) <==> KeepsRow(req, env))
                && (Open(db.rows, req.jobId, req.org) ==> OwnsRow(db.rows, req))
                && (Open(db.rows, req.jobId, req.org) && req.jobId !in requestQueue.jobs <==>
                      Strands(old(db.rows), req, env) && req.jobId !in old(requestQueue.jobs))
                && (exit == Threw && Open(db.rows, req.jobId, req.org) && req.jobId in requestQueue.jobs <==>
                      || Pends(old(db.rows), req, env)
                      || (Strands(old(db.rows), req, env) && req.jobId in old(requestQueue.jobs)))
      ensures old(Reserves(db.Contents(), req, now, nextMonth, env) && Used(db.windows, req, now) >= 0) ==>
                Used(db.windows, req, now) ==
                  old(Used(db.windows, req, now)) +
                  if ReturnsSlot(old(db.rows), req, env) && !env.slotRefundThrows then 0 else 1
      ensures var seen := Reached(old(db.rows), req, env);
              && old(Reserves(db.Contents(), req, now, nextMonth, env))
              && Sane(old(db.budgets), seen, req) && old(db.budgets)[Key(req)].resets > now
              && Unaccounted(old(db.budgets), seen, req) >= 0 ==>
                Unaccounted(db.budgets, db.rows, req) ==
                  Unaccounted(old(db.budgets), seen, req)
                  + (if Leaks(old(db.rows), req, env) then req.est else 0)
                  + (if env.secondProbe == NotFound then Overwritten(old(db.rows), req, env) else 0)
    {
      if env.cacheHit {
        return FromCache;
      }
      if env.firstProbe == ProbeThrows {
        return Threw;
      }
      if env.firstProbe == Found {
        return if env.waitThrows then Threw else Delivered(Shared, env);
      }
      if env.reserveThrows {
        return Threw;
      }
      var outcome := ReserveFor(req, now, nextMonth);
      if outcome != Allowed {
        return Rejected(outcome.statusCode);
      }
      ExitTellsOutcome(db.rows, req, env);
      exit := ServeReserved(req, now, env);
    }
  }

  /** The requests counted against today's window. */
  function Used(windows: map<WindowKey, Window>, req: Request, now: int): int {
    if Slot(req, now) in windows then windows[Slot(req, now)].count else 0
  }

  /** How a request without a reservation ends for its caller. */
  function ExitWithoutReservation(b: Books, req: Request, now: int, nextMonth: int, env: Environment): Exit {
    if env.cacheHit then FromCache
    else if env.firstProbe == ProbeThrows then Threw
    else if env.firstProbe == Found then if env.waitThrows then Threw else Delivered(Shared, env)
    else if env.reserveThrows then Threw
    else
      match Reserve(b, Key(req), Slot(req, now), req.est, now, nextMonth).0
      case Denied(statusCode) => Rejected(statusCode)
      case Allowed => Threw
  }

  /******* Situation by situation *******/

  /** What ends a request before it has reserved anything, in the order in which it is looked at. */
  lemma EndsWithoutReservation(b: Books, req: Request, now: int, nextMonth: int, env: Environment)
    ensures
      var outcome := Reserve(b, Key(req), Slot(req, now), req.est, now, nextMonth).0;
      var exit := ExitWithoutReservation(b, req, now, nextMonth, env);
      && (Reserves(b, req, now, nextMonth, env) <==>
            !env.cacheHit && env.firstProbe == NotFound && !env.reserveThrows && outcome == Allowed)
      && (env.cacheHit ==> exit == FromCache)
      && (!env.cacheHit && env.firstProbe == ProbeThrows ==> exit == Threw)
      && (!env.cacheHit && env.firstProbe == Found ==>
            exit == if env.waitThrows || env.resultFails then Threw else Shared)
      && (!env.cacheHit && env.firstProbe == NotFound && env.reserveThrows ==> exit == Threw)
      && (!env.cacheHit && env.firstProbe == NotFound && !env.reserveThrows && outcome.Denied? ==>
            exit == Rejected(outcome.statusCode))
  {
  }

  /** What a request with a reservation does to charge, slot and row, and how it ends. */
  datatype Outlook = Outlook(exit: Exit, leaks: bool, returnsSlot: bool, arms: bool)

  function OutlookOf(rows: map<string, Row>, req: Request, env: Environment): Outlook {
    Outlook(ExitWithReservation(rows, req, env), Leaks(rows, req, env), ReturnsSlot(rows, req, env),
            Arms(rows, req, env))
  }

  /** The second look at the queue fails, or finds a job to share. */
  lemma SecondProbeDecides(rows: map<string, Row>, req: Request, env: Environment)
    ensures env.secondProbe == ProbeThrows ==> OutlookOf(rows, req, env) == Outlook(Threw, true, false, false)
    ensures env.secondProbe == Found ==>
      OutlookOf(rows, req, env) ==
      if env.dedupeRefundThrows then Outlook(Threw, true, false, false)
      else Outlook(if env.waitThrows || env.resultFails then Threw else Shared, false, true, false)
  {
  }

  /** The row is fresh, or a database call on the way to a row of its own fails: the charge goes back. */
  lemma UnarmedRequestFails(rows: map<string, Row>, req: Request, env: Environment)
    requires env.secondProbe == NotFound
    requires
      var seen := req.jobId in rows || env.raced != [];
      var row := if req.jobId in rows then rows[req.jobId] else if env.raced != [] then env.raced[0]
        else Row(req.org, req.provider, 0, 0, Refunded);
      || env.readThrows
      || (!seen && env.createThrows)
      || (seen && row.status == Reserved && !env.pollFinds && env.rowIsFresh)
      || (seen && row.status == Reserved && !env.pollFinds && env.takeoverFault == WriteFails && row.est > 0
          && !Blank(req.jobId))
      || (seen && (row.status == Reserved ==> !env.pollFinds) && env.overwriteThrows)
    ensures OutlookOf(rows, req, env) == Outlook(Threw, env.lastRefundThrows, !env.lastRefundThrows, false)
  {
  }

  /** A reserved row has its job by now: the request shares it, and its charge goes back. */
  lemma ReservedRowIsShared(rows: map<string, Row>, req: Request, env: Environment)
    requires env.secondProbe == NotFound && !env.readThrows && (req.jobId in rows || env.raced != []) && env.pollFinds
    requires (if req.jobId in rows then rows[req.jobId] else env.raced[0]).status == Reserved
    ensures OutlookOf(rows, req, env) ==
      if env.reusableRefundThrows
      then Outlook(Threw, env.lastRefundThrows, !env.lastRefundThrows, false)
      else Outlook(if env.waitThrows || env.resultFails then Threw else Shared, false, true, false)
  {
  }

  /** In every other situation the request arms its row, and the queue decides. */
  lemma ArmedRequestEnqueues(rows: map<string, Row>, req: Request, env: Environment)
    requires env.secondProbe == NotFound && !env.readThrows
    requires if req.jobId in rows || env.raced != []
      then
        var row := if req.jobId in rows then rows[req.jobId] else env.raced[0];
        && !env.overwriteThrows
        && (row.status == Reserved ==>
              !env.pollFinds && !env.rowIsFresh && (env.takeoverFault == WriteFails ==> row.est <= 0))
      else !env.createThrows
    ensures
      var fails := env.waitThrows || env.resultFails;
      var refunded := env.abandonFault == NoFault || (env.abandonFault == WriteFails && req.est <= 0);
      var abandoned := !env.jobActive && refunded;
      var undone := env.existingRefundFault == WriteFails && req.est > 0;
      && OutlookOf(rows, req, env) ==
         (match env.enqueue
          case Created => Outlook(if fails then Threw else Answered, false, false, true)
          case Existing => Outlook(if undone || fails then Threw else Answered, false, !undone, true)
          case EnqueueThrows =>
            Outlook(Threw, false, env.enqueueRefundFault != WriteFails || req.est <= 0, true))
      && (KeepsRow(req, env) <==>
            match env.enqueue
            case Created => !(env.waitThrows && abandoned)
            case Existing => env.existingRefundFault == MarkFails || (undone && !abandoned)
            case EnqueueThrows =>
              env.enqueueRefundFault == MarkFails || (env.enqueueRefundFault == WriteFails && req.est > 0))
  {
  }

  /** An estimate goes missing exactly if the refund of a stale row fails silently, and it is that row's. */
  lemma OverwrittenIsStale(rows: map<string, Row>, req: Request, env: Environment)
    requires req.jobId in rows || env.raced != []
    ensures var row := if req.jobId in rows then rows[req.jobId] else env.raced[0];
      Overwritten(rows, req, env) ==
      if !env.readThrows && row.status == Reserved && row.org == req.org && !Blank(req.jobId)
        && !env.pollFinds && !env.rowIsFresh && env.takeoverFault == MarkFails && !env.overwriteThrows
      then row.est else 0
  {
  }

  /**
   * What the caller can tell from the exit. An answer means that the request's job is in the queue, and nothing
   * was leaked or stranded; a shared result means that the charge and the slot were given back; and whatever was
   * leaked or stranded ended with an error.
   */
  lemma ExitTellsOutcome(rows: map<string, Row>, req: Request, env: Environment)
    ensures var exit := ExitWithReservation(rows, req, env);
      && (exit == Answered ==> Arms(rows, req, env) && env.enqueue != EnqueueThrows)
      && (exit == Answered && env.enqueue == Created ==> KeepsRow(req, env))
      && (exit == Shared ==> !Arms(rows, req, env) && ReturnsSlot(rows, req, env))
      && (Leaks(rows, req, env) || Strands(rows, req, env) ==> exit == Threw)
      && !(Leaks(rows, req, env) && Strands(rows, req, env))
  {
  }

  /**
   * A request that is armed when the queue refuses its job, and whose refund then fails silently: its row stays
   * open, no job is there to settle it, and the estimate stays on the ledger.
   */
  method StrandedRequest(env: Environment) returns (gateway: LLMGateway, exit: Exit)
    requires !env.cacheHit && env.firstProbe == NotFound && !env.reserveThrows && env.secondProbe == NotFound
    requires !env.readThrows && env.raced == [] && !env.createThrows
    requires env.enqueue == EnqueueThrows && env.enqueueRefundFault == MarkFails
    ensures fresh(gateway) && fresh(gateway.db) && fresh(gateway.requestQueue)
    ensures exit == Threw && gateway.requestQueue.jobs == {}
    ensures Open(gateway.db.rows, "job", "org") && gateway.db.rows["job"].est == 5
    ensures var key := BudgetKey("org", "provider");
      key in gateway.db.budgets && gateway.db.budgets[key].cost == 5
  {
    var key := BudgetKey("org", "provider");
    var db := new Database(map[key := Budget(0, 100, 1, 80)], map[]);
    gateway := new LLMGateway(db);
    var req := Request("org", "provider", "model", "job", 5);
    assert "job"[0] == 'j' && !IsSpace('j') && 'j' in "job";
    exit := gateway.ProcessRequest(req, 0, 1, env);
  }
}
