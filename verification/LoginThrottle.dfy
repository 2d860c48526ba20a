/**
 * The login limiter: fixed windows of failures per key, and a lock after too
 * many of them. Although windows are fixed and edges meet (a lock ends at the
 * very instant a window does), no sliding interval admits more than eight
 * recorded failures.
 */
module LoginThrottle {
  import opened Totals

  const MAX_FAILURES: nat := 5
  const WINDOW_MS: nat := 15 * 60 * 1000
  const LOCK_MS: nat := 15 * 60 * 1000

  datatype Attempt = Attempt(failures: nat, windowStart: nat, lockedUntil: nat)

  type Attempts = map<string, Attempt>

  predicate LockedOut(attempts: Attempts, key: string, now: nat) {
    key in attempts && attempts[key].lockedUntil > now
  }

  function Failed(attempts: Attempts, key: string, now: nat): Attempts {
    var renew := key !in attempts || now - attempts[key].windowStart > WINDOW_MS;
    var failures := if renew then 1 else attempts[key].failures + 1;
    attempts[key := Attempt(
      failures,
      if renew then now else attempts[key].windowStart,
      if failures >= MAX_FAILURES then now + LOCK_MS else if renew then 0 else attempts[key].lockedUntil)]
  }

  class Throttle {
    var attempts: Attempts

    constructor ()
      ensures attempts == map[]
    {
      attempts := map[];
    }

    method IsLockedOut(key: string, now: nat) returns (locked: bool)
      ensures locked <==> LockedOut(attempts, key, now)
    {
      return key in attempts && attempts[key].lockedUntil > now;
    }

    method RecordFailure(key: string, now: nat)
      modifies this
      ensures attempts == Failed(old(attempts), key, now)
    {
      var a := if key in attempts then attempts[key] else Attempt(0, now, 0);
      if now - a.windowStart > WINDOW_MS {
        a := Attempt(0, now, 0);
      }
      a := a.(failures := a.failures + 1);
      if a.failures >= MAX_FAILURES {
        a := a.(lockedUntil := now + LOCK_MS);
      }
      attempts := attempts[key := a];
    }

    method RecordSuccess(key: string)
      modifies this
      ensures attempts == old(attempts) - {key}
    {
      attempts := attempts - {key};
    }
  }

  /******* Runs of sequential login attempts *******/

  datatype Event = BadLogin(key: string, now: nat) | GoodLogin(key: string, now: nat)

  /** A locked-out attempt is answered before any password is checked and records nothing. */
  function Handle(attempts: Attempts, e: Event): Attempts {
    if LockedOut(attempts, e.key, e.now) then attempts
    else if e.BadLogin? then Failed(attempts, e.key, e.now)
    else attempts - {e.key}
  }

  /** One attempt, cause by cause; a window and a lock last fifteen minutes each, and the fifth failure locks. */
  lemma AttemptTold(attempts: Attempts, e: Event)
    ensures var locked := e.key in attempts && attempts[e.key].lockedUntil > e.now;
      var after := Handle(attempts, e);
      && (locked ==> after == attempts)
      && (!locked && e.GoodLogin? ==> after == attempts - {e.key})
      && (!locked && e.BadLogin? ==> e.key in after && after - {e.key} == attempts - {e.key})
    ensures
      var a := if e.key in attempts && e.now - attempts[e.key].windowStart <= 900_000
        then attempts[e.key] else Attempt(0, e.now, 0);
      e.BadLogin? && !(e.key in attempts && attempts[e.key].lockedUntil > e.now) ==>
        e.key in Handle(attempts, e) &&
        Handle(attempts, e)[e.key] ==
          Attempt(a.failures + 1, a.windowStart, if a.failures < 4 then a.lockedUntil else e.now + 900_000)
  {
  }

  predicate Records(attempts: Attempts, e: Event, key: string) {
    e.BadLogin? && e.key == key && !LockedOut(attempts, key, e.now)
  }

  /** The times at which a failure is recorded for the key. */
  function FailureTimes(attempts: Attempts, events: seq<Event>, key: string): seq<nat>
    decreases |events|
  {
    if events == [] then []
    else
      (if Records(attempts, events[0], key) then [events[0].now] else []) +
      FailureTimes(Handle(attempts, events[0]), events[1..], key)
  }

  ghost predicate InOrder(events: seq<Event>) {
    forall i, j :: 0 <= i < j < |events| ==> events[i].now <= events[j].now
  }

  ghost predicate NoSuccess(events: seq<Event>, key: string) {
    forall e :: e in events && e.key == key ==> e.BadLogin?
  }

  /******* Marks: a recorded failure with the window it fell into *******/

  datatype Mark = Mark(at: nat, start: nat, count: nat)

  function ToAttempt(m: Mark): Attempt {
    Attempt(m.count, m.start, if m.count >= MAX_FAILURES then m.at + LOCK_MS else 0)
  }

  /** One recorded failure after another of the same key. */
  predicate Follows(a: Mark, b: Mark) {
    && a.at <= b.at && a.count >= 1
    && (a.count >= MAX_FAILURES ==> a.at + LOCK_MS <= b.at)
    && if b.at - a.start > WINDOW_MS
       then b.start == b.at && b.count == 1
       else b.start == a.start && b.count == a.count + 1
  }

  ghost predicate Chain(marks: seq<Mark>) {
    && (marks != [] ==> marks[0].count == 1 && marks[0].start == marks[0].at)
    && forall i :: 0 <= i < |marks| - 1 ==> Follows(marks[i], marks[i + 1])
  }

  function Times(marks: seq<Mark>): seq<nat> {
    seq(|marks|, i requires 0 <= i < |marks| => marks[i].at)
  }

  /** The limiter's record for the key is the last mark. */
  ghost predicate Tracks(attempts: Attempts, marks: seq<Mark>, key: string) {
    if marks == [] then key !in attempts
    else key in attempts && attempts[key] == ToAttempt(marks[|marks| - 1])
  }

  lemma ChainGrows(marks: seq<Mark>, m: Mark)
    requires Chain(marks)
    requires if marks == [] then m.count == 1 && m.start == m.at else Follows(marks[|marks| - 1], m)
    ensures Chain(marks + [m])
  {
    var more := marks + [m];
    forall i | 0 <= i < |more| - 1 ensures Follows(more[i], more[i + 1]) {
      assert i < |marks| - 1 ==> Follows(marks[i], marks[i + 1]);
    }
  }

  lemma RecordMarks(attempts: Attempts, e: Event, marks: seq<Mark>) returns (m: Mark)
    requires Chain(marks) && Tracks(attempts, marks, e.key) && Records(attempts, e, e.key)
    requires marks != [] ==> marks[|marks| - 1].at <= e.now && marks[|marks| - 1].count >= 1
    ensures m.at == e.now && m.count >= 1
    ensures Chain(marks + [m]) && Tracks(Handle(attempts, e), marks + [m], e.key)
  {
    var a := Handle(attempts, e)[e.key];
    m := Mark(e.now, a.windowStart, a.failures);
    ChainGrows(marks, m);
  }

  lemma {:induction false} MarksOf(attempts: Attempts, events: seq<Event>, key: string, marks: seq<Mark>)
    returns (all: seq<Mark>)
    requires InOrder(events) && NoSuccess(events, key)
    requires Chain(marks) && Tracks(attempts, marks, key)
    requires marks != [] ==> marks[|marks| - 1].count >= 1
    requires marks != [] && events != [] ==> marks[|marks| - 1].at <= events[0].now
    ensures Chain(all) && Times(all) == Times(marks) + FailureTimes(attempts, events, key)
    decreases |events|
  {
    if events == [] {
      return marks;
    }
    var e, rest := events[0], events[1..];
    if Records(attempts, e, key) {
      var m := RecordMarks(attempts, e, marks);
      assert (marks + [m])[|marks|] == m;
      all := MarksOf(Handle(attempts, e), rest, key, marks + [m]);
      assert Times(marks + [m]) == Times(marks) + [e.now];
      assert Times(all) == Times(marks) + ([e.now] + FailureTimes(Handle(attempts, e), rest, key));
    } else {
      all := MarksOf(Handle(attempts, e), rest, key, marks);
    }
  }

  /** Nine failures in a row never fit into one window length. */
  lemma NineFailuresSpanAWindow(marks: seq<Mark>, i: nat)
    requires Chain(marks) && i + 8 < |marks|
    ensures marks[i].at + WINDOW_MS <= marks[i + 8].at
  {
    var a, b, c, d := marks[i], marks[i + 1], marks[i + 2], marks[i + 3];
    var e, f, g, h := marks[i + 4], marks[i + 5], marks[i + 6], marks[i + 7];
    assert Follows(a, b) && Follows(b, c) && Follows(c, d) && Follows(d, e);
    assert Follows(e, f) && Follows(f, g) && Follows(g, h) && Follows(h, marks[i + 8]);
    if a.count == 1 {
      StartsItsWindow(marks, i);
    }
  }

  lemma StartsItsWindow(marks: seq<Mark>, i: nat)
    requires Chain(marks) && i < |marks| && marks[i].count == 1
    ensures marks[i].start == marks[i].at
  {
    if i > 0 {
      assert Follows(marks[i - 1], marks[i]);
    }
  }

  lemma {:induction false} ChainOrdered(marks: seq<Mark>, i: nat, j: nat)
    requires Chain(marks) && i <= j < |marks|
    ensures marks[i].at <= marks[j].at
    decreases j - i
  {
    if i < j {
      assert Follows(marks[j - 1], marks[j]);
      ChainOrdered(marks, i, j - 1);
    }
  }

  /** The positions of the times that fall into the half-open interval of one window length from `from`. */
  function Within(times: seq<nat>, from: nat): set<nat> {
    set i | 0 <= i < |times| && from <= times[i] < from + WINDOW_MS
  }

  lemma AtMostEightIndices(s: set<nat>, low: nat)
    requires forall i :: i in s ==> low <= i < low + 8
    ensures |s| <= 8
  {
    var all := {low, low + 1, low + 2, low + 3, low + 4, low + 5, low + 6, low + 7};
    assert s <= all;
    SubsetSize(s, all);
  }

  /** Whatever happens on other keys: no interval of one window length sees more than 2 * 5 - 2 failures of this one. */
  lemma ThrottleBound(events: seq<Event>, key: string, from: nat)
    requires InOrder(events) && NoSuccess(events, key)
    ensures |Within(FailureTimes(map[], events, key), from)| <= 2 * MAX_FAILURES - 2
  {
    var marks := MarksOf(map[], events, key, []);
    var times := FailureTimes(map[], events, key);
    assert Times(marks) == times;
    var s := Within(times, from);
    if s != {} {
      var low := Least(s);
      forall i | i in s ensures low <= i < low + 8 {
        if i >= low + 8 {
          NineFailuresSpanAWindow(marks, low);
          ChainOrdered(marks, low + 8, i);
        }
      }
      AtMostEightIndices(s, low);
    }
  }

  lemma {:induction false} Least(s: set<nat>) returns (low: nat)
    requires s != {}
    ensures low in s && forall i :: i in s ==> low <= i
    decreases |s|
  {
    var x :| x in s;
    if s == {x} {
      return x;
    }
    var rest := Least(s - {x});
    low := if x < rest then x else rest;
    assert forall i :: i in s ==> i == x || i in s - {x};
  }

  /** One more failure in the current window, and the first one of a new window. */
  lemma OneMore(key: string, count: nat, start: nat, now: nat, rest: seq<Event>)
    requires start <= now <= start + WINDOW_MS && 0 < count < MAX_FAILURES - 1
    ensures FailureTimes(map[key := Attempt(count, start, 0)], [BadLogin(key, now)] + rest, key) ==
            [now] + FailureTimes(map[key := Attempt(count + 1, start, 0)], rest, key)
  {
    var before, e := map[key := Attempt(count, start, 0)], BadLogin(key, now);
    assert Handle(before, e) == map[key := Attempt(count + 1, start, 0)];
    assert ([e] + rest)[1..] == rest;
  }

  /** The only record is one of this key, of a window that is over, and without a lock. */
  ghost predicate Expired(before: Attempts, key: string, now: nat) {
    before.Keys == {key} && before[key].windowStart + WINDOW_MS < now && before[key].lockedUntil == 0
  }

  lemma FirstOne(key: string, before: Attempts, now: nat, rest: seq<Event>)
    requires before == map[] || Expired(before, key, now)
    ensures FailureTimes(before, [BadLogin(key, now)] + rest, key) ==
            [now] + FailureTimes(map[key := Attempt(1, now, 0)], rest, key)
  {
    var e := BadLogin(key, now);
    assert Handle(before, e) == map[key := Attempt(1, now, 0)];
    assert ([e] + rest)[1..] == rest;
  }

  lemma LastOne(key: string, start: nat, now: nat)
    requires start <= now <= start + WINDOW_MS
    ensures FailureTimes(map[key := Attempt(MAX_FAILURES - 1, start, 0)], [BadLogin(key, now)], key) == [now]
  {
  }

  lemma NextFive(key: string) returns (events: seq<Event>)
    ensures var t := WINDOW_MS + 1;
            && |events| == 5 && (forall e :: e in events ==> e == BadLogin(key, t))
            && FailureTimes(map[key := Attempt(4, 0, 0)], events, key) == [t, t, t, t, t]
  {
    var t := WINDOW_MS + 1;
    var e := [BadLogin(key, t)];
    LastOne(key, t, t);
    OneMore(key, 3, t, t, e);
    OneMore(key, 2, t, t, e + e);
    OneMore(key, 1, t, t, e + (e + e));
    FirstOne(key, map[key := Attempt(4, 0, 0)], t, e + (e + (e + e)));
    events := e + (e + (e + (e + e)));
  }

  lemma ThreeLate(key: string, next: seq<Event>) returns (events: seq<Event>)
    ensures var w := WINDOW_MS;
            && events == [BadLogin(key, 0), BadLogin(key, w), BadLogin(key, w), BadLogin(key, w)] + next
            && FailureTimes(map[], events, key) ==
                 [0, w, w, w] + FailureTimes(map[key := Attempt(4, 0, 0)], next, key)
  {
    var w := WINDOW_MS;
    var late := [BadLogin(key, w)];
    OneMore(key, 3, 0, w, next);
    OneMore(key, 2, 0, w, late + next);
    OneMore(key, 1, 0, w, late + (late + next));
    FirstOne(key, map[], 0, late + (late + (late + next)));
    events := [BadLogin(key, 0)] + (late + (late + (late + next)));
  }

  lemma EightWithin(times: seq<nat>)
    requires var w := WINDOW_MS; times == [0, w, w, w] + [w + 1, w + 1, w + 1, w + 1, w + 1]
    ensures |Within(times, WINDOW_MS)| == 8
  {
    assert Within(times, WINDOW_MS) == {1, 2, 3, 4, 5, 6, 7, 8};
  }

  /** Eight is reached: three late failures of one window and all five of the next. */
  lemma ThrottleBoundIsTight(key: string)
    ensures exists events, from ::
              InOrder(events) && NoSuccess(events, key) &&
              |Within(FailureTimes(map[], events, key), from)| == 2 * MAX_FAILURES - 2
  {
    var next := NextFive(key);
    var events := ThreeLate(key, next);
    EightWithin(FailureTimes(map[], events, key));
    forall i | 0 <= i < |events|
      ensures events[i] == BadLogin(key, if i == 0 then 0 else if i < 4 then WINDOW_MS else WINDOW_MS + 1)
    {
      assert i >= 4 ==> events[i] == next[i - 4] && next[i - 4] in next;
    }
  }

  /** Attempts on one key never change what the limiter knows about another. */
  lemma KeysAreIndependent(attempts: Attempts, e: Event, key: string)
    requires e.key != key
    ensures var after := Handle(attempts, e);
            && (key in after <==> key in attempts)
            && (key in attempts ==> after[key] == attempts[key])
  {
  }
}
