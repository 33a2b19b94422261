/**
  The fixed-window rate limiter: one counter per key, incremented on every request, which starts to expire
  when it is created.  The laws are about the log of request times of one key.
*/
module RateLimit {
  import opened Common

  type Time = int

  datatype Counter = Counter(count: nat, expiresAt: Time)

  datatype Outcome = Allowed | Exceeded | Misconfigured | Unavailable

  datatype Redis = NotConfigured | Failing | Up

  // ---------------------------------------------------------------------------------------------
  // What the counter does to a log of requests
  // ---------------------------------------------------------------------------------------------

  predicate Chronological(times: seq<Time>) {
    forall i, j :: 0 <= i <= j < |times| ==> times[i] <= times[j]
  }

  /** The script: increment, and set the expiry if this created the key. */
  function Hit(counter: Option<Counter>, now: Time, window: nat): Counter {
    if counter.None? || counter.value.expiresAt <= now then Counter(1, now + window)
    else counter.value.(count := counter.value.count + 1)
  }

  /** The key after these requests. */
  function After(times: seq<Time>, window: nat): Option<Counter> {
    if times == [] then None
    else Some(Hit(After(times[..|times| - 1], window), times[|times| - 1], window))
  }

  predicate Accepted(times: seq<Time>, limit: nat, window: nat, i: nat)
    requires i < |times|
  {
    After(times[..i + 1], window).value.count <= limit
  }

  // ---------------------------------------------------------------------------------------------
  // The same in terms of windows
  // ---------------------------------------------------------------------------------------------

  /** The request that opened the window in which request i falls. */
  function Opener(times: seq<Time>, window: nat, i: nat): (first: nat)
    requires i < |times|
    ensures first <= i
  {
    if i == 0 then 0
    else
      var first := Opener(times, window, i - 1);
      if times[i] < times[first] + window then first else i
  }

  /** The counter is the position within the window. */
  lemma {:induction false} CounterIsPosition(times: seq<Time>, window: nat, i: nat)
    requires i < |times|
    ensures After(times[..i + 1], window)
         == Some(Counter(i - Opener(times, window, i) + 1, times[Opener(times, window, i)] + window))
  {
    var upTo := times[..i + 1];
    assert upTo[..i] == times[..i] && upTo[i] == times[i];
    if i > 0 {
      CounterIsPosition(times, window, i - 1);
      assert times[..i - 1 + 1] == times[..i];
    }
  }

  lemma AcceptedIffEarlyInWindow(times: seq<Time>, limit: nat, window: nat, i: nat)
    requires i < |times|
    ensures Accepted(times, limit, window, i) <==> i < Opener(times, window, i) + limit
  {
    CounterIsPosition(times, window, i);
  }

  /** Between two requests of one window lies nothing but that window; a later window opens a full length later. */
  lemma {:induction false} WindowsInOrder(times: seq<Time>, window: nat, i: nat, j: nat)
    requires Chronological(times) && window > 0 && i <= j < |times|
    ensures Opener(times, window, i) <= Opener(times, window, j)
    ensures times[j] < times[Opener(times, window, j)] + window
    ensures Opener(times, window, j) == Opener(times, window, i) || Opener(times, window, j) > i
    ensures Opener(times, window, j) > i ==>
              times[Opener(times, window, j)] >= times[Opener(times, window, i)] + window
    decreases j
  {
    if i < j {
      WindowsInOrder(times, window, i, j - 1);
    } else if j > 0 {
      WindowsInOrder(times, window, j - 1, j - 1);
    }
  }

  /** Requests accepted within [from, from + window). */
  function AcceptedWithin(times: seq<Time>, limit: nat, window: nat, start: Time): set<nat> {
    set i: nat | i < |times| && start <= times[i] < start + window && Accepted(times, limit, window, i)
  }

  function Range(low: int, high: int): (range: set<int>)
    ensures forall i :: i in range <==> low <= i < high
    decreases high - low
  {
    if low < high then {low} + Range(low + 1, high) else {}
  }

  lemma {:induction false} RangeSize(low: int, high: int)
    ensures |Range(low, high)| == if low < high then high - low else 0
    decreases high - low
  {
    if low < high {
      RangeSize(low + 1, high);
    }
  }

  /** Indices that all lie in two ranges are no more than the ranges are long. */
  lemma SizeWithinRanges(s: set<nat>, low: int, high: int, low': int, high': int)
    requires forall i :: i in s ==> low <= i < high || low' <= i < high'
    ensures |s| <= (if low < high then high - low else 0) + (if low' < high' then high' - low' else 0)
  {
    RangeSize(low, high);
    RangeSize(low', high');
    SubsetSize(s, Range(low, high) + Range(low', high'));
  }

  /** The earliest request at or after a given time. */
  lemma {:induction false} EarliestFrom(times: seq<Time>, start: Time, i: nat) returns (low: nat)
    requires Chronological(times) && i < |times| && start <= times[i]
    ensures low <= i && start <= times[low]
    ensures forall j :: 0 <= j < |times| && start <= times[j] ==> low <= j
  {
    low := i;
    if i > 0 && start <= times[i - 1] {
      low := EarliestFrom(times, start, i - 1);
    }
  }

  /** Two windows at most meet the interval, and the first of them was opened before it. */
  lemma TwoWindowsAtMost(times: seq<Time>, limit: nat, window: nat, start: Time, low: nat, i: nat, j: nat)
    requires Chronological(times) && window > 0
    requires low < |times| && start <= times[low]
    requires i in AcceptedWithin(times, limit, window, start) && j in AcceptedWithin(times, limit, window, start)
    requires low <= i && low <= j
    requires Opener(times, window, i) != Opener(times, window, low)
    ensures Opener(times, window, j) in {Opener(times, window, low), Opener(times, window, i)}
    ensures Opener(times, window, low) < low
    ensures Opener(times, window, i) > low
  {
    WindowsInOrder(times, window, low, i);
    WindowsInOrder(times, window, low, j);
    WindowsInOrder(times, window, Opener(times, window, i), i);
    WindowsInOrder(times, window, Opener(times, window, j), j);
    if i <= j {
      WindowsInOrder(times, window, i, j);
    } else {
      WindowsInOrder(times, window, j, i);
    }
  }

  /**
    Any half-open interval as long as the window contains at most 2 * limit - 1 accepted requests.
  */
  lemma AtMostTwoWindowsWorth(times: seq<Time>, limit: nat, window: nat, start: Time)
    requires Chronological(times) && limit > 0 && window > 0
    ensures |AcceptedWithin(times, limit, window, start)| <= 2 * limit - 1
  {
    var accepted := AcceptedWithin(times, limit, window, start);
    if accepted != {} {
      var some :| some in accepted;
      var low := EarliestFrom(times, start, some);
      var first := Opener(times, window, low);
      if i :| i in accepted && Opener(times, window, i) != first {
        var second := Opener(times, window, i);
        forall j | j in accepted ensures low <= j < first + limit || second <= j < second + limit {
          TwoWindowsAtMost(times, limit, window, start, low, i, j);
          AcceptedIffEarlyInWindow(times, limit, window, j);
        }
        TwoWindowsAtMost(times, limit, window, start, low, i, i);
        SizeWithinRanges(accepted, low, first + limit, second, second + limit);
      } else {
        forall j | j in accepted ensures first <= j < first + limit {
          AcceptedIffEarlyInWindow(times, limit, window, j);
        }
        SizeWithinRanges(accepted, first, first + limit, 0, 0);
      }
    }
  }

  /** A request is rejected only if `limit` requests were accepted within the window length before it. */
  lemma RejectedOnlyAfterLimit(times: seq<Time>, limit: nat, window: nat, i: nat)
    requires Chronological(times) && window > 0 && i < |times|
    requires !Accepted(times, limit, window, i)
    ensures var first := Opener(times, window, i);
            && first + limit <= i
            && forall j :: first <= j < first + limit ==>
                 Accepted(times, limit, window, j) && times[i] - window < times[j] <= times[i]
  {
    var first := Opener(times, window, i);
    AcceptedIffEarlyInWindow(times, limit, window, i);
    WindowsInOrder(times, window, i, i);
    forall j | first <= j < first + limit
      ensures Accepted(times, limit, window, j) && times[i] - window < times[j] <= times[i]
    {
      WindowsInOrder(times, window, first, i);
      WindowsInOrder(times, window, j, i);
      OpenerOpens(times, window, i);
      WindowsInOrder(times, window, first, j);
      AcceptedIffEarlyInWindow(times, limit, window, j);
    }
  }

  /** A window's opener is its own opener. */
  lemma {:induction false} OpenerOpens(times: seq<Time>, window: nat, i: nat)
    requires i < |times| && window > 0
    ensures Opener(times, window, Opener(times, window, i)) == Opener(times, window, i)
  {
    if i > 0 {
      OpenerOpens(times, window, i - 1);
    }
  }

  // ---------------------------------------------------------------------------------------------
  // The bound is reached
  // ---------------------------------------------------------------------------------------------

  /** One request at 0, the rest of the quota just before the window closes, a full quota right after. */
  function WorstCase(limit: nat, window: nat): seq<Time> {
    seq(2 * limit, i => if i == 0 then 0 else if i < limit then window - 1 else window)
  }

  lemma {:induction false} WorstCaseOpeners(limit: nat, window: nat, i: nat)
    requires limit > 0 && window > 1 && i < 2 * limit
    ensures Opener(WorstCase(limit, window), window, i) == if i < limit then 0 else limit
  {
    if i > 0 {
      WorstCaseOpeners(limit, window, i - 1);
    }
  }

  lemma WorstCaseIsAccepted(limit: nat, window: nat, i: nat)
    requires limit > 0 && window > 1 && i < 2 * limit
    ensures Accepted(WorstCase(limit, window), limit, window, i)
  {
    WorstCaseOpeners(limit, window, i);
    AcceptedIffEarlyInWindow(WorstCase(limit, window), limit, window, i);
  }

  /** Every request but the first falls into the interval that starts just before the window closes. */
  lemma WorstCaseInterval(limit: nat, window: nat, i: int)
    requires limit > 0 && window > 1
    ensures i in Range(1, 2 * limit) <==> i >= 0 && i in AcceptedWithin(WorstCase(limit, window), limit, window, window - 1)
  {
    if 0 <= i < 2 * limit {
      WorstCaseIsAccepted(limit, window, i);
    }
  }

  lemma BoundIsReached(limit: nat, window: nat)
    requires limit > 0 && window > 1
    ensures Chronological(WorstCase(limit, window))
    ensures |AcceptedWithin(WorstCase(limit, window), limit, window, window - 1)| == 2 * limit - 1
  {
    RangeSize(1, 2 * limit);
    forall i: int
      ensures i in Range(1, 2 * limit) <==> i >= 0 && i in AcceptedWithin(WorstCase(limit, window), limit, window, window - 1)
    {
      WorstCaseInterval(limit, window, i);
    }
    assert Range(1, 2 * limit) == AcceptedWithin(WorstCase(limit, window), limit, window, window - 1);
  }

  // ---------------------------------------------------------------------------------------------
  // The service
  // ---------------------------------------------------------------------------------------------

  class RateLimiter {
    var counter: Option<Counter>
    ghost var times: seq<Time>

    ghost predicate Valid(window: nat)
      reads this
    {
      Chronological(times) && counter == After(times, window)
    }

    constructor ()
      ensures forall window: nat :: Valid(window)
      ensures times == []
    {
      counter, times := None, [];
    }

    /** The script: increment the key, and give it an expiry if that created it. */
    method Evaluate(window: nat, now: Time) returns (value: nat)
      requires window > 0 && Valid(window)
      requires forall i :: 0 <= i < |times| ==> times[i] <= now
      modifies this
      ensures Valid(window) && times == old(times) + [now]
      ensures counter.Some? && value == counter.value.count
    {
      if counter.Some? && counter.value.expiresAt <= now {
        counter := None;
      }
      if counter.None? {
        counter := Some(Counter(1, now + window));
      } else {
        counter := Some(counter.value.(count := counter.value.count + 1));
      }
      times := times + [now];
      assert times[..|times| - 1] == old(times);
      value := counter.value.count;
    }

    /** Check one request; when Redis answers, the request joins the log, accepted or not. */
    method CheckRateLimit(limit: int, window: int, enabled: bool, production: bool, redis: Redis, now: Time)
      returns (outcome: Outcome)
      requires window > 0 ==> Valid(window)
      requires forall i :: 0 <= i < |times| ==> times[i] <= now
      modifies this
      ensures window > 0 ==> Valid(window)
      ensures limit <= 0 || window <= 0 || !enabled || redis != Up ==>
                times == old(times) && counter == old(counter)
                && outcome == if limit <= 0 || window <= 0 then Misconfigured
                              else if !enabled || redis == NotConfigured then (if production then Misconfigured else Allowed)
                              else Unavailable
      ensures limit > 0 && window > 0 && enabled && redis == Up ==>
                && times == old(times) + [now]
                && outcome == if Accepted(times, limit, window, |times| - 1) then Allowed else Exceeded
    {
      if limit <= 0 {
        return Misconfigured;
      }
      if window <= 0 {
        return Misconfigured;
      }
      if !enabled {
        return if production then Misconfigured else Allowed;
      }
      if redis == NotConfigured {
        return if production then Misconfigured else Allowed;
      }
      if redis == Failing {
        return Unavailable;
      }
      var value := Evaluate(window, now);
      assert times[..|times|] == times;
      if value > limit {
        return Exceeded;
      }
      return Allowed;
    }
  }
}
