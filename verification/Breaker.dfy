/** `CircuitBreaker.call`, and the breaker's state as a function of the calls made so far. */
module Breaker {
  import Reals

  datatype State = Closed | Open | HalfOpen

  datatype Breaker = Breaker(state: State, failures: nat, openedAt: real)

  /** One call: when the clock is read on entry, whether the wrapped function succeeds, and when the clock
      is read after a failure. */
  datatype Call = Call(at: real, succeeds: bool, failedAt: real)

  datatype Result<T> = Returned(value: T) | Fallback(value: T) | Raised

  function Fresh(): Breaker {
    Breaker(Closed, 0, 0.0)
  }

  /** Whether the wrapped function is invoked. */
  predicate Invokes(b: Breaker, recovery: real, c: Call) {
    b.state.Open? ==> c.at - b.openedAt >= recovery
  }

  function After(b: Breaker, threshold: int, recovery: real, c: Call): Breaker {
    if !Invokes(b, recovery, c) then b
    else if c.succeeds then Breaker(Closed, 0, b.openedAt)
    else
      var trial := b.state.Open? || b.state.HalfOpen?;
      if trial || b.failures + 1 >= threshold then Breaker(Open, b.failures + 1, c.failedAt)
      else Breaker(b.state, b.failures + 1, b.openedAt)
  }

  class CircuitBreaker {
    const threshold: int
    const recovery: real
    var state: State
    var failures: nat
    var openedAt: real

    function Value(): Breaker
      reads this
    {
      Breaker(state, failures, openedAt)
    }

    constructor (threshold: int, recovery: real)
      ensures Value() == Fresh() && this.threshold == threshold && this.recovery == recovery
    {
      this.threshold, this.recovery := threshold, recovery;
      state, failures, openedAt := Closed, 0, 0.0;
    }

    method Protect<T>(c: Call, value: T, fallback: T) returns (result: Result<T>)
      modifies this
      ensures Value() == After(old(Value()), threshold, recovery, c)
      ensures result == if !Invokes(old(Value()), recovery, c) then Fallback(fallback)
                        else if c.succeeds then Returned(value) else Raised
    {
      if state.Open? {
        if c.at - openedAt >= recovery {
          state := HalfOpen;
        } else {
          return Fallback(fallback);
        }
      }
      if !c.succeeds {
        failures := failures + 1;
        if state.HalfOpen? || failures >= threshold {
          state := Open;
          openedAt := c.failedAt;
        }
        return Raised;
      }
      failures := 0;
      state := Closed;
      return Returned(value);
    }
  }

  // ---- Runs -----------------------------------------------------------------------------------------------

  function Run(calls: seq<Call>, threshold: int, recovery: real): Breaker {
    if calls == [] then Fresh()
    else After(Run(calls[..|calls| - 1], threshold, recovery), threshold, recovery, calls[|calls| - 1])
  }

  /** The outcomes of the invocations so far. */
  function Outcomes(calls: seq<Call>, threshold: int, recovery: real): seq<bool> {
    if calls == [] then []
    else
      var init, c := calls[..|calls| - 1], calls[|calls| - 1];
      Outcomes(init, threshold, recovery)
          + (if Invokes(Run(init, threshold, recovery), recovery, c) then [c.succeeds] else [])
  }

  /** The failures since the last success. */
  function TrailingFailures(outcomes: seq<bool>): nat {
    if outcomes == [] || outcomes[|outcomes| - 1] then 0 else TrailingFailures(outcomes[..|outcomes| - 1]) + 1
  }

  function AtLeastOne(threshold: int): nat {
    if threshold < 1 then 1 else threshold
  }

  /** Between calls the breaker is open exactly when the failures since the last success have reached the
      threshold (any threshold below one acts as one), and closed otherwise. */
  lemma {:induction false} StateFollowsHistory(calls: seq<Call>, threshold: int, recovery: real)
    ensures var b := Run(calls, threshold, recovery);
            var trailing := TrailingFailures(Outcomes(calls, threshold, recovery));
            && b.failures == trailing
            && b.state == if trailing >= AtLeastOne(threshold) then Open else Closed
  {
    if calls != [] {
      var init, c := calls[..|calls| - 1], calls[|calls| - 1];
      StateFollowsHistory(init, threshold, recovery);
      var before := Outcomes(init, threshold, recovery);
      if Invokes(Run(init, threshold, recovery), recovery, c) {
        assert (before + [c.succeeds])[..|before|] == before;
      } else {
        assert before + [] == before;
      }
    }
  }

  // ---- How often a failing function is invoked -----------------------------------------------------------------

  /** The clock does not run backwards, and all calls start between `from` and `to`; the last may fail later. */
  ghost predicate Chronological(calls: seq<Call>, from: real, to: real) {
    && (forall i :: 0 <= i < |calls| ==> from <= calls[i].at <= to && calls[i].at <= calls[i].failedAt)
    && (forall i, j :: 0 <= i < j < |calls| ==> calls[i].failedAt <= calls[j].at)
  }

  predicate AllFail(calls: seq<Call>) {
    forall i :: 0 <= i < |calls| ==> !calls[i].succeeds
  }

  function Invocations(calls: seq<Call>, threshold: int, recovery: real): nat {
    |Outcomes(calls, threshold, recovery)|
  }

  /** While everything fails, the breaker counts the invocations, and each one beyond the threshold came at
      least one recovery timeout after the one before. */
  ghost predicate Paced(b: Breaker, n: nat, limit: nat, recovery: real, from: real, latest: real) {
    && b.failures == n
    && (n < limit ==> b.state.Closed?)
    && (n >= limit ==> b.state.Open? && from + (n - limit) as real * recovery <= b.openedAt <= latest)
  }

  lemma PacedStep(b: Breaker, n: nat, threshold: int, recovery: real, from: real, latest: real, c: Call)
    requires Paced(b, n, AtLeastOne(threshold), recovery, from, latest)
    requires from <= latest <= c.at <= c.failedAt && !c.succeeds
    ensures Paced(After(b, threshold, recovery, c), n + (if Invokes(b, recovery, c) then 1 else 0),
                  AtLeastOne(threshold), recovery, from, c.failedAt)
  {
    var m := n - AtLeastOne(threshold);
    assert (m + 1) as real * recovery == m as real * recovery + recovery;
  }

  function LatestTime(calls: seq<Call>, from: real): real {
    if calls == [] then from else calls[|calls| - 1].failedAt
  }

  lemma {:induction false} AllPaced(calls: seq<Call>, threshold: int, recovery: real, from: real, to: real)
    requires Chronological(calls, from, to) && AllFail(calls)
    ensures Paced(Run(calls, threshold, recovery), Invocations(calls, threshold, recovery), AtLeastOne(threshold),
                  recovery, from, LatestTime(calls, from))
    ensures from <= LatestTime(calls, from)
  {
    hide Paced, After, Invokes;
    if calls == [] {
      FreshIsPaced(threshold, recovery, from);
    } else {
      var init, c := calls[..|calls| - 1], calls[|calls| - 1];
      AllPaced(init, threshold, recovery, from, to);
      PacedStep(Run(init, threshold, recovery), Invocations(init, threshold, recovery), threshold, recovery, from,
                LatestTime(init, from), c);
    }
  }

  lemma FreshIsPaced(threshold: int, recovery: real, from: real)
    ensures Paced(Fresh(), 0, AtLeastOne(threshold), recovery, from, from)
  {
  }

  /** Started fresh and failing throughout, within a span of time at most threshold invocations of the function
      start, and one more for each recovery timeout that fits into the span. */
  lemma FailingCallsAreRationed(calls: seq<Call>, threshold: int, recovery: real, from: real, span: real)
    requires recovery > 0.0 && span >= 0.0
    requires Chronological(calls, from, from + span) && AllFail(calls)
    ensures Invocations(calls, threshold, recovery) <= AtLeastOne(threshold) + (span / recovery).Floor
  {
    Quotient(0, recovery, span);
    if calls != [] {
      var init, c := calls[..|calls| - 1], calls[|calls| - 1];
      AllPaced(init, threshold, recovery, from, from + span);
      assert LatestTime(init, from) <= c.at <= from + span;
      hide Paced, After, Invokes;
      LastInvocation(Run(init, threshold, recovery), Invocations(init, threshold, recovery), AtLeastOne(threshold),
                     recovery, from, LatestTime(init, from), c, span);
    }
  }

  /** The invocation that starts last, if there is one, is within the bound too. */
  lemma LastInvocation(b: Breaker, n: nat, limit: nat, recovery: real, from: real, latest: real, c: Call, span: real)
    requires Paced(b, n, limit, recovery, from, latest)
    requires recovery > 0.0 && span >= 0.0 && latest <= c.at <= from + span
    ensures n + (if Invokes(b, recovery, c) then 1 else 0) <= limit + (span / recovery).Floor
  {
    var m := if n >= limit then n - limit else 0;
    if n >= limit && Invokes(b, recovery, c) {
      assert (m + 1) as real * recovery == m as real * recovery + recovery;
      assert from + m as real * recovery + recovery <= c.at;
      Quotient(m + 1, recovery, span);
    } else {
      Quotient(m, recovery, span);
    }
  }

  lemma Quotient(n: int, d: real, x: real)
    requires d > 0.0 && n as real * d <= x
    ensures n <= (x / d).Floor
  {
    Reals.DivideOrder(x, n as real, d);
  }

  // ---- When the function is invoked ---------------------------------------------------------------------------

  /** The calls that invoked the function. */
  function Invoked(calls: seq<Call>, threshold: int, recovery: real): seq<Call> {
    if calls == [] then []
    else
      var init, c := calls[..|calls| - 1], calls[|calls| - 1];
      Invoked(init, threshold, recovery) + (if Invokes(Run(init, threshold, recovery), recovery, c) then [c] else [])
  }

  lemma {:induction false} OutcomesOfInvoked(calls: seq<Call>, threshold: int, recovery: real)
    ensures |Outcomes(calls, threshold, recovery)| == |Invoked(calls, threshold, recovery)|
    ensures forall k :: 0 <= k < |Invoked(calls, threshold, recovery)| ==>
              Outcomes(calls, threshold, recovery)[k] == Invoked(calls, threshold, recovery)[k].succeeds
  {
    if calls != [] { OutcomesOfInvoked(calls[..|calls| - 1], threshold, recovery); }
  }

  /** An open breaker was opened by the failure of the last invocation. */
  lemma {:induction false} OpenedByLastFailure(calls: seq<Call>, threshold: int, recovery: real)
    ensures Run(calls, threshold, recovery).state.Open? ==>
              var invoked := Invoked(calls, threshold, recovery);
              && invoked != [] && !invoked[|invoked| - 1].succeeds
              && Run(calls, threshold, recovery).openedAt == invoked[|invoked| - 1].failedAt
  {
    if calls != [] {
      OpenedByLastFailure(calls[..|calls| - 1], threshold, recovery);
      StateFollowsHistory(calls[..|calls| - 1], threshold, recovery);
    }
  }

  /** After any calls, the next one invokes the function if and only if the failures since the last success have not
      reached the threshold, or the recovery timeout has passed since the last invocation failed. */
  lemma InvokedExactly(calls: seq<Call>, threshold: int, recovery: real, c: Call)
    ensures var invoked := Invoked(calls, threshold, recovery);
            var trailing := TrailingFailures(Outcomes(calls, threshold, recovery));
            Invokes(Run(calls, threshold, recovery), recovery, c) <==>
              || trailing < AtLeastOne(threshold)
              || (invoked != [] && c.at - invoked[|invoked| - 1].failedAt >= recovery)
  {
    StateFollowsHistory(calls, threshold, recovery);
    OpenedByLastFailure(calls, threshold, recovery);
  }
}
