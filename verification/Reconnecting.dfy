/**
 The reconnect manager (reconnect.go): the attempt counter and ReconnectLoop. The counter is an int32
 that wraps, and the limit is compared after truncation to int32.
 */
module Reconnecting {
  import opened ReconnectPolicy
  import opened RoundRobin

  /** Go's conversion of an int to int32. */
  function ToInt32(x: int): (r: int)
    ensures INT32_MIN <= r <= INT32_MAX
    ensures INT32_MIN <= x <= INT32_MAX ==> r == x
    ensures (x - r) % 0x1_0000_0000 == 0
  {
    var m := x % 0x1_0000_0000;
    if m > INT32_MAX then m - 0x1_0000_0000 else m
  }

  /** Whether attempt number `a` may dial. */
  predicate Proceeds(p: Policy, a: int) {
    p.enabled && !(p.maxAttempts > 0 && a >= ToInt32(p.maxAttempts))
  }

  /** The wait before attempt `a`. */
  function Pause(p: Policy, a: int): nat {
    if a > 0 && Backoff(p, a) > 0 then Backoff(p, a) else 0
  }

  /** How a call of ReconnectLoop stands. StillDialling: the answers given so far have run out. */
  datatype Ending = GaveUp | Reconnected(attempt: int) | StillDialling

  /** The counter afterwards, the dials made, the ending, and the time slept. */
  datatype Result = Result(counter: int, dials: nat, ending: Ending, slept: nat)

  /** ReconnectLoop from counter value `counter`, the k-th dial succeeding iff `answers[k]`. */
  function Loop(p: Policy, counter: int, answers: seq<bool>): (r: Result)
    requires INT32_MIN <= counter <= INT32_MAX
    ensures INT32_MIN <= r.counter <= INT32_MAX
    decreases |answers|
  {
    if !p.enabled then Result(counter, 0, GaveUp, 0)
    else
      var a := Tick(counter);
      if !Proceeds(p, a) then Result(a, 0, GaveUp, 0)
      else if answers == [] then Result(a, 0, StillDialling, Pause(p, a))
      else if answers[0] then Result(-1, 1, Reconnected(a), Pause(p, a))
      else
        var rest := Loop(p, a, answers[1..]);
        rest.(dials := rest.dials + 1, slept := rest.slept + Pause(p, a))
  }

  class ReconnectManager {
    const policy: Policy
    var attempt: int

    constructor (policy: Policy)
      ensures this.policy == policy && attempt == -1
    {
      this.policy := policy;
      attempt := -1;
    }

    method Reset()
      modifies this
      ensures attempt == -1
    {
      attempt := -1;
    }

    method Next() returns (a: int, proceed: bool)
      requires INT32_MIN <= attempt <= INT32_MAX
      modifies this
      ensures attempt == if policy.enabled then Tick(old(attempt)) else old(attempt)
      ensures policy.enabled ==> a == attempt
      ensures proceed <==> Proceeds(policy, attempt)
    {
      if !policy.enabled {
        return 0, false;
      }
      attempt := Tick(attempt);
      if policy.maxAttempts > 0 && attempt >= ToInt32(policy.maxAttempts) {
        return attempt, false;
      }
      return attempt, true;
    }

    method ReconnectLoop(answers: seq<bool>) returns (dials: nat, ending: Ending, slept: nat)
      requires INT32_MIN <= attempt <= INT32_MAX
      modifies this
      ensures Result(attempt, dials, ending, slept) == Loop(policy, old(attempt), answers)
    {
      dials, slept := 0, 0;
      ending := StillDialling;
      while true
        invariant INT32_MIN <= attempt <= INT32_MAX && dials <= |answers|
        invariant var rest := Loop(policy, attempt, answers[dials..]);
                  rest.(dials := rest.dials + dials, slept := rest.slept + slept)
                  == Loop(policy, old(attempt), answers)
        decreases |answers| - dials
      {
        var a, proceed := Next();
        if !proceed {
          return dials, GaveUp, slept;
        }
        slept := slept + Pause(policy, a);
        if dials == |answers| {
          return dials, StillDialling, slept;
        }
        dials := dials + 1;
        if !answers[dials - 1] {
          continue;
        }
        Reset();
        return dials, Reconnected(a), slept;
      }
    }
  }

  // ---- The budget of one call ----

  predicate Limited(p: Policy) {
    p.enabled && 0 < p.maxAttempts <= INT32_MAX
  }

  /** The dials a counter value still allows. */
  function Left(p: Policy, counter: int): nat {
    if counter < p.maxAttempts - 1 then p.maxAttempts - 1 - counter else 0
  }

  /**
   One call with an unwrapped counter: it dials at most as often as the counter allows, a dial still
   going on included; if it gives up, every dial failed and all that was left is used; if it reconnects,
   only the last dial succeeded, the counter is fresh, and the callback gets the number of that dial
   counted from the counter's start.
   */
  lemma {:induction false} LoopBudget(p: Policy, counter: int, answers: seq<bool>)
    requires Limited(p) && -1 <= counter < INT32_MAX
    ensures var r := Loop(p, counter, answers);
            && r.dials <= Left(p, counter) && r.dials <= |answers|
            && (r.ending.StillDialling? ==> r.dials == |answers| < Left(p, counter))
            && (r.ending.GaveUp? ==> r.dials == Left(p, counter) && r.counter == counter + r.dials + 1)
            && (r.ending.Reconnected? ==>
                  && r.dials > 0 && answers[r.dials - 1] && r.counter == -1
                  && r.ending.attempt == counter + r.dials)
            && (forall k :: 0 <= k < r.dials - (if r.ending.Reconnected? then 1 else 0) ==> !answers[k])
    decreases |answers|
  {
    var a := Tick(counter);
    if Proceeds(p, a) && answers != [] && !answers[0] {
      LoopBudget(p, a, answers[1..]);
      var rest := Loop(p, a, answers[1..]);
      forall k | 0 < k <= rest.dials - (if rest.ending.Reconnected? then 1 else 0) ensures !answers[k] {
        assert answers[k] == answers[1..][k - 1];
      }
    }
  }

  /** The dials a call has begun: those answered, and the one it waits for. */
  function Begun(r: Result): nat {
    r.dials + if r.ending.StillDialling? then 1 else 0
  }

  /** The positive backoffs of `count` attempts numbered from `from`, without attempt 0, which never waits. */
  function Waits(p: Policy, from: int, count: nat): nat
    decreases count
  {
    if count == 0 then 0
    else (if from > 0 && Backoff(p, from) > 0 then Backoff(p, from) else 0) + Waits(p, from + 1, count - 1)
  }

  /**
   A call sleeps before each attempt it makes, by that attempt's backoff, with a limit or without, as
   long as the counter does not wrap; the first attempt from a fresh counter does not sleep.
   */
  lemma {:induction false} LoopSleeps(p: Policy, counter: int, answers: seq<bool>)
    requires -1 <= counter < INT32_MAX && (Limited(p) || counter + |answers| < INT32_MAX)
    ensures Loop(p, counter, answers).slept == Waits(p, counter + 1, Begun(Loop(p, counter, answers)))
    decreases |answers|
  {
    var a := Tick(counter);
    if Proceeds(p, a) && answers != [] && !answers[0] {
      LoopSleeps(p, a, answers[1..]);
    }
  }

  // ---- No limit ----

  /** The number of failures before the first success. */
  function Failures(answers: seq<bool>): (n: nat)
    ensures n <= |answers| && (forall k :: 0 <= k < n ==> !answers[k]) && (n < |answers| ==> answers[n])
  {
    if answers == [] || answers[0] then 0 else 1 + Failures(answers[1..])
  }

  /** Where the counter is after `n` more attempts. */
  function Ticks(counter: int, n: nat): (r: int)
    requires INT32_MIN <= counter <= INT32_MAX
    ensures INT32_MIN <= r <= INT32_MAX
    decreases n
  {
    if n == 0 then counter else Ticks(Tick(counter), n - 1)
  }

  /**
   Without a limit, as in the default policy, a call never gives up, from any counter value, wrapped or not:
   it dials until the first success and reports the number of that attempt, or it is still dialling.
   */
  lemma {:induction false} UnlimitedLoop(p: Policy, counter: int, answers: seq<bool>)
    requires p.enabled && p.maxAttempts <= 0 && INT32_MIN <= counter <= INT32_MAX
    ensures var r := Loop(p, counter, answers);
            var n := Failures(answers);
            && Begun(r) == n + 1
            && r.ending == (if n < |answers| then Reconnected(Ticks(counter, n + 1)) else StillDialling)
            && r.counter == (if n < |answers| then -1 else Ticks(counter, n + 1))
    ensures counter + Failures(answers) < INT32_MAX
            ==> Ticks(counter, Failures(answers) + 1) == counter + Failures(answers) + 1
    decreases |answers|
  {
    if answers != [] && !answers[0] {
      UnlimitedLoop(p, Tick(counter), answers[1..]);
    } else {
      assert Ticks(counter, 1) == Tick(counter);
    }
  }

  // ---- The budget over all calls ----

  /** The counter and the dials made since the last success, before and after a sequence of finished calls. */
  datatype Account = Account(counter: int, since: nat)

  function Charge(p: Policy, before: Account, answers: seq<bool>): Account
    requires INT32_MIN <= before.counter <= INT32_MAX
  {
    var r := Loop(p, before.counter, answers);
    Account(r.counter, if r.ending.Reconnected? then 0 else before.since + r.dials)
  }

  /** What counter and dials have to do with each other as long as nothing wraps. */
  predicate Balanced(p: Policy, account: Account) {
    -1 <= account.counter && account.since == Min(account.counter + 1, p.maxAttempts)
  }

  /** Some call of the sequence was left in the middle of a dial. */
  predicate Unfinished(p: Policy, start: Account, calls: seq<seq<bool>>)
    requires INT32_MIN <= start.counter <= INT32_MAX
    decreases |calls|
  {
    calls != [] &&
    (|| Loop(p, start.counter, calls[0]).ending.StillDialling?
     || Unfinished(p, Charge(p, start, calls[0]), calls[1..]))
  }

  function ChargeAll(p: Policy, start: Account, calls: seq<seq<bool>>): Account
    requires INT32_MIN <= start.counter <= INT32_MAX
    requires !Unfinished(p, start, calls)
    decreases |calls|
  {
    if calls == [] then start else ChargeAll(p, Charge(p, start, calls[0]), calls[1..])
  }

  /**
   At every moment of every run too short to wrap the counter, at most `maxAttempts` dials have been
   begun since the last success: after any finished calls, and however far the call after them has got.
   */
  lemma {:induction false} BudgetOverCalls(p: Policy, start: Account, calls: seq<seq<bool>>, last: seq<bool>)
    requires Limited(p) && Balanced(p, start)
    requires start.counter + |calls| < INT32_MAX && p.maxAttempts + |calls| <= INT32_MAX
    requires !Unfinished(p, start, calls)
    ensures var now := ChargeAll(p, start, calls);
            && Balanced(p, now) && now.since <= p.maxAttempts && now.counter < INT32_MAX
            && now.since + Begun(Loop(p, now.counter, last)) <= p.maxAttempts
    decreases |calls|
  {
    if calls == [] {
      LoopBudget(p, start.counter, last);
    } else {
      LoopBudget(p, start.counter, calls[0]);
      BudgetOverCalls(p, Charge(p, start, calls[0]), calls[1..], last);
    }
  }

  /** A success restores the full budget: the next call may dial `maxAttempts` times again, and does if all fail. */
  lemma SuccessRestores(p: Policy, counter: int, answers: seq<bool>, next: seq<bool>)
    requires Limited(p) && -1 <= counter < INT32_MAX && Loop(p, counter, answers).ending.Reconnected?
    requires |next| >= p.maxAttempts && forall k :: 0 <= k < |next| ==> !next[k]
    ensures var r := Loop(p, Loop(p, counter, answers).counter, next);
            r.ending.GaveUp? && r.dials == p.maxAttempts
  {
    LoopBudget(p, counter, answers);
    LoopBudget(p, -1, next);
  }

  /** A manager that has given up dials again, without any success in between, exactly when its counter wraps. */
  lemma WrapReopensBudget(p: Policy, counter: int, answers: seq<bool>)
    requires Limited(p) && p.maxAttempts - 1 <= counter <= INT32_MAX && answers != []
    ensures Loop(p, counter, answers).dials > 0 <==> counter == INT32_MAX
  {
    if counter < INT32_MAX {
      LoopBudget(p, counter, answers);
    }
  }

  /** A fresh manager dials at all exactly when it is enabled and its limit is absent or positive as an int32. */
  lemma FreshDialsIff(p: Policy, answers: seq<bool>)
    requires answers != []
    ensures Loop(p, -1, answers).dials > 0
            <==> p.enabled && (p.maxAttempts <= 0 || ToInt32(p.maxAttempts) > 0)
  {
  }

  /** A limit from 2^31 to 2^32 is read as negative or zero: a fresh manager with it gives up at once. */
  lemma HugeLimitNeverDials(p: Policy, answers: seq<bool>)
    requires p.enabled && 0x8000_0000 <= p.maxAttempts <= 0x1_0000_0000
    ensures Loop(p, -1, answers) == Result(0, 0, GaveUp, 0)
  {
    assert ToInt32(p.maxAttempts) == p.maxAttempts - 0x1_0000_0000;
  }
}
