/** The retry delay of a poller, in nanoseconds. */
module Backoff {
  const MAX_DELAY: int := 60_000_000_000

  datatype Fetch = Success | Failed | RateLimited(retryAfter: int)

  /** Three halves of a delay, truncated toward zero. */
  function Longer(delay: int): int {
    if delay >= 0 then delay * 3 / 2 else -(-delay * 3 / 2)
  }

  /** The delay after one fetch. */
  function NextDelay(interval: int, delay: int, f: Fetch): int {
    match f
    case Success => interval
    case RateLimited(retryAfter) => retryAfter
    case Failed =>
      if delay >= MAX_DELAY then delay
      else if Longer(delay) > MAX_DELAY then MAX_DELAY else Longer(delay)
  }

  function DelayAfter(interval: int, fetches: seq<Fetch>): int {
    if fetches == [] then interval
    else NextDelay(interval, DelayAfter(interval, fetches[..|fetches| - 1]), fetches[|fetches| - 1])
  }

  lemma StepByStep(interval: int, fetches: seq<Fetch>)
    ensures forall i :: 0 <= i < |fetches| ==>
      DelayAfter(interval, fetches[..i + 1]) ==
        NextDelay(interval, if i == 0 then interval else DelayAfter(interval, fetches[..i]), fetches[i])
  {
    hide NextDelay;
    forall i | 0 <= i < |fetches|
      ensures DelayAfter(interval, fetches[..i + 1]) ==
        NextDelay(interval, if i == 0 then interval else DelayAfter(interval, fetches[..i]), fetches[i])
    {
      assert fetches[..i + 1][..i] == fetches[..i];
    }
  }

  function Successes(fetches: seq<Fetch>): nat {
    if fetches == [] then 0
    else Successes(fetches[..|fetches| - 1]) + if fetches[|fetches| - 1].Success? then 1 else 0
  }

  lemma {:induction false} SuccessesCount(fetches: seq<Fetch>)
    ensures Successes(fetches) == |set i | 0 <= i < |fetches| && fetches[i].Success?|
  {
    if fetches != [] {
      var n := |fetches| - 1;
      SuccessesCount(fetches[..n]);
      var before := set i | 0 <= i < n && fetches[..n][i].Success?;
      assert (set i | 0 <= i < |fetches| && fetches[i].Success?) == before + (if fetches[n].Success? then {n} else {});
    }
  }

  /** The polling loop over the outcomes of its fetches: how long it waits after each, and how often
      it hands entities on. */
  method Run(interval: int, fetches: seq<Fetch>) returns (waits: seq<int>, updates: nat)
    ensures |waits| == |fetches| && forall i :: 0 <= i < |fetches| ==> waits[i] == DelayAfter(interval, fetches[..i + 1])
    ensures forall i :: 0 <= i < |fetches| ==>
      var before := if i == 0 then interval else waits[i - 1];
      match fetches[i]
      case Success => waits[i] == interval
      case RateLimited(retryAfter) => waits[i] == retryAfter
      case Failed =>
        if before >= 60_000_000_000 then waits[i] == before
        else if before * 3 / 2 >= 60_000_000_000 then waits[i] == 60_000_000_000
        else if before >= 0 then waits[i] == before * 3 / 2
        else waits[i] == -(-before * 3 / 2)
    ensures updates == Successes(fetches) == |set i | 0 <= i < |fetches| && fetches[i].Success?|
  {
    StepByStep(interval, fetches);
    SuccessesCount(fetches);
    var delay := interval;
    waits, updates := [], 0;
    for i := 0 to |fetches|
      invariant delay == DelayAfter(interval, fetches[..i]) && updates == Successes(fetches[..i])
      invariant |waits| == i && forall k :: 0 <= k < i ==> waits[k] == DelayAfter(interval, fetches[..k + 1])
    {
      assert fetches[..i + 1][..i] == fetches[..i];
      match fetches[i] {
        case RateLimited(retryAfter) =>
          delay := retryAfter;
        case Failed =>
          if delay < MAX_DELAY {
            delay := Longer(delay);
            if delay > MAX_DELAY {
              delay := MAX_DELAY;
            }
          }
        case Success =>
          delay := interval;
          updates := updates + 1;
      }
      waits := waits + [delay];
    }
    assert fetches[..|fetches|] == fetches;
  }

  /** The delay after `k` generic errors in a row. */
  function AfterErrors(delay: int, k: nat): int {
    if k == 0 then delay else NextDelay(0, AfterErrors(delay, k - 1), Failed)
  }

  lemma {:induction false} ErrorsInARow(interval: int, fetches: seq<Fetch>, k: nat)
    requires k <= |fetches| && forall i :: |fetches| - k <= i < |fetches| ==> fetches[i] == Failed
    ensures DelayAfter(interval, fetches) == AfterErrors(DelayAfter(interval, fetches[..|fetches| - k]), k)
  {
    if k == 0 {
      assert fetches[..|fetches|] == fetches;
    } else {
      var front := fetches[..|fetches| - 1];
      ErrorsInARow(interval, front, k - 1);
      assert front[..|front| - (k - 1)] == fetches[..|fetches| - k];
    }
  }

  /** Errors in a row never shorten the delay and never push it past the maximum. */
  lemma {:induction false} ErrorsGrow(delay: int, i: nat, k: nat)
    requires 0 <= delay <= MAX_DELAY && i <= k
    ensures delay <= AfterErrors(delay, i) <= AfterErrors(delay, k) <= MAX_DELAY
    decreases k
  {
    if i < k {
      ErrorsGrow(delay, i, k - 1);
    } else if k > 0 {
      ErrorsGrow(delay, i - 1, k - 1);
    }
  }

  lemma {:induction false} ErrorsAreMonotone(d: int, e: int, k: nat)
    requires 0 <= d <= e <= MAX_DELAY
    ensures 0 <= AfterErrors(d, k) <= AfterErrors(e, k) <= MAX_DELAY
  {
    if k > 0 {
      ErrorsAreMonotone(d, e, k - 1);
    }
  }

  /** Whatever the last success or rate limit, the delay is at most the largest of the interval, the
      last retry-after and the maximum. */
  lemma {:induction false} DelayIsBounded(interval: int, fetches: seq<Fetch>, bound: int)
    requires MAX_DELAY <= bound && interval <= bound
    requires forall f :: f in fetches && f.RateLimited? ==> f.retryAfter <= bound
    ensures DelayAfter(interval, fetches) <= bound
  {
    if fetches != [] {
      DelayIsBounded(interval, fetches[..|fetches| - 1], bound);
    }
  }

  /** `e` is three halves of `d`, rounded down. */
  predicate Half3(d: int, e: int) {
    2 * e <= 3 * d <= 2 * e + 1
  }

  lemma OneMore(k: nat, d: int, e: int)
    requires AfterErrors(2, k) == d && 0 <= d < MAX_DELAY && Half3(d, e) && e <= MAX_DELAY
    ensures AfterErrors(2, k + 1) == e
  {
  }

  lemma FiveMore(k: nat, a: int, b: int, c: int, d: int, e: int, f: int)
    requires AfterErrors(2, k) == a && 0 <= a && f < MAX_DELAY
    requires Half3(a, b) && Half3(b, c) && Half3(c, d) && Half3(d, e) && Half3(e, f)
    ensures AfterErrors(2, k + 5) == f
  {
    hide AfterErrors;
    OneMore(k, a, b);
    OneMore(k + 1, b, c);
    OneMore(k + 2, c, d);
    OneMore(k + 3, d, e);
    OneMore(k + 4, e, f);
  }

  /** The slowest start that moves at all: two nanoseconds need 61 errors. */
  lemma SlowestStart()
    ensures AfterErrors(2, 61) == MAX_DELAY && AfterErrors(2, 60) < MAX_DELAY
  {
    hide AfterErrors;
    NoErrors();
    FiveMore(0, 2, 3, 4, 6, 9, 13);
    FiveMore(5, 13, 19, 28, 42, 63, 94);
    FiveMore(10, 94, 141, 211, 316, 474, 711);
    FiveMore(15, 711, 1066, 1599, 2398, 3597, 5395);
    FiveMore(20, 5395, 8092, 12138, 18207, 27310, 40965);
    FiveMore(25, 40965, 61447, 92170, 138255, 207382, 311073);
    FiveMore(30, 311073, 466609, 699913, 1049869, 1574803, 2362204);
    FiveMore(35, 2362204, 3543306, 5314959, 7972438, 11958657, 17937985);
    FiveMore(40, 17937985, 26906977, 40360465, 60540697, 90811045, 136216567);
    FiveMore(45, 136216567, 204324850, 306487275, 459730912, 689596368, 1034394552);
    FiveMore(50, 1034394552, 1551591828, 2327387742, 3491081613, 5236622419, 7854933628);
    FiveMore(55, 7854933628, 11782400442, 17673600663, 26510400994, 39765601491, 59648402236);
    CapReached(60, 59648402236);
  }

  lemma CapReached(k: nat, d: int)
    requires AfterErrors(2, k) == d && 0 <= d < MAX_DELAY && 3 * d >= 2 * MAX_DELAY + 2
    ensures AfterErrors(2, k + 1) == MAX_DELAY
  {
  }

  lemma NoErrors()
    ensures AfterErrors(2, 0) == 2
  {
  }

  lemma {:induction false} StuckBelowOne(delay: int, k: nat)
    requires delay <= 1
    ensures AfterErrors(delay, k) <= 1
  {
    if k > 0 {
      StuckBelowOne(delay, k - 1);
    }
  }

  lemma {:induction false} StuckAbove(delay: int, k: nat)
    requires delay >= MAX_DELAY
    ensures AfterErrors(delay, k) == delay
  {
    if k > 0 {
      StuckAbove(delay, k - 1);
    }
  }

  /** From 61 errors in a row on the delay is the maximum, exactly when it starts between two nanoseconds
      and the maximum: from one it never moves, and from above the maximum it is never cut. */
  lemma ReachesMaximum(interval: int, k: nat)
    requires k >= 61
    ensures AfterErrors(interval, k) == MAX_DELAY <==> 2 <= interval <= MAX_DELAY
  {
    if 2 <= interval <= MAX_DELAY {
      SlowestStart();
      ErrorsAreMonotone(2, interval, 61);
      ErrorsGrow(interval, 61, k);
    } else if interval < 2 {
      StuckBelowOne(interval, k);
    } else {
      StuckAbove(interval, k);
    }
  }

  lemma {:induction false} ErrorsBounded(delay: int, k: nat)
    ensures AfterErrors(delay, k) <= if delay > MAX_DELAY then delay else MAX_DELAY
  {
    if k > 0 {
      ErrorsBounded(delay, k - 1);
    }
  }

  /** After a rate limit, errors in a row wait at most the larger of the maximum and the last
      retry-after. */
  lemma RetryAfterBounds(interval: int, fetches: seq<Fetch>, i: nat)
    requires i < |fetches| && fetches[i].RateLimited? && forall m :: i < m < |fetches| ==> fetches[m] == Failed
    ensures DelayAfter(interval, fetches) <= if fetches[i].retryAfter > MAX_DELAY then fetches[i].retryAfter else MAX_DELAY
  {
    var k := |fetches| - 1 - i;
    ErrorsInARow(interval, fetches, k);
    assert fetches[..|fetches| - k][|fetches| - k - 1] == fetches[i];
    ErrorsBounded(fetches[i].retryAfter, k);
  }
}
