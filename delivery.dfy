/**
 * The two delivery primitives of the scheduler: sending to a list of
 * recipients in fixed-size batches, and sending one message with a bounded
 * number of retries. Sending and sleeping are not performed: what each
 * call would do is recorded as a sequence of steps, and the outcome of
 * every send is an input.
 */
module Delivery {
  import opened Wrappers

  /** Default recipients per batch. */
  const BATCH_SIZE: int := 30
  /** Default number of retries after the first attempt. */
  const MAX_RETRIES: int := 1

  /** What one call to the message API ends with. */
  datatype Outcome = Ok | ProviderError | OtherError

  /** One step of a batched send: a batch handed to the sender, or the pause between batches. */
  datatype Step = Dispatch(batch: seq<int>) | Pause

  /** The result of `batch_send`: counters and the steps it went through. */
  datatype BatchRun = BatchRun(successful: nat, errors: nat, steps: seq<Step>)

  /** Number of `true` entries: the sends that raised. */
  function CountTrue(s: seq<bool>): (n: nat)
    ensures n <= |s|
  {
    if s == [] then 0 else CountTrue(s[..|s| - 1]) + (if s[|s| - 1] then 1 else 0)
  }

  function Min(a: int, b: int): int { if a < b then a else b }

  /**
   * The steps of a batched send of `ids` with batch size `b`: consecutive
   * batches, a pause after every batch that leaves recipients behind.
   */
  function Schedule(ids: seq<int>, b: nat): seq<Step>
    requires b > 0
    decreases |ids|
  {
    if ids == [] then []
    else if |ids| <= b then [Dispatch(ids)]
    else [Dispatch(ids[..b]), Pause] + Schedule(ids[b..], b)
  }

  /** All recipients handed to the sender, in order. */
  function Recipients(steps: seq<Step>): seq<int> {
    if steps == [] then []
    else (if steps[0].Dispatch? then steps[0].batch else []) + Recipients(steps[1..])
  }

  function Pauses(steps: seq<Step>): nat {
    if steps == [] then 0 else (if steps[0].Pause? then 1 else 0) + Pauses(steps[1..])
  }

  function Dispatches(steps: seq<Step>): nat {
    if steps == [] then 0 else (if steps[0].Dispatch? then 1 else 0) + Dispatches(steps[1..])
  }

  lemma RecipientsConcat(a: seq<Step>, b: seq<Step>)
    ensures Recipients(a + b) == Recipients(a) + Recipients(b)
  {
    if a != [] {
      assert (a + b)[1..] == a[1..] + b;
      RecipientsConcat(a[1..], b);
    } else {
      assert a + b == b;
    }
  }

  lemma PausesConcat(a: seq<Step>, b: seq<Step>)
    ensures Pauses(a + b) == Pauses(a) + Pauses(b)
    ensures Dispatches(a + b) == Dispatches(a) + Dispatches(b)
  {
    if a != [] {
      assert (a + b)[1..] == a[1..] + b;
      PausesConcat(a[1..], b);
    } else {
      assert a + b == b;
    }
  }

  lemma CountTrueStep(s: seq<bool>, k: int)
    requires 0 <= k < |s|
    ensures CountTrue(s[..k + 1]) == CountTrue(s[..k]) + (if s[k] then 1 else 0)
  {
    assert s[..k + 1][..k] == s[..k];
  }

  /** The steps one pass of the outer loop of `batch_send` adds: a batch, and a pause when recipients remain. */
  function BatchSteps(ids: seq<int>, i: int, b: nat): seq<Step>
    requires b > 0 && 0 <= i < |ids|
  {
    var hi := Min(i + b, |ids|);
    if i + b < |ids| then [Dispatch(ids[i..hi]), Pause] else [Dispatch(ids[i..hi])]
  }

  /** The steps from position `i` on are this pass's steps followed by the steps from the next batch on. */
  lemma ScheduleFrom(ids: seq<int>, steps: seq<Step>, i: int, b: nat)
    requires b > 0 && 0 <= i < |ids|
    requires steps + Schedule(ids[i..], b) == Schedule(ids, b)
    ensures steps + BatchSteps(ids, i, b) + Schedule(ids[Min(i + b, |ids|)..], b) == Schedule(ids, b)
  {
    var rest, hi := ids[i..], Min(i + b, |ids|);
    if i + b < |ids| {
      assert rest[..b] == ids[i..hi] && rest[b..] == ids[i + b..];
    } else {
      assert ids[i..hi] == rest && ids[hi..] == [];
    }
    assert BatchSteps(ids, i, b) + Schedule(ids[hi..], b) == Schedule(rest, b);
    assert steps + (BatchSteps(ids, i, b) + Schedule(ids[hi..], b)) == Schedule(ids, b);
  }

  /**
   * One pass of the outer loop of `batch_send`: the batch from `lo` is
   * sent, each send that raised counts as an error and every other one as
   * a success, and the batch is followed by a pause when recipients
   * remain.
   */
  method SendBatch(ids: seq<int>, raised: seq<bool>, b: nat, lo: int, steps0: seq<Step>, successful0: nat, errors0: nat)
    returns (steps: seq<Step>, successful: nat, errors: nat)
    requires |raised| == |ids| && b > 0 && 0 <= lo < |ids|
    requires steps0 + Schedule(ids[lo..], b) == Schedule(ids, b)
    requires errors0 == CountTrue(raised[..lo]) && successful0 + errors0 == lo
    ensures var hi := Min(lo + b, |ids|);
      && steps + Schedule(ids[hi..], b) == Schedule(ids, b)
      && errors == CountTrue(raised[..hi]) && successful + errors == hi
  {
    var hi := Min(lo + b, |ids|);
    successful, errors := successful0, errors0;
    var k := lo;
    while k < hi
      invariant lo <= k <= hi
      invariant errors == CountTrue(raised[..k])
      invariant successful + errors == k
    {
      CountTrueStep(raised, k);
      if raised[k] {
        errors := errors + 1;
      } else {
        successful := successful + 1;
      }
      k := k + 1;
    }
    ScheduleFrom(ids, steps0, lo, b);
    steps := steps0 + BatchSteps(ids, lo, b);
  }

  /**
   * `batch_send`. `raised[k]` says whether the send to `ids[k]` raised.
   * A batch size of None takes the configured default; a batch size of
   * zero is Python's ValueError from `range` (None); a negative one makes
   * the loop empty.
   */
  method BatchSend(ids: seq<int>, raised: seq<bool>, batchSize: Option<int>) returns (r: Option<BatchRun>)
    requires |raised| == |ids|
    ensures var b := batchSize.GetOr(BATCH_SIZE);
      && (r.None? <==> b == 0)
      && (b < 0 ==> r == Some(BatchRun(0, 0, [])))
      && (b > 0 ==> r == Some(BatchRun(|ids| - CountTrue(raised), CountTrue(raised), Schedule(ids, b))))
  {
    var b := batchSize.GetOr(BATCH_SIZE);
    if b == 0 {
      return None;
    }
    if b < 0 {
      return Some(BatchRun(0, 0, []));
    }
    var n := |ids|;
    var successful, errors := 0, 0;
    var steps: seq<Step> := [];
    var i := 0;
    while i < n
      invariant 0 <= i
      invariant steps + Schedule(ids[Min(i, n)..], b) == Schedule(ids, b)
      invariant errors == CountTrue(raised[..Min(i, n)])
      invariant successful + errors == Min(i, n)
      decreases n - i
    {
      steps, successful, errors := SendBatch(ids, raised, b, i, steps, successful, errors);
      i := i + b;
    }
    assert Min(i, n) == n;
    assert errors == CountTrue(raised) by { assert raised[..n] == raised; }
    assert steps == Schedule(ids, b) by { assert ids[n..] == [] && steps + [] == steps; }
    return Some(BatchRun(successful, errors, steps));
  }

  /** The batches hand every recipient to the sender exactly once, in order. */
  lemma {:induction false} ScheduleCoversAll(ids: seq<int>, b: nat)
    requires b > 0
    ensures Recipients(Schedule(ids, b)) == ids
    decreases |ids|
  {
    if |ids| > b {
      var head, tail := [Dispatch(ids[..b]), Pause], Schedule(ids[b..], b);
      assert Recipients(Schedule(ids, b)) == ids[..b] + Recipients(tail) by {
        assert Schedule(ids, b) == head + tail;
        RecipientsConcat(head, tail);
        assert Recipients(head) == ids[..b] + Recipients([Pause]);
      }
      assert Recipients(tail) == ids[b..] by { ScheduleCoversAll(ids[b..], b); }
      assert ids[..b] + ids[b..] == ids;
    } else if ids != [] {
      assert Recipients([Dispatch(ids)]) == ids + Recipients([]);
    }
  }

  /**
   * Every batch holds between 1 and `b` recipients, and all but the last
   * hold exactly `b`; dispatches and pauses alternate, starting and ending
   * with a dispatch.
   */
  lemma {:induction false} ScheduleShape(ids: seq<int>, b: nat)
    requires b > 0
    ensures var s := Schedule(ids, b);
      && (ids == [] <==> s == [])
      && (forall j :: 0 <= j < |s| ==> (j % 2 == 0 <==> s[j].Dispatch?))
      && (forall j :: 0 <= j < |s| && s[j].Dispatch? ==> 0 < |s[j].batch| <= b)
      && (forall j :: 0 <= j < |s| - 1 && s[j].Dispatch? ==> |s[j].batch| == b)
      && (s != [] ==> s[|s| - 1].Dispatch?)
    decreases |ids|
  {
    if |ids| > b {
      ScheduleShape(ids[b..], b);
      var t := Schedule(ids[b..], b);
      var s := Schedule(ids, b);
      assert s == [Dispatch(ids[..b]), Pause] + t;
      forall j | 2 <= j < |s|
        ensures s[j] == t[j - 2]
      {
      }
    }
  }

  /**
   * The number of batches is ceil(N/B), the least `d` with N <= d * B,
   * and there is one pause fewer than batches (none for an empty list):
   * no pause follows the last batch.
   */
  lemma {:induction false} SchedulePauseCount(ids: seq<int>, b: nat)
    requires b > 0
    ensures var d := Dispatches(Schedule(ids, b));
      && (ids == [] ==> d == 0)
      && (ids != [] ==> (d - 1) * b < |ids| <= d * b)
    ensures Pauses(Schedule(ids, b)) == if ids == [] then 0 else Dispatches(Schedule(ids, b)) - 1
    decreases |ids|
  {
    if |ids| > b {
      var head, tail := [Dispatch(ids[..b]), Pause], Schedule(ids[b..], b);
      var d := Dispatches(tail);
      assert Dispatches(Schedule(ids, b)) == d + 1 && Pauses(Schedule(ids, b)) == Pauses(tail) + 1 by {
        assert Schedule(ids, b) == head + tail;
        PausesConcat(head, tail);
        assert Pauses(head) == 1 && Dispatches(head) == 1;
      }
      assert (d - 1) * b < |ids| - b <= d * b && Pauses(tail) == d - 1 by {
        SchedulePauseCount(ids[b..], b);
      }
      assert (d + 1) * b == d * b + b && d * b == (d - 1) * b + b;
    } else if ids != [] {
      assert Dispatches(Schedule(ids, b)) == 1;
    }
  }

  /** With the default configuration, 30 recipients make one batch and no pause; 31 make two and one pause. */
  lemma DefaultBatching(ids: seq<int>)
    requires |ids| == 30 || |ids| == 31
    ensures |ids| == 30 ==> Schedule(ids, BATCH_SIZE) == [Dispatch(ids)]
    ensures |ids| == 31 ==> Dispatches(Schedule(ids, BATCH_SIZE)) == 2 && Pauses(Schedule(ids, BATCH_SIZE)) == 1
  {
    SchedulePauseCount(ids, BATCH_SIZE);
  }

  // ------------------------------------------------------------ single send with retry

  /** The result of `send_message_with_retry`: the returned flag, the attempts made, the one-second waits. */
  datatype RetryRun = RetryRun(sent: bool, attempts: nat, waits: nat)

  /**
   * What the attempt loop does from attempt number `attempt` on, with
   * `maxRetries` retries allowed and `outcome(j)` the result of attempt `j`.
   */
  function RetryFrom(outcome: nat -> Outcome, maxRetries: int, attempt: nat): RetryRun
    decreases if maxRetries + 1 - attempt < 0 then 0 else maxRetries + 1 - attempt
  {
    if attempt >= maxRetries + 1 then RetryRun(false, attempt, attempt)
    else match outcome(attempt)
      case Ok => RetryRun(true, attempt + 1, attempt)
      case OtherError => RetryRun(false, attempt + 1, attempt)
      case ProviderError =>
        if attempt < maxRetries then RetryFrom(outcome, maxRetries, attempt + 1)
        else RetryRun(false, attempt + 1, attempt)
  }

  /**
   * `send_message_with_retry`: tries up to `maxRetries + 1` times (the
   * configured default when None), returns true at the first success,
   * waits one second after a provider error that leaves a retry, and gives
   * up at once on any other error.
   */
  method SendWithRetry(outcome: nat -> Outcome, maxRetries: Option<int>) returns (r: RetryRun)
    ensures r == RetryFrom(outcome, maxRetries.GetOr(MAX_RETRIES), 0)
  {
    var m := maxRetries.GetOr(MAX_RETRIES);
    var attempt := 0;
    var waits := 0;
    while attempt < m + 1
      invariant 0 <= attempt && waits == attempt
      invariant RetryFrom(outcome, m, attempt) == RetryFrom(outcome, m, 0)
      invariant attempt > 0 ==> attempt <= m
      decreases m + 1 - attempt
    {
      match outcome(attempt)
      case Ok =>
        return RetryRun(true, attempt + 1, waits);
      case OtherError =>
        return RetryRun(false, attempt + 1, waits);
      case ProviderError =>
        if attempt < m {
          waits := waits + 1;
        } else {
          return RetryRun(false, attempt + 1, waits);
        }
      attempt := attempt + 1;
    }
    return RetryRun(false, attempt, waits);
  }

  /**
   * The attempt loop makes at most `maxRetries + 1` attempts (none when the
   * budget is negative) and waits exactly once between consecutive attempts.
   */
  lemma {:induction false} RetryBounds(outcome: nat -> Outcome, maxRetries: int, attempt: nat)
    requires attempt <= maxRetries + 1
    ensures var r := RetryFrom(outcome, maxRetries, attempt);
      && attempt <= r.attempts <= maxRetries + 1
      && (attempt < maxRetries + 1 ==> r.attempts > attempt)
      && (r.attempts > attempt ==> r.waits + 1 == r.attempts)
      && (r.attempts == attempt ==> r.waits == attempt)
    decreases maxRetries + 1 - attempt
  {
    if attempt < maxRetries + 1 && outcome(attempt).ProviderError? && attempt < maxRetries {
      RetryBounds(outcome, maxRetries, attempt + 1);
    }
  }

  /** Attempts numbered below `k` all met a provider error. */
  ghost predicate TransientUpTo(outcome: nat -> Outcome, k: nat) {
    forall j: nat :: j < k ==> outcome(j) == ProviderError
  }

  /**
   * The call returns true exactly when some attempt `k <= maxRetries`
   * succeeds after `k` provider errors; it then stops after that attempt.
   */
  lemma {:induction false} RetrySucceedsIff(outcome: nat -> Outcome, maxRetries: int, attempt: nat)
    requires TransientUpTo(outcome, attempt)
    ensures var r := RetryFrom(outcome, maxRetries, attempt);
      r.sent <==> exists k: nat :: attempt <= k <= maxRetries && TransientUpTo(outcome, k) && outcome(k) == Ok
    ensures var r := RetryFrom(outcome, maxRetries, attempt);
      r.sent ==> r.attempts > 0 && outcome(r.attempts - 1) == Ok && TransientUpTo(outcome, r.attempts - 1)
    decreases if maxRetries + 1 - attempt < 0 then 0 else maxRetries + 1 - attempt
  {
    var r := RetryFrom(outcome, maxRetries, attempt);
    if attempt >= maxRetries + 1 {
    } else if outcome(attempt) == Ok {
      assert TransientUpTo(outcome, attempt) && outcome(attempt) == Ok;
    } else if outcome(attempt) == OtherError {
      forall k: nat | attempt <= k <= maxRetries && TransientUpTo(outcome, k)
        ensures outcome(k) != Ok
      {
        assert k > attempt ==> outcome(attempt) == ProviderError;
      }
    } else if attempt < maxRetries {
      assert TransientUpTo(outcome, attempt + 1);
      RetrySucceedsIff(outcome, maxRetries, attempt + 1);
      if r.sent {
        var k: nat :| attempt + 1 <= k <= maxRetries && TransientUpTo(outcome, k) && outcome(k) == Ok;
      }
    } else {
      forall k: nat | attempt <= k <= maxRetries && TransientUpTo(outcome, k)
        ensures outcome(k) != Ok
      {
      }
    }
  }

  /** With the default of one retry, a message costs at most two attempts and one wait. */
  lemma DefaultRetryBudget(outcome: nat -> Outcome)
    ensures RetryFrom(outcome, MAX_RETRIES, 0).attempts <= 2
    ensures RetryFrom(outcome, MAX_RETRIES, 0).waits <= 1
  {
    RetryBounds(outcome, MAX_RETRIES, 0);
  }

  /**
   * An error that is not the provider's ends the call on the spot, whatever
   * follows: after provider errors on attempts `attempt` to `k - 1`, an
   * other error on attempt `k` (within the budget) returns false after
   * `k + 1` attempts and `k` waits.
   */
  lemma {:induction false} OtherErrorStops(outcome: nat -> Outcome, maxRetries: int, attempt: nat, k: nat)
    requires attempt <= k <= maxRetries
    requires forall j: nat :: attempt <= j < k ==> outcome(j) == ProviderError
    requires outcome(k) == OtherError
    ensures RetryFrom(outcome, maxRetries, attempt) == RetryRun(false, k + 1, k)
    decreases k - attempt
  {
    if attempt < k {
      OtherErrorStops(outcome, maxRetries, attempt + 1, k);
    }
  }
}
