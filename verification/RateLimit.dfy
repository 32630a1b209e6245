/** In-process sliding-window rate limiter.

    A call is admitted when fewer than `maxRequests` admitted calls of the same key lie in the
    closed window that ends at the call.  The limiter keeps, per key, only the admissions that can
    still matter; the full run of calls and answers is ghost.

    Calls are atomic and the clock of a key never runs backwards. */
module RateLimit {

  /** The clock of a key never runs backwards. */
  ghost predicate Sorted(calls: seq<real>) {
    forall i, j :: 0 <= i < j < |calls| ==> calls[i] <= calls[j]
  }

  // An admission choice says, call by call, who is let through.

  /** How many of the first `n` calls are let through. */
  ghost function Total(choice: seq<bool>, n: nat): nat
    requires n <= |choice|
  {
    if n == 0 then 0 else Total(choice, n - 1) + (if choice[n - 1] then 1 else 0)
  }

  /** How many of the first `n` calls are let through in the closed window of length `window` from `lo`. */
  ghost function Load(calls: seq<real>, choice: seq<bool>, lo: real, window: real, n: nat): nat
    requires n <= |calls| && n <= |choice|
  {
    if n == 0 then 0
    else Load(calls, choice, lo, window, n - 1) + (if choice[n - 1] && lo <= calls[n - 1] <= lo + window then 1 else 0)
  }

  /** The times, in order, of those of the first `n` calls that are let through. */
  ghost function Times(calls: seq<real>, choice: seq<bool>, n: nat): seq<real>
    requires n <= |calls| && n <= |choice|
  {
    if n == 0 then []
    else Times(calls, choice, n - 1) + (if choice[n - 1] then [calls[n - 1]] else [])
  }

  /** The same, restricted to times at or after `cutoff`. */
  ghost function TimesSince(calls: seq<real>, choice: seq<bool>, cutoff: real, n: nat): seq<real>
    requires n <= |calls| && n <= |choice|
  {
    if n == 0 then []
    else TimesSince(calls, choice, cutoff, n - 1)
         + (if choice[n - 1] && calls[n - 1] >= cutoff then [calls[n - 1]] else [])
  }

  /** No closed window of length `window` holds more than `max` admitted calls. */
  ghost predicate Respects(calls: seq<real>, choice: seq<bool>, max: int, window: real) {
    && |choice| == |calls|
    && forall lo: real :: Load(calls, choice, lo, window, |calls|) <= max
  }

  /** The rule of the limiter for call `n`, judged against the full history: it is let through exactly
      when fewer than `max` admitted earlier calls lie at or after `now - window`. */
  ghost predicate RuleAt(calls: seq<real>, answers: seq<bool>, max: int, window: real, n: nat)
    requires n < |calls| == |answers|
  {
    answers[n] <==> |TimesSince(calls, answers, calls[n] - window, n)| < max
  }

  ghost predicate Follows(calls: seq<real>, answers: seq<bool>, max: int, window: real) {
    && |answers| == |calls|
    && forall n :: 0 <= n < |calls| ==> RuleAt(calls, answers, max, window, n)
  }

  // ----- counting -----

  lemma {:induction false} LoadMonotone(calls: seq<real>, choice: seq<bool>, lo: real, window: real, m: nat, n: nat)
    requires m <= n <= |calls| && n <= |choice|
    ensures Load(calls, choice, lo, window, m) <= Load(calls, choice, lo, window, n)
    decreases n
  {
    if m < n {
      LoadMonotone(calls, choice, lo, window, m, n - 1);
    }
  }

  /** The window that ends at a call sees no more admissions than there are since its start. */
  lemma {:induction false} LoadWithinSince(calls: seq<real>, choice: seq<bool>, lo: real, window: real, cutoff: real, n: nat)
    requires n <= |calls| && n <= |choice| && cutoff <= lo
    ensures Load(calls, choice, lo, window, n) <= |TimesSince(calls, choice, cutoff, n)|
  {
    if n > 0 {
      LoadWithinSince(calls, choice, lo, window, cutoff, n - 1);
    }
  }

  /** Calls before index `m` lie before `cutoff`, the others between `cutoff` and `cutoff + window`:
      everything counted since `cutoff` is what the choice lets through from `m` on. */
  lemma {:induction false} SinceSplit(calls: seq<real>, choice: seq<bool>, cutoff: real, window: real, m: nat, n: nat)
    requires m <= n <= |calls| && n <= |choice|
    requires forall i :: 0 <= i < m ==> calls[i] < cutoff
    requires forall i :: m <= i < n ==> cutoff <= calls[i] <= cutoff + window
    ensures Total(choice, n) == Total(choice, m) + |TimesSince(calls, choice, cutoff, n)|
    ensures Load(calls, choice, cutoff, window, n) == |TimesSince(calls, choice, cutoff, n)|
    decreases n
  {
    if m < n {
      SinceSplit(calls, choice, cutoff, window, m, n - 1);
    } else if n > 0 {
      SinceSplit(calls, choice, cutoff, window, n - 1, n - 1);
    }
  }

  lemma SplitExists(calls: seq<real>, cutoff: real) returns (m: nat)
    requires Sorted(calls)
    ensures m <= |calls|
    ensures forall i :: 0 <= i < m ==> calls[i] < cutoff
    ensures forall i :: m <= i < |calls| ==> calls[i] >= cutoff
  {
    m := 0;
    while m < |calls| && calls[m] < cutoff
      invariant m <= |calls| && forall i :: 0 <= i < m ==> calls[i] < cutoff
    {
      m := m + 1;
    }
  }

  // ----- guarantees over whole runs -----

  /** No closed window ever holds more than `max` admissions. */
  lemma {:induction false} NeverExceeds(calls: seq<real>, answers: seq<bool>, max: int, window: real)
    requires max >= 0
    requires Follows(calls, answers, max, window)
    ensures Respects(calls, answers, max, window)
  {
    forall lo: real
      ensures Load(calls, answers, lo, window, |calls|) <= max
    {
      LoadBounded(calls, answers, max, window, lo, |calls|);
    }
  }

  lemma {:induction false} LoadBounded(calls: seq<real>, answers: seq<bool>, max: int, window: real, lo: real, n: nat)
    requires max >= 0 && n <= |calls|
    requires Follows(calls, answers, max, window)
    ensures Load(calls, answers, lo, window, n) <= max
  {
    if n > 0 {
      LoadBounded(calls, answers, max, window, lo, n - 1);
      assert RuleAt(calls, answers, max, window, n - 1);
      if answers[n - 1] && lo <= calls[n - 1] <= lo + window {
        LoadWithinSince(calls, answers, lo, window, calls[n - 1] - window, n - 1);
      }
    }
  }

  /** The limiter is maximal: at every moment of a run it has let through at least as many calls as
      any choice that keeps every window within the limit.  A zero limit with a negative window is
      the one configuration where this fails, see `NegativeWindowNotMaximal`. */
  lemma {:induction false} Maximal(calls: seq<real>, answers: seq<bool>, choice: seq<bool>, max: int, window: real, n: nat)
    requires window >= 0.0 || max != 0
    requires Sorted(calls) && n <= |calls|
    requires Follows(calls, answers, max, window) && Respects(calls, choice, max, window)
    ensures Total(choice, n) <= Total(answers, n)
  {
    if n > 0 {
      var now := calls[n - 1];
      var cutoff := now - window;
      Maximal(calls, answers, choice, max, window, n - 1);
      assert RuleAt(calls, answers, max, window, n - 1);
      if choice[n - 1] && !answers[n - 1] {
        var m := SplitExists(calls, cutoff);
        assert Load(calls, choice, cutoff, window, |calls|) <= max;
        if m < n {
          SinceSplit(calls, answers, cutoff, window, m, n - 1);
          SinceSplit(calls, choice, cutoff, window, m, n);
          LoadMonotone(calls, choice, cutoff, window, n, |calls|);
          Maximal(calls, answers, choice, max, window, m);
        } else {
          SinceSplit(calls, answers, cutoff, window, n - 1, n - 1);
        }
      }
    }
  }

  /** Exchange form: the i-th admitted call is never later than the i-th call of a valid choice. */
  lemma {:induction false} NeverLater(calls: seq<real>, answers: seq<bool>, choice: seq<bool>, max: int, window: real, i: nat)
    requires window >= 0.0 || max != 0
    requires Sorted(calls)
    requires Follows(calls, answers, max, window) && Respects(calls, choice, max, window)
    requires i < Total(choice, |calls|)
    ensures i < |Times(calls, answers, |calls|)| && i < |Times(calls, choice, |calls|)|
    ensures Times(calls, answers, |calls|)[i] <= Times(calls, choice, |calls|)[i]
  {
    var n := MomentOf(calls, choice, i, |calls|);
    Maximal(calls, answers, choice, max, window, n);
    TimesPrefix(calls, answers, n, |calls|);
    TimesBounded(calls, answers, n);
  }

  /** The moment at which a choice lets its i-th call through. */
  lemma {:induction false} MomentOf(calls: seq<real>, choice: seq<bool>, i: nat, n: nat) returns (k: nat)
    requires n <= |calls| && n <= |choice| && i < Total(choice, n)
    ensures 0 < k <= n && Total(choice, k) == i + 1
    ensures i < |Times(calls, choice, n)| && Times(calls, choice, n)[i] == calls[k - 1]
  {
    TimesBounded(calls, choice, n - 1);
    if i < Total(choice, n - 1) {
      k := MomentOf(calls, choice, i, n - 1);
    } else {
      k := n;
    }
  }

  lemma {:induction false} TimesBounded(calls: seq<real>, choice: seq<bool>, n: nat)
    requires n <= |calls| && n <= |choice|
    ensures |Times(calls, choice, n)| == Total(choice, n)
    ensures Sorted(calls) ==> forall i :: 0 <= i < |Times(calls, choice, n)| ==> Times(calls, choice, n)[i] <= calls[n - 1]
  {
    if n > 0 {
      TimesBounded(calls, choice, n - 1);
    }
  }

  lemma {:induction false} TimesPrefix(calls: seq<real>, choice: seq<bool>, m: nat, n: nat)
    requires m <= n <= |calls| && n <= |choice|
    ensures Times(calls, choice, m) <= Times(calls, choice, n)
    decreases n
  {
    if m < n {
      TimesPrefix(calls, choice, m, n - 1);
    }
  }

  /** With a limit of zero and a negative window every window is empty, so a choice may admit what
      the limiter refuses. */
  lemma NegativeWindowNotMaximal(window: real)
    requires window < 0.0
    ensures Respects([0.0], [true], 0, window) && Follows([0.0], [false], 0, window)
    ensures Total([true], 1) > Total([false], 1)
  {
  }

  // ----- the limiter -----

  /** What the pruning loop leaves: everything from the first time at or after the cutoff. */
  ghost function Dropped(bucket: seq<real>, cutoff: real): seq<real> {
    if bucket != [] && bucket[0] < cutoff then Dropped(bucket[1..], cutoff) else bucket
  }

  /** It is an end of the bucket, starts at or after the cutoff, and what is gone lies before it. */
  lemma {:induction false} DroppedIsEnd(bucket: seq<real>, cutoff: real)
    ensures var kept := Dropped(bucket, cutoff);
            && |kept| <= |bucket| && kept == bucket[|bucket| - |kept|..]
            && (kept != [] ==> kept[0] >= cutoff)
            && forall i :: 0 <= i < |bucket| - |kept| ==> bucket[i] < cutoff
  {
    if bucket != [] && bucket[0] < cutoff {
      DroppedIsEnd(bucket[1..], cutoff);
    }
  }

  lemma {:induction false} DroppedAppend(bucket: seq<real>, time: real, cutoff: real)
    ensures Dropped(bucket + [time], cutoff)
         == if Dropped(bucket, cutoff) == [] && time < cutoff then [] else Dropped(bucket, cutoff) + [time]
  {
    if bucket == [] {
      assert [] + [time] == [time] && [time][1..] == [];
    } else if bucket[0] < cutoff {
      assert (bucket + [time])[1..] == bucket[1..] + [time];
      DroppedAppend(bucket[1..], time, cutoff);
    }
  }

  /** Times since a cutoff lie between the cutoff and the last call. */
  lemma {:induction false} SinceBounded(calls: seq<real>, choice: seq<bool>, cutoff: real, n: nat)
    requires Sorted(calls) && n <= |calls| && n <= |choice|
    ensures forall i :: 0 <= i < |TimesSince(calls, choice, cutoff, n)| ==> cutoff <= TimesSince(calls, choice, cutoff, n)[i] <= calls[n - 1]
  {
    if n > 0 {
      SinceBounded(calls, choice, cutoff, n - 1);
    }
  }

  /** Dropping with a later cutoff leaves the times since that cutoff. */
  lemma {:induction false} SinceDropped(calls: seq<real>, choice: seq<bool>, earlier: real, cutoff: real, n: nat)
    requires Sorted(calls) && n <= |calls| && n <= |choice| && earlier <= cutoff
    ensures Dropped(TimesSince(calls, choice, earlier, n), cutoff) == TimesSince(calls, choice, cutoff, n)
  {
    if n > 0 {
      SinceDropped(calls, choice, earlier, cutoff, n - 1);
      if choice[n - 1] && calls[n - 1] >= earlier {
        LastDropped(calls, choice, TimesSince(calls, choice, earlier, n - 1), cutoff, n);
      } else {
        assert TimesSince(calls, choice, earlier, n) == TimesSince(calls, choice, earlier, n - 1);
        assert TimesSince(calls, choice, cutoff, n) == TimesSince(calls, choice, cutoff, n - 1);
      }
    }
  }

  lemma {:induction false} LastDropped(calls: seq<real>, choice: seq<bool>, bucket: seq<real>, cutoff: real, n: nat)
    requires Sorted(calls) && 0 < n <= |calls| && n <= |choice| && choice[n - 1]
    requires Dropped(bucket, cutoff) == TimesSince(calls, choice, cutoff, n - 1)
    ensures Dropped(bucket + [calls[n - 1]], cutoff) == TimesSince(calls, choice, cutoff, n)
  {
    DroppedAppend(bucket, calls[n - 1], cutoff);
    SinceBounded(calls, choice, cutoff, n - 1);
    var since := TimesSince(calls, choice, cutoff, n - 1);
    if since != [] {
      assert cutoff <= since[0] <= calls[n - 2] <= calls[n - 1];
    }
  }

  // ----- what the bucket of a key holds -----

  /** Everything that has happened on a key: the call times and the answers given. */
  datatype Run = Run(calls: seq<real>, answers: seq<bool>)

  /** The bucket that the last call of a run has left: what that call could see, and itself if it was admitted. */
  ghost function Left(run: Run, window: real): seq<real>
    requires run.calls != [] && |run.calls| == |run.answers|
  {
    var last := |run.calls| - 1;
    AfterCall(TimesSince(run.calls, run.answers, run.calls[last] - window, last), run.calls[last], run.answers[last])
  }

  ghost function AfterCall(visible: seq<real>, now: real, ok: bool): seq<real> {
    if ok then visible + [now] else visible
  }

  /** The admissions of a run that a call can still see. */
  ghost function Visible(run: Run, cutoff: real): seq<real>
    requires |run.calls| == |run.answers|
  {
    TimesSince(run.calls, run.answers, cutoff, |run.calls|)
  }

  /** Pruning the bucket that a run has left gives exactly what the next call can see of the whole run. */
  lemma {:induction false} PrunedIsRecent(run: Run, window: real, cutoff: real)
    requires run.calls != [] && |run.calls| == |run.answers| && Sorted(run.calls)
    requires run.calls[|run.calls| - 1] - window <= cutoff
    ensures Dropped(Left(run, window), cutoff) == Visible(run, cutoff)
  {
    var last := |run.calls| - 1;
    var cutoff' := run.calls[last] - window;
    SinceDropped(run.calls, run.answers, cutoff', cutoff, last);
    if run.answers[last] {
      LastDropped(run.calls, run.answers, TimesSince(run.calls, run.answers, cutoff', last), cutoff, last + 1);
    }
  }

  /** What happens later does not change the history. */
  lemma {:induction false} HistoryFrame(calls: seq<real>, choice: seq<bool>, now: real, ok: bool, cutoff: real, n: nat)
    requires |choice| == |calls| && n <= |calls|
    ensures Times(calls + [now], choice + [ok], n) == Times(calls, choice, n)
    ensures TimesSince(calls + [now], choice + [ok], cutoff, n) == TimesSince(calls, choice, cutoff, n)
  {
    if n > 0 {
      HistoryFrame(calls, choice, now, ok, cutoff, n - 1);
    }
  }

  /** An answer given by the rule extends a run that follows the rule. */
  lemma {:induction false} FollowsStep(calls: seq<real>, answers: seq<bool>, now: real, ok: bool, max: int, window: real)
    requires Follows(calls, answers, max, window)
    requires ok <==> |TimesSince(calls, answers, now - window, |calls|)| < max
    ensures Follows(calls + [now], answers + [ok], max, window)
  {
    var calls', answers' := calls + [now], answers + [ok];
    forall n | 0 <= n < |calls'|
      ensures RuleAt(calls', answers', max, window, n)
    {
      assert n < |calls| ==> RuleAt(calls, answers, max, window, n);
      HistoryFrame(calls, answers, now, ok, calls'[n] - window, n);
    }
  }

  ghost function Extended(run: Run, now: real, ok: bool): Run {
    Run(run.calls + [now], run.answers + [ok])
  }

  /** The run of a key obeys the rule, and the bucket is what it has left. */
  ghost predicate KeyState(bucket: seq<real>, run: Run, max: int, window: real) {
    run.calls != [] && Sorted(run.calls) && Follows(run.calls, run.answers, max, window) && bucket == Left(run, window)
  }

  ghost predicate NotBefore(run: Run, now: real) {
    run.calls != [] ==> run.calls[|run.calls| - 1] <= now
  }

  lemma {:induction false} SortedAppend(calls: seq<real>, now: real)
    requires Sorted(calls) && (calls != [] ==> calls[|calls| - 1] <= now)
    ensures Sorted(calls + [now])
  {
  }

  lemma {:induction false} LeftExtended(run: Run, now: real, ok: bool, window: real)
    requires |run.calls| == |run.answers|
    ensures Left(Extended(run, now, ok), window) == AfterCall(Visible(run, now - window), now, ok)
  {
    HistoryFrame(run.calls, run.answers, now, ok, now - window, |run.calls|);
  }

  lemma {:induction false} StateAfterCall(run: Run, now: real, max: int, window: real)
    requires Sorted(run.calls) && Follows(run.calls, run.answers, max, window) && NotBefore(run, now)
    ensures var ok := |Visible(run, now - window)| < max;
            KeyState(AfterCall(Visible(run, now - window), now, ok), Extended(run, now, ok), max, window)
  {
    var ok := |Visible(run, now - window)| < max;
    SortedAppend(run.calls, now);
    FollowsStep(run.calls, run.answers, now, ok, max, window);
    LeftExtended(run, now, ok, window);
  }

  /** One call, seen from the stored bucket: pruning gives what the whole run shows, and the state goes on. */
  lemma {:induction false} CallOutcome(bucket: seq<real>, run: Run, now: real, max: int, window: real)
    requires KeyState(bucket, run, max, window) && NotBefore(run, now)
    ensures |run.calls| == |run.answers| && Dropped(bucket, now - window) == Visible(run, now - window)
    ensures var ok := |Visible(run, now - window)| < max;
            KeyState(AfterCall(Visible(run, now - window), now, ok), Extended(run, now, ok), max, window)
  {
    PrunedIsRecent(run, window, now - window);
    StateAfterCall(run, now, max, window);
  }

  lemma {:induction false} FirstCall(now: real, max: int, window: real)
    ensures Visible(Run([], []), now - window) == []
    ensures KeyState(AfterCall([], now, 0 < max), Extended(Run([], []), now, 0 < max), max, window)
  {
    StateAfterCall(Run([], []), now, max, window);
  }

  ghost function RunOf(runs: map<string, Run>, key: string): Run {
    if key in runs then runs[key] else Run([], [])
  }

  function BucketOf(buckets: map<string, seq<real>>, key: string): seq<real> {
    if key in buckets then buckets[key] else []
  }

  ghost predicate Serves(buckets: map<string, seq<real>>, runs: map<string, Run>, max: int, window: real) {
    buckets.Keys == runs.Keys && forall key :: key in buckets ==> KeyState(buckets[key], runs[key], max, window)
  }

  lemma {:induction false} OutcomeOf(buckets: map<string, seq<real>>, runs: map<string, Run>, key: string, now: real, max: int, window: real)
    requires Serves(buckets, runs, max, window) && NotBefore(RunOf(runs, key), now)
    ensures var run := RunOf(runs, key);
            && |run.calls| == |run.answers| && Dropped(BucketOf(buckets, key), now - window) == Visible(run, now - window)
            && var ok := |Visible(run, now - window)| < max;
               KeyState(AfterCall(Visible(run, now - window), now, ok), Extended(run, now, ok), max, window)
  {
    if key in buckets {
      CallOutcome(buckets[key], runs[key], now, max, window);
    } else {
      FirstCall(now, max, window);
    }
  }

  /** One call on one key keeps every key in order: pruning shows exactly the recent admissions of the key, the
      answer follows from them, and no other key is touched. */
  lemma {:induction false} ServesAfterCall(buckets: map<string, seq<real>>, runs: map<string, Run>, key: string, now: real, max: int, window: real)
    requires Serves(buckets, runs, max, window) && NotBefore(RunOf(runs, key), now)
    ensures var run := RunOf(runs, key);
            && |run.calls| == |run.answers| && Dropped(BucketOf(buckets, key), now - window) == Visible(run, now - window)
            && var ok := |Visible(run, now - window)| < max;
               Serves(buckets[key := AfterCall(Visible(run, now - window), now, ok)], runs[key := Extended(run, now, ok)], max, window)
  {
    OutcomeOf(buckets, runs, key, now, max, window);
    var run := RunOf(runs, key);
    var ok := |Visible(run, now - window)| < max;
    StateSet(buckets, runs, key, AfterCall(Visible(run, now - window), now, ok), Extended(run, now, ok), max, window);
  }

  lemma {:induction false} StateSet(buckets: map<string, seq<real>>, runs: map<string, Run>, key: string, bucket: seq<real>, run: Run,
                                    max: int, window: real)
    requires Serves(buckets, runs, max, window) && KeyState(bucket, run, max, window)
    ensures Serves(buckets[key := bucket], runs[key := run], max, window)
  {
    var buckets', runs' := buckets[key := bucket], runs[key := run];
    forall k | k in buckets'
      ensures KeyState(buckets'[k], runs'[k], max, window)
    {
      assert k != key ==> KeyState(buckets[k], runs[k], max, window);
    }
  }

  class SlidingWindowLimiter {
    const maxRequests: int
    const windowSeconds: real
    var buckets: map<string, seq<real>>
    ghost var runs: map<string, Run>

    ghost predicate Valid()
      reads this
    {
      Serves(buckets, runs, maxRequests, windowSeconds)
    }

    constructor (maxRequests: int, windowSeconds: real)
      ensures Valid()
      ensures this.maxRequests == maxRequests && this.windowSeconds == windowSeconds
      ensures buckets == map[] && runs == map[]
    {
      this.maxRequests := maxRequests;
      this.windowSeconds := windowSeconds;
      buckets, runs := map[], map[];
    }

    method Allow(key: string, now: real) returns (ok: bool)
      requires Valid() && NotBefore(RunOf(runs, key), now)
      modifies this
      ensures Valid()
      ensures var run := old(RunOf(runs, key));
              && |run.calls| == |run.answers|
              && (ok <==> |Visible(run, now - windowSeconds)| < maxRequests)
              && runs == old(runs)[key := Extended(run, now, ok)]
              && buckets == old(buckets)[key := AfterCall(Visible(run, now - windowSeconds), now, ok)]
    {
      ghost var run := RunOf(runs, key);
      ServesAfterCall(buckets, runs, key, now, maxRequests, windowSeconds);
      var bucket := Pruned(BucketOf(buckets, key), now - windowSeconds);
      ok := |bucket| < maxRequests;
      if ok {
        bucket := bucket + [now];
      }
      assert bucket == AfterCall(Visible(run, now - windowSeconds), now, ok);
      buckets, runs := buckets[key := bucket], runs[key := Extended(run, now, ok)];
    }

    static method Pruned(bucket: seq<real>, cutoff: real) returns (pruned: seq<real>)
      ensures pruned == Dropped(bucket, cutoff)
    {
      pruned := bucket;
      while |pruned| > 0 && pruned[0] < cutoff
        invariant Dropped(pruned, cutoff) == Dropped(bucket, cutoff)
        decreases |pruned|
      {
        pruned := pruned[1..];
      }
    }
  }
}
