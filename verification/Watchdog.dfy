/**
 The stall watchdog (internal/session/watchdog.go): it samples a frame counter on every tick
 and reports a stall once per episode.
 */
module Watchdog {
  const DEFAULT_THRESHOLD := 5

  /** The greatest of the samples, 0 when there is none. */
  function Peak(s: seq<nat>): nat {
    if s == [] then 0 else
    var p := Peak(s[..|s| - 1]);
    if s[|s| - 1] > p then s[|s| - 1] else p
  }

  /** Tick t brings nothing new although something was seen before it. */
  predicate Stalled(s: seq<nat>, t: nat)
    requires t < |s|
  {
    Peak(s[..t]) > 0 && s[t] <= Peak(s[..t])
  }

  /** The number of stalled ticks in a row just before position i. */
  function Streak(s: seq<nat>, i: nat): (n: nat)
    requires i <= |s|
    ensures n <= i
  {
    if i == 0 || !Stalled(s, i - 1) then 0 else 1 + Streak(s, i - 1)
  }

  /** The ticks up to position i at which a streak reaches the threshold. */
  function Fires(s: seq<nat>, threshold: nat, i: nat): seq<nat>
    requires i <= |s|
  {
    if i == 0 then [] else
    Fires(s, threshold, i - 1) + if Streak(s, i) == threshold then [i - 1] else []
  }

  function Effective(threshold: int): (n: nat)
    ensures n > 0
  {
    if threshold <= 0 then DEFAULT_THRESHOLD else threshold
  }

  lemma PeakSnoc(s: seq<nat>, i: nat)
    requires i < |s|
    ensures Peak(s[..i + 1]) == if s[i] > Peak(s[..i]) then s[i] else Peak(s[..i])
  {
    assert s[..i + 1][..i] == s[..i];
  }

  /** The watchdog's loop over the samples of its ticks; it returns the ticks of its calls. */
  method Run(samples: seq<nat>, threshold: int) returns (stalls: seq<nat>)
    ensures stalls == Fires(samples, if threshold <= 0 then 5 else threshold, |samples|)
  {
    var limit := Effective(threshold);
    var last, misses, started, fired := 0, 0, false, false;
    stalls := [];
    for i := 0 to |samples|
      invariant started == (Peak(samples[..i]) > 0)
      invariant started ==> last == Peak(samples[..i])
      invariant started || (misses == 0 && !fired && Streak(samples, i) == 0)
      invariant if fired then misses == 0 && Streak(samples, i) >= limit
                else misses == Streak(samples, i) < limit
      invariant stalls == Fires(samples, limit, i)
    {
      PeakSnoc(samples, i);
      var cur := samples[i];
      if !started {
        if cur == 0 {
          continue;
        }
        started := true;
        last := cur;
        misses := 0;
        continue;
      }
      if cur > last {
        last := cur;
        misses := 0;
        fired := false;
        continue;
      }
      if fired {
        continue;
      }
      misses := misses + 1;
      if misses >= limit {
        stalls := stalls + [i];
        misses := 0;
        fired := true;
      }
    }
  }

  // ---------------------------------------------------------------- exactness

  lemma {:induction false} PeakIs(s: seq<nat>)
    ensures forall i | 0 <= i < |s| :: s[i] <= Peak(s)
    ensures Peak(s) == 0 || Peak(s) in s
    decreases |s|
  {
    if s != [] {
      var n := |s| - 1;
      PeakIs(s[..n]);
      assert forall i | 0 <= i < n :: s[..n][i] == s[i];
    }
  }

  /** A tick is stalled when the counter has been above zero before and has stood as high already. */
  lemma StalledIs(s: seq<nat>, t: nat)
    requires t < |s|
    ensures Stalled(s, t) <==> (exists i | 0 <= i < t :: s[i] > 0) && (exists i | 0 <= i < t :: s[i] >= s[t])
  {
    PeakIs(s[..t]);
    assert forall i | 0 <= i < t :: s[..t][i] == s[i];
  }

  /** A maximal run of stalled ticks begins at r and has at least threshold ticks. */
  ghost predicate LongRun(s: seq<nat>, threshold: nat, r: nat) {
    && 0 < r && r + threshold <= |s|
    && !Stalled(s, r - 1)
    && forall k | r <= k < r + threshold :: Stalled(s, k)
  }

  /** Tick t is the threshold-th of such a run. */
  ghost predicate Completes(s: seq<nat>, threshold: nat, t: nat) {
    threshold <= t + 1 && LongRun(s, threshold, t + 1 - threshold)
  }

  lemma {:induction false} StreakCovers(s: seq<nat>, i: nat, n: nat)
    requires n <= i <= |s|
    ensures Streak(s, i) >= n <==> forall k | i - n <= k < i :: Stalled(s, k)
    decreases n
  {
    if n > 0 {
      StreakCovers(s, i - 1, n - 1);
      assert Stalled(s, i - 1) ==> Streak(s, i) == 1 + Streak(s, i - 1);
    }
  }

  /** A streak reaches the threshold on the threshold-th tick of a long run and nowhere else. */
  lemma StreakIsLongRun(s: seq<nat>, threshold: nat, t: nat)
    requires 0 < threshold && t < |s|
    ensures Streak(s, t + 1) == threshold <==> Completes(s, threshold, t)
  {
    var i := t + 1;
    if threshold <= i {
      StreakCovers(s, i, threshold);
      if threshold < i {
        StreakCovers(s, i, threshold + 1);
      } else {
        assert s[..0] == [];
        assert !Stalled(s, 0);
      }
    }
  }

  ghost predicate Rising(a: seq<int>) {
    forall i, j | 0 <= i < j < |a| :: a[i] < a[j]
  }

  lemma {:induction false} FiresOnly(s: seq<nat>, threshold: nat, i: nat)
    requires i <= |s|
    ensures forall t: nat :: t in Fires(s, threshold, i) <==> t < i && Streak(s, t + 1) == threshold
    ensures Rising(Fires(s, threshold, i))
  {
    if i > 0 {
      FiresOnly(s, threshold, i - 1);
      var before := Fires(s, threshold, i - 1);
      assert forall a | 0 <= a < |before| :: before[a] in before;
    }
  }

  /** The stall callback runs on tick t exactly when a maximal run of non-advancing ticks reaches
      the threshold there, and once for each such run. */
  lemma FiresExactly(s: seq<nat>, threshold: nat)
    requires threshold > 0
    ensures var f := Fires(s, threshold, |s|);
            && (forall t: nat :: t in f <==> Completes(s, threshold, t))
            && Rising(f)
  {
    FiresOnly(s, threshold, |s|);
    forall t: nat ensures t in Fires(s, threshold, |s|) <==> Completes(s, threshold, t) {
      if t < |s| {
        StreakIsLongRun(s, threshold, t);
      }
    }
  }

  /** Where the runs reported by f begin. */
  function Starts(f: seq<nat>, threshold: nat): (a: seq<int>)
    ensures |a| == |f| && forall k | 0 <= k < |f| :: a[k] == f[k] + 1 - threshold
  {
    seq(|f|, k requires 0 <= k < |f| => f[k] + 1 - threshold)
  }

  lemma StartsAreLongRuns(s: seq<nat>, threshold: nat, f: seq<nat>, r: int)
    requires threshold > 0 && forall t: nat :: t in f <==> Completes(s, threshold, t)
    ensures r in Starts(f, threshold) <==> 0 <= r < |s| && LongRun(s, threshold, r)
  {
    var starts := Starts(f, threshold);
    if r in starts {
      var k :| 0 <= k < |f| && starts[k] == r;
      assert Completes(s, threshold, f[k]);
    }
    if 0 <= r && LongRun(s, threshold, r) {
      assert Completes(s, threshold, r + threshold - 1);
      var k :| 0 <= k < |f| && f[k] == r + threshold - 1;
      assert starts[k] == r;
    }
  }

  /** So the number of calls is the number of long runs. */
  lemma FireCount(s: seq<nat>, threshold: nat)
    requires threshold > 0
    ensures |Fires(s, threshold, |s|)| == |set r | 0 <= r < |s| && LongRun(s, threshold, r)|
  {
    var f := Fires(s, threshold, |s|);
    var starts := Starts(f, threshold);
    FiresExactly(s, threshold);
    forall r: int ensures r in starts <==> 0 <= r < |s| && LongRun(s, threshold, r) {
      StartsAreLongRuns(s, threshold, f, r);
    }
    forall i, j | 0 <= i < j < |starts| ensures starts[i] < starts[j] {
      assert f[i] < f[j];
    }
    DistinctCount(starts);
    assert (set r | r in starts) == set r | 0 <= r < |s| && LongRun(s, threshold, r);
  }

  lemma {:induction false} DistinctCount(a: seq<int>)
    requires Rising(a)
    ensures |set x | x in a| == |a|
    decreases |a|
  {
    if a != [] {
      var n := |a| - 1;
      DistinctCount(a[..n]);
      assert (set x | x in a) == (set x | x in a[..n]) + {a[n]};
      assert a[n] !in a[..n];
    }
  }

  lemma {:induction false} PeakOfRising(s: seq<nat>, n: nat)
    requires 0 < n <= |s| && forall i, j | 0 <= i <= j < |s| :: s[i] <= s[j]
    ensures Peak(s[..n]) == s[n - 1]
    decreases n
  {
    PeakSnoc(s, n - 1);
    if n > 1 {
      PeakOfRising(s, n - 1);
    } else {
      assert s[..0] == [];
    }
  }

  lemma {:induction false} StandsStill(s: seq<nat>, r: nat, n: nat)
    requires 0 < r && r + n <= |s| && forall i, j | 0 <= i <= j < |s| :: s[i] <= s[j]
    requires forall k | r <= k < r + n :: Stalled(s, k)
    ensures s[r + n - 1] == s[r - 1]
    decreases n
  {
    if n > 0 {
      StandsStill(s, r, n - 1);
      PeakOfRising(s, r + n - 1);
      assert Stalled(s, r + n - 1);
    }
  }

  lemma StillIsStalled(s: seq<nat>, threshold: nat, t: nat)
    requires 0 < threshold <= t < |s| && forall i, j | 0 <= i <= j < |s| :: s[i] <= s[j]
    requires s[t - threshold] > 0 && s[t - threshold] == s[t]
    requires threshold == t || s[t - threshold - 1] < s[t - threshold]
    ensures Completes(s, threshold, t)
  {
    var r := t + 1 - threshold;
    forall k | r <= k < r + threshold ensures Stalled(s, k) {
      PeakOfRising(s, k);
    }
    if r > 1 {
      PeakOfRising(s, r - 1);
    } else {
      assert s[..0] == [];
    }
  }

  lemma StalledIsStill(s: seq<nat>, threshold: nat, t: nat)
    requires 0 < threshold && forall i, j | 0 <= i <= j < |s| :: s[i] <= s[j]
    requires Completes(s, threshold, t)
    ensures 0 < threshold <= t < |s| && s[t - threshold] > 0 && s[t - threshold] == s[t]
    ensures threshold == t || s[t - threshold - 1] < s[t - threshold]
  {
    var r := t + 1 - threshold;
    StandsStill(s, r, threshold);
    PeakOfRising(s, r);
    assert Stalled(s, r);
    if r > 1 {
      PeakOfRising(s, r - 1);
    }
  }

  /** On a counter that never falls: tick t is reported exactly when the counter has moved at all,
      stands where it stood threshold ticks ago, and did move in the tick before these. */
  lemma FiresWhenStill(s: seq<nat>, threshold: nat, t: nat)
    requires threshold > 0 && forall i, j | 0 <= i <= j < |s| :: s[i] <= s[j]
    ensures t in Fires(s, threshold, |s|) <==>
              && threshold <= t < |s| && s[t - threshold] > 0 && s[t - threshold] == s[t]
              && (threshold == t || s[t - threshold - 1] < s[t - threshold])
  {
    FiresExactly(s, threshold);
    if Completes(s, threshold, t) {
      StalledIsStill(s, threshold, t);
    }
    if threshold <= t < |s| && s[t - threshold] > 0 && s[t - threshold] == s[t]
       && (threshold == t || s[t - threshold - 1] < s[t - threshold]) {
      StillIsStalled(s, threshold, t);
    }
  }

  // ---------------------------------------------------------------- the commented loop

  /** The misses after i ticks in the loop as its comment has it: the count starts anew after each
      call, and nothing keeps a stall from being reported again. */
  function CommentMisses(s: seq<nat>, threshold: nat, i: nat): nat
    requires i <= |s|
  {
    if i == 0 || !Stalled(s, i - 1) then 0 else
    var m := CommentMisses(s, threshold, i - 1) + 1;
    if m >= threshold then 0 else m
  }

  /** The ticks of its calls. */
  function CommentFires(s: seq<nat>, threshold: nat, i: nat): seq<nat>
    requires i <= |s|
  {
    if i == 0 then [] else
    CommentFires(s, threshold, i - 1)
    + if Stalled(s, i - 1) && CommentMisses(s, threshold, i - 1) + 1 >= threshold then [i - 1] else []
  }

  /** What is left of n after as many thresholds as it holds. */
  function Rest(n: nat, threshold: nat): nat
    requires threshold > 0
  {
    if n < threshold then n else Rest(n - threshold, threshold)
  }

  lemma {:induction false} RestStep(n: nat, threshold: nat)
    requires threshold > 0
    ensures Rest(n + 1, threshold) == if Rest(n, threshold) + 1 >= threshold then 0 else Rest(n, threshold) + 1
  {
    if n >= threshold {
      RestStep(n - threshold, threshold);
    }
  }

  lemma {:induction false} CommentMissesIs(s: seq<nat>, threshold: nat, i: nat)
    requires threshold > 0 && i <= |s|
    ensures CommentMisses(s, threshold, i) == Rest(Streak(s, i), threshold)
  {
    if i > 0 && Stalled(s, i - 1) {
      CommentMissesIs(s, threshold, i - 1);
      RestStep(Streak(s, i - 1), threshold);
    }
  }

  /** The commented loop reports at every multiple of the threshold. */
  lemma CommentFiresAt(s: seq<nat>, threshold: nat, i: nat)
    requires threshold > 0 && 0 < i <= |s|
    ensures Stalled(s, i - 1) && CommentMisses(s, threshold, i - 1) + 1 >= threshold <==>
            Streak(s, i) > 0 && Rest(Streak(s, i), threshold) == 0
  {
    CommentMissesIs(s, threshold, i - 1);
    RestStep(Streak(s, i - 1), threshold);
  }

  /** Up to position i no streak reaches twice the threshold. */
  ghost predicate Brief(s: seq<nat>, threshold: nat, i: nat)
    requires i <= |s|
  {
    forall k | 0 <= k <= i :: Streak(s, k) != 2 * threshold
  }

  lemma {:induction false} BriefStreak(s: seq<nat>, threshold: nat, i: nat)
    requires threshold > 0 && i <= |s| && Brief(s, threshold, i)
    ensures Streak(s, i) < 2 * threshold
    decreases i
  {
    if i > 0 {
      BriefStreak(s, threshold, i - 1);
    }
  }

  lemma RestUpToTwice(n: nat, threshold: nat)
    requires 0 < n <= 2 * threshold
    ensures Rest(n, threshold) == 0 <==> n == threshold || n == 2 * threshold
  {
    assert n >= threshold ==> Rest(n, threshold) == Rest(n - threshold, threshold);
  }

  lemma {:induction false} SameWhileBrief(s: seq<nat>, threshold: nat, i: nat)
    requires threshold > 0 && i <= |s|
    ensures Brief(s, threshold, i) ==> CommentFires(s, threshold, i) == Fires(s, threshold, i)
    ensures !Brief(s, threshold, i) ==> |CommentFires(s, threshold, i)| > |Fires(s, threshold, i)|
    ensures |CommentFires(s, threshold, i)| >= |Fires(s, threshold, i)|
    decreases i
  {
    if i > 0 {
      SameWhileBrief(s, threshold, i - 1);
      CommentFiresAt(s, threshold, i);
      assert Brief(s, threshold, i) <==> Brief(s, threshold, i - 1) && Streak(s, i) != 2 * threshold;
      if 0 < Streak(s, i) <= 2 * threshold {
        RestUpToTwice(Streak(s, i), threshold);
      }
      if Brief(s, threshold, i) {
        BriefStreak(s, threshold, i);
      }
      RestUpToTwice(threshold, threshold);
    }
  }

  /** The loop and its comment report the same stalls exactly when no maximal run of stalled ticks has
      twice the threshold. */
  lemma CommentAgreesIff(s: seq<nat>, threshold: nat)
    requires threshold > 0
    ensures CommentFires(s, threshold, |s|) == Fires(s, threshold, |s|) <==>
            forall t: nat :: !Completes(s, 2 * threshold, t)
  {
    SameWhileBrief(s, threshold, |s|);
    forall t: nat | t < |s| ensures Completes(s, 2 * threshold, t) <==> Streak(s, t + 1) == 2 * threshold {
      StreakIsLongRun(s, 2 * threshold, t);
    }
    if forall t: nat :: !Completes(s, 2 * threshold, t) {
      forall k | 0 <= k <= |s| ensures Streak(s, k) != 2 * threshold {
        assert k > 0 ==> !Completes(s, 2 * threshold, k - 1);
      }
    } else {
      var t: nat :| Completes(s, 2 * threshold, t);
      assert Streak(s, t + 1) == 2 * threshold;
    }
  }

  /** They do differ: after one frame, a stall of twice the threshold is reported once, not twice. */
  lemma CommentDiffers()
    ensures Fires([1, 1, 1], 1, 3) == [1] && CommentFires([1, 1, 1], 1, 3) == [1, 2]
  {
    var s: seq<nat> := [1, 1, 1];
    PeakOfRising(s, 1);
    PeakOfRising(s, 2);
    assert s[..0] == [];
    assert !Stalled(s, 0) && Stalled(s, 1) && Stalled(s, 2);
    assert Fires(s, 1, 1) == [] && CommentFires(s, 1, 1) == [];
    assert Fires(s, 1, 2) == [1] && CommentFires(s, 1, 2) == [1];
  }
}
