/**
 The watchdog on the hub's frame counter: a stall is reported exactly when nothing was published
 for as many ticks as the threshold says.
 */
module HubStall {
  import Watchdog
  import opened Hub

  /** The number of Publish calls. */
  function Published(es: seq<Event>): nat {
    if es == [] then 0 else
    Published(es[..|es| - 1]) + if es[|es| - 1].Publish? then 1 else 0
  }

  lemma {:induction false} FrameCountIsPublished(cfg: Config, es: seq<Event>)
    ensures Run(cfg, es).frameCount == Published(es)
    decreases |es|
  {
    if es != [] {
      FrameCountIsPublished(cfg, es[..|es| - 1]);
    }
  }

  lemma {:induction false} PublishedBetween(es: seq<Event>, a: nat, b: nat)
    requires a <= b <= |es|
    ensures Published(es[..b]) == Published(es[..a]) + Published(es[a..b])
    decreases b
  {
    if a == b {
      assert es[a..b] == [];
    } else {
      PublishedBetween(es, a, b - 1);
      assert es[..b][..b - 1] == es[..b - 1];
      assert es[a..b][..b - 1 - a] == es[a..b - 1];
    }
  }

  ghost predicate Silent(es: seq<Event>, a: nat, b: nat)
    requires a <= b <= |es|
  {
    forall i | a <= i < b :: !es[i].Publish?
  }

  lemma {:induction false} SilentMeansNone(es: seq<Event>)
    ensures Published(es) == 0 <==> Silent(es, 0, |es|)
    decreases |es|
  {
    if es != [] {
      var n := |es| - 1;
      SilentMeansNone(es[..n]);
      assert Silent(es[..n], 0, n) <==> Silent(es, 0, n);
    }
  }

  lemma StandsStillIffSilent(es: seq<Event>, a: nat, b: nat)
    requires a <= b <= |es|
    ensures Published(es[..a]) <= Published(es[..b])
    ensures Published(es[..a]) == Published(es[..b]) <==> Silent(es, a, b)
  {
    PublishedBetween(es, a, b);
    SilentMeansNone(es[a..b]);
    assert Silent(es[a..b], 0, b - a) <==> Silent(es, a, b) by {
      assert forall i | a <= i < b :: es[a..b][i - a] == es[i];
      assert forall i | 0 <= i < b - a :: es[a..b][i] == es[a + i];
    }
  }

  /** The ticks come at these moments of the run, in this order. */
  ghost predicate Ticks(es: seq<Event>, at: seq<nat>) {
    && (forall i | 0 <= i < |at| :: at[i] <= |es|)
    && (forall i, j | 0 <= i <= j < |at| :: at[i] <= at[j])
  }

  /** What the watchdog reads from the hub's counter at its ticks. */
  function Samples(cfg: Config, es: seq<Event>, at: seq<nat>): (s: seq<nat>)
    requires forall i | 0 <= i < |at| :: at[i] <= |es|
    ensures |s| == |at| && forall i | 0 <= i < |at| :: s[i] == Run(cfg, es[..at[i]]).frameCount
  {
    seq(|at|, i requires 0 <= i < |at| => Run(cfg, es[..at[i]]).frameCount)
  }

  lemma SamplesCount(cfg: Config, es: seq<Event>, at: seq<nat>)
    requires Ticks(es, at)
    ensures forall i | 0 <= i < |at| :: Samples(cfg, es, at)[i] == Published(es[..at[i]])
    ensures forall i, j | 0 <= i <= j < |at| :: Samples(cfg, es, at)[i] <= Samples(cfg, es, at)[j]
  {
    forall i | 0 <= i < |at| ensures Samples(cfg, es, at)[i] == Published(es[..at[i]]) {
      FrameCountIsPublished(cfg, es[..at[i]]);
    }
    forall i, j | 0 <= i <= j < |at| ensures Published(es[..at[i]]) <= Published(es[..at[j]]) {
      StandsStillIffSilent(es, at[i], at[j]);
    }
  }

  /** The watchdog reports a stall on tick t exactly when something had been published, nothing
      was between tick t - threshold and tick t, and something was in the tick before these, if
      there is one. */
  lemma {:induction false} StallMeansSilence(cfg: Config, es: seq<Event>, at: seq<nat>, threshold: nat, t: nat)
    requires Ticks(es, at) && threshold > 0 && t < |at|
    ensures t in Watchdog.Fires(Samples(cfg, es, at), threshold, |at|) <==>
              && threshold <= t
              && !Silent(es, 0, at[t - threshold])
              && Silent(es, at[t - threshold], at[t])
              && (t == threshold || !Silent(es, at[t - threshold - 1], at[t - threshold]))
  {
    var s := Samples(cfg, es, at);
    SamplesCount(cfg, es, at);
    Watchdog.FiresWhenStill(s, threshold, t);
    if threshold <= t {
      var a := at[t - threshold];
      StandsStillIffSilent(es, 0, a);
      assert es[..0] == [];
      StandsStillIffSilent(es, a, at[t]);
      if threshold < t {
        StandsStillIffSilent(es, at[t - threshold - 1], a);
      }
    }
  }
}
