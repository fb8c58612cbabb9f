/** Redials forced by refusals are rate bounded, in every run of the pool. What counts is a refusal that
    retires an entry not retired before; in the guarded runs of PoolUse these are all of them. */
module PoolRate {
  import opened PoolEntries
  import opened PoolMachine
  import opened PoolSafety

  /** Refusals of one asset lie an interval apart. */
  ghost predicate Spaced(c: Config, log: seq<Refusal>) {
    forall q, r :: 0 <= q < r < |log| && log[q].asset == log[r].asset ==>
      log[r].at - log[q].at >= c.redialInterval
  }

  /** Entries a borrower can still get or give back: live, and in the map or about to be put there. */
  ghost predicate Usable(s: State, i: nat)
    requires i < |s.heap|
  {
    !s.heap[i].closed && (InMap(s, i) || InFlight(s, i))
  }

  ghost predicate DialedAfterAll(s: State, i: nat)
    requires i < |s.heap|
  {
    forall r :: 0 <= r < |s.refusals| && s.refusals[r].asset == s.heap[i].asset ==>
      s.refusals[r].at <= s.heap[i].dialedAt
  }

  /** Refusals lie in the past, an interval apart, and every usable entry was dialed after those of its
      asset. */
  ghost predicate RateInv(c: Config, s: State) {
    && Spaced(c, s.refusals)
    && (forall r :: 0 <= r < |s.refusals| ==> s.refusals[r].at <= s.now)
    && (forall i :: 0 <= i < |s.heap| && Usable(s, i) ==> DialedAfterAll(s, i))
  }

  /** A step that retires nothing by refusal: time goes on, entries keep their identity and retirement, and
      what is usable was so before or is dialed now. */
  ghost predicate Forward(s: State, t: State) {
    && t.refusals == s.refusals && s.now <= t.now && |s.heap| <= |t.heap|
    && (forall i :: 0 <= i < |s.heap| ==>
          && t.heap[i].asset == s.heap[i].asset && t.heap[i].dialedAt == s.heap[i].dialedAt
          && (Usable(t, i) ==> Usable(s, i)))
    && (forall i :: |s.heap| <= i < |t.heap| ==> t.heap[i].dialedAt == s.now)
  }

  lemma ForwardKeepsRate(c: Config, s: State, t: State)
    requires RateInv(c, s) && Forward(s, t)
    ensures RateInv(c, t)
  {
    forall i | 0 <= i < |t.heap| && Usable(t, i)
      ensures DialedAfterAll(t, i)
    {
      if i < |s.heap| {
        assert DialedAfterAll(s, i);
      }
    }
  }

  // Every event but a retiring refusal is such a step.

  lemma GetIsForward(c: Config, s: State, ev: Event)
    requires Inv(s) && Enabled(s, ev) && Getting(ev)
    ensures Forward(s, Apply(c, s, ev))
  {
  }

  lemma EnvironmentIsForward(c: Config, s: State, ev: Event)
    requires Inv(s) && Enabled(s, ev) && Environment(ev)
    ensures Forward(s, Apply(c, s, ev))
  {
    assert !ev.Tick? ==> FlightInv(s, ev.f);
  }

  lemma OtherIsForward(c: Config, s: State, ev: Event)
    requires Inv(s) && Enabled(s, ev) && !Environment(ev) && !Getting(ev) && !(ev.ChannelStep? && ev.reply.Prohibited?)
    ensures Forward(s, Apply(c, s, ev))
  {
  }

  /** A refusal that retires nothing live. */
  lemma HarmlessRefusalIsForward(c: Config, s: State, a: nat)
    requires Inv(s) && Enabled(s, ChannelStep(a, Prohibited)) && Refuse(c, s, a).refusals == s.refusals
    ensures Forward(s, Refuse(c, s, a))
  {
  }

  /** A refusal that retires a live entry comes an interval after the entry was dialed, so after all earlier
      ones, and leaves nothing usable of its asset. */
  lemma RetiringRefusalKeepsRate(c: Config, s: State, a: nat)
    requires Inv(s) && RateInv(c, s) && Enabled(s, ChannelStep(a, Prohibited))
    requires Refuse(c, s, a).refusals != s.refusals
    ensures RateInv(c, Refuse(c, s, a))
  {
    var p, t := At(s, a), Refuse(c, s, a);
    assert PcInv(s, p);
    assert InMap(s, p.e) && Usable(s, p.e);
    assert DialedAfterAll(s, p.e);
    assert t.refusals == s.refusals + [Refusal(p.asset, s.now)];
    forall i | 0 <= i < |t.heap| && Usable(t, i)
      ensures DialedAfterAll(t, i)
    {
      NoOtherUsable(s, p.e, i);
      assert Usable(s, i) && DialedAfterAll(s, i);
    }
  }

  /** At most one entry of an asset is usable. */
  lemma NoOtherUsable(s: State, e: nat, i: nat)
    requires Inv(s) && e < |s.heap| && !s.heap[e].closed && InMap(s, e)
    ensures i < |s.heap| && i != e && s.heap[i].asset == s.heap[e].asset ==> !Usable(s, i)
  {
    if i < |s.heap| && InFlight(s, i) {
      assert FlightInv(s, s.running[s.heap[i].asset]);
    }
  }

  lemma StepKeepsRate(c: Config, s: State, ev: Event)
    requires Inv(s) && RateInv(c, s) && Enabled(s, ev)
    ensures RateInv(c, Apply(c, s, ev))
  {
    if ev.ChannelStep? && ev.reply.Prohibited? {
      if Refuse(c, s, ev.a).refusals != s.refusals {
        RetiringRefusalKeepsRate(c, s, ev.a);
        return;
      }
      HarmlessRefusalIsForward(c, s, ev.a);
    } else if Getting(ev) {
      GetIsForward(c, s, ev);
    } else if Environment(ev) {
      EnvironmentIsForward(c, s, ev);
    } else {
      OtherIsForward(c, s, ev);
    }
    ForwardKeepsRate(c, s, Apply(c, s, ev));
  }

  lemma {:induction false} RunKeepsRate(c: Config, s: State, evs: seq<Event>, t: State)
    requires Inv(s) && RateInv(c, s) && Run(c, s, evs, t)
    ensures RateInv(c, t)
    decreases |evs|
  {
    if evs != [] {
      StepKeepsInv(c, s, evs[0]);
      StepKeepsRate(c, s, evs[0]);
      RunKeepsRate(c, Apply(c, s, evs[0]), evs[1..], t);
    }
  }

  /** How many refusals of one asset fall into the window [from, to]. */
  function CountIn(log: seq<Refusal>, asset: int, from: int, to: int): nat {
    if log == [] then 0
    else
      var last := log[|log| - 1];
      CountIn(log[..|log| - 1], asset, from, to)
      + (if last.asset == asset && from <= last.at <= to then 1 else 0)
  }

  lemma OneMoreInterval(n: nat, k: int, had: int, more: int)
    requires (n - 1) * k <= had && k <= more
    ensures n * k <= had + more
  {
    assert n * k == (n - 1) * k + k;
  }

  /** n refusals in a window need n - 1 intervals before the latest of them. */
  lemma {:induction false} WindowFits(c: Config, log: seq<Refusal>, asset: int, from: int, to: int)
    returns (latest: int)
    requires Spaced(c, log) && c.redialInterval >= 0
    ensures CountIn(log, asset, from, to) > 0 ==>
              && from <= latest <= to
              && (CountIn(log, asset, from, to) - 1) * c.redialInterval <= latest - from
              && exists r :: 0 <= r < |log| && log[r] == Refusal(asset, latest)
  {
    latest := from;
    if log != [] {
      var init, last := log[..|log| - 1], log[|log| - 1];
      var before := WindowFits(c, init, asset, from, to);
      if last.asset == asset && from <= last.at <= to {
        latest := last.at;
        var n := CountIn(init, asset, from, to);
        if n > 0 {
          assert last.at - before >= c.redialInterval;
          OneMoreInterval(n, c.redialInterval, before - from, last.at - before);
        }
        assert log[|log| - 1] == Refusal(asset, latest);
      } else {
        latest := before;
        if CountIn(init, asset, from, to) > 0 {
          var r :| 0 <= r < |init| && init[r] == Refusal(asset, before);
          assert log[r] == Refusal(asset, before);
        }
      }
    }
  }

  /** Main result: in every run, whatever is removed or fails, a window of length `span` holds at most
      1 + span / redialInterval refusals of one asset that retired a live entry. */
  lemma RefusalRateBounded(c: Config, evs: seq<Event>, t: State, asset: int, from: int, span: nat)
    requires Run(c, Init(), evs, t) && c.redialInterval > 0
    ensures Spaced(c, t.refusals)
    ensures CountIn(t.refusals, asset, from, from + span) <= 1 + span / c.redialInterval
  {
    RunKeepsRate(c, Init(), evs, t);
    var n := CountIn(t.refusals, asset, from, from + span);
    var latest := WindowFits(c, t.refusals, asset, from, from + span);
    if n > 0 {
      QuotientBounds(n - 1, c.redialInterval, span);
    }
  }

  lemma QuotientBounds(n: nat, k: int, span: int)
    requires k > 0 && n * k <= span
    ensures n <= span / k
  {
    var q := span / k;
    assert span < (q + 1) * k;
    assert n >= q + 1 ==> n * k >= (q + 1) * k;
  }
}
