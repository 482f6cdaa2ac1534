/** What the scheduler's invariant and its re-arm rule mean to a caller. */
module TimerLaws {
  import opened Sequences
  import opened Timers
  import opened TimerClock
  import opened TimerWalks

  /** The partition law: every timer ever allocated is in exactly one container, exactly once. */
  lemma ExactlyOneContainer(s: State)
    requires s.Inv()
    ensures forall t :: 0 <= t < |s.pool| ==> multiset(s.single + s.low + s.high + s.free)[t] == 1
    ensures forall t :: t in s.single + s.low + s.high + s.free ==> t < |s.pool|
  {
    NoDupCount(s.single);
    NoDupCount(s.low);
    NoDupCount(s.high);
    NoDupCount(s.free);
    assert multiset(s.single + s.low + s.high + s.free)
           == multiset(s.single) + multiset(s.low) + multiset(s.high) + multiset(s.free);
    forall t | 0 <= t < |s.pool| ensures multiset(s.single + s.low + s.high + s.free)[t] == 1 {
      assert s.Alive(t) <==> t !in s.free;
    }
  }

  /** Between frames a creation is pending exactly until its one OnTimerEnd. */
  lemma EndedExactlyWhenGone(s: State, n: nat)
    requires s.Inv() && s.Held() == {} && n < |s.holder|
    ensures n !in s.ended <==> s.Pending(n)
    ensures multiset(s.ended)[n] <= 1
  {
    NoDupCount(s.ended);
    if s.Pending(n) {
      assert s.holder[n] !in s.Held();
    }
  }

  /** A repeater that fires is next due no more than the accuracy ago and no later than one interval on. */
  lemma RearmBound(now: real, due: real, interval: real)
    requires due <= now && interval >= 0.0
    ensures now - TIMER_MIN_ACCURACY <= CalcNextThink(now, due, interval) <= now + interval
    ensures CalcNextThink(now, due, interval) == due + interval <==> now - (due + interval) <= TIMER_MIN_ACCURACY
    ensures CalcNextThink(now, due, interval) == now + interval <==>
              now == due || now - (due + interval) > TIMER_MIN_ACCURACY
  {
  }

  /** Slot `k` of the grid that starts at `first`. */
  function Slot(first: real, interval: real, k: nat): real {
    if k == 0 then first else Slot(first, interval, k - 1) + interval
  }

  lemma {:induction false} SlotIs(first: real, interval: real, k: nat)
    ensures Slot(first, interval, k) == first + k as real * interval
  {
    if k > 0 {
      SlotIs(first, interval, k - 1);
      assert k as real * interval == (k - 1) as real * interval + interval;
    }
  }

  lemma {:induction false} SlotShift(first: real, interval: real, k: nat)
    ensures Slot(first + interval, interval, k) == Slot(first, interval, k + 1)
  {
    if k > 0 {
      SlotShift(first, interval, k - 1);
    }
  }

  /** After each of the frames the repeater is due at the slot its firings so far have brought it to. */
  ghost predicate OnGrid(beats: seq<Beat>, x: Timer) {
    forall m :: 0 <= m <= |beats| ==> AtSlot(beats[..m], x)
  }

  ghost predicate AtSlot(beats: seq<Beat>, x: Timer) {
    Through(beats, x).toExec == Slot(x.toExec, x.interval, |Firings(beats, x)|)
  }

  /** No firing comes more than the accuracy past the slot that follows its own. */
  ghost predicate NeverFarBehind(beats: seq<Beat>, x: Timer) {
    forall k :: 0 <= k < |Firings(beats, x)| ==>
      Firings(beats, x)[k] - Slot(x.toExec, x.interval, k + 1) <= TIMER_MIN_ACCURACY
  }

  lemma {:induction false} FiringsMore(beats: seq<Beat>, b: Beat, x: Timer)
    ensures Firings(beats + [b], x) == Firings(beats, x) + if Fires(b, Through(beats, x)) then [b.clock] else []
  {
    if beats == [] {
      assert beats + [b] == [b] && [b][1..] == [];
      assert Firings([], Next(b.clock, b.think, x)) == [];
    } else {
      assert (beats + [b])[1..] == beats[1..] + [b];
      FiringsMore(beats[1..], b, Next(beats[0].clock, beats[0].think, x));
    }
  }

  lemma OnGridMore(beats: seq<Beat>, b: Beat, x: Timer)
    ensures OnGrid(beats + [b], x) <==> OnGrid(beats, x) && AtSlot(beats + [b], x)
  {
    hide AtSlot;
    var more, n := beats + [b], |beats| + 1;
    assert more[..n] == more;
    assert forall m :: 0 <= m <= |beats| ==> more[..m] == beats[..m];
    if OnGrid(more, x) {
      forall m | 0 <= m <= |beats| ensures AtSlot(beats[..m], x) {
        assert more[..m] == beats[..m];
      }
    }
  }

  /** No drift: through any run of frames a repeater keeps its grid iff it never falls further behind a slot
      than the accuracy. What a run of frames does to a repeater is Through of its beats (RunFrames: Followed,
      KeptTime). */
  lemma {:induction false} NoDrift(beats: seq<Beat>, x: Timer)
    requires x.interval >= 0.0
    ensures OnGrid(beats, x) <==> NeverFarBehind(beats, x)
  {
    if beats == [] {
      assert beats[..0] == [];
    } else {
      var last := |beats| - 1;
      var init, b := beats[..last], beats[last];
      assert beats == init + [b];
      NoDrift(init, x);
      OnGridMore(init, b, x);
      assert init[..last] == init;
      assert OnGrid(init, x) ==> AtSlot(init, x);
      hide OnGrid;
      FiringsMore(init, b, x);
      if Fires(b, Through(init, x)) {
        BehindMore(init, b, x);
        if AtSlot(init, x) {
          SlotTaken(init, b, x);
        }
      } else {
        ThroughMore(init, b, x);
        assert Firings(beats, x) == Firings(init, x);
      }
    }
  }

  /** A firing from a slot leads to the next one iff it is not too far past it. */
  lemma SlotTaken(init: seq<Beat>, b: Beat, x: Timer)
    requires x.interval >= 0.0 && Fires(b, Through(init, x)) && AtSlot(init, x)
    ensures AtSlot(init + [b], x) <==>
              b.clock - Slot(x.toExec, x.interval, |Firings(init, x)| + 1) <= TIMER_MIN_ACCURACY
  {
    ThroughMore(init, b, x);
    ThroughRepeats(init, x);
    FiringsMore(init, b, x);
  }

  /** A repeater of one second, due at 1, that is first looked at at 2.2 is due at 3.2 next, and not at 2. */
  lemma NoDriftExample(flags: Flags)
    ensures var x, beats := Timer(1.0, 1.0, flags, false, false), [Beat(2.2, true)];
            Through(beats, x).toExec == 3.2 && Slot(1.0, 1.0, 1) == 2.0 && Firings(beats, x) == [2.2]
              && !OnGrid(beats, x)
  {
    var x, b := Timer(1.0, 1.0, flags, false, false), Beat(2.2, true);
    assert [b][1..] == [] && [b][..1] == [b];
    var y := Next(b.clock, b.think, x);
    assert Through([], y) == y && Firings([], y) == [];
    assert Slot(1.0, 1.0, 0) == 1.0;
    assert !AtSlot([b], x);
  }

  lemma BehindMore(init: seq<Beat>, b: Beat, x: Timer)
    requires Firings(init + [b], x) == Firings(init, x) + [b.clock]
    ensures NeverFarBehind(init + [b], x) <==>
              NeverFarBehind(init, x)
              && b.clock - Slot(x.toExec, x.interval, |Firings(init, x)| + 1) <= TIMER_MIN_ACCURACY
  {
    var f := Firings(init, x);
    assert forall k :: 0 <= k < |f| ==> (f + [b.clock])[k] == f[k];
    assert (f + [b.clock])[|f|] == b.clock;
  }

  /** The frames that look at the repeater come at least once an interval, the first within one of `last`. */
  ghost predicate Steady(beats: seq<Beat>, x: Timer, last: real)
    decreases |beats|
  {
    beats == [] ||
    if beats[0].think || x.flags.precise
    then beats[0].clock - last <= x.interval && Steady(beats[1..], x, beats[0].clock)
    else Steady(beats[1..], x, last)
  }

  lemma {:induction false} SteadyAnyDue(beats: seq<Beat>, x: Timer, last: real, due: real)
    ensures Steady(beats, x.(toExec := due), last) <==> Steady(beats, x, last)
    decreases |beats|
  {
    if beats != [] {
      SteadyAnyDue(beats[1..], x, last, due);
      SteadyAnyDue(beats[1..], x, beats[0].clock, due);
    }
  }

  /** So a repeater looked at once an interval never drifts, however many frames are run. */
  lemma {:induction false} SteadyFramesKeepTheGrid(beats: seq<Beat>, x: Timer, last: real)
    requires x.interval >= 0.0 && last - x.toExec <= TIMER_MIN_ACCURACY && Steady(beats, x, last)
    ensures Through(beats, x).toExec == Slot(x.toExec, x.interval, |Firings(beats, x)|)
    decreases |beats|
  {
    if beats != [] {
      var b := beats[0];
      var y := Next(b.clock, b.think, x);
      if Fires(b, x) {
        assert y == x.(toExec := x.toExec + x.interval);
        SteadyAnyDue(beats[1..], x, b.clock, y.toExec);
        SteadyFramesKeepTheGrid(beats[1..], y, b.clock);
        SlotShift(x.toExec, x.interval, |Firings(beats[1..], y)|);
      } else {
        SteadyFramesKeepTheGrid(beats[1..], x, if b.think || x.flags.precise then b.clock else last);
      }
    }
  }
}
