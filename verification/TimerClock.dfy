/** Time over many frames: the clock and next think, what they make of a repeater, and how late a one-shot can be. */
module TimerClock {
  import opened Timers
  import opened TimerWalks

  /** One call of GameFrame: the engine's inputs, and what the callbacks it reaches will do. */
  datatype Frame = Frame(simulating: bool, curtime: real, intervalPerTick: real, plans: seq<Firing>)

  /** The four fields GameFrame keeps time with. */
  datatype Clockwork = Clockwork(now: real, think: real, ticked: bool, last: real) {
    function Advanced(f: Frame): real {
      now + if f.simulating && ticked then f.curtime - last else f.intervalPerTick
    }

    function Tick(f: Frame): Clockwork {
      var c := Advanced(f);
      Clockwork(c, if c >= think then CalcNextThink(c, think, TIMER_MIN_ACCURACY) else think, true, f.curtime)
    }
  }

  /** A frame as the timers see it: the clock, and whether it was a think frame. */
  datatype Beat = Beat(clock: real, think: bool)

  function Beats(c: Clockwork, frames: seq<Frame>): seq<Beat>
    decreases |frames|
  {
    if frames == [] then []
    else [Beat(c.Advanced(frames[0]), c.Advanced(frames[0]) >= c.think)] + Beats(c.Tick(frames[0]), frames[1..])
  }

  /** A repeater after quiet frames at `beats`. */
  function Through(beats: seq<Beat>, x: Timer): Timer {
    if beats == [] then x else Through(beats[1..], Next(beats[0].clock, beats[0].think, x))
  }

  /** Callbacks that leave the scheduler alone. */
  ghost predicate Idle(plans: seq<Firing>) { Quiet(plans) && !Stops(plans) }

  /** Time does not run backwards. */
  ghost predicate Forward(c: Clockwork, frames: seq<Frame>) {
    forall i :: 0 <= i < |frames| ==> After(c, frames[..i]).now <= After(c, frames[..i]).Advanced(frames[i])
  }

  lemma SerialsMatch(s: State)
    requires s.Inv()
    ensures |s.serial| == |s.pool|
  {
  }

  /** A repeater that fired and lives on is next due between the accuracy ago and one interval on. */
  ghost predicate RearmedInRange(s: State, shots: seq<Shot>) {
    |s.serial| == |s.pool| &&
    forall k :: 0 <= k < |shots| && s.Pending(shots[k].serial) ==>
      var x := s.pool[s.holder[shots[k].serial]];
      x.interval >= 0.0 ==> s.clock - TIMER_MIN_ACCURACY <= x.toExec <= s.clock + x.interval
  }

  lemma InRange(s0: State, s: State, f: Flags, shots: seq<Shot>, round: bool)
    requires |s.serial| == |s.pool| && if round then RepeatersServed(s0, s, f, shots) else shots == []
    ensures RearmedInRange(s, shots)
  {
    hide Served, Unfired;
  }

  /** Every repeater alive at the start of some idle frames lives on and follows their beats. */
  ghost predicate KeptTime(s0: State, s: State, beats: seq<Beat>) {
    && |s0.pool| <= |s.pool|
    && forall a: nat :: s0.Alive(a) && s0.pool[a].flags.repeats ==>
         s.Alive(a) && s0.Same(s, a) && s.pool[a] == Through(beats, s0.pool[a])
  }

  lemma KeptTimeStarts(s: State)
    requires |s.serial| == |s.pool|
    ensures KeptTime(s, s, [])
  {
  }

  lemma {:induction false} ThroughMore(beats: seq<Beat>, beat: Beat, x: Timer)
    ensures Through(beats + [beat], x) == Next(beat.clock, beat.think, Through(beats, x))
  {
    if beats == [] {
      assert beats + [beat] == [beat];
      assert Through([], Next(beat.clock, beat.think, x)) == Next(beat.clock, beat.think, x);
    } else {
      assert (beats + [beat])[1..] == beats[1..] + [beat];
      ThroughMore(beats[1..], beat, Next(beats[0].clock, beats[0].think, x));
    }
  }

  lemma {:induction false} BeatsMore(c: Clockwork, frames: seq<Frame>, f: Frame)
    ensures |Beats(c, frames)| == |frames|
    ensures var d := After(c, frames);
            Beats(c, frames + [f]) == Beats(c, frames) + [Beat(d.Advanced(f), d.Advanced(f) >= d.think)]
            && After(c, frames + [f]) == d.Tick(f)
    decreases |frames|
  {
    if frames == [] {
      assert frames + [f] == [f] && [f][1..] == [];
    } else {
      assert (frames + [f])[1..] == frames[1..] + [f];
      BeatsMore(c.Tick(frames[0]), frames[1..], f);
    }
  }

  function After(c: Clockwork, frames: seq<Frame>): Clockwork
    decreases |frames|
  {
    if frames == [] then c else After(c.Tick(frames[0]), frames[1..])
  }

  /** While the map simulates, the universal time moves as the engine's does; for the first frame of a map, and
      while it does not simulate, by a tick at a time. */
  lemma {:induction false} SimulatedTime(c: Clockwork, frames: seq<Frame>)
    requires frames != [] && forall k :: 0 <= k < |frames| ==> frames[k].simulating
    ensures var first, last := frames[0], frames[|frames| - 1].curtime;
            After(c, frames).now - c.now ==
              if c.ticked then last - c.last else first.intervalPerTick + last - first.curtime
    decreases |frames|
  {
    var d := c.Tick(frames[0]);
    if |frames| == 1 {
      assert frames[1..] == [] && After(d, []) == d;
    } else {
      SimulatedTime(d, frames[1..]);
    }
  }

  lemma {:induction false} IdleTime(c: Clockwork, frames: seq<Frame>, tick: real)
    requires forall k :: 0 <= k < |frames| ==> !frames[k].simulating && frames[k].intervalPerTick == tick
    ensures After(c, frames).now == c.now + |frames| as real * tick
    decreases |frames|
  {
    if frames != [] {
      IdleTime(c.Tick(frames[0]), frames[1..], tick);
    }
  }

  lemma {:induction false} ThroughRepeats(beats: seq<Beat>, x: Timer)
    ensures Through(beats, x).flags == x.flags && Through(beats, x).interval == x.interval
  {
    if beats != [] {
      ThroughRepeats(beats[1..], Next(beats[0].clock, beats[0].think, x));
    }
  }

  lemma KeptTimeMore(s0: State, s: State, s1: State, r: State, beats: seq<Beat>, beat: Beat)
    requires KeptTime(s0, s, beats) && |s.serial| == |s.pool| == |s1.serial|
    requires s1 == s.(clock := beat.clock) && QuietFrame(s1, r, beat.think, false) && r.clock == beat.clock
    ensures KeptTime(s0, r, beats + [beat])
  {
    forall a: nat | s0.Alive(a) && s0.pool[a].flags.repeats
      ensures r.Alive(a) && s0.Same(r, a) && r.pool[a] == Through(beats + [beat], s0.pool[a])
    {
      ThroughMore(beats, beat, s0.pool[a]);
      ThroughRepeats(beats, s0.pool[a]);
      assert s.Alive(a) && s1.Alive(a) && s1.pool[a].flags.repeats;
      assert r.Alive(a) && r.pool[a].flags.repeats;
    }
  }

  /** Every repeater that lives through the frame is due when one look at it makes it due: whatever callbacks did,
      it fired once if it was this frame's turn and due, and not otherwise. */
  ghost predicate Follows(s0: State, s: State, think: bool) {
    forall a: nat ::
      s0.Alive(a) && s.Alive(a) && s0.Same(s, a) && s0.pool[a].flags.repeats && s0.pool[a].interval > 0.0 ==>
      s.pool[a].toExec == Next(s.clock, think, s0.pool[a]).toExec
  }

  lemma RepeaterFollows(s0: State, s: State, f: Flags, shots: seq<Shot>, a: nat)
    requires s0.Inv() && s.Inv() && s0.Evolves(s, {}) && RepeatersServed(s0, s, f, shots) && s.delays == s0.delays
             && f.repeats
    requires s0.Alive(a) && s.Alive(a) && s0.Same(s, a) && s0.pool[a].interval > 0.0
    requires s0.pool[a].flags.repeats && s0.pool[a].flags.precise == f.precise
    ensures s.pool[a].toExec == Next(s.clock, true, s0.pool[a]).toExec
  {
    hide State.Sorted, State.KeepsOrder, State.BornNow, State.Guarded;
    InItsList(s, a);
    var n := s.serial[a];
    assert s.pool[a].flags == s0.pool[a].flags && s.pool[a].interval == s0.pool[a].interval;
    assert s.holder[n] == a && s0.holder[n] == a;
    assert s.Pending(n);
    if Fired(shots, n) {
      var k :| 0 <= k < |shots| && shots[k].serial == n;
    }
  }

  lemma FrameFollows(s0: State, s: State, think: bool, lows: seq<Shot>, highs: seq<Shot>)
    requires s0.Inv() && s.Inv() && s0.Evolves(s, {}) && s.delays == s0.delays
    requires if think then RepeatersServed(s0, s, Flags(true, false, false), lows)
             else OthersKept(s0, s, Flags(true, true, false))
    requires RepeatersServed(s0, s, Flags(true, true, false), highs)
    ensures Follows(s0, s, think)
  {
    hide State.Inv, State.Evolves, RepeatersServed;
    forall a: nat | s0.Alive(a) && s.Alive(a) && s0.Same(s, a) && s0.pool[a].flags.repeats && s0.pool[a].interval > 0.0
      ensures s.pool[a].toExec == Next(s.clock, think, s0.pool[a]).toExec
    {
      if s0.pool[a].flags.precise {
        RepeaterFollows(s0, s, Flags(true, true, false), highs, a);
      } else if think {
        RepeaterFollows(s0, s, Flags(true, false, false), lows, a);
      }
    }
  }

  /** What survives of a timer over any number of frames, whatever its callbacks do. */
  ghost predicate Persists(s0: State, s: State) {
    && |s0.serial| == |s0.pool| <= |s.pool| == |s.serial| && s0.holder <= s.holder
    && (forall t :: 0 <= t < |s0.pool| ==> s0.serial[t] < |s0.holder|)
    && (forall t :: 0 <= t < |s0.pool| && !s0.Same(s, t) ==> s.serial[t] >= |s0.holder|)
    && (forall t :: 0 <= t < |s0.pool| && s0.Same(s, t) ==>
          && s.pool[t].flags == s0.pool[t].flags && s.pool[t].interval == s0.pool[t].interval
          && (t in s0.free ==> t in s.free))
  }

  /** Every repeater still there after frames at `beats` is due when they make it due. */
  ghost predicate Followed(s0: State, s: State, beats: seq<Beat>) {
    forall a: nat ::
      s0.Alive(a) && s.Alive(a) && s0.Same(s, a) && s0.pool[a].flags.repeats && s0.pool[a].interval > 0.0 ==>
      s.pool[a].toExec == Through(beats, s0.pool[a]).toExec
  }

  lemma FollowedStarts(s: State)
    requires s.Inv()
    ensures Persists(s, s) && Followed(s, s, [])
  {
  }

  lemma PersistsMore(s0: State, s: State, s1: State, r: State)
    requires Persists(s0, s) && s1 == s.(clock := s1.clock) && s.Inv() && s1.Evolves(r, {})
    ensures Persists(s0, r)
    ensures forall t :: 0 <= t < |s0.pool| && s0.Same(r, t) ==> s0.Same(s, t) && s1.Same(r, t)
  {
    hide State.Sorted, State.KeepsOrder, State.BornNow, State.Partitioned, State.Guarded;
  }

  lemma FollowedMore(s0: State, s: State, s1: State, r: State, beats: seq<Beat>, beat: Beat)
    requires Persists(s0, s) && Followed(s0, s, beats) && s.Inv() && s1 == s.(clock := beat.clock) && s1.Evolves(r, {})
    requires Follows(s1, r, beat.think) && r.clock == beat.clock
    ensures Persists(s0, r) && Followed(s0, r, beats + [beat])
  {
    PersistsMore(s0, s, s1, r);
    StaysFreed(s, s1, r);
    hide State.Inv, State.Evolves;
    forall a: nat | s0.Alive(a) && r.Alive(a) && s0.Same(r, a) && s0.pool[a].flags.repeats && s0.pool[a].interval > 0.0
      ensures r.pool[a].toExec == Through(beats + [beat], s0.pool[a]).toExec
    {
      ThroughMore(beats, beat, s0.pool[a]);
      ThroughRepeats(beats, s0.pool[a]);
      assert s.Alive(a) && s1.Alive(a) && s1.pool[a] == s.pool[a];
    }
  }

  lemma StaysFreed(s: State, s1: State, r: State)
    requires s1 == s.(clock := s1.clock) && s.Inv() && s1.Evolves(r, {})
    ensures forall t :: 0 <= t < |s.pool| && s1.Same(r, t) && t in s.free ==> t in r.free
  {
    hide State.KeepsOrder, State.BornNow;
  }

  predicate Fires(b: Beat, x: Timer) { (b.think || x.flags.precise) && x.toExec <= b.clock }

  /** The clocks of the frames at which a repeater fires. */
  function Firings(beats: seq<Beat>, x: Timer): seq<real> {
    if beats == [] then []
    else
      (if Fires(beats[0], x) then [beats[0].clock] else [])
      + Firings(beats[1..], Next(beats[0].clock, beats[0].think, x))
  }

  /** Every pending one-shot is due no earlier than the accuracy before the next think, and that is soon. */
  ghost predicate OnTime(s: State, think: real) {
    && think <= s.clock + TIMER_MIN_ACCURACY
    && forall a: nat :: s.Alive(a) && !s.pool[a].flags.repeats && s.pool[a].interval >= 0.0 ==>
         think - TIMER_MIN_ACCURACY <= s.pool[a].toExec
  }

  lemma LaterIsOnTime(s: State, now: real, think: real)
    ensures s.clock <= now && OnTime(s, think) ==> OnTime(s.(clock := now), think)
  {
    assert forall a: nat :: s.(clock := now).Alive(a) ==> s.Alive(a);
  }

  /** A one-shot created before creation `born` and still pending is less than the accuracy late; a tick-precise
      one is not late at all. */
  ghost predicate NoneLate(s: State, born: nat) {
    |s.serial| == |s.pool| &&
    forall a: nat :: s.Alive(a) && !s.pool[a].flags.repeats && s.pool[a].interval >= 0.0 && s.serial[a] < born ==>
      && s.clock - s.pool[a].toExec < TIMER_MIN_ACCURACY
      && (s.pool[a].flags.precise ==> s.clock < s.pool[a].toExec)
  }

  /** Plugin code run between frames keeps everything on time. */
  lemma OnTimeRuns(s: State, r: State, think: real)
    requires s.Inv() && r.Inv() && s.Evolves(r, {}) && OnTime(s, think)
    ensures OnTime(r, think)
  {
    hide State.Sorted, State.KeepsOrder;
    forall a: nat | r.Alive(a) && !r.pool[a].flags.repeats && r.pool[a].interval >= 0.0
      ensures think - TIMER_MIN_ACCURACY <= r.pool[a].toExec
    {
      if r.serial[a] < |s.holder| {
        OldTimer(s, r, a);
      }
    }
  }

  lemma OldTimer(s: State, r: State, a: nat)
    requires s.Inv() && r.Inv() && s.Evolves(r, {}) && r.Alive(a) && |r.serial| == |r.pool| && r.serial[a] < |s.holder|
    ensures s.Alive(a) && s.Same(r, a)
    ensures r.pool[a].interval == s.pool[a].interval && r.pool[a].flags == s.pool[a].flags
    ensures !s.pool[a].flags.repeats ==> r.pool[a].toExec == s.pool[a].toExec
  {
    hide State.Sorted, State.KeepsOrder;
    assert s.holder[r.serial[a]] == r.holder[r.serial[a]] == a;
  }

  /** What a frame at the new clock makes of that, `s` being the state at its start. */
  lemma OnTimeFrame(s: State, r: State, was: real, think: bool, next: real)
    requires s.Inv() && r.Inv() && s.Evolves(r, {}) && NoneLeftDue(r, |s.holder|, think)
    requires think == (s.clock >= was) && next == if think then CalcNextThink(s.clock, was, TIMER_MIN_ACCURACY) else was
    requires OnTime(s, was)
    ensures OnTime(r, next) && NoneLate(r, |s.holder|)
  {
    hide State.Sorted, State.KeepsOrder;
    forall a: nat | r.Alive(a) && !r.pool[a].flags.repeats && r.pool[a].interval >= 0.0
      ensures next - TIMER_MIN_ACCURACY <= r.pool[a].toExec
      ensures r.serial[a] < |s.holder| ==>
                && r.clock - r.pool[a].toExec < TIMER_MIN_ACCURACY
                && (r.pool[a].flags.precise ==> r.clock < r.pool[a].toExec)
    {
      if r.serial[a] < |s.holder| {
        OldTimer(s, r, a);
        assert a in r.single;
      }
    }
  }
}
