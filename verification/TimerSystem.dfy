/** `TimerSystem` of core/TimerSys.cpp, its lists and clock updated in place. */
module TimerScheduling {
  import opened Sequences
  import opened Timers
  import opened TimerWalks
  import opened TimerClock

  class TimerSystem {
    var universalTime: real
    var timerThink: real
    var hasMapTicked: bool
    var lastTickedTime: real
    var pool: seq<Timer>
    var single: seq<nat>
    var low: seq<nat>
    var high: seq<nat>
    var free: seq<nat>
    ghost var serial: seq<nat>
    ghost var holder: seq<nat>
    ghost var ended: seq<nat>
    ghost var delays: nat
    /** The creations whose OnTimer has been called, in order. */
    ghost var calls: seq<nat>

    ghost function S(): State
      reads this
    {
      State(universalTime, pool, single, low, high, free, serial, holder, ended, delays)
    }

    ghost predicate Valid()
      reads this
    {
      S().Inv()
    }

    function Clock(): Clockwork
      reads this`universalTime, this`timerThink, this`hasMapTicked, this`lastTickedTime
    {
      Clockwork(universalTime, timerThink, hasMapTicked, lastTickedTime)
    }

    /** What any amount of plugin code keeps: the invariant, the clock, and every timer on the call stack. */
    twostate predicate Kept()
      reads this
    {
      && Valid()
      && old(S()).Runs(S(), old(S()).Held())
      && S().Held() == old(S()).Held()
    }

    constructor ()
      ensures Valid() && S().Held() == {} && pool == [] && universalTime == timerThink == 0.0
    {
      universalTime, timerThink := 0.0, 0.0;
      hasMapTicked, lastTickedTime := false, 0.0;
      pool, single, low, high, free := [], [], [], [], [];
      serial, holder, ended, delays, calls := [], [], [], 0, [];
    }

    method CreateTimer(interval: real, flags: Flags) returns (t: nat)
      requires Valid()
      modifies this`pool, this`single, this`low, this`high, this`free, this`serial, this`holder, this`ended
      ensures Kept()
      ensures t == old(S().Fresh()) && S().Alive(t) && serial[t] == |old(holder)|
      ensures old(S()).Creates(Timer(interval, universalTime + interval, flags, false, false), S())
      ensures pool[t] == Timer(interval, universalTime + interval, flags, false, false)
      ensures holder == old(holder) + [t]
      ensures if old(free) == [] then t == old(|pool|) && free == []
              else t == old(free)[|old(free)| - 1] && free == old(free)[..|old(free)| - 1] && |pool| == old(|pool|)
      ensures flags.repeats ==>
                && single == old(single)
                && (if flags.precise then high == old(high) + [t] && low == old(low)
                    else low == old(low) + [t] && high == old(high))
    {
      hide State.Inv, State.Runs, State.Fits, State.Creates, State.Held;
      ghost var before := S();
      TopOfFree(before);
      var toExec := universalTime + interval;
      var timer := Timer(interval, toExec, flags, false, false);
      var k := 0;
      if !flags.repeats {
        k := FindSpot(toExec);
      }
      CreatedAlive(before, timer, k);
      CreateStep(before, timer, k);
      CreatesIntro(before, timer, k);
      t := Allocate(timer);
      Link(t, k);
    }

    /** Recycle the object freed last, or make a new one. */
    method Allocate(timer: Timer) returns (t: nat)
      requires |serial| == |pool| && (free != [] ==> free[|free| - 1] < |pool|)
      modifies this`pool, this`serial, this`free, this`holder
      ensures S() == old(S()).Allocated(timer) && t == old(S()).Fresh()
    {
      if free == [] {
        t := |pool|;
        pool, serial := pool + [timer], serial + [|holder|];
      } else {
        t := free[|free| - 1];
        free := free[..|free| - 1];
        pool, serial := pool[t := timer], serial[t := |holder|];
      }
      holder := holder + [t];
    }

    method Link(t: nat, k: nat)
      requires t < |pool| && k <= |single|
      modifies this`single, this`low, this`high
      ensures S() == old(S()).Linked(t, k)
    {
      if pool[t].flags.repeats {
        if pool[t].flags.precise {
          high := high + [t];
        } else {
          low := low + [t];
        }
      } else {
        single := single[..k] + [t] + single[k..];
      }
    }

    /** The insertion point: the end if nothing there is due later, else before the first due no earlier. */
    method FindSpot(toExec: real) returns (k: nat)
      requires Valid()
      ensures k <= |single| && S().Fits(toExec, k)
    {
      hide State.Inv, State.Sorted, State.Fits;
      SinglesSorted(S());
      if |single| >= 1 && pool[single[|single| - 1]].toExec <= toExec {
        k := |single|;
        FitsLast(S(), toExec);
        return;
      }
      k := 0;
      while k < |single| && pool[single[k]].toExec < toExec
        invariant k <= |single|
        invariant forall j :: 0 <= j < k ==> pool[single[j]].toExec <= toExec
      {
        k := k + 1;
      }
      FitsHere(S(), toExec, k);
    }

    method Run(p: Script)
      requires Valid()
      modifies this`pool, this`single, this`low, this`high, this`free, this`serial, this`holder, this`ended,
               this`delays, this`calls
      ensures Kept()
      ensures p.Done? ==> S() == old(S())
      ensures Undelayed(p) ==> delays == old(delays)
      ensures |holder| >= |old(holder)| + Spawned(p)
      ensures old(calls) <= calls && (p.Done? ==> calls == old(calls))
      decreases p, 0, 0
    {
      hide State.Inv, State.Runs, State.Held, State.Creates;
      ghost var s0 := S();
      RunsReflexive(s0, s0.Held());
      match p {
        case Done => return;
        case Create(interval, flags, rest) =>
          var _ := CreateTimer(interval, flags);
        case Kill(id, onEnd, rest) =>
          if id < |pool| {
            KillTimer(id, onEnd);
          }
        case Fire(id, delayExec, call, rest) =>
          if id < |pool| {
            FireTimerOnce(id, delayExec, call);
          }
      }
      ghost var s1 := S();
      Run(p.rest);
      RunsTransitive(s0, s1, S(), s0.Held());
    }

    method KillTimer(t: nat, onEnd: Script)
      requires Valid() && t < |pool|
      modifies this`pool, this`single, this`low, this`high, this`free, this`serial, this`holder, this`ended,
               this`delays, this`calls
      ensures Kept()
      ensures old(pool[t].killMe) ==> S() == old(S())
      ensures !old(pool[t].killMe) && old(pool[t].inExec) ==> S() == old(S()).Postpone(t)
      ensures !old(pool[t].inExec) ==> t in free && old(S()).Same(S(), t) && serial[t] in ended
      ensures !old(pool[t].inExec) && onEnd.Done? ==> S() == old(S()).Mark(t).End(t).Release(t)
      ensures Undelayed(onEnd) ==> delays == old(delays)
      ensures |holder| >= |old(holder)| + if old(pool[t].inExec) then 0 else Spawned(onEnd)
      ensures old(calls) <= calls && (onEnd.Done? ==> calls == old(calls))
      decreases onEnd, 1, 0
    {
      hide State.Sorted, State.KeepsOrder;
      ghost var s0 := S();
      if pool[t].killMe {
        RunsReflexive(s0, s0.Held());
        return;
      }
      if pool[t].inExec {
        PostponeStep(s0, t);
        pool := pool[t := pool[t].(killMe := true)];
        return;
      }
      MarkStep(s0, t);
      pool := pool[t := pool[t].(inExec := true)];
      assert S() == s0.Mark(t);
      var _ := Finish(s0, t, onEnd);
    }

    /** Set m_InExec and call OnTimer. */
    method CallOnTimer(t: nat, p: Script)
      requires Valid() && t < |pool| && S().Alive(t) && !pool[t].inExec
      modifies this`pool, this`single, this`low, this`high, this`free, this`serial, this`holder, this`ended,
               this`delays, this`calls
      ensures Valid()
      ensures old(S()).Runs(S(), old(S()).Held()) && S().Executing(t) && serial[t] !in ended
      ensures S().Held() == old(S()).Held() + {t} && t !in old(S()).Held() && old(S()).Same(S(), t)
      ensures pool[t].toExec == old(pool[t].toExec) && pool[t].flags == old(pool[t].flags)
      ensures pool[t].interval == old(pool[t].interval) && old(serial[t]) !in old(ended)
      ensures p.Done? ==> S() == old(S()).Mark(t) && !pool[t].killMe
      ensures Undelayed(p) ==> delays == old(delays)
      ensures |holder| >= |old(holder)| + Spawned(p)
      ensures old(calls) + [old(serial[t])] <= calls && (p.Done? ==> calls == old(calls) + [old(serial[t])])
      decreases p, 1, 0
    {
      ghost var s0 := S();
      MarkStep(s0, t);
      hide State.Inv, State.Runs;
      pool := pool[t := pool[t].(inExec := true)];
      calls := calls + [serial[t]];
      assert S() == s0.Mark(t);
      Run(p);
      CalledStep(s0, S(), t);
    }

    /** OnTimerEnd, then unlink and recycle: the common tail of every way a timer dies. */
    method Finish(ghost s0: State, t: nat, onEnd: Script) returns (at: nat)
      requires Valid() && s0.Inv() && S().Executing(t) && serial[t] !in ended
      requires s0.Runs(S(), s0.Held()) && S().Held() == s0.Held() + {t} && t !in s0.Held() && s0.Same(S(), t)
      modifies this`pool, this`single, this`low, this`high, this`free, this`serial, this`holder, this`ended,
               this`delays, this`calls
      ensures Valid()
      ensures s0.Runs(S(), s0.Held()) && S().Held() == s0.Held()
      ensures t in free && s0.Same(S(), t) && serial[t] in ended
      ensures var f := s0.pool[t].flags; LeftKept(s0, S(), s0.ListOf(f), S().ListOf(f), t, at)
      ensures !s0.pool[t].flags.repeats ==> NoneEarlier(S(), at, s0.pool[t].toExec)
      ensures onEnd.Done? ==>
                && S() == old(S()).End(t).Release(t) && t in old(S()).ListOf(pool[t].flags)
                && at == IndexOf(old(S()).ListOf(pool[t].flags), t)
      ensures Undelayed(onEnd) ==> delays == old(delays)
      ensures |holder| >= |old(holder)| + Spawned(onEnd)
      ensures old(calls) <= calls && (onEnd.Done? ==> calls == old(calls))
      decreases onEnd, 0, 1
    {
      hide State.Inv, State.KeepsOrder, LeftKept;
      ghost var s1 := S();
      EndStep(s1, t);
      ended := ended + [serial[t]];
      assert S() == s1.End(t);
      Run(onEnd);
      ghost var s2 := S();
      FinishStep(s0, s1, s2, t);
      LeftOfErased(s0, s2, s0.pool[t].flags, t);
      if !s0.pool[t].flags.repeats {
        RightOfErased(s2, t);
      }
      at := Unlink(t);
    }

    /** Erase `t` from its list and push it on the free stack; `at` is where the next element now stands. */
    method Unlink(t: nat) returns (at: nat)
      requires Valid() && t < |pool| && t in S().ListOf(pool[t].flags)
      modifies this`single, this`low, this`high, this`free
      ensures S() == old(S()).Release(t)
      ensures at == IndexOf(old(S()).ListOf(pool[t].flags), t)
    {
      ghost var s := S();
      ReleaseIs(s, t);
      hide State.Inv;
      if !pool[t].flags.repeats {
        at := IndexOf(single, t);
        single := Without(single, t);
      } else if pool[t].flags.precise {
        at := IndexOf(high, t);
        high := Without(high, t);
      } else {
        at := IndexOf(low, t);
        low := Without(low, t);
      }
      free := free + [t];
      assert S() == s.Release(t);
    }

    method FireTimerOnce(t: nat, delayExec: bool, call: Firing)
      requires Valid() && t < |pool|
      modifies this`pool, this`single, this`low, this`high, this`free, this`serial, this`holder, this`ended,
               this`delays, this`calls
      ensures Kept()
      ensures old(pool[t].inExec) ==> S() == old(S())
      ensures !old(pool[t].inExec) ==> old(S()).Same(S(), t)
      ensures !old(pool[t].inExec) && (!old(pool[t].flags.repeats) || call.stop) ==> t in free && serial[t] in ended
      ensures !old(pool[t].inExec) && t !in free ==>
                && !pool[t].inExec
                && pool[t].toExec == if delayExec then universalTime + pool[t].interval else old(pool[t].toExec)
      ensures !delayExec && UndelayedFiring(call) ==> delays == old(delays)
      ensures |holder| >= |old(holder)| +
                if old(pool[t].inExec) then 0
                else Spawned(call.onTimer) + if t in free then Spawned(call.onEnd) else 0
      ensures old(calls) + (if old(pool[t].inExec) then [] else [old(serial[t])]) <= calls
      decreases call, 1, 0
    {
      hide State.Inv, State.Runs, State.Evolves, State.Held, LeftKept;
      ghost var s0 := S();
      if pool[t].inExec {
        RunsReflexive(s0, s0.Held());
        return;
      }
      IdleIsAlive(s0, t);
      CallOnTimer(t, call.onTimer);
      ghost var s1 := S();
      if !pool[t].flags.repeats || call.stop || pool[t].killMe {
        var _ := Finish(s0, t, call.onEnd);
      } else {
        FiredByHandStep(s0, s1, t, delayExec);
        var due := if delayExec then universalTime + pool[t].interval else pool[t].toExec;
        pool := pool[t := pool[t].(inExec := false, toExec := due)];
        delays := if delayExec then delays + 1 else delays;
        assert S() == s1.FiredByHand(t, delayExec);
      }
    }
  
    /** One due one-shot: OnTimer, OnTimerEnd, erase; `at` is the iterator `erase` returns. */
    method FireSingle(t: nat, f: Firing) returns (at: nat)
      requires Valid() && S().Alive(t) && !pool[t].inExec && !pool[t].flags.repeats
      modifies this`pool, this`single, this`low, this`high, this`free, this`serial, this`holder, this`ended,
               this`delays, this`calls
      ensures Kept()
      ensures t in free && old(S()).Same(S(), t) && serial[t] in ended && serial[t] !in old(ended)
      ensures LeftKept(old(S()), S(), old(single), single, t, at) && NoneEarlier(S(), at, old(pool[t].toExec))
      ensures f.onTimer.Done? && f.onEnd.Done? ==>
                S() == old(S()).Mark(t).End(t).Release(t) && t in old(single) && at == IndexOf(old(single), t)
      ensures UndelayedFiring(f) ==> delays == old(delays)
      ensures |holder| >= |old(holder)| + Spawned(f.onTimer) + Spawned(f.onEnd)
      ensures old(calls) + [old(serial[t])] <= calls
      ensures f.onTimer.Done? && f.onEnd.Done? ==> calls == old(calls) + [old(serial[t])]
    {
      hide State.Sorted, State.KeepsOrder;
      ghost var s0 := S();
      CallOnTimer(t, f.onTimer);
      at := Finish(s0, t, f.onEnd);
    }

    /** The one-shot half of RunFrame. `plans` is what the callbacks it reaches will do, in turn. */
    method RunSingles(think: bool, plans: seq<Firing>) returns (rest: seq<Firing>, ghost shots: seq<Shot>)
      requires Valid() && S().Held() == {}
      modifies this`pool, this`single, this`low, this`high, this`free, this`serial, this`holder, this`ended,
               this`delays, this`calls
      ensures Kept()
      ensures NoneLeftDue(S(), |old(holder)|, think)
      ensures ShotsAreSound(old(S()), S(), shots, think)
      ensures Suffix(rest, plans)
      ensures Quiet(plans) ==>
                Quiet(rest) && shots == DueShots(old(S()), old(single), think) && Untouched(old(S()), S())
      ensures NoneDelays(plans) ==> delays == old(delays)
      ensures Consumed(plans, rest, |shots|) && |holder| >= |old(holder)| + SpawnedBy(plans, |shots|)
      ensures |calls| >= |old(calls)| + |shots| && (Quiet(plans) ==> calls == Called(old(calls), shots))
    {
      hide State.Inv, State.Runs, State.Held, Walking, QuietWalking, ShotsAreSound, NoneLeftDue, Suffix, Untouched,
           NoneDelays, UndelayedFiring, Consumed, Spawned, SpawnedBy, Called, Quiet;
      ghost var s0 := S();
      WalkStarts(s0, think);
      QuietWalkStarts(s0, think);
      WholeIsSuffix(plans);
      ConsumedNone(plans);
      ghost var was := calls;
      CalledNone(was);
      shots := [];
      rest := plans;
      var i: nat := 0;
      while i < |single|
        invariant Walking(s0, S(), i, think, shots)
        invariant Quiet(plans) ==> Quiet(rest) && QuietWalking(s0, S(), i, think, shots)
        invariant Suffix(rest, plans) && (NoneDelays(plans) ==> delays == old(delays))
        invariant Consumed(plans, rest, |shots|) && |holder| >= |old(holder)| + SpawnedBy(plans, |shots|)
        invariant |calls| >= |was| + |shots| && (Quiet(plans) ==> calls == Called(was, shots))
        decreases |rest|, |single| - i
      {
        WalkAt(s0, S(), i, think, shots);
        if universalTime < pool[single[i]].toExec {
          break;
        }
        if rest != [] {
          SuffixHead(rest, plans);
        }
        OneConsumed(plans, rest, |shots|);
        i, rest, shots := VisitSingle(think, i, rest, s0, shots, was);
      }
      WalkEnds(s0, S(), i, think, shots);
    }

    /** One due element of the walk: fired, or on a non-think frame skipped unless tick-precise. */
    method VisitSingle(think: bool, i: nat, plans: seq<Firing>, ghost s0: State, ghost shots: seq<Shot>,
                       ghost was: seq<nat>)
      returns (next: nat, rest: seq<Firing>, ghost more: seq<Shot>)
      requires Walking(s0, S(), i, think, shots) && i < |single|
      requires single[i] < |pool| && pool[single[i]].toExec <= universalTime
      modifies this`pool, this`single, this`low, this`high, this`free, this`serial, this`holder, this`ended,
               this`delays, this`calls
      ensures Walking(s0, S(), next, think, more)
      ensures Quiet(plans) && QuietWalking(s0, old(S()), i, think, shots) ==>
                Quiet(rest) && QuietWalking(s0, S(), next, think, more)
      ensures |rest| < |plans| || (rest == plans && |single| - next < |old(single)| - i)
      ensures rest == plans || (plans != [] && rest == plans[1..])
      ensures (plans != [] ==> UndelayedFiring(plans[0])) ==> delays == old(delays)
      ensures more == shots || |more| == |shots| + 1
      ensures |holder| >= |old(holder)| + if more == shots || plans == [] then 0 else Spawned(plans[0].onTimer)
      ensures rest == if more == shots || plans == [] then plans else plans[1..]
      ensures |calls| >= |old(calls)| + |more| - |shots|
      ensures (plans == [] || (plans[0].onTimer.Done? && plans[0].onEnd.Done?)) && old(calls) == Called(was, shots) ==>
                calls == Called(was, more)
    {
      ghost var s1 := S();
      var t := single[i];
      WalkAt(s0, s1, i, think, shots);
      hide State.Inv, State.Runs, State.Held, Walking, QuietWalking, LeftKept;
      rest := plans;
      if think || pool[t].flags.precise {
        var f := QUIET;
        if rest != [] {
          QuietTail(rest);
          f, rest := rest[0], rest[1..];
        }
        next := FireSingle(t, f);
        RunsWeaken(s1, S(), s1.Held(), {});
        WalkFires(s0, s1, S(), i, next, think, shots);
        if Quiet(plans) && QuietWalking(s0, s1, i, think, shots) {
          QuietWalkFires(s0, s1, S(), i, think, shots);
        }
        more := shots + [ShotOf(s1, t)];
        CalledOne(was, shots, ShotOf(s1, t));
      } else {
        WalkSkips(s0, s1, i, think, shots);
        if QuietWalking(s0, s1, i, think, shots) {
          QuietWalkSkips(s0, s1, i, think, shots);
        }
        next, more := i + 1, shots;
      }
    }

    function List(fast: bool): seq<nat>
      reads this
    {
      if fast then high else low
    }

    /** One due repeater: OnTimer, then either OnTimerEnd and erase, or re-arm; `at` is the next iterator. */
    method FireRepeat(t: nat, f: Firing) returns (at: nat)
      requires Valid() && S().Alive(t) && !pool[t].inExec && pool[t].flags.repeats
      modifies this`pool, this`single, this`low, this`high, this`free, this`serial, this`holder, this`ended,
               this`delays, this`calls
      ensures Valid() && S().Held() == old(S()).Held()
      ensures old(S()).Evolves(S(), old(S()).Held()) && DuesKeptBut(old(S()), S(), t) && old(S()).Same(S(), t)
      ensures f.stop ==> t in free
      ensures var l0, l := old(S()).ListOf(old(pool[t].flags)), S().ListOf(old(pool[t].flags));
              if t in free then serial[t] in ended && LeftKept(old(S()), S(), l0, l, t, at)
              else
                && 0 < at <= |l| && l[at - 1] == t && LeftKept(old(S()), S(), l0, l, t, at - 1)
                && pool[t].toExec == CalcNextThink(universalTime, old(pool[t].toExec), pool[t].interval)
                && !pool[t].inExec && serial[t] !in ended
      ensures f.onTimer.Done? && f.onEnd.Done? ==>
                var l := old(S()).ListOf(old(pool[t].flags));
                && t in l && |old(serial)| == |old(pool)|
                && if f.stop then S() == old(S()).Mark(t).End(t).Release(t) && at == IndexOf(l, t)
                   else S() == old(S()).Rearm(
                          t, CalcNextThink(universalTime, old(pool[t].toExec), old(pool[t].interval)))
                        && at == IndexOf(l, t) + 1
      ensures UndelayedFiring(f) ==> delays == old(delays)
      ensures |holder| >= |old(holder)| + Spawned(f.onTimer) + if t in free then Spawned(f.onEnd) else 0
      ensures old(calls) + [old(serial[t])] <= calls
      ensures f.onTimer.Done? && f.onEnd.Done? ==> calls == old(calls) + [old(serial[t])]
    {
      hide State.Inv, State.Evolves, State.Runs, State.Held, LeftKept, DuesKeptBut, CalcNextThink;
      ghost var s0 := S();
      SerialsMatch(s0);
      InItsList(s0, t);
      CallOnTimer(t, f.onTimer);
      ghost var s1 := S();
      if pool[t].killMe || f.stop {
        at := Finish(s0, t, f.onEnd);
        RunsButOne(s0, S(), t);
      } else {
        var due := CalcNextThink(universalTime, pool[t].toExec, pool[t].interval);
        RearmBranch(s0, s1, t, due);
        at := IndexOf(List(pool[t].flags.precise), t) + 1;
        pool := pool[t := pool[t].(inExec := false, toExec := due)];
        assert S() == s1.Rearm(t, due);
      }
    }
  
    method ProcessRepeatTimers(fast: bool, plans: seq<Firing>) returns (rest: seq<Firing>, ghost shots: seq<Shot>)
      requires Valid() && S().Held() == {}
      modifies this`pool, this`single, this`low, this`high, this`free, this`serial, this`holder, this`ended,
               this`delays, this`calls
      ensures Valid() && S().Held() == {}
      ensures old(S()).Evolves(S(), {})
      ensures RepeatersServed(old(S()), S(), Flags(true, fast, false), shots)
      ensures OthersKept(old(S()), S(), Flags(true, fast, false))
      ensures Suffix(rest, plans)
      ensures Quiet(plans) ==> QuietRound(old(S()), S(), Flags(true, fast, false), Stops(plans))
      ensures NoneDelays(plans) ==> delays == old(delays)
      ensures Consumed(plans, rest, |shots|) && |holder| >= |old(holder)| + SpawnedBy(plans, |shots|)
      ensures |calls| >= |old(calls)| + |shots| && (Quiet(plans) ==> calls == Called(old(calls), shots))
    {
      hide State.Inv, State.Evolves, State.Held, RepeatersServed, OthersKept, Circling;
      hide QuietCircling, QuietRound, Quiet, Stops, Suffix, NoneDelays, UndelayedFiring, Consumed, Spawned, SpawnedBy,
           Called;
      ConsumedNone(plans);
      ghost var was := calls;
      CalledNone(was);
      ghost var s0, f, stopped := S(), Flags(true, fast, false), Stops(plans);
      CircleStarts(s0, f);
      WholeIsSuffix(plans);
      QuietStarts(s0, f, stopped);
      shots := [];
      rest := plans;
      var i: nat := 0;
      while i < |List(fast)|
        invariant Circling(s0, S(), f, i, shots)
        invariant Suffix(rest, plans) && (NoneDelays(plans) ==> delays == old(delays))
        invariant Quiet(plans) ==> QuietCircling(s0, S(), f, i, stopped)
        invariant Consumed(plans, rest, |shots|) && |holder| >= |old(holder)| + SpawnedBy(plans, |shots|)
        invariant |calls| >= |was| + |shots| && (Quiet(plans) ==> calls == Called(was, shots))
        decreases |rest|, |List(fast)| - i
      {
        if rest != [] {
          SuffixHead(rest, plans);
        }
        OneConsumed(plans, rest, |shots|);
        i, rest, shots := VisitRepeat(fast, i, rest, s0, shots, Quiet(plans), stopped, was);
      }
      CirclingHolds(s0, S(), f, i, shots);
      CircleDone(s0, S(), f, shots);
      if Quiet(plans) {
        QuietRoundEnds(s0, S(), f, stopped);
      }
    }

    /** One element of the walk over a repeating list: fired if it is due. */
    method VisitRepeat(fast: bool, i: nat, plans: seq<Firing>, ghost s0: State, ghost shots: seq<Shot>,
                       ghost quiet: bool, ghost stopped: bool, ghost was: seq<nat>)
      returns (next: nat, rest: seq<Firing>, ghost more: seq<Shot>)
      requires Circling(s0, S(), Flags(true, fast, false), i, shots) && i < |List(fast)|
      requires quiet ==> QuietCircling(s0, S(), Flags(true, fast, false), i, stopped)
      requires quiet && plans != [] ==> plans[0].onTimer.Done? && plans[0].onEnd.Done? && (plans[0].stop ==> stopped)
      modifies this`pool, this`single, this`low, this`high, this`free, this`serial, this`holder, this`ended,
               this`delays, this`calls
      ensures Circling(s0, S(), Flags(true, fast, false), next, more)
      ensures quiet ==> QuietCircling(s0, S(), Flags(true, fast, false), next, stopped)
      ensures |rest| < |plans| || (rest == plans && |List(fast)| - next < |old(List(fast))| - i)
      ensures rest == plans || (plans != [] && rest == plans[1..])
      ensures (plans != [] ==> UndelayedFiring(plans[0])) ==> delays == old(delays)
      ensures more == shots || |more| == |shots| + 1
      ensures |holder| >= |old(holder)| + if more == shots || plans == [] then 0 else Spawned(plans[0].onTimer)
      ensures rest == if more == shots || plans == [] then plans else plans[1..]
      ensures |calls| >= |old(calls)| + |more| - |shots|
      ensures (plans == [] || (plans[0].onTimer.Done? && plans[0].onEnd.Done?)) && old(calls) == Called(was, shots) ==>
                calls == Called(was, more)
    {
      ghost var s1, f := S(), Flags(true, fast, false);
      hide State.Inv, State.Evolves, LeftKept, Circling, QuietCircling, DuesKeptBut;
      hide State.Held;
      InRepeatList(s1, f, i, shots, s0);
      CirclingHolds(s0, s1, f, i, shots);
      rest := plans;
      var t := List(fast)[i];
      if universalTime >= pool[t].toExec {
        var plan := QUIET;
        if rest != [] {
          plan, rest := rest[0], rest[1..];
        }
        next := FireRepeat(t, plan);
        FireRepeatCircles(s0, s1, S(), f, i, next, shots);
        if quiet {
          QuietShot(s0, s1, S(), f, i, next, plan.stop, stopped);
        }
        more := shots + [ShotOf(s1, t)];
        CalledOne(was, shots, ShotOf(s1, t));
      } else {
        CircleSkips(s0, s1, f, i, shots);
        if quiet {
          QuietSkip(s0, s1, f, i, stopped);
        }
        next, more := i + 1, shots;
      }
    }
  
    method RunFrame(think: bool, plans: seq<Firing>)
      returns (ghost singles: seq<Shot>, ghost lows: seq<Shot>, ghost highs: seq<Shot>)
      requires Valid() && S().Held() == {}
      modifies this`pool, this`single, this`low, this`high, this`free, this`serial, this`holder, this`ended,
               this`delays, this`calls
      ensures Valid() && S().Held() == {}
      ensures old(S()).Evolves(S(), {})
      ensures NoneLeftDue(S(), |old(holder)|, think) && ShotsAreSound(old(S()), S(), singles, think)
      ensures Quiet(plans) ==> singles == DueShots(old(S()), old(single), think)
      ensures Quiet(plans) ==> QuietFrame(old(S()), S(), think, Stops(plans))
      ensures if think then RepeatersServed(old(S()), S(), Flags(true, false, false), lows) else lows == []
      ensures RepeatersServed(old(S()), S(), Flags(true, true, false), highs)
      ensures delays == old(delays) ==> Follows(old(S()), S(), think)
      ensures NoneDelays(plans) ==> delays == old(delays)
      ensures |holder| >= |old(holder)| + SpawnedBy(plans, |singles| + |lows| + |highs|)
      ensures |calls| >= |old(calls)| + |singles| + |lows| + |highs|
      ensures Quiet(plans) ==> calls == Called(old(calls), singles + lows + highs)
    {
      hide QuietFrame, QuietRound, Untouched, Suffix, NoneDelays, Follows, Consumed, SpawnedBy, Called, Quiet, Stops;
      hide State.Inv, State.Evolves, State.Runs, State.Held, RepeatersServed, NoneLeftDue, ShotsAreSound, OthersKept;
      ghost var s0 := S();
      var rest;
      rest, singles := RunSingles(think, plans);
      ghost var s1 := S();
      RunsWeaken(s0, s1, s0.Held(), {});
      lows := [];
      ghost var p1 := rest;
      SuffixPlans(rest, plans);
      ConsumedNone(rest);
      if think {
        rest, lows := ProcessRepeatTimers(false, rest);
        SuffixPlans(rest, p1);
      } else {
        RunsReflexive(s1, {});
        CalledNone(calls);
      }
      ghost var s2 := S();
      ghost var p2 := rest;
      rest, highs := ProcessRepeatTimers(true, rest);
      AllConsumed(plans, p1, p2, |singles|, |lows|, |highs|);
      CalledMore(old(calls), singles, lows);
      CalledMore(old(calls), singles + lows, highs);
      FrameDone(s0, s1, s2, S(), think, singles, lows, highs);
      if delays == s0.delays {
        FrameFollows(s0, S(), think, lows, highs);
      }
      if Quiet(plans) {
        QuietRoundMore(s1, s2, Flags(true, false, false), Stops(p1), Stops(plans));
        QuietRoundMore(s2, S(), Flags(true, true, false), Stops(p2), Stops(plans));
        QuietFrameDone(s0, s1, s2, S(), think, Stops(plans));
      }
    }
  
    /** One engine frame. A repeater that fires is next due between the accuracy ago and one interval on, and, but
        for a delayed FireTimerOnce, where the re-arm rule puts it; and as long as time does not run backwards no
        one-shot is ever late by the accuracy. */
    method GameFrame(f: Frame) returns (ghost singles: seq<Shot>, ghost lows: seq<Shot>, ghost highs: seq<Shot>)
      requires Valid() && S().Held() == {}
      modifies this
      ensures Valid() && S().Held() == {}
      ensures Clock() == old(Clock()).Tick(f)
      ensures universalTime - old(universalTime)
              == if f.simulating && old(hasMapTicked) then f.curtime - old(lastTickedTime) else f.intervalPerTick
      ensures hasMapTicked && lastTickedTime == f.curtime
      ensures universalTime < old(timerThink) ==> timerThink == old(timerThink)
      ensures universalTime >= old(timerThink) ==>
                timerThink == if universalTime > old(timerThink) + 2.0 * TIMER_MIN_ACCURACY
                              then universalTime + TIMER_MIN_ACCURACY else old(timerThink) + TIMER_MIN_ACCURACY
      ensures old(universalTime) <= universalTime && OnTime(old(S()), old(timerThink)) ==>
                OnTime(S(), timerThink) && NoneLate(S(), |old(holder)|)
      ensures RearmedInRange(S(), lows) && RearmedInRange(S(), highs)
      ensures var s0, think := old(S()).(clock := universalTime), universalTime >= old(timerThink);
              && s0.Evolves(S(), {}) && NoneLeftDue(S(), |old(holder)|, think)
              && ShotsAreSound(s0, S(), singles, think)
              && (Quiet(f.plans) ==>
                    singles == DueShots(s0, old(single), think) && QuietFrame(s0, S(), think, Stops(f.plans)))
              && (if think then RepeatersServed(s0, S(), Flags(true, false, false), lows) else lows == [])
              && RepeatersServed(s0, S(), Flags(true, true, false), highs)
      ensures NoneDelays(f.plans) ==> delays == old(delays)
      ensures |holder| >= |old(holder)| + SpawnedBy(f.plans, |singles| + |lows| + |highs|)
      ensures |calls| >= |old(calls)| + |singles| + |lows| + |highs|
      ensures Quiet(f.plans) ==> calls == Called(old(calls), singles + lows + highs)
      ensures delays == old(delays) ==>
                Follows(old(S()).(clock := universalTime), S(), universalTime >= old(timerThink))
    {
      hide State.Inv, State.Evolves, State.Held, NoneLeftDue, RepeatersServed, ShotsAreSound, OnTime, NoneLate;
      hide RearmedInRange, QuietFrame, Quiet, Stops, DueShots, Follows, NoneDelays;
      ghost var before, was := S(), timerThink;
      if f.simulating && hasMapTicked {
        universalTime := universalTime + (f.curtime - lastTickedTime);
      } else {
        universalTime := universalTime + f.intervalPerTick;
      }
      lastTickedTime, hasMapTicked := f.curtime, true;
      ClockTicks(before, universalTime);
      ghost var s0 := S();
      assert s0 == before.(clock := universalTime);
      LaterIsOnTime(before, universalTime, was);
      var think := universalTime >= timerThink;
      singles, lows, highs := RunFrame(think, f.plans);
      SerialsMatch(S());
      InRange(s0, S(), Flags(true, false, false), lows, think);
      InRange(s0, S(), Flags(true, true, false), highs, true);
      if think {
        timerThink := CalcNextThink(universalTime, timerThink, TIMER_MIN_ACCURACY);
      }
      if OnTime(s0, was) {
        OnTimeFrame(s0, S(), was, think, timerThink);
      }
    }

    /** A run of engine frames. As long as no callback makes a delayed FireTimerOnce, every repeater of positive
        interval still there is due when the frames' clocks make it due; and if none touches the scheduler or
        answers Pl_Stop, all are still there. */
    method RunFrames(frames: seq<Frame>)
      requires Valid() && S().Held() == {}
      modifies this
      ensures Valid() && S().Held() == {} && Clock() == After(old(Clock()), frames)
      ensures frames != [] && (forall k :: 0 <= k < |frames| ==> frames[k].simulating) && old(hasMapTicked) ==>
                universalTime - old(universalTime) == frames[|frames| - 1].curtime - old(lastTickedTime)
      ensures Forward(old(Clock()), frames) && OnTime(old(S()), old(timerThink)) ==> OnTime(S(), timerThink)
      ensures (forall k :: 0 <= k < |frames| ==> Idle(frames[k].plans)) ==>
                KeptTime(old(S()), S(), Beats(old(Clock()), frames))
      ensures (forall k :: 0 <= k < |frames| ==> NoneDelays(frames[k].plans)) ==>
                Followed(old(S()), S(), Beats(old(Clock()), frames))
    {
      hide State.Inv, State.Held, OnTime, KeptTime, Followed, Framed, Idle, NoneDelays;
      ghost var s0, c0 := S(), Clock();
      ghost var onTime := Forward(c0, frames) && OnTime(s0, timerThink);
      ghost var idle := forall k :: 0 <= k < |frames| ==> Idle(frames[k].plans);
      ghost var undelayed := forall k :: 0 <= k < |frames| ==> NoneDelays(frames[k].plans);
      FramesStart(onTime, idle, undelayed);
      var i := 0;
      while i < |frames|
        invariant i <= |frames| && Valid() && S().Held() == {} && Clock() == After(c0, frames[..i])
        invariant Framed(s0, c0, frames[..i], onTime, idle, undelayed)
      {
        assert frames[..i + 1] == frames[..i] + [frames[i]];
        AnotherFrame(frames[i], s0, c0, frames[..i], onTime, idle, undelayed);
        i := i + 1;
      }
      assert frames[..i] == frames;
      if frames != [] && forall k :: 0 <= k < |frames| ==> frames[k].simulating {
        SimulatedTime(c0, frames);
      }
      FramesDone(s0, c0, frames, onTime, idle, undelayed);
    }

    /** What a run of frames keeps: `s0` and `c0` are the timers and the clock at its start, `past` the frames run. */
    ghost predicate Framed(s0: State, c0: Clockwork, past: seq<Frame>, onTime: bool, idle: bool, undelayed: bool)
      reads this
    {
      && (onTime ==> OnTime(S(), timerThink))
      && (idle ==> KeptTime(s0, S(), Beats(c0, past)))
      && (undelayed ==> Persists(s0, S()) && Followed(s0, S(), Beats(c0, past)))
    }

    lemma FramesStart(onTime: bool, idle: bool, undelayed: bool)
      requires Valid() && (onTime ==> OnTime(S(), timerThink))
      ensures Framed(S(), Clock(), [], onTime, idle, undelayed)
    {
      KeptTimeStarts(S());
      FollowedStarts(S());
    }

    lemma FramesDone(s0: State, c0: Clockwork, past: seq<Frame>, onTime: bool, idle: bool, undelayed: bool)
      requires Framed(s0, c0, past, onTime, idle, undelayed)
      ensures onTime ==> OnTime(S(), timerThink)
      ensures idle ==> KeptTime(s0, S(), Beats(c0, past))
      ensures undelayed ==> Followed(s0, S(), Beats(c0, past))
    {
    }

    method AnotherFrame(f: Frame, ghost s0: State, ghost c0: Clockwork, ghost past: seq<Frame>, ghost onTime: bool,
                        ghost idle: bool, ghost undelayed: bool)
      requires Valid() && S().Held() == {} && Clock() == After(c0, past)
               && Framed(s0, c0, past, onTime, idle, undelayed)
      requires onTime ==> universalTime <= Clock().Advanced(f)
      requires (idle ==> Idle(f.plans)) && (undelayed ==> NoneDelays(f.plans))
      modifies this
      ensures Valid() && S().Held() == {} && Clock() == After(c0, past + [f])
      ensures Framed(s0, c0, past + [f], onTime, idle, undelayed)
    {
      hide State.Inv, State.Held, OnTime, KeptTime, NoneLate, RepeatersServed, RearmedInRange, QuietFrame;
      hide State.Evolves, NoneLeftDue, ShotsAreSound, DueShots, Quiet, Stops, Followed, Persists, Follows, NoneDelays;
      ghost var s, was := S(), Clock();
      BeatsMore(c0, past, f);
      var _, _, _ := GameFrame(f);
      if idle {
        SerialsMatch(s);
        KeptTimeMore(s0, s, s.(clock := universalTime), S(), Beats(c0, past),
                     Beat(universalTime, universalTime >= was.think));
      }
      if undelayed {
        FollowedMore(s0, s, s.(clock := universalTime), S(), Beats(c0, past),
                     Beat(universalTime, universalTime >= was.think));
      }
    }

    /** Push the timers of one list that must not survive the map. */
    method PushDoomed(list: seq<nat>, stack: seq<nat>) returns (r: seq<nat>)
      requires forall t :: t in list ==> t < |pool|
      ensures r == stack + Doomed(S(), list)
    {
      r := stack;
      var i := 0;
      while i < |list|
        invariant i <= |list| && r == stack + Doomed(S(), list[..i])
      {
        assert list[i] in list && list[..i + 1][..i] == list[..i];
        if pool[list[i]].flags.noMapChange {
          r := r + [list[i]];
        }
        i := i + 1;
      }
      assert list[..i] == list;
    }

    method CollectDoomed() returns (all: seq<nat>)
      requires Valid()
      ensures all == Doomed(S(), single) + Doomed(S(), low) + Doomed(S(), high)
    {
      hide State.Inv, Doomed;
      ListedInPool(S());
      all := PushDoomed(single, []);
      all := PushDoomed(low, all);
      all := PushDoomed(high, all);
    }

    /** Whatever OnTimerEnd does, no timer of the old map that was to go outlives the call;
        and if it does nothing, no other timer goes. */
    method RemoveMapChangeTimers(plans: seq<Script>)
      requires Valid() && S().Held() == {}
      modifies this`pool, this`single, this`low, this`high, this`free, this`serial, this`holder, this`ended,
               this`delays, this`calls
      ensures Kept()
      ensures forall t :: 0 <= t < |old(pool)| && old(pool)[t].flags.noMapChange && t !in old(free) ==>
                old(serial)[t] in ended
      ensures (forall k :: 0 <= k < |plans| ==> plans[k].Done?) ==>
                forall t :: 0 <= t < |old(pool)| && !old(pool)[t].flags.noMapChange && t !in old(free) ==>
                  old(S()).Same(S(), t) && t !in free && serial[t] !in ended
    {
      hide State.Sorted, State.KeepsOrder, State.Inv, State.Runs, State.Held, Doomed, Doing, Spared;
      ghost var s0 := S();
      RunsReflexive(s0, {});
      var toKill := CollectDoomed();
      ghost var all := toKill;
      DoomedAll(s0, all);
      ghost var quiet := forall k :: 0 <= k < |plans| ==> plans[k].Done?;
      var k := 0;
      while toKill != []
        invariant Valid() && S().Held() == {} && s0.Runs(S(), {})
        invariant toKill <= all
        invariant Doing(s0, S(), all, |toKill|)
        invariant quiet ==> Spared(s0, S(), all, |toKill|)
      {
        var plan := if k < |plans| then plans[k] else Done;
        KillTop(s0, all, |toKill|, toKill[|toKill| - 1], plan);
        toKill := toKill[..|toKill| - 1];
        k := k + 1;
      }
      MapChangeDone(s0, S(), all);
    }

    /** One pop of the kill stack; the entry may meanwhile have been killed, or killed and recycled. */
    method KillTop(ghost s0: State, ghost all: seq<nat>, ghost left: nat, t: nat, plan: Script)
      requires Valid() && S().Held() == {} && s0.Inv() && s0.Runs(S(), {})
      requires Doing(s0, S(), all, left) && 0 < left && t == all[left - 1]
      modifies this`pool, this`single, this`low, this`high, this`free, this`serial, this`holder, this`ended,
               this`delays, this`calls
      ensures Valid() && S().Held() == {} && s0.Runs(S(), {})
      ensures Doing(s0, S(), all, left - 1)
      ensures plan.Done? && Spared(s0, old(S()), all, left) ==> Spared(s0, S(), all, left - 1)
    {
      ghost var s1 := S();
      Killable(s0, s1, all, left);
      hide State.Inv, State.Evolves, State.Runs, Doing, Spared;
      KillTimer(t, plan);
      RunsWeaken(s1, S(), s1.Held(), {});
      RunsTransitive(s0, s1, S(), {});
      StaysInPool(s1, S(), t);
      OneDone(s0, s1, S(), all, left);
      if plan.Done? && Spared(s0, s1, all, left) {
        OneSpared(s0, s1, S(), all, left);
      }
    }
  }
}
