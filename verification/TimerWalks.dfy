/** What a frame's walks over the timer lists keep, whatever the callbacks do to those lists. */
module TimerWalks {
  import opened Sequences
  import opened Timers

  /** Reaching `t` again after plugin code ran: what stands left of it is what stood left of it, plus newcomers. */
  ghost predicate LeftKept(s0: State, s1: State, l0: seq<nat>, l1: seq<nat>, t: nat, at: nat) {
    && at <= |l1|
    && (forall a: nat :: a in l1[..at] && s0.Same(s1, a) ==> Before(l0, a, t))
    && (forall a: nat :: Before(l0, a, t) && a in l1 && s0.Same(s1, a) ==> a in l1[..at])
  }

  lemma LeftOf(s0: State, s1: State, f: Flags, t: nat)
    requires s0.Inv() && s1.Inv() && s0.Evolves(s1, {}) && s0.Same(s1, t)
    requires t in s0.ListOf(f) && t in s1.ListOf(f)
    ensures LeftKept(s0, s1, s0.ListOf(f), s1.ListOf(f), t, IndexOf(s1.ListOf(f), t))
  {
    var l0, l1 := s0.ListOf(f), s1.ListOf(f);
    var at := IndexOf(l1, t);
    forall a: nat | a in l1[..at] && s0.Same(s1, a) ensures Before(l0, a, t) {
      var k :| 0 <= k < at && l1[k] == a;
      assert Before(l1, a, t);
    }
    forall a: nat | Before(l0, a, t) && a in l1 && s0.Same(s1, a) ensures a in l1[..at] {
      var k := IndexOf(l1, a);
      assert NoDup(l0);
      if k > at {
        assert Before(l1, t, a);
        assert Before(l0, t, a);
        NoTwoOrders(l0, a, t);
      } else if k == at {
        NoTwoOrders(l0, a, t);
      }
    }
  }

  lemma NoTwoOrders(s: seq<nat>, a: nat, b: nat)
    requires NoDup(s) && Before(s, a, b)
    ensures !Before(s, b, a) && a != b
  {
  }

  ghost predicate NoneEarlier(s: State, from: nat, due: real) {
    from <= |s.single| && forall a :: a in s.single[from..] && a < |s.pool| ==> due <= s.pool[a].toExec
  }

  /** The same once `t` is unlinked: the iterator that `erase` returns. */
  lemma LeftOfErased(s0: State, s1: State, f: Flags, t: nat)
    requires s0.Inv() && s1.Inv() && s0.Evolves(s1, {}) && s0.Same(s1, t)
    requires t in s0.ListOf(f) && t in s1.ListOf(f)
    ensures LeftKept(s0, s1.Release(t), s0.ListOf(f), s1.Release(t).ListOf(f), t, IndexOf(s1.ListOf(f), t))
    ensures var at := IndexOf(s1.ListOf(f), t);
            s1.Release(t).ListOf(f) == s1.ListOf(f)[..at] + s1.ListOf(f)[at + 1..]
  {
    hide State.Inv, State.Evolves, NoDup;
    var l0, l1 := s0.ListOf(f), s1.ListOf(f);
    var at := IndexOf(l1, t);
    LeftOf(s0, s1, f, t);
    ListsDiffer(s1, f);
    WithoutAt(l1, at);
    OneErased(s0, s1, s1.Release(t), l0, l1, t, at);
  }

  lemma OneErased(s0: State, s1: State, r: State, l0: seq<nat>, l1: seq<nat>, t: nat, at: nat)
    requires LeftKept(s0, s1, l0, l1, t, at) && at < |l1| && r.serial == s1.serial
    ensures LeftKept(s0, r, l0, l1[..at] + l1[at + 1..], t, at)
  {
    hide Before;
    var l := l1[..at] + l1[at + 1..];
    assert l[..at] == l1[..at];
    forall a: nat | s0.Same(r, a) ensures s0.Same(s1, a) {}
  }

  lemma ListsDiffer(s: State, f: Flags)
    requires s.Inv()
    ensures NoDup(s.ListOf(f))
  {
  }

  /** Right of an erased one-shot nothing is due before it was. */
  lemma RightOfErased(s: State, t: nat)
    requires s.Inv() && s.Alive(t) && t in s.single
    ensures NoneEarlier(s.Release(t), IndexOf(s.single, t), s.pool[t].toExec)
  {
    SinglesSorted(s);
    SinglesDiffer(s);
    hide State.Inv, State.Sorted, NoDup, Before;
    var at := IndexOf(s.single, t);
    WithoutTail(s.single, at);
    LaterInLine(s, at);
  }

  lemma WithoutTail(l: seq<nat>, at: nat)
    requires NoDup(l) && at < |l|
    ensures at <= |Without(l, l[at])| && Without(l, l[at])[at..] == l[at + 1..]
  {
    WithoutAt(l, at);
  }

  lemma LaterInLine(s: State, at: nat)
    requires s.Sorted() && at < |s.single| && s.single[at] < |s.pool|
    ensures forall a :: a in s.single[at + 1..] && a < |s.pool| ==> s.pool[s.single[at]].toExec <= s.pool[a].toExec
  {
    hide State.Sorted;
    forall a | a in s.single[at + 1..] && a < |s.pool| ensures s.pool[s.single[at]].toExec <= s.pool[a].toExec {
      var k :| 0 <= k < |s.single| - at - 1 && s.single[at + 1..][k] == a;
      InOrder(s, at, at + 1 + k);
    }
  }

  lemma SinglesDiffer(s: State)
    requires s.Inv()
    ensures NoDup(s.single)
  {
  }

  lemma InOrder(s: State, j: nat, k: nat)
    requires s.Sorted() && j < k < |s.single| && s.single[j] < |s.pool| && s.single[k] < |s.pool|
    ensures s.pool[s.single[j]].toExec <= s.pool[s.single[k]].toExec
  {
    assert Before(s.single, s.single[j], s.single[k]);
  }

  /** An object that has changed hands, or is new, carries a creation number of its own time. */
  lemma Newcomer(s0: State, s1: State, t: nat)
    requires s0.Inv() && s1.Inv() && s0.Evolves(s1, {}) && t < |s1.pool| && !s0.Same(s1, t)
    ensures s1.serial[t] >= |s0.holder|
  {
    hide State.Sorted, State.KeepsOrder;
    assert forall n :: 0 <= n < |s0.holder| ==> s1.holder[n] == s0.holder[n];
  }

  /** One OnTimer call made by a frame. */
  datatype Shot = Shot(serial: nat, due: real, precise: bool)

  /** The calls a frame makes over `list` if no callback touches the scheduler: the due timers,
      and off think frames only the tick-precise ones. */
  function DueShots(s: State, list: seq<nat>, think: bool): seq<Shot> {
    if list == [] then [] else
      var t := list[0];
      (if t < |s.pool| && t < |s.serial| && s.pool[t].toExec <= s.clock && (think || s.pool[t].flags.precise)
       then [Shot(s.serial[t], s.pool[t].toExec, s.pool[t].flags.precise)] else [])
      + DueShots(s, list[1..], think)
  }

  lemma {:induction false} DueShotsFrame(s: State, r: State, list: seq<nat>, think: bool)
    requires r.serial == s.serial && |r.pool| == |s.pool| && s.clock == r.clock
    requires forall k :: 0 <= k < |list| ==> list[k] < |s.pool| && r.pool[list[k]] == s.pool[list[k]]
    ensures DueShots(r, list, think) == DueShots(s, list, think)
  {
    if list != [] {
      DueShotsFrame(s, r, list[1..], think);
    }
  }

  lemma {:induction false} NoneDue(s: State, list: seq<nat>, think: bool)
    requires forall k :: 0 <= k < |list| && list[k] < |s.pool| ==> s.clock < s.pool[list[k]].toExec
    ensures DueShots(s, list, think) == []
  {
    if list != [] {
      NoneDue(s, list[1..], think);
    }
  }

  /** What the walk over the one-shots has left behind it: newcomers, and off think frames the imprecise ones. */
  ghost predicate Swept(s: State, visited: seq<nat>, born: nat, think: bool)
    requires |s.serial| == |s.pool|
  {
    forall a :: a in visited && a < |s.pool| ==> s.serial[a] >= born || (!think && !s.pool[a].flags.precise)
  }

  lemma SweptStays(s0: State, s1: State, i: nat, at: nat, born: nat, think: bool)
    requires s0.Inv() && s1.Inv() && s0.Evolves(s1, {}) && born <= |s0.holder|
    requires i < |s0.single| && Swept(s0, s0.single[..i], born, think)
    requires LeftKept(s0, s1, s0.single, s1.single, s0.single[i], at)
    ensures Swept(s1, s1.single[..at], born, think)
  {
    forall a | a in s1.single[..at] && a < |s1.pool|
      ensures s1.serial[a] >= born || (!think && !s1.pool[a].flags.precise)
    {
      if s0.Same(s1, a) {
        BeforeGivesPrefix(s0.single, a, i);
        assert a in s0.single[..i];
      } else {
        Newcomer(s0, s1, a);
      }
    }
  }

  ghost predicate ShotsAreSound(s0: State, s: State, shots: seq<Shot>, think: bool) {
    && (forall k :: 0 <= k < |shots| ==>
          && shots[k].due <= s.clock && (think || shots[k].precise)
          && shots[k].serial in s.ended && shots[k].serial !in s0.ended)
    && (forall j, k :: 0 <= j < k < |shots| ==>
          shots[j].due <= shots[k].due && shots[j].serial != shots[k].serial)
  }

  /** Every one-shot that was pending and due before creation `born` has been dealt with. */
  ghost predicate NoneLeftDue(s: State, born: nat, think: bool)
    requires |s.serial| == |s.pool|
  {
    forall a :: a in s.single && a < |s.pool| && s.pool[a].toExec <= s.clock ==>
      s.serial[a] >= born || (!think && !s.pool[a].flags.precise)
  }

  /** Stopping at the first timer that is not due misses none, because the list is sorted. */
  lemma EarlyBreak(s: State, i: nat, born: nat, think: bool)
    requires s.Inv() && i <= |s.single| && Swept(s, s.single[..i], born, think)
    requires i < |s.single| ==> s.single[i] < |s.pool| && s.clock < s.pool[s.single[i]].toExec
    ensures NoneLeftDue(s, born, think)
    ensures forall a :: a in s.single[i..] && a < |s.pool| ==> s.clock < s.pool[a].toExec
  {
    forall a | a in s.single && a !in s.single[..i] && a < |s.pool| ensures s.clock < s.pool[a].toExec {
      var k := IndexOf(s.single, a);
      assert forall j :: 0 <= j < i ==> s.single[..i][j] == s.single[j];
      assert k > i ==> Before(s.single, s.single[i], a);
    }
    forall a | a in s.single[i..] && a < |s.pool| ensures a !in s.single[..i] {
      var k :| 0 <= k < |s.single| - i && s.single[i..][k] == a;
      assert s.single[i + k] == a;
    }
  }

  /** The one-shot walk's invariant: `s0` is the frame's start, `s` now, `i` the iterator. */
  ghost predicate Walking(s0: State, s: State, i: nat, think: bool, shots: seq<Shot>) {
    && s0.Inv() && s.Inv() && s.Held() == {} && s0.Held() == {} && s0.Runs(s, {})
    && i <= |s.single| && Swept(s, s.single[..i], |s0.holder|, think)
    && (forall k :: 0 <= k < |shots| ==> NoneEarlier(s, i, shots[k].due))
    && ShotsAreSound(s0, s, shots, think)
  }

  ghost function ShotOf(s: State, t: nat): Shot
    requires t < |s.pool| == |s.serial|
  {
    Shot(s.serial[t], s.pool[t].toExec, s.pool[t].flags.precise)
  }

  lemma WalkStarts(s: State, think: bool)
    requires s.Inv() && s.Held() == {}
    ensures Walking(s, s, 0, think, [])
  {
    RunsReflexive(s, {});
  }

  lemma WalkAt(s0: State, s: State, i: nat, think: bool, shots: seq<Shot>)
    requires Walking(s0, s, i, think, shots) && i < |s.single|
    ensures s.Inv() && s.Held() == {}
    ensures var t := s.single[i];
            && s.Alive(t) && !s.pool[t].inExec && !s.pool[t].flags.repeats && s.serial[t] !in s.ended
            && |s.serial| == |s.pool| && IndexOf(s.single, t) == i
            && Without(s.single, t) == s.single[..i] + s.single[i + 1..]
  {
    InList(s, i);
    QuietSteps(s, i);
  }

  lemma WalkEnds(s0: State, s: State, i: nat, think: bool, shots: seq<Shot>)
    requires Walking(s0, s, i, think, shots)
    requires i < |s.single| ==> s.single[i] < |s.pool| && s.clock < s.pool[s.single[i]].toExec
    ensures s.Inv() && s.Held() == {} && s0.Held() == {} && s0.Runs(s, {}) && |s.serial| == |s.pool|
    ensures NoneLeftDue(s, |s0.holder|, think) && ShotsAreSound(s0, s, shots, think)
    ensures QuietWalking(s0, s, i, think, shots) ==> shots == DueShots(s0, s0.single, think) && Untouched(s0, s)
  {
    EarlyBreak(s, i, |s0.holder|, think);
    if QuietWalking(s0, s, i, think, shots) {
      QuietWalkEnds(s0, s, i, think, shots);
    }
  }

  lemma WalkSkips(s0: State, s: State, i: nat, think: bool, shots: seq<Shot>)
    requires Walking(s0, s, i, think, shots) && i < |s.single|
    requires s.single[i] < |s.pool| && !think && !s.pool[s.single[i]].flags.precise
    ensures Walking(s0, s, i + 1, think, shots)
  {
    assert s.single[..i + 1] == s.single[..i] + [s.single[i]];
    forall k | 0 <= k < |shots| ensures NoneEarlier(s, i + 1, shots[k].due) {
      assert forall a :: a in s.single[i + 1..] ==> a in s.single[i..];
    }
  }

  lemma WalkFires(s0: State, s1: State, s2: State, i: nat, at: nat, think: bool, shots: seq<Shot>)
    requires Walking(s0, s1, i, think, shots) && i < |s1.single|
    requires var t := s1.single[i];
             && t < |s1.pool| && s1.pool[t].toExec <= s1.clock && (think || s1.pool[t].flags.precise)
             && s2.Inv() && s1.Runs(s2, {}) && s2.Held() == {} && s1.Same(s2, t)
             && s2.serial[t] in s2.ended && s2.serial[t] !in s1.ended
             && LeftKept(s1, s2, s1.single, s2.single, t, at) && NoneEarlier(s2, at, s1.pool[t].toExec)
    ensures Walking(s0, s2, at, think, shots + [ShotOf(s1, s1.single[i])])
  {
    hide State.Inv, State.Evolves, State.Held, Swept, NoneEarlier, ShotsAreSound;
    var t := s1.single[i];
    RunsTransitive(s0, s1, s2, {});
    EvolvesBasics(s0, s1);
    EvolvesBasics(s1, s2);
    SweptStays(s1, s2, i, at, |s0.holder|, think);
    forall k | 0 <= k < |shots|
      ensures shots[k].due <= s1.pool[t].toExec && NoneEarlier(s2, at, shots[k].due)
    {
      EarlierThan(s1, i, shots[k].due);
      NoneEarlierThan(s2, at, s1.pool[t].toExec, shots[k].due);
    }
    OneMoreSound(s0, s1, s2, t, think, shots);
    OneMoreNoneEarlier(s2, at, s1.pool[t].toExec, shots, ShotOf(s1, t));
  }

  lemma EarlierThan(s: State, i: nat, due: real)
    requires NoneEarlier(s, i, due) && i < |s.single| && s.single[i] < |s.pool|
    ensures due <= s.pool[s.single[i]].toExec
  {
    assert s.single[i..][0] == s.single[i];
  }

  lemma NoneEarlierThan(s: State, at: nat, due: real, earlier: real)
    requires NoneEarlier(s, at, due) && earlier <= due
    ensures NoneEarlier(s, at, earlier)
  {
  }

  lemma OneMoreNoneEarlier(s: State, at: nat, due: real, shots: seq<Shot>, shot: Shot)
    requires forall k :: 0 <= k < |shots| ==> NoneEarlier(s, at, shots[k].due)
    requires NoneEarlier(s, at, due) && shot.due == due
    ensures forall k :: 0 <= k < |shots + [shot]| ==> NoneEarlier(s, at, (shots + [shot])[k].due)
  {
  }

  lemma OneMoreSound(s0: State, s1: State, s2: State, t: nat, think: bool, shots: seq<Shot>)
    requires ShotsAreSound(s0, s1, shots, think) && s1.clock == s2.clock && s0.ended <= s1.ended <= s2.ended
    requires t < |s1.pool| == |s1.serial| && s1.pool[t].toExec <= s1.clock && (think || s1.pool[t].flags.precise)
    requires s1.serial[t] in s2.ended && s1.serial[t] !in s1.ended
    requires forall k :: 0 <= k < |shots| ==> shots[k].due <= s1.pool[t].toExec
    ensures ShotsAreSound(s0, s2, shots + [ShotOf(s1, t)], think)
  {
    EndedGrows(s0.ended, s1.ended);
    EndedGrows(s1.ended, s2.ended);
  }

  lemma QuietTail(plans: seq<Firing>)
    requires plans != []
    ensures Quiet(plans) ==> Quiet(plans[1..]) && plans[0].onTimer.Done? && plans[0].onEnd.Done?
  {
  }

  /** With nothing running in the callbacks the list just loses the timer fired. */
  lemma QuietSteps(s: State, i: nat)
    requires s.Inv() && i < |s.single|
    ensures IndexOf(s.single, s.single[i]) == i
    ensures Without(s.single, s.single[i]) == s.single[..i] + s.single[i + 1..]
  {
    WithoutAt(s.single, i);
  }

  lemma QuietTails(s1: State, s2: State, i: nat)
    requires s1.Inv() && i < |s1.single| && s1.single[i] < |s1.pool|
    requires var t := s1.single[i]; s2 == s1.Mark(t).End(t).Release(t)
    ensures s2.single == s1.single[..i] + s1.single[i + 1..]
    ensures s2.serial == s1.serial && |s2.pool| == |s1.pool| == |s1.serial| && s2.clock == s1.clock
    ensures forall k :: i < k < |s1.single| ==>
              s1.single[k] < |s1.pool| && s2.pool[s1.single[k]] == s1.pool[s1.single[k]]
  {
    hide State.Sorted, State.KeepsOrder;
    QuietSteps(s1, i);
    assert NoDup(s1.single);
    forall k | i < k < |s1.single| ensures s1.single[k] < |s1.pool| {
      assert s1.single[k] in s1.single;
    }
  }

  /** One quiet step of the walk takes exactly the head off what is left to fire. */
  lemma QuietFires(s1: State, s2: State, i: nat, think: bool)
    requires s1.Inv() && s1.Held() == {} && i < |s1.single| && s1.single[i] < |s1.pool|
    requires var t := s1.single[i];
             && s1.pool[t].toExec <= s1.clock && (think || s1.pool[t].flags.precise)
             && s2 == s1.Mark(t).End(t).Release(t) && s2.Inv()
    ensures |s2.single| == |s1.single| - 1
    ensures DueShots(s1, s1.single[i..], think)
            == [ShotOf(s1, s1.single[i])] + DueShots(s2, s2.single[i..], think)
  {
    var t := s1.single[i];
    QuietTails(s1, s2, i);
    hide State.Inv, State.Held, State.Mark, State.End, State.Release;
    var l := s1.single[i + 1..];
    assert s2.single[i..] == l;
    DueShotsCons(s1, s1.single[i..], think);
    assert s1.single[i..][1..] == l;
    forall k | 0 <= k < |l|
      ensures l[k] < |s1.pool| && s2.pool[l[k]] == s1.pool[l[k]]
    {
      assert s1.single[i + 1 + k] == l[k];
    }
    DueShotsFrame(s1, s2, l, think);
  }

  lemma DueShotsCons(s: State, list: seq<nat>, think: bool)
    requires list != [] && list[0] < |s.pool| == |s.serial|
    requires s.pool[list[0]].toExec <= s.clock && (think || s.pool[list[0]].flags.precise)
    ensures DueShots(s, list, think) == [ShotOf(s, list[0])] + DueShots(s, list[1..], think)
  {
  }

  lemma QuietSkips(s: State, i: nat, think: bool)
    requires s.Inv() && i < |s.single| && s.single[i] < |s.pool| && !think && !s.pool[s.single[i]].flags.precise
    ensures DueShots(s, s.single[i..], think) == DueShots(s, s.single[i + 1..], think)
  {
    assert s.single[i..][1..] == s.single[i + 1..];
  }

  /** With nothing running in the callbacks, what is left is what there was, and no repeater is touched. */
  ghost predicate Untouched(s0: State, s: State) {
    && |s.pool| == |s0.pool| && s.serial == s0.serial && s.clock == s0.clock && s.holder == s0.holder
    && (forall a: nat :: s.Alive(a) ==> s0.Alive(a) && s.pool[a] == s0.pool[a])
    && (forall a: nat :: s0.Alive(a) && s0.pool[a].flags.repeats ==> s.Alive(a))
  }

  /** What is still to fire on a quiet walk, ahead of the iterator. */
  ghost predicate QuietWalking(s0: State, s: State, i: nat, think: bool, shots: seq<Shot>) {
    && s0.Inv() && s.Inv() && i <= |s.single|
    && shots + DueShots(s, s.single[i..], think) == DueShots(s0, s0.single, think)
    && Untouched(s0, s)
  }

  lemma QuietWalkStarts(s: State, think: bool)
    requires s.Inv()
    ensures QuietWalking(s, s, 0, think, [])
  {
    assert s.single[0..] == s.single;
  }

  lemma SnocCons(a: seq<Shot>, x: Shot, b: seq<Shot>)
    ensures a + ([x] + b) == (a + [x]) + b
  {
  }

  lemma QuietWalkFires(s0: State, s1: State, s2: State, i: nat, think: bool, shots: seq<Shot>)
    requires QuietWalking(s0, s1, i, think, shots)
    requires s1.Held() == {} && i < |s1.single| && s1.single[i] < |s1.pool|
    requires var t := s1.single[i];
             && s1.pool[t].toExec <= s1.clock && (think || s1.pool[t].flags.precise)
             && s2 == s1.Mark(t).End(t).Release(t) && s2.Inv()
    ensures QuietWalking(s0, s2, i, think, shots + [ShotOf(s1, s1.single[i])])
  {
    assert |s1.serial| == |s1.pool|;
    UntouchedFires(s0, s1, s2, s1.single[i]);
    hide Untouched, State.Inv, State.Mark, State.End, State.Release, State.Held, DueShots;
    QuietFires(s1, s2, i, think);
    var shot := ShotOf(s1, s1.single[i]);
    SnocCons(shots, shot, DueShots(s2, s2.single[i..], think));
  }

  lemma UntouchedFires(s0: State, s1: State, s2: State, t: nat)
    requires Untouched(s0, s1) && s1.Inv() && t in s1.single && t < |s1.pool| == |s1.serial|
    requires s2 == s1.Mark(t).End(t).Release(t)
    ensures Untouched(s0, s2)
  {
    hide State.Sorted, State.Accounted, State.Guarded;
  }

  lemma QuietWalkSkips(s0: State, s: State, i: nat, think: bool, shots: seq<Shot>)
    requires QuietWalking(s0, s, i, think, shots)
    requires i < |s.single| && s.single[i] < |s.pool| && !think && !s.pool[s.single[i]].flags.precise
    ensures QuietWalking(s0, s, i + 1, think, shots)
  {
    QuietSkips(s, i, think);
  }

  lemma QuietWalkEnds(s0: State, s: State, i: nat, think: bool, shots: seq<Shot>)
    requires QuietWalking(s0, s, i, think, shots)
    requires forall a :: a in s.single[i..] && a < |s.pool| ==> s.clock < s.pool[a].toExec
    ensures shots == DueShots(s0, s0.single, think)
  {
    var l := s.single[i..];
    assert forall k :: 0 <= k < |l| ==> l[k] in l;
    NoneDue(s, l, think);
  }

  ghost predicate Fired(shots: seq<Shot>, n: nat) {
    exists k :: 0 <= k < |shots| && shots[k].serial == n
  }

  /** Behind the walk over a repeating list every timer of this frame has fired or was not due. */
  ghost predicate Served(s0: State, s: State, visited: seq<nat>, shots: seq<Shot>)
    requires |s.serial| == |s.pool|
  {
    forall a :: a in visited && a < |s.pool| && s0.Same(s, a) && s.pool[a].interval > 0.0 ==>
      Fired(shots, s.serial[a]) || s.clock < s.pool[a].toExec
  }

  /** No creation fires twice: what has fired is over, or stands behind the iterator. */
  ghost predicate FiredOnce(s: State, visited: seq<nat>, shots: seq<Shot>)
    requires |s.serial| == |s.pool|
  {
    && (forall k :: 0 <= k < |shots| ==>
          && shots[k].due <= s.clock && shots[k].serial < |s.holder|
          && (shots[k].serial in s.ended || (s.Pending(shots[k].serial) && s.holder[shots[k].serial] in visited)))
    && (forall j, k :: 0 <= j < k < |shots| ==> shots[j].serial != shots[k].serial)
  }

  /** A repeater that fired is next due where the re-arm rule puts it, counted from the time it was due; or one
      interval from now, but only if there has been a delayed FireTimerOnce meanwhile. */
  ghost predicate RearmedTo(clock: real, x: Timer, shot: Shot, delayed: bool) {
    && x.flags.precise == shot.precise
    && (x.toExec == CalcNextThink(clock, shot.due, x.interval) || (delayed && x.toExec == clock + x.interval))
  }

  ghost predicate Rearmed(s: State, delays: nat, shots: seq<Shot>)
    requires |s.serial| == |s.pool|
  {
    forall k :: 0 <= k < |shots| && s.Pending(shots[k].serial) ==>
      RearmedTo(s.clock, s.pool[s.holder[shots[k].serial]], shots[k], delays < s.delays)
  }

  /** What fired was pending at the start, if it was created by then, and due when it was due at the start; again
      but for a delayed FireTimerOnce. */
  ghost predicate DueAsItWas(s0: State, s: State, shots: seq<Shot>) {
    |s0.serial| == |s0.pool| &&
    forall k :: 0 <= k < |shots| && shots[k].serial < |s0.holder| ==>
      && s0.Pending(shots[k].serial)
      && var x := s0.pool[s0.holder[shots[k].serial]];
         x.flags.precise == shots[k].precise && (s0.delays == s.delays ==> shots[k].due == x.toExec)
  }

  /** A timer that has not fired keeps its due time, unless plugin code asked for a delayed FireTimerOnce of it. */
  ghost predicate Unfired(s0: State, s: State, f: Flags, shots: seq<Shot>)
    requires |s.serial| == |s.pool|
  {
    |s0.serial| == |s0.pool| &&
    forall a ::
      && 0 <= a < |s0.pool| && s0.Same(s, a) && s.pool[a].flags.precise == f.precise
      && !Fired(shots, s.serial[a]) ==>
        || s.pool[a].toExec == s0.pool[a].toExec
        || (s0.delays < s.delays && s.pool[a].toExec == s.clock + s.pool[a].interval)
  }

  lemma SameThrough(s0: State, s1: State, s2: State)
    requires s0.Inv() && s1.Inv() && s2.Inv() && s0.Evolves(s1, {}) && s1.Evolves(s2, {})
    ensures |s0.pool| == |s0.serial| <= |s1.pool| == |s1.serial| <= |s2.pool| == |s2.serial|
    ensures s1.clock == s0.clock && s2.clock == s1.clock && s0.delays <= s1.delays <= s2.delays
    ensures forall a :: 0 <= a < |s0.pool| && s0.Same(s2, a) ==>
              s0.Same(s1, a) && s1.Same(s2, a) && s1.pool[a].flags == s0.pool[a].flags == s2.pool[a].flags
              && s1.pool[a].interval == s0.pool[a].interval == s2.pool[a].interval
  {
    hide State.Sorted, State.KeepsOrder, State.BornNow;
  }

  lemma UnfiredMore(s0: State, s1: State, s2: State, f: Flags, t: nat, shots: seq<Shot>)
    requires s0.Inv() && s1.Inv() && s2.Inv() && s0.Evolves(s1, {}) && s1.Evolves(s2, {}) && t < |s1.pool|
    requires Unfired(s0, s1, f, shots) && DuesKeptBut(s1, s2, t) && s1.Same(s2, t)
    ensures Unfired(s0, s2, f, shots + [ShotOf(s1, t)])
  {
    hide State.Inv, State.Evolves;
    SameThrough(s0, s1, s2);
    var more := shots + [ShotOf(s1, t)];
    assert more[|shots|].serial == s2.serial[t];
    forall a | 0 <= a < |s0.pool| && s0.Same(s2, a) && s2.pool[a].flags.precise == f.precise
      && !Fired(more, s2.serial[a])
      ensures s2.pool[a].toExec == s0.pool[a].toExec
              || (s0.delays < s2.delays && s2.pool[a].toExec == s2.clock + s2.pool[a].interval)
    {
      assert s1.Same(s2, a) && a != t;
      FiredMore(shots, ShotOf(s1, t), s2.serial[a]);
    }
  }

  lemma DueAsItWasMore(s0: State, s1: State, s2: State, f: Flags, t: nat, shots: seq<Shot>)
    requires s0.Inv() && s1.Inv() && s2.Inv() && s0.Evolves(s1, {}) && s1.Evolves(s2, {})
    requires DueAsItWas(s0, s1, shots) && Unfired(s0, s1, f, shots)
    requires s1.Alive(t) && |s1.pool| == |s1.serial| && s1.pool[t].flags.precise == f.precise
             && !Fired(shots, s1.serial[t])
    ensures DueAsItWas(s0, s2, shots + [ShotOf(s1, t)])
  {
    hide State.Sorted, State.KeepsOrder, State.BornNow, State.Partitioned, State.Guarded;
    SameThrough(s0, s1, s2);
    var more, n := shots + [ShotOf(s1, t)], s1.serial[t];
    if n < |s0.holder| {
      assert s1.Pending(n);
      PendingBefore(s0, s1, n);
    }
    hide State.Evolves, State.Inv;
    forall k | 0 <= k < |more| && more[k].serial < |s0.holder|
      ensures s0.Pending(more[k].serial) && s0.pool[s0.holder[more[k].serial]].flags.precise == more[k].precise
      ensures s0.delays == s2.delays ==> more[k].due == s0.pool[s0.holder[more[k].serial]].toExec
    {
      assert k < |shots| ==> more[k] == shots[k];
    }
  }

  lemma FiredMore(shots: seq<Shot>, shot: Shot, n: nat)
    ensures Fired(shots + [shot], n) <==> Fired(shots, n) || shot.serial == n
  {
    var more := shots + [shot];
    if Fired(shots, n) {
      var k :| 0 <= k < |shots| && shots[k].serial == n;
      assert more[k].serial == n;
    }
    assert more[|shots|] == shot;
    assert forall k :: 0 <= k < |shots| ==> more[k] == shots[k];
  }

  lemma PendingBefore(s: State, r: State, n: nat)
    requires s.Inv() && r.Inv() && s.Evolves(r, {}) && n < |s.holder| && r.Pending(n)
    ensures s.Pending(n) && r.holder[n] == s.holder[n] && s.Same(r, s.holder[n])
  {
    hide State.Sorted, State.KeepsOrder, State.BornNow;
    var a := s.holder[n];
    assert r.holder[n] == a;
  }

  lemma RearmedStays(s1: State, s2: State, delays: nat, t: nat, shots: seq<Shot>)
    requires s1.Inv() && s2.Inv() && s1.Evolves(s2, {}) && DuesKeptBut(s1, s2, t) && t < |s1.serial|
    requires Rearmed(s1, delays, shots) && delays <= s1.delays && !Fired(shots, s1.serial[t])
    requires forall k :: 0 <= k < |shots| ==> shots[k].serial < |s1.holder|
    ensures Rearmed(s2, delays, shots)
  {
    forall k | 0 <= k < |shots| && s2.Pending(shots[k].serial)
      ensures RearmedTo(s2.clock, s2.pool[s2.holder[shots[k].serial]], shots[k], delays < s2.delays)
    {
      PendingBefore(s1, s2, shots[k].serial);
      assert s1.serial[s1.holder[shots[k].serial]] == shots[k].serial;
    }
  }

  lemma RearmedMore(s: State, delays: nat, shots: seq<Shot>, shot: Shot)
    requires |s.serial| == |s.pool| && Rearmed(s, delays, shots)
    requires s.Pending(shot.serial) ==> RearmedTo(s.clock, s.pool[s.holder[shot.serial]], shot, delays < s.delays)
    ensures Rearmed(s, delays, shots + [shot])
  {
    var more := shots + [shot];
    forall k | 0 <= k < |more| && s.Pending(more[k].serial)
      ensures RearmedTo(s.clock, s.pool[s.holder[more[k].serial]], more[k], delays < s.delays)
    {
      assert k < |shots| ==> more[k] == shots[k];
    }
  }

  /** Outside the list being walked, due times move only as plugin code may move them. */
  ghost predicate OthersKept(s: State, r: State, f: Flags) {
    |s.serial| == |s.pool| && |r.serial| == |r.pool| &&
    forall a :: 0 <= a < |s.pool| && s.pool[a].flags.precise != f.precise && s.Same(r, a) ==>
      r.pool[a].toExec == s.pool[a].toExec
      || (s.delays < r.delays && r.pool[a].toExec == s.clock + s.pool[a].interval)
  }

  lemma OthersKeptTransitive(s0: State, s1: State, s2: State, f: Flags, t: nat)
    requires s0.Inv() && s1.Inv() && s2.Inv() && s0.Evolves(s1, {}) && s1.Evolves(s2, {})
    requires OthersKept(s0, s1, f) && DuesKeptBut(s1, s2, t)
    requires t < |s1.pool| && s1.pool[t].flags.precise == f.precise
    ensures OthersKept(s0, s2, f)
  {
    forall a | 0 <= a < |s0.pool| && s0.Same(s2, a) ensures s0.Same(s1, a) && s1.Same(s2, a) {}
  }

  ghost predicate Circling(s0: State, s: State, f: Flags, i: nat, shots: seq<Shot>) {
    && s0.Inv() && s.Inv() && s.Held() == {} && s0.Evolves(s, {}) && OthersKept(s0, s, f)
    && i <= |s.ListOf(f)|
    && Served(s0, s, s.ListOf(f)[..i], shots)
    && FiredOnce(s, s.ListOf(f)[..i], shots) && Rearmed(s, s0.delays, shots) && DueAsItWas(s0, s, shots)
    && (forall k :: 0 <= k < |shots| ==> shots[k].precise == f.precise) && Unfired(s0, s, f, shots)
  }

  lemma ServedStays(s0: State, s1: State, s2: State, f: Flags, i: nat, at: nat, shots: seq<Shot>)
    requires Circling(s0, s1, f, i, shots) && i < |s1.ListOf(f)|
    requires s2.Inv() && s1.Evolves(s2, {}) && DuesKeptBut(s1, s2, s1.ListOf(f)[i])
    requires LeftKept(s1, s2, s1.ListOf(f), s2.ListOf(f), s1.ListOf(f)[i], at)
    ensures Served(s0, s2, s2.ListOf(f)[..at], shots)
  {
    var l, t := s1.ListOf(f), s1.ListOf(f)[i];
    forall a | a in s2.ListOf(f)[..at] && a < |s2.pool| && s0.Same(s2, a) && s2.pool[a].interval > 0.0
      ensures Fired(shots, s2.serial[a]) || s2.clock < s2.pool[a].toExec
    {
      assert s1.Same(s2, a);
      assert Before(l, a, t);
      BeforeGivesPrefix(l, a, i);
      assert a in l[..i];
      NoTwoOrders(l, a, t);
    }
  }

  lemma FiredOnceStays(s1: State, s2: State, f: Flags, i: nat, at: nat, shots: seq<Shot>)
    requires s1.Inv() && s2.Inv() && i < |s1.ListOf(f)| && FiredOnce(s1, s1.ListOf(f)[..i], shots)
    requires s1.Evolves(s2, {}) && f.repeats
    requires LeftKept(s1, s2, s1.ListOf(f), s2.ListOf(f), s1.ListOf(f)[i], at)
    ensures FiredOnce(s2, s2.ListOf(f)[..at], shots)
  {
    var l, t := s1.ListOf(f), s1.ListOf(f)[i];
    forall k | 0 <= k < |shots| && shots[k].serial !in s2.ended
      ensures s2.Pending(shots[k].serial) && s2.holder[shots[k].serial] in s2.ListOf(f)[..at]
    {
      var n := shots[k].serial;
      assert forall j :: 0 <= j < |s1.ended| ==> s2.ended[j] == s1.ended[j];
      assert n !in s1.ended;
      var a := s1.holder[n];
      assert s2.holder[n] == a && s2.Pending(n);
      var j :| 0 <= j < i && l[j] == a;
      assert Before(l, a, t);
      assert s1.Alive(a) && s2.Alive(a) && s1.Same(s2, a);
      InItsList(s2, a);
      assert a in l;
    }
  }

  lemma CircleSkips(s0: State, s: State, f: Flags, i: nat, shots: seq<Shot>)
    requires Circling(s0, s, f, i, shots) && i < |s.ListOf(f)|
    requires s.ListOf(f)[i] < |s.pool| && s.clock < s.pool[s.ListOf(f)[i]].toExec
    ensures Circling(s0, s, f, i + 1, shots)
  {
    hide State.Sorted, State.KeepsOrder;
    var l := s.ListOf(f);
    assert l[..i + 1] == l[..i] + [l[i]];
  }

  /** The timer just fired is new among the shots. */
  lemma FreshShot(s: State, f: Flags, i: nat, shots: seq<Shot>)
    requires s.Inv() && s.Held() == {} && i < |s.ListOf(f)| && f.repeats
    requires FiredOnce(s, s.ListOf(f)[..i], shots)
    ensures var t := s.ListOf(f)[i];
            s.Alive(t) && s.serial[t] !in s.ended && !Fired(shots, s.serial[t]) && s.pool[t].flags.repeats
            && !s.pool[t].inExec && !s.pool[t].killMe
            && s.pool[t].flags.precise == f.precise && s.Pending(s.serial[t])
  {
    hide State.Sorted, State.KeepsOrder;
    var l := s.ListOf(f);
    var t := l[i];
    assert t in l && t !in s.Held();
    assert t !in l[..i];
  }

  lemma ShotNow(s0: State, s1: State, s2: State, f: Flags, i: nat, shots: seq<Shot>)
    requires Circling(s0, s1, f, i, shots) && i < |s1.ListOf(f)| && f.repeats && s2.Inv() && s1.Evolves(s2, {})
    requires s1.Same(s2, s1.ListOf(f)[i])
    ensures var t := s1.ListOf(f)[i];
            && t < |s1.pool| == |s1.serial| && t < |s2.pool| == |s2.serial| && |s0.pool| == |s0.serial|
            && s1.clock == s0.clock && s2.clock == s1.clock && s0.delays <= s1.delays <= s2.delays
            && s1.pool[t].flags.precise == f.precise && s2.pool[t].flags.precise == f.precise
            && (s2.Pending(s1.serial[t]) ==> s2.holder[s1.serial[t]] == t && s2.Alive(t))
  {
    hide State.Sorted, State.KeepsOrder, State.BornNow;
    FreshShot(s1, f, i, shots);
  }

  lemma CircleEnds(s0: State, s1: State, s2: State, f: Flags, i: nat, at: nat, shots: seq<Shot>)
    requires Circling(s0, s1, f, i, shots) && i < |s1.ListOf(f)| && f.repeats
    requires var t := s1.ListOf(f)[i];
             && t < |s1.pool| && s1.pool[t].toExec <= s1.clock
             && s2.Inv() && s2.Held() == {} && s1.Evolves(s2, {}) && DuesKeptBut(s1, s2, t)
             && s1.Same(s2, t) && s2.serial[t] in s2.ended && t in s2.free
             && LeftKept(s1, s2, s1.ListOf(f), s2.ListOf(f), t, at)
    ensures Circling(s0, s2, f, at, shots + [ShotOf(s1, s1.ListOf(f)[i])])
  {
    hide State.Inv, State.Evolves, State.Held, DuesKeptBut, Served, Rearmed, Unfired, OthersKept, DueAsItWas;
    var t := s1.ListOf(f)[i];
    ShotNow(s0, s1, s2, f, i, shots);
    FreshShot(s1, f, i, shots);
    EvolvesTransitive(s0, s1, s2, {});
    OthersKeptTransitive(s0, s1, s2, f, t);
    ServedStays(s0, s1, s2, f, i, at, shots);
    FiredOnceStays(s1, s2, f, i, at, shots);
    var more := shots + [ShotOf(s1, t)];
    MoreShots(s0, s1, s2, s2.ListOf(f)[..at], s2.ListOf(f)[..at], t, shots);
    RearmedStays(s1, s2, s0.delays, t, shots);
    DueAsItWasMore(s0, s1, s2, f, t, shots);
    RearmedMore(s2, s0.delays, shots, ShotOf(s1, t));
    UnfiredMore(s0, s1, s2, f, t, shots);
  }

  lemma CircleRearms(s0: State, s1: State, s2: State, f: Flags, i: nat, at: nat, shots: seq<Shot>)
    requires Circling(s0, s1, f, i, shots) && i < |s1.ListOf(f)| && f.repeats
    requires var t := s1.ListOf(f)[i];
             && t < |s1.pool| && s1.pool[t].toExec <= s1.clock
             && s2.Inv() && s2.Held() == {} && s1.Evolves(s2, {}) && DuesKeptBut(s1, s2, t)
             && s1.Same(s2, t) && s2.Alive(t)
             && LeftKept(s1, s2, s1.ListOf(f), s2.ListOf(f), t, at)
             && at < |s2.ListOf(f)| && s2.ListOf(f)[at] == t
             && s2.pool[t].toExec == CalcNextThink(s2.clock, s1.pool[t].toExec, s2.pool[t].interval)
    ensures Circling(s0, s2, f, at + 1, shots + [ShotOf(s1, s1.ListOf(f)[i])])
  {
    hide State.Inv, State.Evolves, State.Held, DuesKeptBut, LeftKept, Served, Rearmed, Unfired, OthersKept, DueAsItWas;
    var t := s1.ListOf(f)[i];
    ShotNow(s0, s1, s2, f, i, shots);
    FreshShot(s1, f, i, shots);
    EvolvesTransitive(s0, s1, s2, {});
    OthersKeptTransitive(s0, s1, s2, f, t);
    ServedStays(s0, s1, s2, f, i, at, shots);
    FiredOnceStays(s1, s2, f, i, at, shots);
    var l := s2.ListOf(f);
    assert l[..at + 1] == l[..at] + [t];
    MoreShots(s0, s1, s2, l[..at], l[..at + 1], t, shots);
    RearmedStays(s1, s2, s0.delays, t, shots);
    DueAsItWasMore(s0, s1, s2, f, t, shots);
    RearmedMore(s2, s0.delays, shots, ShotOf(s1, t));
    UnfiredMore(s0, s1, s2, f, t, shots);
  }

  lemma MoreShots(s0: State, s1: State, s2: State, left: seq<nat>, visited: seq<nat>, t: nat, shots: seq<Shot>)
    requires s1.Inv() && s2.Inv() && s1.Evolves(s2, {}) && s1.Same(s2, t) && t < |s1.pool|
    requires Served(s0, s2, left, shots) && FiredOnce(s2, left, shots)
    requires !Fired(shots, s1.serial[t]) && s1.pool[t].toExec <= s1.clock
    requires (visited == left && s2.serial[t] in s2.ended) || (visited == left + [t] && s2.Alive(t))
    ensures Served(s0, s2, visited, shots + [ShotOf(s1, t)])
    ensures FiredOnce(s2, visited, shots + [ShotOf(s1, t)])
  {
    hide State.Sorted, State.KeepsOrder;
    var more := shots + [ShotOf(s1, t)];
    assert more[|shots|].serial == s2.serial[t];
    assert Fired(more, s2.serial[t]);
    forall a: nat | a in visited && a < |s2.pool| && s0.Same(s2, a) && s2.pool[a].interval > 0.0
      ensures Fired(more, s2.serial[a]) || s2.clock < s2.pool[a].toExec
    {
      if a != t && Fired(shots, s2.serial[a]) {
        var k :| 0 <= k < |shots| && shots[k].serial == s2.serial[a];
        assert more[k].serial == s2.serial[a];
      }
    }
    forall j, k | 0 <= j < k < |more| ensures more[j].serial != more[k].serial {
      if k == |shots| {
        assert more[j] == shots[j];
      }
    }
  }

  lemma RunsButOne(s: State, r: State, t: nat)
    requires s.Runs(r, s.Held())
    ensures s.Evolves(r, s.Held()) && DuesKeptBut(s, r, t)
  {
  }

  /** The whole of FireRepeat's re-arm branch, from the state plugin code left. */
  lemma RearmBranch(s0: State, s1: State, t: nat, due: real)
    requires s0.Inv() && s1.Inv() && s1.Executing(t) && s1.serial[t] !in s1.ended && s0.Alive(t)
    requires s0.Runs(s1, s0.Held()) && s1.Held() == s0.Held() + {t} && t !in s0.Held() && s0.Same(s1, t)
    requires s0.pool[t].flags.repeats && s1.pool[t].flags == s0.pool[t].flags && !s1.pool[t].killMe
    ensures var s2, f := s1.Rearm(t, due), s0.pool[t].flags;
            && s2.Inv() && s0.Evolves(s2, s0.Held()) && s2.Held() == s0.Held() && DuesKeptBut(s0, s2, t)
            && t in s1.ListOf(f) && LeftKept(s0, s2, s0.ListOf(f), s2.ListOf(f), t, IndexOf(s1.ListOf(f), t))
            && s0.Same(s2, t) && t !in s2.free && s2.ListOf(f) == s1.ListOf(f)
  {
    hide State.Inv, State.Runs, State.Evolves, State.Held, DuesKeptBut;
    InItsList(s0, t);
    InItsList(s1, t);
    RunsWeaken(s0, s1, s0.Held(), {});
    LeftOf(s0, s1, s0.pool[t].flags, t);
    RearmedStep(s0, s1, t, due);
  }

  /** A repeater when a quiet walk over its list has passed it. */
  function Turned(clock: real, x: Timer, f: Flags): Timer {
    if x.flags.repeats && x.flags.precise == f.precise && x.toExec <= clock
    then x.(toExec := CalcNextThink(clock, x.toExec, x.interval)) else x
  }

  /** Part way down a repeating list, with nothing running in the callbacks; `stopped` is whether some OnTimer
      has answered Pl_Stop. */
  ghost predicate QuietCircling(s0: State, s: State, f: Flags, i: nat, stopped: bool) {
    && i <= |s.ListOf(f)|
    && |s.pool| == |s0.pool| && s.serial == s0.serial && s.clock == s0.clock && s.holder == s0.holder
    && (forall a: nat :: s.Alive(a) ==>
          s0.Alive(a) && s.pool[a] == if a in s.ListOf(f)[..i] then Turned(s.clock, s0.pool[a], f) else s0.pool[a])
    && (!stopped ==> forall a: nat :: s0.Alive(a) ==> s.Alive(a))
  }

  /** What a quiet walk over a repeating list comes to. */
  ghost predicate QuietRound(s0: State, s: State, f: Flags, stopped: bool) {
    && |s.pool| == |s0.pool| && s.serial == s0.serial && s.clock == s0.clock && s.holder == s0.holder
    && (forall a: nat :: s.Alive(a) ==> s0.Alive(a) && s.pool[a] == Turned(s.clock, s0.pool[a], f))
    && (!stopped ==> forall a: nat :: s0.Alive(a) ==> s.Alive(a))
  }

  lemma QuietSkip(s0: State, s: State, f: Flags, i: nat, stopped: bool)
    requires QuietCircling(s0, s, f, i, stopped) && i < |s.ListOf(f)|
    requires s.ListOf(f)[i] < |s.pool| && s.clock < s.pool[s.ListOf(f)[i]].toExec
    ensures QuietCircling(s0, s, f, i + 1, stopped)
  {
    var l := s.ListOf(f);
    assert l[..i + 1] == l[..i] + [l[i]];
  }

  lemma QuietRearm(s0: State, s: State, f: Flags, i: nat, stopped: bool)
    requires QuietCircling(s0, s, f, i, stopped) && s.Inv() && s.Held() == {} && f.repeats && i < |s.ListOf(f)|
    requires s.ListOf(f)[i] < |s.pool| && s.pool[s.ListOf(f)[i]].toExec <= s.clock
    ensures var t := s.ListOf(f)[i];
            QuietCircling(s0, s.Rearm(t, CalcNextThink(s.clock, s.pool[t].toExec, s.pool[t].interval)), f, i + 1,
                          stopped)
  {
    hide State.Sorted, State.Accounted;
    var l, t := s.ListOf(f), s.ListOf(f)[i];
    assert l[..i + 1] == l[..i] + [t];
    assert t in l && t !in l[..i] && t !in s.Held();
  }

  lemma QuietStop(s0: State, s: State, f: Flags, i: nat, stopped: bool)
    requires QuietCircling(s0, s, f, i, stopped) && s.Inv() && i < |s.ListOf(f)| && |s.serial| == |s.pool|
    requires s.ListOf(f)[i] < |s.pool|
    ensures var t := s.ListOf(f)[i]; (stopped ==> QuietCircling(s0, s.Mark(t).End(t).Release(t), f, i, stopped))
  {
    hide State.Sorted, State.Accounted, State.Guarded;
    var l, t := s.ListOf(f), s.ListOf(f)[i];
    WithoutAt(l, i);
    var r := s.Mark(t).End(t).Release(t);
    assert r.ListOf(f) == l[..i] + l[i + 1..];
    assert r.ListOf(f)[..i] == l[..i];
  }

  lemma QuietShot(s0: State, s1: State, s2: State, f: Flags, i: nat, at: nat, stop: bool, stopped: bool)
    requires QuietCircling(s0, s1, f, i, stopped) && s1.Inv() && s1.Held() == {} && f.repeats && i < |s1.ListOf(f)|
    requires |s1.serial| == |s1.pool| && (stop ==> stopped)
    requires var t := s1.ListOf(f)[i];
             && t < |s1.pool| && s1.pool[t].toExec <= s1.clock
             && if stop then s2 == s1.Mark(t).End(t).Release(t) && at == i
                else s2 == s1.Rearm(t, CalcNextThink(s1.clock, s1.pool[t].toExec, s1.pool[t].interval)) && at == i + 1
    ensures QuietCircling(s0, s2, f, at, stopped)
  {
    hide State.Inv, QuietCircling, State.Held;
    if stop {
      QuietStop(s0, s1, f, i, stopped);
    } else {
      QuietRearm(s0, s1, f, i, stopped);
    }
  }

  lemma QuietRoundEnds(s0: State, s: State, f: Flags, stopped: bool)
    requires QuietCircling(s0, s, f, |s.ListOf(f)|, stopped) && s.Inv() && f.repeats
    ensures QuietRound(s0, s, f, stopped)
  {
    hide State.Sorted, State.Accounted, State.Guarded;
    var l := s.ListOf(f);
    assert l[..|l|] == l;
    forall a: nat | s.Alive(a) && a !in l ensures s.pool[a] == Turned(s.clock, s0.pool[a], f) {
      InItsList(s, a);
    }
  }

  /** Whether some plan in a list has OnTimer answer Pl_Stop. */
  ghost predicate Stops(plans: seq<Firing>) { exists k :: 0 <= k < |plans| && plans[k].stop }

  /** What is left of a list of plans. */
  ghost predicate Suffix(rest: seq<Firing>, plans: seq<Firing>) {
    |rest| <= |plans| && rest == plans[|plans| - |rest|..]
  }

  /** One plan is taken up for each shot, as long as there are any. */
  ghost predicate Consumed(plans: seq<Firing>, rest: seq<Firing>, n: nat) {
    rest == if n <= |plans| then plans[n..] else []
  }

  /** The calls made so far, with those of some more shots behind them. */
  function Called(was: seq<nat>, shots: seq<Shot>): seq<nat> {
    if shots == [] then was else Called(was, shots[..|shots| - 1]) + [shots[|shots| - 1].serial]
  }

  lemma CalledNone(was: seq<nat>)
    ensures Called(was, []) == was
  {
  }

  lemma CalledOne(was: seq<nat>, shots: seq<Shot>, x: Shot)
    ensures Called(was, shots + [x]) == Called(was, shots) + [x.serial]
  {
    assert (shots + [x])[..|shots|] == shots;
  }

  lemma {:induction false} CalledMore(was: seq<nat>, a: seq<Shot>, b: seq<Shot>)
    ensures Called(was, a + b) == Called(Called(was, a), b)
  {
    if b == [] {
      assert a + b == a;
    } else {
      assert (a + b)[..|a + b| - 1] == a + b[..|b| - 1];
      CalledMore(was, a, b[..|b| - 1]);
    }
  }

  lemma ConsumedNone(plans: seq<Firing>)
    ensures Consumed(plans, plans, 0) && SpawnedBy(plans, 0) == 0
  {
  }

  lemma {:induction false} NothingSpawned(n: nat)
    ensures SpawnedBy([], n) == 0
  {
    if n > 0 {
      NothingSpawned(n - 1);
    }
  }

  lemma ConsumedMore(plans: seq<Firing>, rest: seq<Firing>, m: nat, n: nat)
    requires Consumed(plans, rest, m)
    ensures SpawnedBy(plans, m + n) == SpawnedBy(plans, m) + SpawnedBy(rest, n)
  {
    if m <= |plans| {
      SpawnedFrom(plans, m, n);
    } else {
      NothingSpawned(n);
      SpawnedPast(plans, m, n);
    }
  }

  lemma {:induction false} SpawnedPast(plans: seq<Firing>, m: nat, n: nat)
    requires m > |plans|
    ensures SpawnedBy(plans, m + n) == SpawnedBy(plans, m)
  {
    if n > 0 {
      SpawnedPast(plans, m, n - 1);
    }
  }

  lemma AllConsumed(plans: seq<Firing>, p1: seq<Firing>, p2: seq<Firing>, a: nat, b: nat, c: nat)
    requires Consumed(plans, p1, a) && Consumed(p1, p2, b)
    ensures SpawnedBy(plans, a + b + c) == SpawnedBy(plans, a) + SpawnedBy(p1, b) + SpawnedBy(p2, c)
  {
    hide SpawnedBy, Consumed;
    ConsumedMore(plans, p1, a, b + c);
    ConsumedMore(p1, p2, b, c);
    assert a + b + c == a + (b + c);
  }

  lemma OneConsumed(plans: seq<Firing>, rest: seq<Firing>, n: nat)
    requires Consumed(plans, rest, n)
    ensures Consumed(plans, if rest == [] then [] else rest[1..], n + 1)
    ensures SpawnedBy(plans, n + 1) == SpawnedBy(plans, n) + if rest == [] then 0 else Spawned(rest[0].onTimer)
  {
  }

  lemma WholeIsSuffix(plans: seq<Firing>)
    ensures Suffix(plans, plans)
  {
  }

  lemma SuffixHead(rest: seq<Firing>, plans: seq<Firing>)
    requires Suffix(rest, plans) && rest != []
    ensures Suffix(rest[1..], plans)
    ensures Quiet(plans) ==> rest[0].onTimer.Done? && rest[0].onEnd.Done?
    ensures rest[0].stop ==> Stops(plans)
    ensures NoneDelays(plans) ==> UndelayedFiring(rest[0])
  {
    assert rest[0] == plans[|plans| - |rest|];
  }

  lemma SuffixPlans(rest: seq<Firing>, plans: seq<Firing>)
    requires Suffix(rest, plans)
    ensures (Quiet(plans) ==> Quiet(rest)) && (Stops(rest) ==> Stops(plans)) && (NoneDelays(plans) ==> NoneDelays(rest))
  {
    if k :| 0 <= k < |rest| && rest[k].stop {
      assert plans[|plans| - |rest| + k].stop;
    }
  }

  lemma QuietStarts(s: State, f: Flags, stopped: bool)
    ensures QuietCircling(s, s, f, 0, stopped)
  {
  }

  lemma QuietRoundMore(s0: State, s: State, f: Flags, some: bool, more: bool)
    requires some ==> more
    ensures QuietRound(s0, s, f, some) ==> QuietRound(s0, s, f, more)
  {
  }

  /** What a quiet frame does to a repeater: if it is this frame's turn and due, it fires once and is re-armed. */
  function Next(clock: real, think: bool, x: Timer): Timer {
    if (think || x.flags.precise) && x.toExec <= clock
    then x.(toExec := CalcNextThink(clock, x.toExec, x.interval)) else x
  }

  ghost predicate QuietFrame(s0: State, s: State, think: bool, stopped: bool) {
    && |s.pool| == |s0.pool| && s.serial == s0.serial && s.clock == s0.clock && s.holder == s0.holder
    && (forall a: nat :: s.Alive(a) && s.pool[a].flags.repeats ==>
          s0.Alive(a) && s.pool[a] == Next(s.clock, think, s0.pool[a]))
    && (!stopped ==> forall a: nat :: s0.Alive(a) && s0.pool[a].flags.repeats ==> s.Alive(a) && s.pool[a].flags.repeats)
  }

  lemma QuietFrameDone(s0: State, s1: State, s2: State, s3: State, think: bool, stopped: bool)
    requires Untouched(s0, s1)
    requires if think then QuietRound(s1, s2, Flags(true, false, false), stopped) else s2 == s1
    requires QuietRound(s2, s3, Flags(true, true, false), stopped)
    ensures QuietFrame(s0, s3, think, stopped)
  {
    forall a: nat | s3.Alive(a) ensures s2.Alive(a) && s1.Alive(a) && s0.Alive(a) {}
    if !stopped {
      forall a: nat | s0.Alive(a) && s0.pool[a].flags.repeats ensures s3.Alive(a) && s3.pool[a].flags.repeats {
        assert s1.Alive(a) && s2.Alive(a);
      }
    }
  }

  lemma CircleStarts(s: State, f: Flags)
    requires s.Inv() && s.Held() == {}
    ensures Circling(s, s, f, 0, [])
  {
    RunsReflexive(s, {});
  }

  /** Each repeater of this frame that is still pending has fired once, or was not due when reached; and the
      ones that fired are next due where the re-arm rule says. */
  ghost predicate RepeatersServed(s0: State, s: State, f: Flags, shots: seq<Shot>) {
    && |s.serial| == |s.pool| && Served(s0, s, s.ListOf(f), shots)
    && (forall k :: 0 <= k < |shots| ==> shots[k].due <= s.clock)
    && (forall j, k :: 0 <= j < k < |shots| ==> shots[j].serial != shots[k].serial)
    && (forall k :: 0 <= k < |shots| ==> shots[k].serial < |s.holder|) && Rearmed(s, s0.delays, shots)
    && DueAsItWas(s0, s, shots)
    && (forall k :: 0 <= k < |shots| ==> shots[k].precise == f.precise) && Unfired(s0, s, f, shots)
  }

  lemma CircleDone(s0: State, s: State, f: Flags, shots: seq<Shot>)
    requires Circling(s0, s, f, |s.ListOf(f)|, shots)
    ensures RepeatersServed(s0, s, f, shots) && OthersKept(s0, s, f)
    ensures s.Inv() && s.Held() == {} && s0.Evolves(s, {})
  {
    assert s.ListOf(f)[..|s.ListOf(f)|] == s.ListOf(f);
  }

  lemma InRepeatList(s: State, f: Flags, i: nat, shots: seq<Shot>, s0: State)
    requires Circling(s0, s, f, i, shots) && i < |s.ListOf(f)| && f.repeats
    ensures var t := s.ListOf(f)[i];
            s.Alive(t) && !s.pool[t].inExec && s.pool[t].flags.repeats && s.pool[t].flags.precise == f.precise
            && IndexOf(s.ListOf(f), t) == i
  {
    FreshShot(s, f, i, shots);
  }

  lemma CirclingHolds(s0: State, s: State, f: Flags, i: nat, shots: seq<Shot>)
    requires Circling(s0, s, f, i, shots)
    ensures s.Inv() && s.Held() == {} && |s.serial| == |s.pool| && i <= |s.ListOf(f)|
  {
  }

  lemma FireRepeatCircles(s0: State, s1: State, s2: State, f: Flags, i: nat, at: nat, shots: seq<Shot>)
    requires Circling(s0, s1, f, i, shots) && i < |s1.ListOf(f)| && f.repeats
    requires var t := s1.ListOf(f)[i];
             && t < |s1.pool| && s1.pool[t].toExec <= s1.clock
             && s2.Inv() && s2.Held() == {} && s1.Evolves(s2, {}) && DuesKeptBut(s1, s2, t) && s1.Same(s2, t)
             && if t in s2.free then
                  s2.serial[t] in s2.ended && LeftKept(s1, s2, s1.ListOf(f), s2.ListOf(f), t, at)
                else
                  && 0 < at <= |s2.ListOf(f)| && s2.ListOf(f)[at - 1] == t
                  && LeftKept(s1, s2, s1.ListOf(f), s2.ListOf(f), t, at - 1)
                  && s2.pool[t].toExec == CalcNextThink(s2.clock, s1.pool[t].toExec, s2.pool[t].interval)
    ensures Circling(s0, s2, f, at, shots + [ShotOf(s1, s1.ListOf(f)[i])])
  {
    var t := s1.ListOf(f)[i];
    if t in s2.free {
      CircleEnds(s0, s1, s2, f, i, at, shots);
    } else {
      CircleRearms(s0, s1, s2, f, i, at - 1, shots);
    }
  }

  lemma NoneLeftDueStays(s1: State, s2: State, born: nat, think: bool)
    requires s1.Inv() && s2.Inv() && s1.Evolves(s2, {}) && born <= |s1.holder|
    requires NoneLeftDue(s1, born, think)
    ensures NoneLeftDue(s2, born, think)
  {
    hide State.Sorted, State.KeepsOrder;
    forall a | a in s2.single && a < |s2.pool| && s2.pool[a].toExec <= s2.clock
      ensures s2.serial[a] >= born || (!think && !s2.pool[a].flags.precise)
    {
      if !s1.Same(s2, a) {
        Newcomer(s1, s2, a);
      } else {
        assert a in s1.single;
      }
    }
  }

  lemma RearmedElsewhere(s1: State, s2: State, g: Flags, delays: nat, shots: seq<Shot>)
    requires s1.Inv() && s2.Inv() && s1.Evolves(s2, {}) && OthersKept(s1, s2, g) && Rearmed(s1, delays, shots)
    requires delays <= s1.delays
    requires forall k :: 0 <= k < |shots| ==> shots[k].serial < |s1.holder| && shots[k].precise != g.precise
    ensures Rearmed(s2, delays, shots)
  {
    forall k | 0 <= k < |shots| && s2.Pending(shots[k].serial)
      ensures RearmedTo(s2.clock, s2.pool[s2.holder[shots[k].serial]], shots[k], delays < s2.delays)
    {
      PendingBefore(s1, s2, shots[k].serial);
    }
  }

  lemma UnfiredElsewhere(s0: State, s1: State, s2: State, f: Flags, g: Flags, shots: seq<Shot>)
    requires s0.Inv() && s1.Inv() && s2.Inv() && s0.Evolves(s1, {}) && s1.Evolves(s2, {})
    requires OthersKept(s1, s2, g) && Unfired(s0, s1, f, shots) && f.precise != g.precise
    ensures Unfired(s0, s2, f, shots)
  {
    hide State.Inv, State.Evolves;
    SameThrough(s0, s1, s2);
  }

  lemma RepeatersStayServed(s0: State, s1: State, s2: State, f: Flags, g: Flags, shots: seq<Shot>)
    requires s0.Inv() && s1.Inv() && s2.Inv() && s0.Evolves(s1, {}) && s1.Evolves(s2, {})
    requires RepeatersServed(s0, s1, f, shots) && OthersKept(s1, s2, g)
    requires f.repeats && g.repeats && f.precise != g.precise
    ensures RepeatersServed(s0, s2, f, shots)
  {
    hide State.Sorted, State.KeepsOrder;
    RearmedElsewhere(s1, s2, g, s0.delays, shots);
    UnfiredElsewhere(s0, s1, s2, f, g, shots);
    forall a: nat | a in s2.ListOf(f) && a < |s2.pool| && s0.Same(s2, a) && s2.pool[a].interval > 0.0
      ensures Fired(shots, s2.serial[a]) || s2.clock < s2.pool[a].toExec
    {
      assert s0.Same(s1, a) && s1.Same(s2, a);
      assert s1.Alive(a) && a in s1.ListOf(f);
    }
  }

  lemma RepeatersServedFrom(s0: State, s1: State, s2: State, f: Flags, shots: seq<Shot>)
    requires s0.Inv() && s1.Inv() && s2.Inv() && s0.Evolves(s1, {}) && s1.Evolves(s2, {})
    requires RepeatersServed(s1, s2, f, shots)
             && (s0.DuesKept(s1) || OthersKept(s0, s1, Flags(true, !f.precise, false)))
    ensures RepeatersServed(s0, s2, f, shots)
  {
    SameThrough(s0, s1, s2);
    UnfiredFrom(s0, s1, s2, f, shots);
    DueAsItWasFrom(s0, s1, s2, f, shots);
    hide State.Inv, State.Evolves, State.DuesKept, OthersKept, Unfired, DueAsItWas;
  }

  lemma UnfiredFrom(s0: State, s1: State, s2: State, f: Flags, shots: seq<Shot>)
    requires s0.Inv() && s1.Inv() && s2.Inv() && s0.Evolves(s1, {}) && s1.Evolves(s2, {})
    requires |s2.serial| == |s2.pool| && Unfired(s1, s2, f, shots)
    requires s0.DuesKept(s1) || OthersKept(s0, s1, Flags(true, !f.precise, false))
    ensures Unfired(s0, s2, f, shots)
  {
    SameThrough(s0, s1, s2);
    hide State.Inv, State.Evolves;
  }

  lemma DueAsItWasFrom(s0: State, s1: State, s2: State, f: Flags, shots: seq<Shot>)
    requires s0.Inv() && s1.Inv() && s2.Inv() && s0.Evolves(s1, {}) && s1.Evolves(s2, {}) && DueAsItWas(s1, s2, shots)
    requires forall k :: 0 <= k < |shots| ==> shots[k].precise == f.precise
    requires s0.DuesKept(s1) || OthersKept(s0, s1, Flags(true, !f.precise, false))
    ensures DueAsItWas(s0, s2, shots)
  {
    SameThrough(s0, s1, s2);
    forall k | 0 <= k < |shots| && shots[k].serial < |s0.holder|
      ensures s0.Pending(shots[k].serial) && s0.pool[s0.holder[shots[k].serial]].flags.precise == shots[k].precise
      ensures s0.delays == s2.delays ==> shots[k].due == s0.pool[s0.holder[shots[k].serial]].toExec
    {
      hide State.Sorted, State.KeepsOrder, State.BornNow, State.Partitioned, State.Guarded;
      assert |s0.holder| <= |s1.holder|;
      PendingBefore(s0, s1, shots[k].serial);
    }
  }

  /** The timers of `list` that must not survive a map change. */
  function Doomed(s: State, list: seq<nat>): seq<nat> {
    if list == [] then [] else
      var n := |list| - 1;
      Doomed(s, list[..n]) + if list[n] < |s.pool| && s.pool[list[n]].flags.noMapChange then [list[n]] else []
  }

  lemma {:induction false} DoomedMembers(s: State, list: seq<nat>)
    ensures forall t :: t in Doomed(s, list) <==> t in list && t < |s.pool| && s.pool[t].flags.noMapChange
    ensures NoDup(list) ==> NoDup(Doomed(s, list))
  {
    if list != [] {
      var n := |list| - 1;
      assert list == list[..n] + [list[n]];
      DoomedMembers(s, list[..n]);
    }
  }

  lemma DuesThenOthers(s0: State, s1: State, s2: State, f: Flags)
    requires s0.Inv() && s1.Inv() && s2.Inv() && s0.Evolves(s1, {}) && s1.Evolves(s2, {})
    requires s0.DuesKept(s1) && (s1.DuesKept(s2) || OthersKept(s1, s2, f))
    ensures OthersKept(s0, s2, f)
  {
    hide State.Inv, State.Evolves;
    SameThrough(s0, s1, s2);
  }

  lemma OthersTwice(s0: State, s1: State, s2: State, f: Flags)
    requires s0.Inv() && s1.Inv() && s2.Inv() && s0.Evolves(s1, {}) && s1.Evolves(s2, {})
    requires OthersKept(s0, s1, f) && OthersKept(s1, s2, f)
    ensures OthersKept(s0, s2, f)
  {
    hide State.Inv, State.Evolves;
    SameThrough(s0, s1, s2);
  }

  lemma FrameDone(s0: State, s1: State, s2: State, s3: State, think: bool,
                  singles: seq<Shot>, lows: seq<Shot>, highs: seq<Shot>)
    requires s0.Inv() && s1.Inv() && s2.Inv() && s3.Inv()
    requires s0.Evolves(s1, {}) && s1.Evolves(s2, {}) && s2.Evolves(s3, {})
    requires NoneLeftDue(s1, |s0.holder|, think) && ShotsAreSound(s0, s1, singles, think)
    requires s0.DuesKept(s1)
    requires if think
             then
               && RepeatersServed(s1, s2, Flags(true, false, false), lows)
               && OthersKept(s1, s2, Flags(true, false, false))
             else s1.DuesKept(s2)
    requires RepeatersServed(s2, s3, Flags(true, true, false), highs) && OthersKept(s2, s3, Flags(true, true, false))
    ensures s0.Evolves(s3, {}) && NoneLeftDue(s3, |s0.holder|, think) && ShotsAreSound(s0, s3, singles, think)
    ensures think ==> RepeatersServed(s0, s3, Flags(true, false, false), lows)
    ensures RepeatersServed(s0, s3, Flags(true, true, false), highs)
    ensures !think ==> OthersKept(s0, s3, Flags(true, true, false))
  {
    hide State.Inv, State.Evolves, State.DuesKept, NoneLeftDue, RepeatersServed, OthersKept, ShotsAreSound;
    EvolvesTransitive(s0, s1, s2, {});
    EvolvesTransitive(s0, s2, s3, {});
    EvolvesTransitive(s1, s2, s3, {});
    EvolvesBasics(s0, s1);
    EvolvesBasics(s1, s3);
    NoneLeftDueStays(s1, s3, |s0.holder|, think);
    SoundStays(s0, s1, s3, singles, think);
    DuesThenOthers(s0, s1, s2, Flags(true, false, false));
    RepeatersServedFrom(s0, s2, s3, Flags(true, true, false), highs);
    if think {
      RepeatersServedFrom(s0, s1, s2, Flags(true, false, false), lows);
      RepeatersStayServed(s0, s2, s3, Flags(true, false, false), Flags(true, true, false), lows);
    } else {
      DuesThenOthers(s0, s1, s2, Flags(true, true, false));
      OthersTwice(s0, s2, s3, Flags(true, true, false));
    }
  }

  lemma EvolvesBasics(s: State, r: State)
    requires s.Evolves(r, {})
    ensures |s.serial| == |s.pool| && |r.serial| == |r.pool| && |s.holder| <= |r.holder|
    ensures s.clock == r.clock && s.ended <= r.ended && s.delays <= r.delays
  {
  }

  lemma SoundStays(s0: State, s: State, r: State, shots: seq<Shot>, think: bool)
    requires ShotsAreSound(s0, s, shots, think) && s.clock == r.clock && s.ended <= r.ended
    ensures ShotsAreSound(s0, r, shots, think)
  {
    EndedGrows(s.ended, r.ended);
  }

  lemma EndedGrows(a: seq<nat>, b: seq<nat>)
    requires a <= b
    ensures forall n :: n in a ==> n in b
  {
    forall n | n in a ensures n in b {
      var k :| 0 <= k < |a| && a[k] == n;
      assert b[k] == n;
    }
  }

  lemma ClockTicks(s: State, now: real)
    requires s.Inv()
    ensures s.(clock := now).Inv() && s.(clock := now).Held() == s.Held()
  {
    var r := s.(clock := now);
    forall n | 0 <= n < |r.holder| && n !in r.ended ensures r.Pending(n) {
      assert s.Pending(n);
    }
  }

  lemma ListedInPool(s: State)
    requires s.Inv()
    ensures forall t :: t in s.single || t in s.low || t in s.high ==> t < |s.pool|
  {
    hide State.Sorted, State.Accounted;
    assert forall t :: t in s.single || t in s.low || t in s.high ==> s.Alive(t);
  }

  /** The kill stack holds each doomed timer once. */
  lemma DoomedAll(s: State, all: seq<nat>)
    requires s.Inv() && s.Held() == {}
    requires all == Doomed(s, s.single) + Doomed(s, s.low) + Doomed(s, s.high)
    ensures Doing(s, s, all, |all|) && Spared(s, s, all, |all|)
  {
    DoomedNoDup(s, all);
    forall t: nat | s.Alive(t) ensures !s.pool[t].inExec && s.serial[t] !in s.ended {
      assert t !in s.Held();
    }
    assert |s.serial| == |s.pool|;
    hide State.Inv, State.Held, Doomed;
    assert all[..|all|] == all;
    forall j | 0 <= j < |all| ensures s.Alive(all[j]) && s.pool[all[j]].flags.noMapChange {
      assert all[j] in all;
    }
  }

  lemma DoomedNoDup(s: State, all: seq<nat>)
    requires s.Inv()
    requires all == Doomed(s, s.single) + Doomed(s, s.low) + Doomed(s, s.high)
    ensures NoDup(all) && forall t: nat :: t in all <==> s.Alive(t) && s.pool[t].flags.noMapChange
  {
    hide State.Sorted, State.Accounted, Doomed;
    DoomedMembers(s, s.single);
    DoomedMembers(s, s.low);
    DoomedMembers(s, s.high);
    NoDupConcat(Doomed(s, s.single), Doomed(s, s.low));
    NoDupConcat(Doomed(s, s.single) + Doomed(s, s.low), Doomed(s, s.high));
  }

  /** The `left` bottom entries of the kill stack are to come; every other doomed timer is over. */
  ghost predicate Doing(s0: State, s: State, all: seq<nat>, left: nat) {
    && |s0.serial| == |s0.pool| && |s.serial| == |s.pool| && |s0.pool| <= |s.pool| && left <= |all|
    && (forall j :: 0 <= j < |all| ==> all[j] < |s0.pool|)
    && (forall t :: 0 <= t < |s0.pool| && s0.pool[t].flags.noMapChange && t !in s0.free ==>
          s0.serial[t] in s.ended || t in all[..left])
  }

  ghost predicate Spared(s0: State, s: State, all: seq<nat>, left: nat) {
    && |s0.serial| == |s0.pool| && |s.serial| == |s.pool| && |s0.pool| <= |s.pool| && left <= |all|
    && NoDup(all)
    && (forall j :: 0 <= j < |all| ==> all[j] < |s0.pool| && s0.pool[all[j]].flags.noMapChange)
    && (forall j :: 0 <= j < left ==> s.Alive(all[j]) && s0.Same(s, all[j]) && s.serial[all[j]] !in s.ended)
    && (forall t :: 0 <= t < |s0.pool| && !s0.pool[t].flags.noMapChange && t !in s0.free ==>
          s0.Same(s, t) && t !in s.free && s.serial[t] !in s.ended)
  }

  lemma Killable(s0: State, s: State, all: seq<nat>, left: nat)
    requires Doing(s0, s, all, left) && 0 < left && s.Inv()
    ensures all[left - 1] < |s.pool| && |s.serial| == |s.pool|
    ensures s.Held() == {} && s.Alive(all[left - 1]) ==> !s.pool[all[left - 1]].inExec
  {
    hide State.Sorted, State.KeepsOrder;
    assert s.Alive(all[left - 1]) ==> (all[left - 1] in s.Held() <==> s.pool[all[left - 1]].inExec);
  }

  lemma StaysInPool(s: State, r: State, t: nat)
    requires s.Inv() && s.Evolves(r, {}) && t < |s.pool|
    ensures t < |r.pool| == |r.serial|
  {
  }

  /** Killing the top entry, or finding it recycled, finishes the timer that stood there at the start. */
  lemma OneDone(s0: State, s1: State, s2: State, all: seq<nat>, left: nat)
    requires s0.Inv() && s1.Inv() && s2.Inv() && s0.Runs(s1, {}) && s1.Runs(s2, {}) && s1.Held() == {}
    requires Doing(s0, s1, all, left) && 0 < left
    requires var t := all[left - 1];
             && t < |s1.pool| && t < |s2.pool| && t < |s2.serial|
             && (!s1.pool[t].inExec ==> s2.serial[t] in s2.ended && s1.Same(s2, t))
    ensures Doing(s0, s2, all, left - 1)
  {
    hide State.Sorted, State.KeepsOrder;
    var t := all[left - 1];
    EndedGrows(s1.ended, s2.ended);
    assert all[..left] == all[..left - 1] + [t];
    if s0.pool[t].flags.noMapChange && t !in s0.free && s0.serial[t] !in s1.ended {
      assert s1.Pending(s0.serial[t]);
      assert t !in s1.Held();
      assert s2.serial[t] == s0.serial[t];
    }
  }

  lemma OneSpared(s0: State, s1: State, s2: State, all: seq<nat>, left: nat)
    requires s1.Inv() && s2.Inv() && s1.Held() == {}
    requires Spared(s0, s1, all, left) && 0 < left && |s1.pool| == |s1.serial|
    requires var t := all[left - 1]; t < |s1.pool| && (!s1.pool[t].inExec ==> s2 == s1.Mark(t).End(t).Release(t))
    ensures Spared(s0, s2, all, left - 1)
  {
    var t := all[left - 1];
    QuietKill(s1, s2, t);
    hide State.Inv, State.Held, State.Mark, State.End, State.Release;
  }

  /** A kill whose OnTimerEnd does nothing leaves every other timer as it was. */
  lemma QuietKill(s1: State, s2: State, t: nat)
    requires s1.Inv() && s1.Held() == {} && s1.Alive(t)
    requires |s1.serial| == |s1.pool| && (!s1.pool[t].inExec ==> s2 == s1.Mark(t).End(t).Release(t))
    ensures |s2.pool| == |s1.pool| && s2.serial == s1.serial
    ensures forall u: nat :: s1.Alive(u) && u != t ==>
              s2.Alive(u) && (s1.serial[u] !in s1.ended ==> s2.serial[u] !in s2.ended)
  {
    hide State.Sorted, State.KeepsOrder, State.Partitioned;
    assert t !in s1.Held();
    forall u: nat | s1.Alive(u) && u != t ensures s1.serial[u] != s1.serial[t] {
      assert s1.holder[s1.serial[u]] == u && s1.holder[s1.serial[t]] == t;
    }
  }

  lemma MapChangeDone(s0: State, s: State, all: seq<nat>)
    requires Doing(s0, s, all, 0)
    ensures forall t :: 0 <= t < |s0.pool| && s0.pool[t].flags.noMapChange && t !in s0.free ==> s0.serial[t] in s.ended
    ensures Spared(s0, s, all, 0) ==>
              forall t :: 0 <= t < |s0.pool| && !s0.pool[t].flags.noMapChange && t !in s0.free ==>
                s0.Same(s, t) && t !in s.free && s.serial[t] !in s.ended
  {
  }
}
