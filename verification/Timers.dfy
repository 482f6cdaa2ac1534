/**
 The timer scheduler of core/TimerSys.cpp.

 A timer object is an index into `pool`; the three lists and the free stack hold such indices,
 as the original's lists hold pointers. Plugin code run by a callback is a `Script`: a finite
 tree of the API calls the callback makes, each carrying what the callbacks it triggers do in
 turn. Quantifying over scripts is quantifying over every terminating plugin behaviour.
 */
module Timers {
  import opened Sequences

  const TIMER_MIN_ACCURACY := 0.1

  datatype Flags = Flags(repeats: bool, precise: bool, noMapChange: bool)

  datatype Timer = Timer(interval: real, toExec: real, flags: Flags, inExec: bool, killMe: bool)

  datatype Script =
    | Done
    | Create(interval: real, flags: Flags, rest: Script)
    | Kill(id: nat, onEnd: Script, rest: Script)
    | Fire(id: nat, delayExec: bool, call: Firing, rest: Script)

  /** What one OnTimer / OnTimerEnd pair does; `stop` is OnTimer answering Pl_Stop. */
  datatype Firing = Firing(onTimer: Script, stop: bool, onEnd: Script)

  const QUIET := Firing(Done, false, Done)

  /** Nowhere in the script is a delayed FireTimerOnce. */
  predicate Undelayed(p: Script) {
    match p
    case Done => true
    case Create(_, _, rest) => Undelayed(rest)
    case Kill(_, onEnd, rest) => Undelayed(onEnd) && Undelayed(rest)
    case Fire(_, delayExec, call, rest) => !delayExec && UndelayedFiring(call) && Undelayed(rest)
  }

  predicate UndelayedFiring(f: Firing) { Undelayed(f.onTimer) && Undelayed(f.onEnd) }

  ghost predicate NoneDelays(plans: seq<Firing>) { forall k :: 0 <= k < |plans| ==> UndelayedFiring(plans[k]) }

  ghost predicate Quiet(plans: seq<Firing>) {
    forall k :: 0 <= k < |plans| ==> plans[k].onTimer.Done? && plans[k].onEnd.Done?
  }

  /** How many timers a script creates itself, whatever the callbacks it triggers do. */
  function Spawned(p: Script): nat {
    match p
    case Done => 0
    case Create(_, _, rest) => 1 + Spawned(rest)
    case Kill(_, _, rest) => Spawned(rest)
    case Fire(_, _, _, rest) => Spawned(rest)
  }

  /** How many the first `n` OnTimer calls create. */
  function SpawnedBy(plans: seq<Firing>, n: nat): nat {
    if n == 0 then 0 else SpawnedBy(plans, n - 1) + if n <= |plans| then Spawned(plans[n - 1].onTimer) else 0
  }

  lemma {:induction false} SpawnedFrom(plans: seq<Firing>, m: nat, n: nat)
    requires m <= |plans|
    ensures SpawnedBy(plans, m + n) == SpawnedBy(plans, m) + SpawnedBy(plans[m..], n)
  {
    if n > 0 {
      SpawnedFrom(plans, m, n - 1);
    }
  }

  /** The re-arm rule: keep the grid unless the timer is more than the accuracy behind it. */
  function CalcNextThink(now: real, last: real, interval: real): real {
    var next := last + interval;
    if now - next <= TIMER_MIN_ACCURACY then next else now + interval
  }

  /** One scheduler state. `serial`, `holder`, `ended` and `delays` are bookkeeping of this model: the
      creation number now held by each object, the object given to each creation, the creations that
      have had OnTimerEnd, in order, and how often a delayed FireTimerOnce has moved a due time. */
  datatype State = State(clock: real, pool: seq<Timer>, single: seq<nat>, low: seq<nat>, high: seq<nat>, free: seq<nat>,
                         serial: seq<nat>, holder: seq<nat>, ended: seq<nat>, delays: nat)
  {
    ghost predicate Alive(t: nat) { t < |pool| && t !in free }

    ghost predicate Executing(t: nat) { Alive(t) && pool[t].inExec }

    /** The single list is in order of due time. */
    ghost predicate Sorted() {
      forall a: nat, b: nat :: Before(single, a, b) && a < |pool| && b < |pool| ==> pool[a].toExec <= pool[b].toExec
    }

    /** Every timer sits in exactly the container its state and flags name. */
    ghost predicate Partitioned() {
      && NoDup(single) && NoDup(low) && NoDup(high) && NoDup(free)
      && (forall t :: t in single ==> Alive(t) && !pool[t].flags.repeats)
      && (forall t :: t in low ==> Alive(t) && pool[t].flags.repeats && !pool[t].flags.precise)
      && (forall t :: t in high ==> Alive(t) && pool[t].flags.repeats && pool[t].flags.precise)
      && (forall t :: t in free ==> t < |pool|)
      && (forall t: nat :: Alive(t) ==> t in single || t in low || t in high)
    }

    /** A freed timer is guarded against stale pointers, and a kill is only ever postponed. */
    ghost predicate Guarded() {
      && (forall t :: t in free ==> t < |pool| && pool[t].inExec)
      && (forall t :: 0 <= t < |pool| && pool[t].killMe ==> pool[t].inExec)
    }

    /** Each creation gets OnTimerEnd once: when it is no longer pending it has had it. */
    ghost predicate Accounted() {
      && |serial| == |pool|
      && (forall t :: 0 <= t < |pool| ==> serial[t] < |holder| && holder[serial[t]] == t)
      && (forall n :: 0 <= n < |holder| ==> holder[n] < |pool|)
      && NoDup(ended)
      && (forall n :: n in ended ==> n < |holder|)
      && (forall t :: t in free && t < |pool| ==> serial[t] in ended)
      && (forall t: nat :: Alive(t) && !pool[t].inExec ==> serial[t] !in ended)
      && (forall n :: 0 <= n < |holder| && n !in ended ==> Pending(n))
    }

    ghost predicate Pending(n: nat)
      requires |serial| == |pool|
    {
      n < |holder| && Alive(holder[n]) && serial[holder[n]] == n
    }

    function ListOf(f: Flags): seq<nat> {
      if !f.repeats then single else if f.precise then high else low
    }

    ghost predicate Inv() { Partitioned() && Sorted() && Guarded() && Accounted() }

    /** The timer object still stands for the creation it stood for in `this`. */
    ghost predicate Same(later: State, t: nat) {
      t < |serial| && t < |later.serial| && later.serial[t] == serial[t]
    }

    /** The list `was` turned into `now` without reordering the timers that were in it. */
    ghost predicate KeepsOrder(later: State, was: seq<nat>, now: seq<nat>) {
      forall a: nat, b: nat :: Before(now, a, b) && Same(later, a) && Same(later, b) ==> Before(was, a, b)
    }

    /** What a frame keeps between two points, `held` being the timers on the call stack. */
    ghost predicate Evolves(later: State, held: set<nat>) {
      && later.clock == clock
      && |serial| == |pool| <= |later.pool| == |later.serial|
      && holder <= later.holder && ended <= later.ended && delays <= later.delays
      && (forall t :: 0 <= t < |pool| && !Same(later, t) ==> later.serial[t] >= |holder|)
      && (forall t :: 0 <= t < |pool| && Same(later, t) ==>
            && later.pool[t].flags == pool[t].flags && later.pool[t].interval == pool[t].interval
            && (!pool[t].flags.repeats ==> later.pool[t].toExec == pool[t].toExec)
            && (t in free ==> t in later.free))
      && (forall t :: t in held && t < |pool| ==>
            && Same(later, t) && t !in later.free
            && later.pool[t].inExec == pool[t].inExec && later.pool[t].toExec == pool[t].toExec
            && (pool[t].killMe ==> later.pool[t].killMe)
            && (serial[t] in later.ended ==> serial[t] in ended))
      && BornNow(later)
      && KeepsOrder(later, single, later.single)
      && KeepsOrder(later, low, later.low)
      && KeepsOrder(later, high, later.high)
    }

    /** A one-shot created since is due one interval after the clock it was created at. */
    ghost predicate BornNow(later: State) {
      |later.serial| == |later.pool| &&
      forall t: nat :: later.Alive(t) && later.serial[t] >= |holder| && !later.pool[t].flags.repeats ==>
        later.pool[t].toExec == clock + later.pool[t].interval
    }

    /** Plugin code moves a due time only by asking for a delayed FireTimerOnce. */
    ghost predicate DuesKept(later: State) {
      |serial| == |pool| && |later.serial| == |later.pool| &&
      forall t :: 0 <= t < |pool| && Same(later, t) ==>
        later.pool[t].toExec == pool[t].toExec
        || (delays < later.delays && later.pool[t].toExec == clock + pool[t].interval)
    }

    /** What plugin code keeps. */
    ghost predicate Runs(later: State, held: set<nat>) { Evolves(later, held) && DuesKept(later) }

    ghost function Held(): set<nat> { set t | 0 <= t < |pool| && Executing(t) }

    function Mark(t: nat): State
      requires t < |pool|
    {
      this.(pool := pool[t := pool[t].(inExec := true)])
    }

    function Postpone(t: nat): State
      requires t < |pool|
    {
      this.(pool := pool[t := pool[t].(killMe := true)])
    }

    /** OnTimerEnd is delivered. */
    function End(t: nat): State
      requires t < |serial|
    {
      this.(ended := ended + [serial[t]])
    }

    function Release(t: nat): State {
      this.(single := Without(single, t), low := Without(low, t), high := Without(high, t), free := free + [t])
    }

    /** The object CreateTimer hands out: the top of the free stack, or a new one. */
    function Fresh(): nat {
      if free == [] then |pool| else free[|free| - 1]
    }

    function Allocated(timer: Timer): State
      requires |serial| == |pool| && (free != [] ==> free[|free| - 1] < |pool|)
    {
      var t := Fresh();
      if free == [] then this.(pool := pool + [timer], serial := serial + [|holder|], holder := holder + [t])
      else this.(pool := pool[t := timer], serial := serial[t := |holder|], holder := holder + [t],
                 free := free[..|free| - 1])
    }

    function Linked(t: nat, k: nat): State
      requires t < |pool| && k <= |single|
    {
      if !pool[t].flags.repeats then this.(single := single[..k] + [t] + single[k..])
      else if pool[t].flags.precise then this.(high := high + [t])
      else this.(low := low + [t])
    }

    /** The state once `timer` is allocated and put at place `k` of the list its flags name. */
    function Created(timer: Timer, k: nat): State
      requires Inv() && k <= |single|
    {
      assert free != [] ==> free[|free| - 1] in free;
      Allocated(timer).Linked(Fresh(), k)
    }

    /** Place `k` of the single list is one where `due` keeps it sorted. */
    ghost predicate Fits(due: real, k: nat) {
      && k <= |single|
      && (forall a :: a in single[..k] && a < |pool| ==> pool[a].toExec <= due)
      && (forall a :: a in single[k..] && a < |pool| ==> due <= pool[a].toExec)
    }

    /** `later` is this state with `timer` allocated and linked, one-shots at a place that keeps the order. */
    ghost predicate Creates(timer: Timer, later: State)
      requires Inv()
    {
      exists k: nat {:trigger Created(timer, k)} ::
        k <= |single| && (!timer.flags.repeats ==> Fits(timer.toExec, k)) && later == Created(timer, k)
    }

    function Rearm(t: nat, due: real): State
      requires t < |pool|
    {
      this.(pool := pool[t := pool[t].(inExec := false, toExec := due)])
    }

    /** A repeater fired by hand, its due time counted from now or left alone. */
    function FiredByHand(t: nat, delayExec: bool): State
      requires t < |pool|
    {
      if delayExec then Rearm(t, clock + pool[t].interval).(delays := delays + 1) else Rearm(t, pool[t].toExec)
    }
  }

  lemma EvolvesTransitive(a: State, b: State, c: State, held: set<nat>)
    requires a.Inv() && b.Inv() && c.Inv()
    requires a.Evolves(b, held) && b.Evolves(c, held) && held <= a.Held()
    ensures a.Evolves(c, held)
  {
    forall t | 0 <= t < |a.pool| && !a.Same(c, t) ensures c.serial[t] >= |a.holder| {}
    forall t | 0 <= t < |a.pool| && a.Same(c, t) ensures a.Same(b, t) && b.Same(c, t) {}
    BornTransitive(a, b, c);
    OrderTransitive(a, b, c, a.single, b.single, c.single);
    OrderTransitive(a, b, c, a.low, b.low, c.low);
    OrderTransitive(a, b, c, a.high, b.high, c.high);
  }

  lemma BornTransitive(a: State, b: State, c: State)
    requires b.Inv() && c.Inv() && |a.holder| <= |b.holder| && a.clock == b.clock && |b.pool| <= |c.pool|
    requires a.BornNow(b) && b.BornNow(c) && b.holder <= c.holder
    requires forall t :: 0 <= t < |b.pool| && !b.Same(c, t) ==> c.serial[t] >= |b.holder|
    requires forall t :: 0 <= t < |b.pool| && b.Same(c, t) ==>
               && c.pool[t].flags == b.pool[t].flags && c.pool[t].interval == b.pool[t].interval
               && (!b.pool[t].flags.repeats ==> c.pool[t].toExec == b.pool[t].toExec)
               && (t in b.free ==> t in c.free)
    ensures a.BornNow(c)
  {
    hide State.Sorted, State.Partitioned, State.Guarded;
    forall t: nat | c.Alive(t) && c.serial[t] >= |a.holder| && !c.pool[t].flags.repeats
      ensures c.pool[t].toExec == a.clock + c.pool[t].interval
    {
      var n := c.serial[t];
      if n < |b.holder| {
        assert b.holder[n] == c.holder[n] == t;
        assert t < |b.pool| && b.Same(c, t);
        assert b.Alive(t) && b.serial[t] == n;
      }
    }
  }

  lemma OrderTransitive(a: State, b: State, c: State, x: seq<nat>, y: seq<nat>, z: seq<nat>)
    requires a.KeepsOrder(b, x, y) && b.KeepsOrder(c, y, z)
    requires forall t :: 0 <= t < |a.pool| && a.Same(c, t) ==> a.Same(b, t) && b.Same(c, t)
    requires |a.serial| == |a.pool|
    ensures a.KeepsOrder(c, x, z)
  {
  }

  lemma RunsTransitive(a: State, b: State, c: State, held: set<nat>)
    requires a.Inv() && b.Inv() && c.Inv()
    requires a.Runs(b, held) && b.Runs(c, held) && held <= a.Held()
    ensures a.Runs(c, held)
  {
    EvolvesTransitive(a, b, c, held);
    forall t | 0 <= t < |a.pool| && a.Same(c, t) ensures a.Same(b, t) && b.Same(c, t) {}
  }

  lemma RunsWeaken(a: State, b: State, held: set<nat>, less: set<nat>)
    requires a.Runs(b, held) && less <= held
    ensures a.Runs(b, less) && a.Evolves(b, less)
  {
  }

  lemma RunsReflexive(s: State, held: set<nat>)
    requires s.Inv() && held <= s.Held()
    ensures s.Runs(s, held)
  {
  }

  /** Writing a timer's own fields within the rules keeps the invariant. */
  lemma WriteInv(s: State, t: nat, x: Timer)
    requires s.Inv() && t < |s.pool| && x.flags == s.pool[t].flags
    requires !x.flags.repeats ==> x.toExec == s.pool[t].toExec
    requires (x.killMe || t in s.free ==> x.inExec) && (t !in s.free && !x.inExec ==> s.serial[t] !in s.ended)
    ensures s.(pool := s.pool[t := x]).Inv()
  {
    var r := s.(pool := s.pool[t := x]);
    assert r.Partitioned() && r.Guarded();
    assert r.Sorted() by {
      forall a: nat, b: nat | Before(r.single, a, b) && a < |r.pool| && b < |r.pool|
        ensures r.pool[a].toExec <= r.pool[b].toExec
      {
        assert Before(s.single, a, b) && a in s.single && b in s.single;
      }
    }
    assert r.Accounted() by {
      forall n | 0 <= n < |r.holder| && n !in r.ended ensures r.Pending(n) {
        assert s.Pending(n);
      }
    }
  }

  lemma WriteEvolves(s: State, t: nat, x: Timer, held: set<nat>)
    requires s.Inv() && t < |s.pool| && x.flags == s.pool[t].flags && x.interval == s.pool[t].interval
    requires !x.flags.repeats ==> x.toExec == s.pool[t].toExec
    requires held <= s.Held()
    requires t in held ==>
               && x.inExec == s.pool[t].inExec && x.toExec == s.pool[t].toExec
               && (s.pool[t].killMe ==> x.killMe)
    ensures s.Evolves(s.(pool := s.pool[t := x]), held)
  {
    hide State.Sorted, State.Partitioned, State.Guarded, State.Pending;
  }

  lemma MarkStep(s: State, t: nat)
    requires s.Inv() && t < |s.pool| && s.Alive(t) && !s.pool[t].inExec
    ensures s.Mark(t).Inv() && s.Runs(s.Mark(t), s.Held())
    ensures s.Mark(t).Held() == s.Held() + {t} && t !in s.Held()
    ensures s.serial[t] !in s.ended && !s.pool[t].killMe
  {
    var x := s.pool[t].(inExec := true);
    WriteInv(s, t, x);
    WriteEvolves(s, t, x, s.Held());
    assert s.serial[t] !in s.ended && !s.pool[t].killMe && |s.serial| == |s.pool|;
    hide State.Inv, State.Evolves;
  }

  lemma PostponeStep(s: State, t: nat)
    requires s.Inv() && t < |s.pool| && s.pool[t].inExec
    ensures s.Postpone(t).Inv() && s.Runs(s.Postpone(t), s.Held())
    ensures s.Postpone(t).Held() == s.Held()
  {
    var x := s.pool[t].(killMe := true);
    WriteInv(s, t, x);
    WriteEvolves(s, t, x, s.Held());
    assert |s.serial| == |s.pool|;
    hide State.Inv, State.Evolves;
  }

  lemma EndStep(s: State, t: nat)
    requires s.Inv() && s.Executing(t) && s.serial[t] !in s.ended
    ensures s.End(t).Inv() && s.Runs(s.End(t), s.Held() - {t})
    ensures s.End(t).Held() == s.Held()
  {
    hide State.Sorted, State.KeepsOrder, State.Partitioned, State.Guarded;
    var r := s.End(t);
    SamePlaces(s, r);
    SameOrder(s, r);
    EndAccounted(s, t);
    EndEvolves(s, t);
  }

  lemma EndAccounted(s: State, t: nat)
    requires s.Accounted() && s.Executing(t) && s.serial[t] !in s.ended
    ensures s.End(t).Accounted()
  {
    var r := s.End(t);
    forall n | 0 <= n < |r.holder| && n !in r.ended ensures r.Pending(n) {
      assert s.Pending(n);
    }
  }

  lemma EndEvolves(s: State, t: nat)
    requires s.Accounted() && s.Executing(t)
    requires s.KeepsOrder(s.End(t), s.single, s.End(t).single) && s.KeepsOrder(s.End(t), s.low, s.End(t).low)
    requires s.KeepsOrder(s.End(t), s.high, s.End(t).high)
    ensures s.Runs(s.End(t), s.Held() - {t}) && s.End(t).Held() == s.Held()
  {
    hide State.KeepsOrder;
    forall u | u in s.Held() - {t} ensures s.serial[u] != s.serial[t] {
      assert s.holder[s.serial[u]] == u && s.holder[s.serial[t]] == t;
    }
  }

  lemma SamePlaces(s: State, r: State)
    requires s.Partitioned() && s.Sorted() && s.Guarded() && r == s.(ended := r.ended)
    ensures r.Partitioned() && r.Sorted() && r.Guarded()
  {
  }

  lemma SameOrder(s: State, r: State)
    requires r == s.(ended := r.ended)
    ensures s.KeepsOrder(r, s.single, r.single) && s.KeepsOrder(r, s.low, r.low) && s.KeepsOrder(r, s.high, r.high)
  {
  }

  lemma WithoutKeeps(s: seq<nat>, t: nat)
    requires NoDup(s)
    ensures OrderWithin(Without(s, t), s) && NoDup(Without(s, t))
  {
    WithoutOrder(s, t);
    OrderWithinNoDup(Without(s, t), s);
  }

  lemma ReleasePartitioned(s: State, t: nat)
    requires s.Inv() && s.Executing(t)
    ensures s.Release(t).Partitioned() && s.Release(t).Sorted() && s.Release(t).Guarded()
    ensures s.KeepsOrder(s.Release(t), s.single, s.Release(t).single)
    ensures s.KeepsOrder(s.Release(t), s.low, s.Release(t).low)
    ensures s.KeepsOrder(s.Release(t), s.high, s.Release(t).high)
  {
    WithoutKeeps(s.single, t);
    WithoutKeeps(s.low, t);
    WithoutKeeps(s.high, t);
  }

  lemma ReleaseStep(s: State, t: nat)
    requires s.Inv() && s.Executing(t) && s.serial[t] in s.ended
    ensures s.Release(t).Inv() && s.Runs(s.Release(t), s.Held() - {t})
    ensures s.Release(t).Held() == s.Held() - {t}
  {
    hide State.Sorted, State.KeepsOrder, State.Partitioned, State.Guarded, State.Accounted, State.Runs;
    ReleasePartitioned(s, t);
    ReleaseAccounted(s, t);
    ReleaseEvolves(s, t);
  }

  lemma ReleaseEvolves(s: State, t: nat)
    requires s.Accounted() && s.Executing(t)
    requires s.KeepsOrder(s.Release(t), s.single, s.Release(t).single)
             && s.KeepsOrder(s.Release(t), s.low, s.Release(t).low)
    requires s.KeepsOrder(s.Release(t), s.high, s.Release(t).high)
    ensures s.Runs(s.Release(t), s.Held() - {t}) && s.Release(t).Held() == s.Held() - {t}
  {
    hide State.KeepsOrder;
  }

  lemma ReleaseAccounted(s: State, t: nat)
    requires s.Accounted() && s.Executing(t) && s.serial[t] in s.ended
    ensures s.Release(t).Accounted()
  {
    var r := s.Release(t);
    forall n | 0 <= n < |r.holder| && n !in r.ended ensures r.Pending(n) {
      assert s.Pending(n);
    }
  }

  /** What plugin code and the timer being fired may do to due times. */
  ghost predicate DuesKeptBut(s: State, r: State, t: nat) {
    |s.serial| == |s.pool| && |r.serial| == |r.pool| &&
    forall a :: 0 <= a < |s.pool| && a != t && s.Same(r, a) ==>
      r.pool[a].toExec == s.pool[a].toExec
      || (s.delays < r.delays && r.pool[a].toExec == s.clock + s.pool[a].interval)
  }

  lemma RearmStep(s: State, t: nat, due: real)
    requires s.Inv() && s.Executing(t) && !s.pool[t].killMe && s.serial[t] !in s.ended && s.pool[t].flags.repeats
    ensures s.Rearm(t, due).Inv() && s.Evolves(s.Rearm(t, due), s.Held() - {t})
    ensures s.Rearm(t, due).Held() == s.Held() - {t}
    ensures DuesKeptBut(s, s.Rearm(t, due), t)
    ensures due == s.pool[t].toExec ==> s.DuesKept(s.Rearm(t, due))
  {
    var x := s.pool[t].(inExec := false, toExec := due);
    WriteInv(s, t, x);
    WriteEvolves(s, t, x, s.Held() - {t});
    assert |s.serial| == |s.pool|;
    hide State.Inv, State.Evolves;
  }

  lemma AppendOrder(s: seq<nat>, t: nat)
    ensures forall a: nat, b: nat :: Before(s + [t], a, b) ==> Before(s, a, b) || b == t
    ensures forall y: nat :: y in s + [t] <==> y == t || y in s
    ensures NoDup(s) && t !in s ==> NoDup(s + [t])
  {
    InsertOrder(s, |s|, t);
    assert s[..|s|] + [t] + s[|s|..] == s + [t];
  }

  lemma PopTop(s: seq<nat>)
    requires NoDup(s) && s != []
    ensures NoDup(s[..|s| - 1])
    ensures forall y :: y in s[..|s| - 1] <==> y in s && y != s[|s| - 1]
  {
    assert s == s[..|s| - 1] + [s[|s| - 1]];
  }

  lemma TopOfFree(s: State)
    requires s.Inv()
    ensures |s.serial| == |s.pool| && (s.free != [] ==> s.free[|s.free| - 1] < |s.pool|)
  {
    assert s.free != [] ==> s.free[|s.free| - 1] in s.free;
  }

  lemma CreatedAlive(s: State, timer: Timer, k: nat)
    requires s.Inv() && k <= |s.single|
    ensures var c, t := s.Created(timer, k), s.Fresh();
            && NoDup(c.free) && (forall u :: u in c.free <==> u in s.free && u != t)
            && !s.Alive(t) && (forall u: nat :: c.Alive(u) <==> s.Alive(u) || u == t)
            && |s.pool| <= |c.pool| == |c.serial| && |c.pool| == (if s.free == [] then t + 1 else |s.pool|)
            && (forall u: nat :: u < |s.pool| && u != t ==> c.pool[u] == s.pool[u] && c.serial[u] == s.serial[u])
            && c.holder == s.holder + [t] && c.ended == s.ended
            && t < |c.pool| && c.pool[t] == timer && c.serial[t] == |s.holder|
  {
    if s.free != [] {
      assert s.Fresh() in s.free;
      PopTop(s.free);
    }
  }

  lemma CreatedPartitioned(s: State, timer: Timer, k: nat)
    requires s.Inv() && k <= |s.single| && !timer.inExec && !timer.killMe
    ensures var c := s.Created(timer, k); c.Partitioned() && c.Guarded()
  {
    var t := s.Fresh();
    CreatedAlive(s, timer, k);
    hide State.Sorted, State.Accounted;
    InsertOrder(s.single, k, t);
    AppendOrder(s.low, t);
    AppendOrder(s.high, t);
  }

  lemma CreatedSorted(s: State, timer: Timer, k: nat)
    requires s.Inv() && k <= |s.single| && (!timer.flags.repeats ==> s.Fits(timer.toExec, k))
    ensures s.Created(timer, k).Sorted()
  {
    var t := s.Fresh();
    CreatedAlive(s, timer, k);
    hide State.Accounted, State.Guarded;
    InsertOrder(s.single, k, t);
  }

  lemma CreatedOrder(s: State, timer: Timer, k: nat)
    requires s.Inv() && k <= |s.single|
    ensures var c := s.Created(timer, k);
            s.KeepsOrder(c, s.single, c.single) && s.KeepsOrder(c, s.low, c.low) && s.KeepsOrder(c, s.high, c.high)
  {
    var t := s.Fresh();
    CreatedAlive(s, timer, k);
    InsertOrder(s.single, k, t);
    AppendOrder(s.low, t);
    AppendOrder(s.high, t);
  }

  lemma CreatesIntro(s: State, timer: Timer, k: nat)
    requires s.Inv() && k <= |s.single| && (!timer.flags.repeats ==> s.Fits(timer.toExec, k))
    ensures s.Creates(timer, s.Created(timer, k))
  {
    hide State.Inv, State.Fits, State.Created;
  }

  lemma CreatedAccounted(s: State, timer: Timer, k: nat)
    requires s.Inv() && k <= |s.single|
    ensures s.Created(timer, k).Accounted()
  {
    hide State.Sorted, State.KeepsOrder;
    var c := s.Created(timer, k);
    CreatedAlive(s, timer, k);
    forall n | 0 <= n < |c.holder| && n !in c.ended ensures c.Pending(n) {
      if n < |s.holder| {
        assert s.Pending(n);
      }
    }
  }

  lemma CreatedRuns(s: State, timer: Timer, k: nat)
    requires s.Inv() && k <= |s.single| && !timer.inExec && timer.toExec == s.clock + timer.interval
    ensures s.Runs(s.Created(timer, k), s.Held()) && s.Created(timer, k).Held() == s.Held()
  {
    hide State.Created, State.KeepsOrder, State.Sorted, State.Partitioned, State.Guarded, State.BornNow;
    CreatedAlive(s, timer, k);
    CreatedOrder(s, timer, k);
    CreatedNow(s, timer, k);
    CreatedHeld(s, timer, k);
  }

  lemma CreatedNow(s: State, timer: Timer, k: nat)
    requires s.Inv() && k <= |s.single| && timer.toExec == s.clock + timer.interval
    ensures var c := s.Created(timer, k); s.BornNow(c) && c.clock == s.clock && c.delays == s.delays
  {
    CreatedAlive(s, timer, k);
    var c := s.Created(timer, k);
    assert c.clock == s.clock && c.delays == s.delays;
    hide State.Created, State.Sorted, State.Partitioned, State.Guarded;
  }

  lemma CreatedHeld(s: State, timer: Timer, k: nat)
    requires s.Inv() && k <= |s.single| && !timer.inExec
    ensures s.Created(timer, k).Held() == s.Held()
  {
    hide State.Created, State.Inv;
    CreatedAlive(s, timer, k);
  }

  lemma CreateStep(s: State, timer: Timer, k: nat)
    requires s.Inv() && k <= |s.single| && !timer.inExec && !timer.killMe && timer.toExec == s.clock + timer.interval
    requires !timer.flags.repeats ==> s.Fits(timer.toExec, k)
    ensures var c := s.Created(timer, k);
            c.Inv() && s.Runs(c, s.Held()) && c.Held() == s.Held()
  {
    CreatedPartitioned(s, timer, k);
    CreatedSorted(s, timer, k);
    CreatedAccounted(s, timer, k);
    CreatedRuns(s, timer, k);
    hide State.Created, State.Runs, State.Partitioned, State.Sorted, State.Accounted, State.Guarded, State.Held;
  }

  /** A timer on the call stack is still there when plugin code returns. */
  lemma HeldStays(a: State, b: State, t: nat)
    requires a.Inv() && b.Inv() && a.Runs(b, a.Held()) && b.Held() == a.Held() && t in a.Held()
    ensures b.Executing(t) && a.Same(b, t) && t < |a.pool| && t < |b.pool|
    ensures b.serial[t] in b.ended <==> a.serial[t] in a.ended
    ensures b.pool[t].toExec == a.pool[t].toExec && b.pool[t].flags == a.pool[t].flags
    ensures b.pool[t].interval == a.pool[t].interval
  {
    hide State.Sorted, State.KeepsOrder;
    assert t in b.Held();
    if a.serial[t] in a.ended {
      var k :| 0 <= k < |a.ended| && a.ended[k] == a.serial[t];
      assert b.ended[k] == a.serial[t];
    }
  }

  lemma InList(s: State, i: nat)
    requires s.Inv() && i < |s.single| && s.Held() == {}
    ensures var t := s.single[i];
            s.Alive(t) && !s.pool[t].inExec && !s.pool[t].flags.repeats && s.serial[t] !in s.ended
  {
    assert s.single[i] in s.single && s.single[i] !in s.Held();
  }

  lemma IdleIsAlive(s: State, t: nat)
    requires s.Inv() && t < |s.pool| && !s.pool[t].inExec
    ensures s.Alive(t)
  {
  }

  lemma InItsList(s: State, t: nat)
    requires s.Inv() && s.Alive(t)
    ensures t in s.ListOf(s.pool[t].flags)
  {
  }

  /** What the timer being finished still is when its plugin code returns. */
  lemma FinishFacts(s0: State, s1: State, s2: State, t: nat)
    requires s0.Inv() && s1.Inv() && s2.Inv()
    requires s0.Runs(s1, s0.Held()) && s1.Executing(t) && s1.serial[t] !in s1.ended
    requires s1.Held() == s0.Held() + {t} && t !in s0.Held() && s0.Same(s1, t)
    requires s1.End(t).Runs(s2, s1.End(t).Held()) && s2.Held() == s1.End(t).Held()
    ensures s2.Executing(t) && s0.Same(s2, t) && s2.serial[t] in s2.ended
    ensures s0.Alive(t) && s2.pool[t].flags == s0.pool[t].flags
    ensures t in s0.ListOf(s0.pool[t].flags) && t in s2.ListOf(s0.pool[t].flags)
    ensures !s0.pool[t].flags.repeats ==> t in s2.single && s2.pool[t].toExec == s0.pool[t].toExec
  {
    hide State.Sorted, State.KeepsOrder;
    assert s0.Alive(t) && s1.pool[t].flags == s0.pool[t].flags;
    InItsList(s0, t);
    EndStep(s1, t);
    HeldStays(s1.End(t), s2, t);
    InItsList(s2, t);
  }

  /** From marking `t` through OnTimerEnd and its plugin code to recycling it. */
  lemma FinishStep(s0: State, s1: State, s2: State, t: nat)
    requires s0.Inv() && s1.Inv() && s2.Inv()
    requires s0.Runs(s1, s0.Held()) && s1.Executing(t) && s1.serial[t] !in s1.ended
    requires s1.Held() == s0.Held() + {t} && t !in s0.Held() && s0.Same(s1, t)
    requires s1.End(t).Runs(s2, s1.End(t).Held()) && s2.Held() == s1.End(t).Held()
    ensures s2.Executing(t) && s2.Release(t).Inv() && s0.Runs(s2.Release(t), s0.Held())
    ensures s2.Release(t).Held() == s0.Held()
    ensures s0.Same(s2, t) && s2.serial[t] in s2.ended
    ensures s0.Alive(t) && s2.pool[t].flags == s0.pool[t].flags && s0.Evolves(s2, {})
    ensures t in s0.ListOf(s0.pool[t].flags) && t in s2.ListOf(s0.pool[t].flags)
    ensures !s0.pool[t].flags.repeats ==> t in s2.single && s2.pool[t].toExec == s0.pool[t].toExec
  {
    hide State.Inv, State.Runs, State.Sorted, State.KeepsOrder;
    FinishFacts(s0, s1, s2, t);
    EndStep(s1, t);
    ReleaseStep(s2, t);
    var e, held := s1.End(t), s0.Held();
    RunsWeaken(s1, e, s1.Held() - {t}, held);
    RunsWeaken(e, s2, e.Held(), held);
    RunsWeaken(s2, s2.Release(t), s2.Held() - {t}, held);
    RunsTransitive(s0, s1, e, held);
    RunsTransitive(s0, e, s2, held);
    RunsWeaken(s0, s2, held, {});
    RunsTransitive(s0, s2, s2.Release(t), held);
  }

  /** From marking `t` through OnTimer and its plugin code. */
  lemma CalledStep(s0: State, s1: State, t: nat)
    requires s0.Inv() && s1.Inv() && t < |s0.pool| && s0.Alive(t) && !s0.pool[t].inExec
    requires s0.Mark(t).Runs(s1, s0.Mark(t).Held()) && s1.Held() == s0.Mark(t).Held()
    ensures s0.Runs(s1, s0.Held()) && s1.Executing(t) && s1.serial[t] !in s1.ended
    ensures s1.Held() == s0.Held() + {t} && t !in s0.Held() && s0.Same(s1, t)
    ensures s1.pool[t].toExec == s0.pool[t].toExec && s1.pool[t].flags == s0.pool[t].flags
    ensures s1.pool[t].interval == s0.pool[t].interval
  {
    hide State.Sorted, State.KeepsOrder;
    MarkStep(s0, t);
    var m := s0.Mark(t);
    HeldStays(m, s1, t);
    RunsWeaken(m, s1, m.Held(), s0.Held());
    RunsTransitive(s0, m, s1, s0.Held());
  }

  lemma RearmedStep(s0: State, s1: State, t: nat, due: real)
    requires s0.Inv() && s1.Inv() && s1.Executing(t) && s1.serial[t] !in s1.ended
    requires s0.Runs(s1, s0.Held()) && s1.Held() == s0.Held() + {t} && t !in s0.Held() && s0.Same(s1, t)
    requires s1.pool[t].flags.repeats && !s1.pool[t].killMe
    ensures var s2 := s1.Rearm(t, due);
            && s2.Inv() && s0.Evolves(s2, s0.Held()) && s2.Held() == s0.Held() && DuesKeptBut(s0, s2, t)
            && (due == s1.pool[t].toExec ==> s0.Runs(s2, s0.Held()))
  {
    var s2 := s1.Rearm(t, due);
    RearmStep(s1, t, due);
    EvolvesTransitive(s0, s1, s2, s0.Held());
    forall a | 0 <= a < |s0.pool| && s0.Same(s2, a) ensures s0.Same(s1, a) && s1.Same(s2, a) {}
  }

  lemma FiredByHandStep(s0: State, s1: State, t: nat, delayExec: bool)
    requires s0.Inv() && s1.Inv() && s1.Executing(t) && s1.serial[t] !in s1.ended && t < |s0.pool|
    requires s0.Runs(s1, s0.Held()) && s1.Held() == s0.Held() + {t} && t !in s0.Held() && s0.Same(s1, t)
    requires s1.pool[t].flags.repeats && !s1.pool[t].killMe && s0.pool[t].toExec == s1.pool[t].toExec
    ensures var s2 := s1.FiredByHand(t, delayExec);
            s2.Inv() && s0.Runs(s2, s0.Held()) && s2.Held() == s0.Held()
  {
    hide State.Inv, State.Runs, State.Evolves, State.Held, DuesKeptBut;
    var due := if delayExec then s1.clock + s1.pool[t].interval else s1.pool[t].toExec;
    RearmedStep(s0, s1, t, due);
    if delayExec {
      DelayedInv(s1.Rearm(t, due));
      SameInterval(s0, s1, t);
      DelayedRuns(s0, s1.Rearm(t, due), t);
    }
  }

  lemma SameInterval(s0: State, s1: State, t: nat)
    requires s0.Runs(s1, s0.Held()) && s0.Same(s1, t) && t < |s0.pool|
    ensures |s0.pool| <= |s1.pool| && s1.pool[t].interval == s0.pool[t].interval && s1.clock == s0.clock
  {
    hide State.KeepsOrder, State.BornNow;
  }

  lemma DelayedInv(s: State)
    requires s.Inv()
    ensures var r := s.(delays := s.delays + 1); r.Inv() && r.Held() == s.Held()
  {
    var r := s.(delays := s.delays + 1);
    assert r.Partitioned() && r.Sorted() && r.Guarded();
    forall n | 0 <= n < |r.holder| && n !in r.ended ensures r.Pending(n) {
      assert s.Pending(n);
    }
  }

  lemma DelayedRuns(s0: State, s: State, t: nat)
    requires s0.Evolves(s, s0.Held()) && DuesKeptBut(s0, s, t) && t < |s0.pool| && s0.Same(s, t)
             && |s0.pool| <= |s.pool|
    requires s.pool[t].toExec == s0.clock + s0.pool[t].interval
    ensures s0.Runs(s.(delays := s.delays + 1), s0.Held())
  {
    hide State.Held, State.Sorted;
    var r := s.(delays := s.delays + 1);
    assert s0.KeepsOrder(r, s0.single, r.single) && s0.KeepsOrder(r, s0.low, r.low)
           && s0.KeepsOrder(r, s0.high, r.high);
    hide State.KeepsOrder;
    assert forall u: nat :: r.Alive(u) <==> s.Alive(u);
  }

  /** Recycling touches only the list the flags name. */
  lemma ReleaseIs(s: State, t: nat)
    requires s.Inv() && s.Alive(t)
    ensures s.Release(t).(free := s.free) ==
            if !s.pool[t].flags.repeats then s.(single := Without(s.single, t))
            else if s.pool[t].flags.precise then s.(high := Without(s.high, t))
            else s.(low := Without(s.low, t))
  {
  }

  lemma SinglesSorted(s: State)
    requires s.Inv()
    ensures s.Sorted() && forall j :: 0 <= j < |s.single| ==> s.single[j] < |s.pool|
  {
    hide State.Sorted;
    assert forall j :: 0 <= j < |s.single| ==> s.single[j] in s.single;
  }

  lemma FitsLast(s: State, due: real)
    requires s.Sorted() && forall j :: 0 <= j < |s.single| ==> s.single[j] < |s.pool|
    requires s.single != [] && s.pool[s.single[|s.single| - 1]].toExec <= due
    ensures s.Fits(due, |s.single|)
  {
    var n := |s.single|;
    forall a | a in s.single[..n] ensures s.pool[a].toExec <= due {
      var j :| 0 <= j < n && s.single[j] == a;
      assert j < n - 1 ==> Before(s.single, a, s.single[n - 1]);
    }
  }

  lemma FitsHere(s: State, due: real, k: nat)
    requires s.Sorted() && (forall j :: 0 <= j < |s.single| ==> s.single[j] < |s.pool|) && k <= |s.single|
    requires forall j :: 0 <= j < k ==> s.pool[s.single[j]].toExec <= due
    requires k < |s.single| ==> due <= s.pool[s.single[k]].toExec
    ensures s.Fits(due, k)
  {
    forall a | a in s.single[k..] ensures due <= s.pool[a].toExec {
      var j :| 0 <= j < |s.single| - k && s.single[k..][j] == a;
      assert j > 0 ==> Before(s.single, s.single[k], s.single[k + j]);
    }
  }
}
