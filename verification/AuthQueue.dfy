/**
 The authorisation queue of core/PlayerManager.cpp: an array that holds its own length in slot 0, is zeroed
 in place while it is walked, and is compacted afterwards.
 */
module AuthQueues {
  import opened Sequences
  import FastLinks

  const SM_MAXPLAYERS: nat := 101

  datatype Client = Client(connected: bool, authorized: bool, fake: bool)
  {
    predicate Waiting() { connected && !authorized && !fake }
  }

  /** The entries that have not been marked as removed. */
  function Nonzero(s: seq<nat>): (r: seq<nat>)
    ensures |r| <= |s|
  {
    if s == [] then [] else Nonzero(s[..|s| - 1]) + if s[|s| - 1] != 0 then [s[|s| - 1]] else []
  }

  lemma {:induction false} NonzeroIs(s: seq<nat>)
    ensures forall y :: y in Nonzero(s) <==> y in s && y != 0
    ensures 0 !in s ==> Nonzero(s) == s
  {
    if s != [] {
      var n := |s| - 1;
      assert s == s[..n] + [s[n]];
      NonzeroIs(s[..n]);
    }
  }

  lemma {:induction false} NonzeroConcat(a: seq<nat>, b: seq<nat>)
    ensures Nonzero(a + b) == Nonzero(a) + Nonzero(b)
  {
    if b == [] {
      assert a + b == a;
    } else {
      assert (a + b)[..|a + b| - 1] == a + b[..|b| - 1];
      NonzeroConcat(a, b[..|b| - 1]);
    }
  }

  lemma NonzeroOne(x: nat)
    ensures Nonzero([x]) == if x == 0 then [] else [x]
  {
    assert [x][..0] == [];
  }

  lemma NonzeroSplit(s: seq<nat>, k: nat)
    requires k < |s|
    ensures Nonzero(s) == Nonzero(s[..k]) + (if s[k] == 0 then [] else [s[k]]) + Nonzero(s[k + 1..])
  {
    hide Nonzero;
    NonzeroConcat(s[..k], [s[k]]);
    NonzeroConcat(s[..k] + [s[k]], s[k + 1..]);
    NonzeroOne(s[k]);
    CutAt(s, k);
  }

  lemma CutAt(s: seq<nat>, k: nat)
    requires k < |s|
    ensures s == s[..k] + [s[k]] + s[k + 1..]
  {
  }

  lemma WithoutMiddle(a: seq<nat>, c: nat, b: seq<nat>)
    requires NoDup(a + [c] + b)
    ensures Without(a + [c] + b, c) == a + b
  {
    var s := a + [c] + b;
    WithoutAt(s, |a|);
    assert s[..|a|] == a && s[|a| + 1..] == b && s[|a|] == c;
  }

  /** Marking an entry as removed takes its client out of the queue. */
  lemma Zeroed(s: seq<nat>, k: nat)
    requires k < |s| && s[k] != 0 && NoDup(Nonzero(s))
    ensures Nonzero(s[k := 0]) == Without(Nonzero(s), s[k])
    ensures |Nonzero(s[k := 0])| == |Nonzero(s)| - 1
  {
    hide Nonzero, NoDup, Without;
    NonzeroSplit(s, k);
    NonzeroSplit(s[k := 0], k);
    assert s[k := 0][..k] == s[..k] && s[k := 0][k + 1..] == s[k + 1..];
    WithoutMiddle(Nonzero(s[..k]), s[k], Nonzero(s[k + 1..]));
    assert Nonzero(s[..k]) + [] == Nonzero(s[..k]);
  }

  /** So does moving everything behind it down by one. */
  lemma Shifted(s: seq<nat>, k: nat)
    requires k < |s| && s[k] != 0 && NoDup(Nonzero(s))
    ensures Nonzero(s[..k] + s[k + 1..]) == Without(Nonzero(s), s[k])
    ensures |Nonzero(s[..k] + s[k + 1..])| == |Nonzero(s)| - 1
  {
    hide Nonzero, NoDup, Without;
    NonzeroSplit(s, k);
    NonzeroConcat(s[..k], s[k + 1..]);
    WithoutMiddle(Nonzero(s[..k]), s[k], Nonzero(s[k + 1..]));
  }

  lemma OrderTrans(a: seq<nat>, b: seq<nat>, c: seq<nat>)
    requires OrderWithin(a, b) && OrderWithin(b, c)
    ensures OrderWithin(a, c)
  {
  }

  lemma StillOrdered(q: seq<nat>, before: seq<nat>, c: nat)
    requires NoDup(before) && OrderWithin(before, q)
    ensures NoDup(Without(before, c)) && OrderWithin(Without(before, c), q)
  {
    WithoutOrder(before, c);
    OrderWithinNoDup(Without(before, c), before);
    OrderTrans(Without(before, c), before, q);
  }

  /** The clients a list of drops names; entry 0 is nobody. */
  function Victims(kicks: seq<nat>): set<nat> { set c | c in kicks && c != 0 }

  /** Whom the listeners drop when they hear that `c` is authorised. */
  function DropsFor(kicks: map<nat, seq<nat>>, c: nat): seq<nat> { if c in kicks then kicks[c] else [] }

  function Gone(kicks: map<nat, seq<nat>>, c: nat): (r: set<nat>)
    ensures 0 !in r
  {
    Victims(DropsFor(kicks, c))
  }

  /** The array once the client at `i` is marked and `gone` have left. */
  function Struck(e: seq<nat>, i: nat, gone: set<nat>): (r: seq<nat>)
    requires i < |e|
    ensures |r| <= |e| && forall y :: y in r && y != 0 ==> y in e && y !in gone
  {
    Keep(e[i := 0], gone)
  }

  /** What a walk over the array, standing at `i`, will leave: a client that is ready is marked, and whoever its
      listeners drop leaves the array at once, everything behind moving down; the walk goes on at the next index. */
  function Pass(e: seq<nat>, i: nat, ready: set<nat>, kicks: map<nat, seq<nat>>): seq<nat>
    decreases |e| - i
  {
    if i >= |e| then e
    else if e[i] in ready then Pass(Struck(e, i, Gone(kicks, e[i])), i + 1, ready, kicks)
    else Pass(e, i + 1, ready, kicks)
  }

  /** Authorising a client drops nobody who stands ahead of it. */
  ghost predicate OnlyBehind(e: seq<nat>, i: nat, ready: set<nat>, kicks: map<nat, seq<nat>>) {
    forall j, k :: 0 <= k < j < |e| && i <= j && e[j] in ready && e[k] != 0 ==> e[k] !in DropsFor(kicks, e[j])
  }

  /** Then nobody who is ready is passed over. */
  lemma {:induction false} NobodyPassedOver(e: seq<nat>, i: nat, ready: set<nat>, kicks: map<nat, seq<nat>>)
    requires i <= |e| && OnlyBehind(e, i, ready, kicks)
    ensures forall x :: x in Pass(e, i, ready, kicks) && x != 0 && x in ready ==> x in e[..i]
    decreases |e| - i
  {
    if i == |e| {
      assert e[..i] == e;
    } else if e[i] in ready {
      var gone := Gone(kicks, e[i]);
      var rest := Keep(e[i + 1..], gone);
      var r := Struck(e, i, gone);
      PrefixStays(e, i, gone);
      assert r == e[..i] + [0] + rest;
      StillBehind(e, i, gone, rest, ready, kicks);
      NobodyPassedOver(r, i + 1, ready, kicks);
      assert r[..i + 1] == e[..i] + [0];
    } else {
      NobodyPassedOver(e, i + 1, ready, kicks);
      assert e[..i + 1] == e[..i] + [e[i]];
    }
  }

  lemma PrefixStays(e: seq<nat>, i: nat, gone: set<nat>)
    requires i < |e| && 0 !in gone && forall k :: 0 <= k < i ==> e[k] !in gone
    ensures Struck(e, i, gone) == e[..i] + [0] + Keep(e[i + 1..], gone)
  {
    assert e[i := 0] == (e[..i] + [0]) + e[i + 1..];
    KeepConcat(e[..i] + [0], e[i + 1..], gone);
    assert forall k :: 0 <= k < i ==> e[..i][k] == e[k];
  }

  lemma StillBehind(e: seq<nat>, i: nat, gone: set<nat>, rest: seq<nat>, ready: set<nat>, kicks: map<nat, seq<nat>>)
    requires i < |e| && OnlyBehind(e, i, ready, kicks) && rest == Keep(e[i + 1..], gone)
    ensures OnlyBehind(e[..i] + [0] + rest, i + 1, ready, kicks)
  {
    hide Keep, OnlyBehind, DropsFor;
    var r, tail := e[..i] + [0] + rest, e[i + 1..];
    KeepOrder(tail, gone);
    forall j, k | 0 <= k < j < |r| && i + 1 <= j && r[j] in ready && r[k] != 0 ensures r[k] !in DropsFor(kicks, r[j]) {
      assert r[j] == rest[j - i - 1] && r[j] in tail;
      if k < i {
        assert r[k] == e[..i][k];
        AheadSpared(e, i, r[k], r[j], ready, kicks);
      } else {
        assert r[k] == rest[k - i - 1];
        assert Before(rest, r[k], r[j]);
        BehindSpared(e, i, r[k], r[j], ready, kicks);
      }
    }
    OnlyBehindIs(r, i + 1, ready, kicks);
  }

  lemma OnlyBehindIs(e: seq<nat>, i: nat, ready: set<nat>, kicks: map<nat, seq<nat>>)
    requires forall j, k :: 0 <= k < j < |e| && i <= j && e[j] in ready && e[k] != 0 ==> e[k] !in DropsFor(kicks, e[j])
    ensures OnlyBehind(e, i, ready, kicks)
  {
    hide DropsFor;
  }

  lemma AheadSpared(e: seq<nat>, i: nat, x: nat, y: nat, ready: set<nat>, kicks: map<nat, seq<nat>>)
    requires i < |e| && OnlyBehind(e, i, ready, kicks) && x in e[..i] && x != 0 && y in e[i + 1..] && y in ready
    ensures x !in DropsFor(kicks, y)
  {
    hide DropsFor;
    var k :| 0 <= k < i && e[..i][k] == x;
    var m :| 0 <= m < |e[i + 1..]| && e[i + 1..][m] == y;
    assert e[k] == x && e[i + 1 + m] == y;
  }

  lemma BehindSpared(e: seq<nat>, i: nat, x: nat, y: nat, ready: set<nat>, kicks: map<nat, seq<nat>>)
    requires i < |e| && OnlyBehind(e, i, ready, kicks) && Before(e[i + 1..], x, y) && x != 0 && y in ready
    ensures x !in DropsFor(kicks, y)
  {
    hide DropsFor;
    var a, b :| 0 <= a < b < |e[i + 1..]| && e[i + 1..][a] == x && e[i + 1..][b] == y;
    assert e[i + 1 + a] == x && e[i + 1 + b] == y;
  }

  /** What stands where a walk at `i` has been. */
  function Head(e: seq<nat>, i: nat): seq<nat> { if i <= |e| then e[..i] else e }

  lemma HeadStep(e: seq<nat>, i: nat, x: nat)
    ensures x in Head(e, i + 1) <==> x in Head(e, i) || (i < |e| && x == e[i])
    ensures i >= |e| ==> Head(e, i) == e
  {
    if i < |e| {
      assert e[..i + 1] == e[..i] + [e[i]];
    }
  }

  /** Whom the step at `i` moves there, past the walk: as many clients as its drops take away ahead of it. */
  function Under(e: seq<nat>, i: nat, gone: set<nat>): seq<nat>
    requires i < |e|
  {
    var ahead, behind := Keep(e[..i], gone), Keep(e[i + 1..], gone);
    Head(behind, i - |ahead|)
  }

  /** In general a step passes over as many clients as its drops take away ahead of the one authorised: those that
      follow it and are still there come to stand where the walk has been. */
  lemma HowManyPassedOver(e: seq<nat>, i: nat, gone: set<nat>)
    requires i < |e| && 0 !in gone
    ensures var ahead, behind := Keep(e[..i], gone), Keep(e[i + 1..], gone);
            var m, r := i - |ahead|, Struck(e, i, gone);
            && r == ahead + [0] + behind && m >= 0
            && Head(r, i + 1) == ahead + [0] + Under(e, i, gone)
            && Under(e, i, gone) == if |behind| <= m then behind else behind[..m]
  {
    assert Keep([0], gone) == [0];
    hide Keep;
    assert e[i := 0] == (e[..i] + [0]) + e[i + 1..];
    KeepConcat(e[..i] + [0], e[i + 1..], gone);
    KeepConcat(e[..i], [0], gone);
    HeadOf(Keep(e[..i], gone), Keep(e[i + 1..], gone), i);
  }

  lemma HeadOf(a: seq<nat>, b: seq<nat>, i: nat)
    requires |a| <= i
    ensures Head(a + [0] + b, i + 1) == a + [0] + Head(b, i - |a|)
  {
  }

  /** From `i` on, no client that is authorised has `x` dropped. */
  predicate Survives(e: seq<nat>, i: nat, ready: set<nat>, kicks: map<nat, seq<nat>>, x: nat)
    decreases |e| - i
  {
    i < |e| ==>
      if e[i] in ready then
        var gone := Gone(kicks, e[i]);
        x !in gone && Survives(Struck(e, i, gone), i + 1, ready, kicks, x)
      else
        Survives(e, i + 1, ready, kicks, x)
  }

  /** Some step from `i` on moves `x` past the walk, and no later one has it dropped. */
  predicate Skipped(e: seq<nat>, i: nat, ready: set<nat>, kicks: map<nat, seq<nat>>, x: nat)
    decreases |e| - i
  {
    i < |e| &&
      if e[i] in ready then
        var gone := Gone(kicks, e[i]);
        var r := Struck(e, i, gone);
        if x in Under(e, i, gone) then Survives(r, i + 1, ready, kicks, x) else Skipped(r, i + 1, ready, kicks, x)
      else
        Skipped(e, i + 1, ready, kicks, x)
  }

  /** A client that is ready is still queued after a pass if and only if a step moved it past the walk. */
  lemma PassedOverIff(e: seq<nat>, ready: set<nat>, kicks: map<nat, seq<nat>>, x: nat)
    requires x in ready && x != 0
    ensures x in Nonzero(Pass(e, 0, ready, kicks)) <==> Skipped(e, 0, ready, kicks, x)
  {
    NonzeroIs(Pass(e, 0, ready, kicks));
    SkippedFrom(e, 0, ready, kicks, x);
  }

  lemma WhoIsPassedOver(e: seq<nat>, ready: set<nat>, kicks: map<nat, seq<nat>>)
    ensures forall x :: x in ready && x != 0 ==>
              (x in Nonzero(Pass(e, 0, ready, kicks)) <==> Skipped(e, 0, ready, kicks, x))
  {
    hide Nonzero, Pass, Skipped;
    forall x | x in ready && x != 0
      ensures x in Nonzero(Pass(e, 0, ready, kicks)) <==> Skipped(e, 0, ready, kicks, x)
    {
      PassedOverIff(e, ready, kicks, x);
    }
  }

  lemma {:induction false} SkippedFrom(e: seq<nat>, i: nat, ready: set<nat>, kicks: map<nat, seq<nat>>, x: nat)
    requires x in ready && x != 0 && x !in Head(e, i)
    ensures x in Pass(e, i, ready, kicks) <==> Skipped(e, i, ready, kicks, x)
    decreases |e| - i
  {
    hide Head, Gone, Struck, Under;
    HeadStep(e, i, x);
    if i < |e| && e[i] in ready {
      var gone := Gone(kicks, e[i]);
      var r := Struck(e, i, gone);
      MovedUnder(e, i, gone, x);
      if x in Under(e, i, gone) {
        SurvivesFrom(r, i + 1, ready, kicks, x);
      } else {
        SkippedFrom(r, i + 1, ready, kicks, x);
      }
    } else if i < |e| {
      SkippedFrom(e, i + 1, ready, kicks, x);
    }
  }

  lemma {:induction false} SurvivesFrom(e: seq<nat>, i: nat, ready: set<nat>, kicks: map<nat, seq<nat>>, x: nat)
    requires x != 0 && x in Head(e, i)
    ensures x in Pass(e, i, ready, kicks) <==> Survives(e, i, ready, kicks, x)
    decreases |e| - i
  {
    hide Head, Gone, Struck;
    HeadStep(e, i, x);
    if i < |e| && e[i] in ready {
      var gone := Gone(kicks, e[i]);
      var r := Struck(e, i, gone);
      if x in gone {
        PassDrops(r, i + 1, ready, kicks, x);
      } else {
        StaysAhead(e, i, gone, x);
        SurvivesFrom(r, i + 1, ready, kicks, x);
      }
    } else if i < |e| {
      SurvivesFrom(e, i + 1, ready, kicks, x);
    }
  }

  /** Nobody enters the array during a pass. */
  lemma {:induction false} PassDrops(e: seq<nat>, i: nat, ready: set<nat>, kicks: map<nat, seq<nat>>, x: nat)
    requires x != 0 && x !in e
    ensures x !in Pass(e, i, ready, kicks)
    decreases |e| - i
  {
    if i < |e| && e[i] in ready {
      PassDrops(Struck(e, i, Gone(kicks, e[i])), i + 1, ready, kicks, x);
    } else if i < |e| {
      PassDrops(e, i + 1, ready, kicks, x);
    }
  }

  /** Who is where the walk has been after the step at `i`: who was there before, and who was moved there. */
  lemma MovedUnder(e: seq<nat>, i: nat, gone: set<nat>, x: nat)
    requires i < |e| && 0 !in gone && x != 0 && x !in Head(e, i)
    ensures x in Head(Struck(e, i, gone), i + 1) <==> x in Under(e, i, gone)
  {
    assert Head(e, i) == e[..i];
    hide Keep, Head, Under, Struck;
    HowManyPassedOver(e, i, gone);
  }

  lemma StaysAhead(e: seq<nat>, i: nat, gone: set<nat>, x: nat)
    requires i < |e| && 0 !in gone && x != 0 && x in Head(e, i) && x !in gone
    ensures x in Head(Struck(e, i, gone), i + 1)
  {
    assert Head(e, i) == e[..i];
    hide Keep, Head, Under, Struck;
    HowManyPassedOver(e, i, gone);
  }

  /** But a drop ahead of the walk's place moves the next client under it: here 3 is ready, and is not looked at. */
  lemma ReadyPassedOver()
    ensures Nonzero(Pass([1, 2, 3], 0, {2, 3}, map[2 := [1]])) == [3]
  {
    var kicks := map[2 := [1]];
    assert Gone(kicks, 2) == {1};
    assert [1, 2, 3][1 := 0] == [1, 0, 3];
    assert Keep([1, 0, 3], {1}) == [0, 3] by {
      assert [1, 0, 3][1..] == [0, 3] && [0, 3][1..] == [3] && [3][1..] == [];
    }
    assert Pass([0, 3], 2, {2, 3}, kicks) == [0, 3];
    assert Pass([1, 2, 3], 1, {2, 3}, kicks) == [0, 3];
    assert [0, 3][..1] == [0] && [0][..0] == [];
  }

  lemma {:induction false} KeepConcat(a: seq<nat>, b: seq<nat>, gone: set<nat>)
    ensures Keep(a + b, gone) == Keep(a, gone) + Keep(b, gone)
  {
    if a == [] {
      assert a + b == b;
    } else {
      assert (a + b)[1..] == a[1..] + b;
      KeepConcat(a[1..], b, gone);
    }
  }

  /** A queued client stands in the array once. */
  lemma OnlyHere(e: seq<nat>, k: nat)
    requires k < |e| && e[k] != 0 && NoDup(Nonzero(e))
    ensures Without(e, e[k]) == e[..k] + e[k + 1..]
  {
    hide Nonzero, NoDup;
    var a, b, x := e[..k], e[k + 1..], e[k];
    NonzeroSplit(e, k);
    Apart(Nonzero(a), x, Nonzero(b));
    NonzeroIs(a);
    NonzeroIs(b);
    CutAt(e, k);
    assert a + [x] + b == a + ([x] + b);
    WithoutSplit(a, [x] + b, x);
    assert ([x] + b)[1..] == b;
  }

  lemma Apart(a: seq<nat>, x: nat, b: seq<nat>)
    requires NoDup(a + [x] + b)
    ensures x !in a && x !in b
  {
    var s := a + [x] + b;
    assert s[|a|] == x;
    assert forall i :: 0 <= i < |a| ==> s[i] == a[i];
    assert forall i :: 0 <= i < |b| ==> s[|a| + 1 + i] == b[i];
  }

  lemma {:induction false} WithoutSplit(a: seq<nat>, b: seq<nat>, x: nat)
    ensures Without(a + b, x) == Without(a, x) + Without(b, x)
  {
    if a == [] {
      assert a + b == b;
    } else {
      assert (a + b)[1..] == a[1..] + b;
      WithoutSplit(a[1..], b, x);
    }
  }

  /** From position `m` on, nothing is marked. */
  ghost predicate ZeroFree(s: seq<nat>, m: nat) { forall j :: m <= j < |s| ==> s[j] != 0 }

  class AuthQueue {
    const maxClients: nat
    const queue: array<nat>
    var clients: seq<Client>

    ghost predicate Shape()
      reads this, queue
    {
      && 1 <= maxClients <= SM_MAXPLAYERS && queue.Length == SM_MAXPLAYERS + 1 && |clients| == maxClients + 1
      && queue[0] <= SM_MAXPLAYERS
    }

    /** The queue, with the zeros that removal leaves behind while it is walked. */
    ghost function Entries(): seq<nat>
      requires Shape()
      reads this, queue
    {
      queue[1..queue[0] + 1]
    }

    /** Nobody is queued twice, and everybody queued is a human who waits for authorisation. */
    ghost predicate Sound()
      reads this, queue
    {
      && Shape() && NoDup(Nonzero(Entries()))
      && (forall c :: c in Entries() && c != 0 ==> 1 <= c <= maxClients && clients[c].Waiting())
    }

    /** Between checks, nothing is marked. */
    ghost predicate Valid()
      reads this, queue
    {
      Sound() && 0 !in Entries()
    }

    constructor (maxClients: nat)
      requires 1 <= maxClients <= SM_MAXPLAYERS
      ensures Valid() && fresh(queue) && Entries() == [] && this.maxClients == maxClients
      ensures forall c :: 0 <= c < |clients| ==> clients[c] == Client(false, false, false)
    {
      this.maxClients := maxClients;
      queue := new nat[SM_MAXPLAYERS + 1](_ => 0);
      clients := seq(maxClients + 1, _ => Client(false, false, false));
    }

    /** InvalidatePlayer: a client who waits leaves the queue, everything behind moves down; then it is gone. */
    method InvalidatePlayer(c: nat, ghost m: nat)
      requires Sound() && 1 <= c <= maxClients && ZeroFree(Entries(), m)
      modifies this`clients, queue
      ensures Sound() && clients == old(clients)[c := Client(false, false, false)]
      ensures Nonzero(Entries()) == Without(old(Nonzero(Entries())), c)
      ensures |Entries()| - |Nonzero(Entries())| == old(|Entries()| - |Nonzero(Entries())|)
      ensures |Entries()| <= |old(Entries())| && ZeroFree(Entries(), m) && Entries() == Without(old(Entries()), c)
    {
      hide Nonzero, NoDup, Without;
      ghost var e := Entries();
      NonzeroIs(e);
      if !clients[c].authorized {
        Dequeue(c, m);
      }
      StillOrdered(Nonzero(e), Nonzero(e), c);
      NonzeroIs(Entries());
      clients := clients[c := Client(false, false, false)];
    }

    method Dequeue(c: nat, ghost m: nat)
      requires Shape() && c != 0 && NoDup(Nonzero(Entries())) && ZeroFree(Entries(), m)
      modifies queue
      ensures Shape() && Nonzero(Entries()) == Without(old(Nonzero(Entries())), c) && ZeroFree(Entries(), m)
      ensures |Entries()| - |Nonzero(Entries())| == old(|Entries()| - |Nonzero(Entries())|)
      ensures |Entries()| <= |old(Entries())| && Entries() == Without(old(Entries()), c)
    {
      hide Nonzero, NoDup, Without;
      ghost var e := Entries();
      NonzeroIs(e);
      var i := 1;
      while i <= queue[0] && queue[i] != c
        invariant 1 <= i <= queue[0] + 1 && c !in queue[1..i]
      {
        i := i + 1;
      }
      if i <= queue[0] {
        assert e[i - 1] == c;
        Shifted(e, i - 1);
        OnlyHere(e, i - 1);
        Shift(i);
        assert Entries() == e[..i - 1] + e[i..];
      } else {
        assert queue[1..i] == e;
      }
    }

    method Shift(i: nat)
      requires Shape() && 1 <= i <= queue[0]
      modifies queue
      ensures queue[0] == old(queue[0]) - 1
      ensures queue[1..queue[0] + 1] == old(queue[1..queue[0] + 1])[..i - 1] + old(queue[1..queue[0] + 1])[i..]
    {
      var j := i + 1;
      while j <= queue[0]
        invariant i < j <= queue[0] + 1 && queue[0] == old(queue[0])
        invariant forall k :: 0 <= k < i ==> queue[k] == old(queue[k])
        invariant forall k :: i <= k < j - 1 ==> queue[k] == old(queue[k + 1])
        invariant forall k :: j <= k < queue.Length ==> queue[k] == old(queue[k])
      {
        queue[j - 1] := queue[j];
        j := j + 1;
      }
      queue[0] := queue[0] - 1;
      ghost var e, e' := old(queue[1..queue[0] + 1]), queue[1..queue[0] + 1];
      forall k | 0 <= k < |e'| ensures e'[k] == (e[..i - 1] + e[i..])[k] {
        assert e'[k] == queue[k + 1];
      }
    }

    /** A listener's doing: clients are dropped. */
    method Drop(kicks: seq<nat>, ghost m: nat)
      requires Sound() && ZeroFree(Entries(), m)
      modifies this`clients, queue
      ensures Sound() && |Entries()| - |Nonzero(Entries())| == old(|Entries()| - |Nonzero(Entries())|)
      ensures OrderWithin(Nonzero(Entries()), old(Nonzero(Entries()))) && |Entries()| <= |old(Entries())|
      ensures Departed(old(clients), clients, old(Nonzero(Entries())), Nonzero(Entries()))
      ensures Entries() == Keep(old(Entries()), Victims(kicks)) && (kicks == [] ==> clients == old(clients))
      ensures ZeroFree(Entries(), m) && |clients| == |old(clients)|
      ensures Downed(old(clients), clients, kicks)
    {
      hide Nonzero, NoDup, OrderWithin, Departed, Without, Keep, Victims, ZeroFree, Dropping, Downed;
      ghost var e, was := Entries(), clients;
      DropsStart(m);
      NoVictims(kicks, e);
      NobodyDown(was);
      for i := 0 to |kicks|
        invariant Dropping(was, e, m) && Shape()
        invariant Entries() == Keep(e, Victims(kicks[..i])) && (i == 0 ==> clients == was)
        invariant Downed(was, clients, kicks[..i])
      {
        OneVictim(e, kicks, i);
        ghost var before := clients;
        DropOne(kicks[i], m, was, e);
        OneDown(was, before, clients, kicks, i);
      }
      assert kicks[..|kicks|] == kicks;
      DropsDone(was, e, m);
    }

    /** Whoever is named is disconnected, and everybody else as before. */
    static ghost predicate Downed(was: seq<Client>, now: seq<Client>, kicks: seq<nat>) {
      && |now| == |was|
      && forall d :: 0 <= d < |was| ==> if d >= 1 && d in kicks then !now[d].connected else now[d] == was[d]
    }

    static lemma NobodyDown(was: seq<Client>)
      ensures Downed(was, was, [])
    {
    }

    static lemma OneDown(was: seq<Client>, before: seq<Client>, now: seq<Client>, kicks: seq<nat>, i: nat)
      requires i < |kicks| && Downed(was, before, kicks[..i])
      requires now == before || (1 <= kicks[i] < |before| && now == before[kicks[i] := Client(false, false, false)])
      requires 1 <= kicks[i] < |now| ==> !now[kicks[i]].connected
      ensures Downed(was, now, kicks[..i + 1])
    {
      assert kicks[..i + 1] == kicks[..i] + [kicks[i]];
    }

    /** What the listeners' drops keep, `e` being the array and `was` the clients before the first. */
    ghost predicate Dropping(was: seq<Client>, e: seq<nat>, m: nat)
      reads this, queue
    {
      && Sound() && |Entries()| - |Nonzero(Entries())| == |e| - |Nonzero(e)| && |Entries()| <= |e| && |clients| == |was|
      && OrderWithin(Nonzero(Entries()), Nonzero(e)) && Departed(was, clients, Nonzero(e), Nonzero(Entries()))
      && ZeroFree(Entries(), m)
    }

    lemma DropsStart(m: nat)
      requires Sound() && ZeroFree(Entries(), m)
      ensures Dropping(clients, Entries(), m) && Shape()
    {
      hide Nonzero, NoDup, OrderWithin, Departed;
      NonzeroIs(Entries());
      Nobody(clients, Nonzero(Entries()));
    }

    lemma DropsDone(was: seq<Client>, e: seq<nat>, m: nat)
      requires Dropping(was, e, m)
      ensures Sound() && |Entries()| - |Nonzero(Entries())| == |e| - |Nonzero(e)| && |Entries()| <= |e|
              && |clients| == |was|
      ensures OrderWithin(Nonzero(Entries()), Nonzero(e)) && Departed(was, clients, Nonzero(e), Nonzero(Entries()))
      ensures ZeroFree(Entries(), m)
    {
      hide Nonzero, NoDup, OrderWithin, Departed;
    }

    method DropOne(c: nat, ghost m: nat, ghost was: seq<Client>, ghost e0: seq<nat>)
      requires Dropping(was, e0, m) && Shape()
      modifies this`clients, queue
      ensures Dropping(was, e0, m) && Shape()
      ensures Entries() == if c == 0 then old(Entries()) else Without(old(Entries()), c)
      ensures clients == old(clients)
              || (1 <= c <= maxClients && clients == old(clients)[c := Client(false, false, false)])
      ensures 1 <= c <= maxClients ==> !clients[c].connected
    {
      hide Nonzero, NoDup, OrderWithin, Departed, Without, ZeroFree;
      ghost var e, r := Entries(), Nonzero(Entries());
      NonzeroIs(e);
      if 1 <= c <= maxClients && clients[c].connected {
        OneMore(was, clients, Nonzero(e0), r, c);
        InvalidatePlayer(c, m);
        StillOrdered(Nonzero(e0), r, c);
      }
    }

    static lemma NoVictims(kicks: seq<nat>, e: seq<nat>)
      ensures Keep(e, Victims(kicks[..0])) == e
    {
      assert Victims(kicks[..0]) == {};
    }

    static lemma OneVictim(e: seq<nat>, kicks: seq<nat>, i: nat)
      requires i < |kicks|
      ensures kicks[i] != 0 ==> Keep(e, Victims(kicks[..i + 1])) == Without(Keep(e, Victims(kicks[..i])), kicks[i])
      ensures kicks[i] == 0 || kicks[i] !in Keep(e, Victims(kicks[..i])) ==>
                Keep(e, Victims(kicks[..i + 1])) == Keep(e, Victims(kicks[..i]))
    {
      var gone, c := Victims(kicks[..i]), kicks[i];
      assert kicks[..i + 1] == kicks[..i] + [c];
      assert Victims(kicks[..i + 1]) == if c == 0 then gone else gone + {c};
      KeepWithout(e, gone, c);
    }

    static lemma Nobody(now: seq<Client>, q: seq<nat>)
      requires forall c :: c in q ==> c < |now| && now[c].Waiting()
      ensures Departed(now, now, q, q) && OrderWithin(q, q)
    {
    }

    static lemma OneMore(was: seq<Client>, now: seq<Client>, q: seq<nat>, r: seq<nat>, c: nat)
      requires c < |now| && Departed(was, now, q, r)
      ensures Departed(was, now[c := Client(false, false, false)], q, Without(r, c))
    {
    }

    /** Clients have only left, and the queue has lost exactly those of them it had. */
    static ghost predicate Departed(was: seq<Client>, now: seq<Client>, q: seq<nat>, r: seq<nat>) {
      && |now| == |was|
      && (forall c :: 0 <= c < |was| ==> now[c] == was[c] || (!now[c].connected && !now[c].authorized && !now[c].fake))
      && (forall c :: c in r <==> c in q && c < |now| && now[c].Waiting())
    }

    /** Between `was` and `now` clients have left, or have been authorised because they were ready. */
    static ghost predicate Progress(was: seq<Client>, now: seq<Client>, ready: set<nat>) {
      && |now| == |was|
      && (forall c :: 0 <= c < |was| ==>
            || now[c] == was[c]
            || (!now[c].connected && !now[c].authorized && !now[c].fake)
            || (now[c] == was[c].(authorized := true) && c in ready))
    }

    /** The queue is what was queued, in the same order, as far as it is still waiting. */
    static ghost predicate StillWaiting(now: seq<Client>, q0: seq<nat>, q: seq<nat>) {
      OrderWithin(q, q0) && (forall c :: c in q <==> c in q0 && c < |now| && now[c].Waiting())
    }

    /** RunAuthChecks: `ready` are the clients whose identity is known and validated; when a client is
        authorised, listeners may drop any clients, the queued ones included. */
    method RunAuthChecks(ready: set<nat>, kicks: map<nat, seq<nat>>)
      requires Valid()
      modifies this`clients, queue
      ensures Valid() && Progress(old(clients), clients, ready)
      ensures StillWaiting(clients, old(Entries()), Entries())
      ensures Entries() == Nonzero(Pass(old(Entries()), 0, ready, kicks))
      ensures forall x :: x in ready && x != 0 ==> (x in Entries() <==> Skipped(old(Entries()), 0, ready, kicks, x))
      ensures (forall c :: c in kicks ==> kicks[c] == []) ==>
                forall c :: c in Entries() <==> c in old(Entries()) && c !in ready
    {
      hide Nonzero, NoDup, OrderWithin, Progress, Departed, StillWaiting, Pass, Keep, Walking, Skipped, Struck;
      ghost var q0, was := Entries(), clients;
      WalkStarts(ready, kicks);
      var removed, i := 0, 1;
      while i <= queue[0]
        invariant Walking(was, q0, i, removed, ready) && Shape()
        invariant Pass(Entries(), i - 1, ready, kicks) == Pass(q0, 0, ready, kicks)
        decreases (queue[0] + 1) as int - i
      {
        PassStep(Entries(), i - 1, ready, kicks);
        removed := LookAt(i, removed, ready, kicks, was, q0);
        i := i + 1;
      }
      PassStep(Entries(), i - 1, ready, kicks);
      FinishWalk(removed, i, ready, was, q0);
      QuietPass(q0, ready, kicks);
      WhoIsPassedOver(q0, ready, kicks);
    }

    /** What the walk keeps, standing at `i` with `removed` entries marked. */
    ghost predicate Walking(was: seq<Client>, q0: seq<nat>, i: nat, removed: int, ready: set<nat>)
      reads this, queue
    {
      && Sound() && 1 <= i && removed == |Entries()| - |Nonzero(Entries())| && |Entries()| <= |q0| && |clients| == |was|
      && Progress(was, clients, ready) && StillWaiting(clients, q0, Nonzero(Entries())) && ZeroFree(Entries(), i - 1)
    }

    lemma WalkStarts(ready: set<nat>, kicks: map<nat, seq<nat>>)
      requires Valid()
      ensures Walking(clients, Entries(), 1, 0, ready) && 0 !in Entries()
    {
      hide Nonzero, NoDup, OrderWithin, Progress, StillWaiting;
      NonzeroIs(Entries());
      Everybody(clients, Entries(), ready);
    }

    /** One entry is looked at. */
    method LookAt(i: nat, removed: int, ready: set<nat>, kicks: map<nat, seq<nat>>, ghost was: seq<Client>,
                  ghost q0: seq<nat>)
      returns (more: int)
      requires Walking(was, q0, i, removed, ready) && Shape() && i <= queue[0]
      modifies this`clients, queue
      ensures Walking(was, q0, i + 1, more, ready) && Shape() && queue[0] <= old(queue[0]) && i - 1 < |old(Entries())|
      ensures Entries() == var e := old(Entries());
                           if e[i - 1] in ready then Struck(e, i - 1, Gone(kicks, e[i - 1])) else e
    {
      hide Nonzero, NoDup, OrderWithin, Progress, StillWaiting, Keep;
      var c := queue[i];
      assert Entries()[i - 1] == c;
      more := removed;
      if c in ready {
        more := removed + 1;
        Authorize(i, DropsFor(kicks, c), was, q0, ready);
      }
    }

    /** Whatever was marked leaves. */
    method FinishWalk(removed: int, i: nat, ready: set<nat>, ghost was: seq<Client>, ghost q0: seq<nat>)
      requires Walking(was, q0, i, removed, ready) && Shape() && queue[0] < i
      modifies queue
      ensures Valid() && Progress(was, clients, ready) && StillWaiting(clients, q0, Entries())
      ensures Entries() == Nonzero(old(Entries()))
    {
      hide Nonzero, NoDup, OrderWithin, Progress, StillWaiting;
      ghost var e := Entries();
      if removed > 0 {
        Compact(removed);
      } else {
        NonzeroAll(e);
      }
      Compacted(clients, q0, e);
    }

    static lemma PassStep(e: seq<nat>, i: nat, ready: set<nat>, kicks: map<nat, seq<nat>>)
      ensures i >= |e| ==> Pass(e, i, ready, kicks) == e
      ensures i < |e| && e[i] in ready ==>
                Pass(e, i, ready, kicks) == Pass(Struck(e, i, Gone(kicks, e[i])), i + 1, ready, kicks)
      ensures i < |e| && e[i] !in ready ==> Pass(e, i, ready, kicks) == Pass(e, i + 1, ready, kicks)
    {
    }

    /** The client at `i` is authorised and its entry marked; then the listeners are told. */
    method Authorize(i: nat, kicks: seq<nat>, ghost was: seq<Client>, ghost q0: seq<nat>, ghost ready: set<nat>)
      requires Sound() && 1 <= i <= queue[0] && queue[i] in ready && ZeroFree(Entries(), i - 1)
      requires Progress(was, clients, ready) && StillWaiting(clients, q0, Nonzero(Entries()))
      modifies this`clients, queue
      ensures Sound() && |clients| == old(|clients|) && |Entries()| <= |old(Entries())|
      ensures |Entries()| - |Nonzero(Entries())| == old(|Entries()| - |Nonzero(Entries())|) + 1
      ensures Progress(was, clients, ready) && StillWaiting(clients, q0, Nonzero(Entries())) && ZeroFree(Entries(), i)
      ensures Entries() == Keep(old(Entries())[i - 1 := 0], Victims(kicks))
    {
      hide Nonzero, NoDup, OrderWithin, Progress, Departed, StillWaiting;
      ghost var before, e := clients, Entries();
      assert queue[i] == e[i - 1];
      QueuedIs(e, i - 1);
      Mark(i);
      Marked(was, before, q0, Nonzero(e), e[i - 1], ready);
      ghost var now, e' := clients, Entries();
      Drop(kicks, i);
      FewerWait(was, now, clients, q0, Nonzero(e'), Nonzero(Entries()), ready);
    }

    static lemma QueuedIs(e: seq<nat>, k: nat)
      requires k < |e| && e[k] != 0
      ensures e[k] in Nonzero(e)
    {
      NonzeroIs(e);
      assert e[k] in e;
    }

    static lemma {:induction false} QuietPassIs(e: seq<nat>, i: nat, ready: set<nat>, kicks: map<nat, seq<nat>>)
      requires i <= |e| && forall c :: c in kicks ==> kicks[c] == []
      ensures var r := Pass(e, i, ready, kicks);
              |r| == |e| && forall j :: 0 <= j < |e| ==> r[j] == if i <= j && e[j] in ready then 0 else e[j]
      decreases |e| - i
    {
      hide Gone, Struck;
      if i < |e| {
        NobodyDropped(e, i, kicks);
        QuietPassIs(if e[i] in ready then e[i := 0] else e, i + 1, ready, kicks);
      }
    }

    static lemma NobodyDropped(e: seq<nat>, i: nat, kicks: map<nat, seq<nat>>)
      requires i < |e| && forall c :: c in kicks ==> kicks[c] == []
      ensures Struck(e, i, Gone(kicks, e[i])) == e[i := 0]
    {
      assert Gone(kicks, e[i]) == {};
    }

    /** When listeners drop nobody, exactly those who are ready go. */
    static lemma QuietPass(e: seq<nat>, ready: set<nat>, kicks: map<nat, seq<nat>>)
      requires 0 !in e
      ensures (forall c :: c in kicks ==> kicks[c] == []) ==>
                forall c :: c in Nonzero(Pass(e, 0, ready, kicks)) <==> c in e && c !in ready
    {
      var r := Pass(e, 0, ready, kicks);
      NonzeroIs(r);
      if forall c :: c in kicks ==> kicks[c] == [] {
        QuietPassIs(e, 0, ready, kicks);
        hide Pass, Nonzero;
        forall c ensures c in r && c != 0 <==> c in e && c !in ready {
          if c in e && c !in ready {
            var j :| 0 <= j < |e| && e[j] == c;
            assert r[j] == c;
          }
        }
      }
    }

    static lemma Everybody(now: seq<Client>, q: seq<nat>, ready: set<nat>)
      requires forall c :: c in q ==> c < |now| && now[c].Waiting()
      ensures Progress(now, now, ready) && StillWaiting(now, q, q)
    {
    }

    static lemma Marked(was: seq<Client>, now: seq<Client>, q0: seq<nat>, q: seq<nat>, c: nat, ready: set<nat>)
      requires Progress(was, now, ready) && StillWaiting(now, q0, q) && NoDup(q) && c in q && c in ready && c < |now|
      ensures Progress(was, now[c := now[c].(authorized := true)], ready)
      ensures StillWaiting(now[c := now[c].(authorized := true)], q0, Without(q, c))
    {
      hide NoDup, OrderWithin;
      StillOrdered(q0, q, c);
    }

    static lemma FewerWait(was: seq<Client>, before: seq<Client>, now: seq<Client>, q0: seq<nat>, q: seq<nat>,
                           r: seq<nat>, ready: set<nat>)
      requires Progress(was, before, ready) && Departed(before, now, q, r) && OrderWithin(r, q)
               && StillWaiting(before, q0, q)
      ensures Progress(was, now, ready) && StillWaiting(now, q0, r)
    {
      hide OrderWithin;
      OrderTrans(r, q, q0);
    }

    static lemma Compacted(now: seq<Client>, q0: seq<nat>, e: seq<nat>)
      requires StillWaiting(now, q0, Nonzero(e))
      ensures 0 !in Nonzero(e) && Nonzero(Nonzero(e)) == Nonzero(e) && forall c :: c in Nonzero(e) ==> c in e && c != 0
    {
      NonzeroIs(e);
      NonzeroIs(Nonzero(e));
    }

    /** The client at `i` is authorised, and its entry marked. */
    method Mark(i: nat)
      requires Sound() && 1 <= i <= queue[0] && queue[i] != 0
      modifies this`clients, queue
      ensures Sound() && Entries() == old(Entries())[i - 1 := 0]
      ensures old(queue[i]) < |old(clients)|
      ensures clients == old(clients)[old(queue[i]) := old(clients[queue[i]]).(authorized := true)]
      ensures Nonzero(Entries()) == Without(old(Nonzero(Entries())), old(queue[i]))
      ensures |Nonzero(Entries())| == |old(Nonzero(Entries()))| - 1
    {
      hide Nonzero, NoDup, Without;
      ghost var e := Entries();
      var c := queue[i];
      assert e[i - 1] == c && c in e;
      NonzeroIs(e);
      Zeroed(e, i - 1);
      StillOrdered(Nonzero(e), Nonzero(e), c);
      clients := clients[c := clients[c].(authorized := true)];
      queue[i] := 0;
      assert Entries() == e[i - 1 := 0];
      assert Nonzero(Entries()) == Without(Nonzero(e), c);
      NonzeroIs(Entries());
    }

    /** The entries that are not marked move down over those that are. */
    method Compact(removed: nat)
      requires Shape() && removed == |Entries()| - |Nonzero(Entries())|
      modifies queue
      ensures Shape() && Entries() == old(Nonzero(Entries()))
    {
      hide Nonzero, Halfway;
      ghost var e := Entries();
      if removed == queue[0] {
        queue[0] := 0;
        return;
      }
      var diff, i := 0, 1;
      HalfwayStarts(queue[..], e);
      while i <= queue[0]
        invariant 1 <= i <= queue[0] + 1 && queue[0] == |e| && Halfway(queue[..], e, i, diff)
      {
        HalfwayStep(queue[..], e, i, diff);
        if queue[i] == 0 {
          diff := diff + 1;
        } else {
          queue[i - diff] := queue[i];
        }
        i := i + 1;
      }
      HalfwayDone(queue[..], e, diff);
      queue[0] := queue[0] - removed;
    }

    /** Before index `i`, what was not marked has moved down by `diff`; from there on the array is as it was. */
    static ghost predicate Halfway(q: seq<nat>, e: seq<nat>, i: nat, diff: nat) {
      && diff < i <= |e| + 1 <= |q| && |Nonzero(e[..i - 1])| == i - 1 - diff
      && q[1..i - diff] == Nonzero(e[..i - 1]) && q[i..|e| + 1] == e[i - 1..]
    }

    static lemma HalfwayStarts(q: seq<nat>, e: seq<nat>)
      requires |e| < |q| && q[1..|e| + 1] == e
      ensures Halfway(q, e, 1, 0)
    {
    }

    static lemma HalfwayStep(q: seq<nat>, e: seq<nat>, i: nat, diff: nat)
      requires Halfway(q, e, i, diff) && i <= |e|
      ensures i < |q| && 1 <= i - diff
      ensures if q[i] == 0 then Halfway(q, e, i + 1, diff + 1) else Halfway(q[i - diff := q[i]], e, i + 1, diff)
    {
      hide Nonzero;
      NonzeroSnoc(e, i - 1);
      assert q[i] == q[i..|e| + 1][0] == e[i - 1];
      assert q[i + 1..|e| + 1] == q[i..|e| + 1][1..] == e[i..];
      if q[i] != 0 {
        var r, k := q[i - diff := q[i]], i - diff;
        assert r[1..k + 1] == q[1..k] + [q[i]];
        assert r[i + 1..|e| + 1] == q[i + 1..|e| + 1];
      }
    }

    static lemma HalfwayDone(q: seq<nat>, e: seq<nat>, diff: nat)
      requires Halfway(q, e, |e| + 1, diff)
      ensures diff == |e| - |Nonzero(e)| && |e| < |q| && q[1..|Nonzero(e)| + 1] == Nonzero(e)
    {
      assert e[..|e|] == e;
    }

    static lemma NonzeroSnoc(e: seq<nat>, k: nat)
      requires k < |e|
      ensures Nonzero(e[..k + 1]) == Nonzero(e[..k]) + if e[k] == 0 then [] else [e[k]]
    {
      assert e[..k + 1][..k] == e[..k];
    }

    static lemma NonzeroAll(e: seq<nat>)
      requires |Nonzero(e)| == |e|
      ensures Nonzero(e) == e
    {
      if e != [] {
        NonzeroAll(e[..|e| - 1]);
      }
    }

    /** OnClientConnect: `accepted` is what the listeners decide, and `kicks` whom they drop while deciding. A client
        that was connected already is disconnected first. An accepted client that was dropped meanwhile is queued
        all the same, though it has gone: only then does the queue hold anybody who is not waiting. */
    method OnClientConnect(c: nat, fake: bool, accepted: bool, kicks: seq<nat>)
      requires Valid() && 1 <= c <= maxClients
      modifies this`clients, queue
      ensures Shape() && (Valid() <==> !(accepted && c in kicks)) && (clients[c].connected <==> c !in kicks)
      ensures Entries() == Keep(Without(old(Entries()), c), Victims(kicks))
                           + if accepted && (c in kicks || !fake) then [c] else []
      ensures |clients| == |old(clients)| && Downed(old(clients)[c := clients[c]], clients, Without(kicks, c))
    {
      hide Nonzero, OrderWithin, Departed, Keep, NoDup, Without, Downed;
      ghost var e0, at0 := Entries(), clients;
      if clients[c].connected {
        InvalidatePlayer(c, 0);
      }
      assert Entries() == Without(e0, c);
      ghost var q := Entries();
      NonzeroIs(q);
      assert c !in q;
      clients := clients[c := Client(true, false, fake)];
      assert Entries() == q;
      ghost var was := clients;
      Drop(kicks, 0);
      ghost var e := Entries();
      StillIn(was, clients, q, e, c);
      DownBut(at0, was, clients, kicks, c);
      if accepted && !clients[c].authorized && !clients[c].fake {
        Append(c);
      }
    }

    static lemma DownBut(at0: seq<Client>, was: seq<Client>, now: seq<Client>, kicks: seq<nat>, c: nat)
      requires 1 <= c < |at0| == |was| && was == at0[c := was[c]] && was[c].connected && Downed(was, now, kicks)
      ensures Downed(at0[c := now[c]], now, Without(kicks, c)) && (now[c].connected <==> c !in kicks)
      ensures c !in kicks ==> now[c] == was[c]
    {
    }

    /** The failing case in its smallest form: a listener kicks the client that the others let in. */
    static method KickedWhileConnecting() returns (q: AuthQueue)
      ensures q.Shape() && !q.Valid() && 1 in q.Entries() && !q.clients[1].connected
    {
      q := new AuthQueue(1);
      q.OnClientConnect(1, false, true, [1]);
    }

    method Append(c: nat)
      requires Valid() && 1 <= c <= maxClients && c !in Entries()
      modifies queue
      ensures Shape() && Entries() == old(Entries()) + [c] && Without(Entries(), c) == old(Entries())
      ensures Valid() <==> clients[c].Waiting()
    {
      hide Nonzero, Without;
      ghost var e := Entries();
      NonzeroIs(e);
      NoDupConcat(e, [c]);
      forall i | 0 <= i < |e + [c]| ensures 1 <= (e + [c])[i] <= maxClients {
        assert i < |e| ==> e[i] in e;
      }
      FastLinks.Pigeonhole(e + [c], maxClients);
      queue[0] := queue[0] + 1;
      queue[queue[0]] := c;
      assert Entries() == e + [c];
      NonzeroIs(e + [c]);
      WithoutMiddle(e, c, []);
      assert e + [c] + [] == e + [c] && e + [] == e;
      assert c in Entries();
    }

    static lemma StillIn(was: seq<Client>, now: seq<Client>, q: seq<nat>, e: seq<nat>, c: nat)
      requires Departed(was, now, Nonzero(q), Nonzero(e)) && ZeroFree(e, 0) && c !in q && c < |was|
      ensures Nonzero(e) == e && c !in e && c < |now|
      ensures now[c] == was[c] || (!now[c].connected && !now[c].authorized && !now[c].fake)
    {
      NonzeroIs(e);
      NonzeroIs(q);
    }
  }
}
