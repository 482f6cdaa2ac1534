/**
 User message listeners (core/UserMessages.cpp): lists that callbacks may edit while they are being walked,
 and a count that decides whether the engine is hooked. Listeners are numbered as they register.
 */
module UserMessageHooks {
  import opened Wrappers

  const MAX_MESSAGES: nat := 255

  datatype Info = Info(callback: nat, isNew: bool, list: nat, isHooked: bool, killMe: bool)

  datatype Act =
    | Hook(msg: int, callback: nat, intercept: bool, isNew: bool)
    | Unhook(msg: int, callback: nat, intercept: bool, isNew: bool)

  datatype Result = Continue | Handled | Stop

  /** What a listener does when it is called. */
  datatype Step = Step(acts: seq<Act>, result: Result)

  /** The `j`-th listener called answers this; past the script it lets the message pass. */
  function ResultAt(steps: seq<Step>, j: nat): Result { if j < |steps| then steps[j].result else Continue }

  ghost predicate Answered(steps: seq<Step>, n: nat, r: Result) { exists j: nat :: j < n && ResultAt(steps, j) == r }

  /** Each message has a list of listeners that only look and one of listeners that intercept. */
  function ListOf(msg: nat, intercept: bool): nat { if intercept then 2 * msg + 1 else 2 * msg }

  /** Messages and kinds of listener have lists of their own. */
  lemma ListsApart(msg: nat, intercept: bool, other: nat, kind: bool)
    requires msg < MAX_MESSAGES && other < MAX_MESSAGES
    ensures ListOf(msg, intercept) == ListOf(other, kind) <==> msg == other && intercept == kind
    ensures ListOf(msg, intercept) < 2 * MAX_MESSAGES
  {
  }

  predicate Registers(act: Act) { act.Hook? && 0 <= act.msg < MAX_MESSAGES }

  /** How many of the acts register a listener. */
  function Registered(acts: seq<Act>): nat {
    if acts == [] then 0
    else Registered(acts[..|acts| - 1]) + if Registers(acts[|acts| - 1]) then 1 else 0
  }

  /** How many of those of the first `n` listeners to be called do. */
  function RegisteredBy(steps: seq<Step>, n: nat): nat {
    if n == 0 then 0 else RegisteredBy(steps, n - 1) + if n <= |steps| then Registered(steps[n - 1].acts) else 0
  }

  lemma {:induction false} RegisteredFrom(steps: seq<Step>, m: nat, n: nat)
    ensures RegisteredBy(steps, m + n) == RegisteredBy(steps, m)
            + RegisteredBy(if m < |steps| then steps[m..] else [], n)
  {
    if n > 0 {
      RegisteredFrom(steps, m, n - 1);
    }
  }

  function Total(lists: seq<seq<nat>>): nat {
    if lists == [] then 0 else Total(lists[..|lists| - 1]) + |lists[|lists| - 1]|
  }

  lemma {:induction false} TotalUpdate(lists: seq<seq<nat>>, i: nat, l: seq<nat>)
    requires i < |lists|
    ensures Total(lists[i := l]) == Total(lists) - |lists[i]| + |l| && Total(lists) >= |lists[i]|
  {
    var n := |lists| - 1;
    if i == n {
      assert lists[i := l][..n] == lists[..n];
    } else {
      assert lists[i := l][..n] == lists[..n][i := l];
      TotalUpdate(lists[..n], i, l);
    }
  }

  /** In the order of registration. */
  ghost predicate Rising(s: seq<nat>) { forall i, j :: 0 <= i < j < |s| ==> s[i] < s[j] }

  class UserMessages {
    var infos: map<nat, Info>
    var lists: seq<seq<nat>>
    var nextId: nat
    var hookCount: nat
    var installed: bool
    var inHook: bool
    /** The listeners called for the current message, in order. */
    ghost var called: seq<nat>

    ghost predicate Shape()
      reads this`infos, this`lists, this`nextId, this`hookCount, this`installed
    {
      && |lists| == 2 * MAX_MESSAGES
      && (forall i :: 0 <= i < |lists| ==> Rising(lists[i]))
      && (forall i, k :: 0 <= i < |lists| && 0 <= k < |lists[i]| ==>
            lists[i][k] in infos && infos[lists[i][k]].list == i)
      && (forall x :: x in infos ==> x < nextId)
      && hookCount == Total(lists) && (installed <==> hookCount > 0)
    }

    /** Only the listener being called is marked, and it is not marked for deletion unless unhooked meanwhile. */
    ghost predicate Unmarked(but: Option<nat>)
      reads this`infos, this`lists
    {
      if but.Some? then UnmarkedIn(lists, infos, but.value) else NoneMarked(lists, infos)
    }

    static ghost predicate NoneMarked(lists: seq<seq<nat>>, infos: map<nat, Info>) {
      forall i, k :: 0 <= i < |lists| && 0 <= k < |lists[i]| && lists[i][k] in infos ==>
        !infos[lists[i][k]].isHooked && !infos[lists[i][k]].killMe
    }

    ghost predicate Valid()
      reads this`infos, this`lists, this`nextId, this`hookCount, this`installed
    {
      Shape() && Unmarked(None)
    }

    /** A listener is being called. */
    ghost predicate Calling(x: nat)
      reads this`infos, this`lists, this`nextId, this`hookCount, this`installed
    {
      && Shape() && Unmarked(Some(x))
      && x in infos && infos[x].isHooked && infos[x].list < |lists| && x in lists[infos[x].list]
    }

    constructor ()
      ensures Valid() && hookCount == 0 && !installed
    {
      infos, lists, nextId := map[], seq(2 * MAX_MESSAGES, _ => []), 0;
      hookCount, installed, inHook, called := 0, false, false, [];
      new;
      NothingListed(lists);
    }

    static lemma {:induction false} NothingListed(lists: seq<seq<nat>>)
      requires forall i :: 0 <= i < |lists| ==> lists[i] == []
      ensures Total(lists) == 0
    {
      if lists != [] {
        NothingListed(lists[..|lists| - 1]);
      }
    }

    /** While the listener `x` is being called, lists lose other listeners and gain new ones; `x` stays. */
    static ghost predicate Edited(lists: seq<seq<nat>>, infos: map<nat, Info>, next: nat,
                                  lists': seq<seq<nat>>, infos': map<nat, Info>, next': nat, x: nat)
    {
      && |lists'| == |lists| && next' >= next
      && (forall i, y :: 0 <= i < |lists| && y in lists'[i] ==> y in lists[i] || y >= next)
      && x in infos && x in infos' && infos'[x] == infos[x].(killMe := infos'[x].killMe)
    }

    /** The engine is hooked exactly while somebody listens. */
    lemma InstalledWhileListening()
      requires Shape()
      ensures installed <==> exists i :: 0 <= i < |lists| && lists[i] != []
    {
      SomebodyListed(lists);
    }

    static lemma {:induction false} SomebodyListed(lists: seq<seq<nat>>)
      ensures Total(lists) > 0 <==> exists i :: 0 <= i < |lists| && lists[i] != []
    {
      if lists != [] {
        var n := |lists| - 1;
        SomebodyListed(lists[..n]);
        assert forall i :: 0 <= i < n ==> lists[..n][i] == lists[i];
      }
    }

    /** InternalHook */
    method InternalHook(msg: int, callback: nat, intercept: bool, isNew: bool) returns (ok: bool)
      requires Shape()
      modifies this`infos, this`lists, this`nextId, this`hookCount, this`installed
      ensures Shape() && ok == (0 <= msg < MAX_MESSAGES)
      ensures !ok ==> infos == old(infos) && lists == old(lists) && nextId == old(nextId)
      ensures ok ==>
                && nextId == old(nextId) + 1
                && infos == old(infos)[old(nextId) := Info(callback, isNew, ListOf(msg, intercept), false, false)]
                && lists == old(lists)[ListOf(msg, intercept) := old(lists[ListOf(msg, intercept)]) + [old(nextId)]]
    {
      if msg < 0 || msg >= MAX_MESSAGES {
        return false;
      }
      var i := ListOf(msg, intercept);
      TotalUpdate(lists, i, lists[i] + [nextId]);
      infos := infos[nextId := Info(callback, isNew, i, false, false)];
      if hookCount == 0 {
        installed := true;
      }
      hookCount := hookCount + 1;
      lists := lists[i := lists[i] + [nextId]];
      nextId := nextId + 1;
      return true;
    }

    predicate Matches(x: nat, callback: nat, isNew: bool)
      reads this
    {
      x in infos && infos[x].callback == callback && infos[x].isNew == isNew
    }

    /** InternalUnhook: the first listener that matches goes, at once, or when its call returns. */
    method InternalUnhook(msg: int, callback: nat, intercept: bool, isNew: bool) returns (ok: bool)
      requires Shape()
      modifies this`infos, this`lists, this`hookCount, this`installed
      ensures Shape()
      ensures ok <==>
                && 0 <= msg < MAX_MESSAGES
                && exists x :: x in old(lists[ListOf(msg, intercept)]) && x in old(infos)
                               && old(infos)[x].callback == callback && old(infos)[x].isNew == isNew
      ensures !ok ==> infos == old(infos) && lists == old(lists)
      ensures ok ==> exists k: nat ::
                FirstMatch(old(lists[ListOf(msg, intercept)]), old(infos), callback, isNew, k)
                && Unhooked(old(infos), old(lists), infos, lists, ListOf(msg, intercept), k)
    {
      if msg < 0 || msg >= MAX_MESSAGES {
        return false;
      }
      var i, k := ListOf(msg, intercept), 0;
      var list := lists[i];
      while k < |list| && !Matches(list[k], callback, isNew)
        invariant 0 <= k <= |list| && forall j :: 0 <= j < k ==> !Matches(list[j], callback, isNew)
      {
        k := k + 1;
      }
      if k == |list| {
        return false;
      }
      assert FirstMatch(list, infos, callback, isNew, k);
      var x := list[k];
      if infos[x].isHooked {
        infos := infos[x := infos[x].(killMe := true)];
      } else {
        Erase(i, k);
      }
      return true;
    }

    static ghost predicate FirstMatch(list: seq<nat>, infos: map<nat, Info>, callback: nat, isNew: bool, k: nat) {
      && k < |list| && list[k] in infos && infos[list[k]].callback == callback && infos[list[k]].isNew == isNew
      && forall j :: 0 <= j < k ==>
           !(list[j] in infos && infos[list[j]].callback == callback && infos[list[j]].isNew == isNew)
    }

    static ghost predicate Unhooked(infos: map<nat, Info>, lists: seq<seq<nat>>, infos': map<nat, Info>,
                                    lists': seq<seq<nat>>, i: nat, k: nat) {
      && i < |lists| && k < |lists[i]| && lists[i][k] in infos
      && var x := lists[i][k];
         if infos[x].isHooked then lists' == lists && infos' == infos[x := infos[x].(killMe := true)]
         else infos' == infos && lists' == lists[i := lists[i][..k] + lists[i][k + 1..]]
    }

    /** A listener leaves its list; with the last one the engine is unhooked. */
    method Erase(i: nat, k: nat)
      requires Shape() && i < |lists| && k < |lists[i]|
      modifies this`lists, this`hookCount, this`installed
      ensures Shape() && lists == old(lists)[i := old(lists[i])[..k] + old(lists[i])[k + 1..]]
    {
      var l := lists[i][..k] + lists[i][k + 1..];
      TotalUpdate(lists, i, l);
      lists := lists[i := l];
      hookCount := hookCount - 1;
      if hookCount == 0 {
        installed := false;
      }
    }

    /** The body of a callback: listeners hook and unhook, themselves included. */
    method RunActs(acts: seq<Act>, x: nat)
      requires Calling(x) && x < nextId
      modifies this`infos, this`lists, this`nextId, this`hookCount, this`installed
      ensures Calling(x) && Edited(old(lists), old(infos), old(nextId), lists, infos, nextId, x)
      ensures acts == [] ==> lists == old(lists) && infos == old(infos)
      ensures nextId == old(nextId) + Registered(acts)
      ensures |acts| == 1 && acts[0].Unhook? ==> UnhookDone(old(infos), old(lists), infos, lists, acts[0])
    {
      hide Shape, Unmarked, UnhookDone;
      for i := 0 to |acts|
        invariant Calling(x) && x < nextId && Edited(old(lists), old(infos), old(nextId), lists, infos, nextId, x)
        invariant i == 0 ==> lists == old(lists) && infos == old(infos)
        invariant nextId == old(nextId) + Registered(acts[..i])
        invariant i == |acts| == 1 && acts[0].Unhook? ==> UnhookDone(old(infos), old(lists), infos, lists, acts[0])
      {
        assert acts[..i + 1][..i] == acts[..i];
        RunAct(acts[i], x);
      }
      assert acts[..|acts|] == acts;
    }

    method RunAct(act: Act, x: nat)
      requires Calling(x) && x < nextId
      modifies this`infos, this`lists, this`nextId, this`hookCount, this`installed
      ensures Calling(x) && x < nextId && Edited(old(lists), old(infos), old(nextId), lists, infos, nextId, x)
      ensures nextId == old(nextId) + if Registers(act) then 1 else 0
      ensures act.Unhook? ==> UnhookDone(old(infos), old(lists), infos, lists, act)
    {
      match act {
        case Hook(msg, callback, intercept, isNew) =>
          var _ := InternalHook(msg, callback, intercept, isNew);
        case Unhook(msg, callback, intercept, isNew) =>
          UnhookWhile(msg, callback, intercept, isNew, x);
      }
    }

    /** The first listener that matches is gone or marked; or there is none, and nothing has changed. */
    static ghost predicate UnhookDone(infos: map<nat, Info>, lists: seq<seq<nat>>, infos': map<nat, Info>,
                                      lists': seq<seq<nat>>, act: Act)
      requires act.Unhook?
    {
      if 0 <= act.msg < MAX_MESSAGES && ListOf(act.msg, act.intercept) < |lists|
         && exists k: nat :: FirstMatch(lists[ListOf(act.msg, act.intercept)], infos, act.callback, act.isNew, k)
      then
        exists k: nat ::
          && FirstMatch(lists[ListOf(act.msg, act.intercept)], infos, act.callback, act.isNew, k)
          && Unhooked(infos, lists, infos', lists', ListOf(act.msg, act.intercept), k)
      else infos' == infos && lists' == lists
    }

    static lemma NoFirstMatch(list: seq<nat>, infos: map<nat, Info>, callback: nat, isNew: bool)
      requires !exists x :: x in list && x in infos && infos[x].callback == callback && infos[x].isNew == isNew
      ensures forall k: nat :: !FirstMatch(list, infos, callback, isNew, k)
    {
      forall k: nat | k < |list| ensures !FirstMatch(list, infos, callback, isNew, k) {
        assert list[k] in list;
      }
    }

    method UnhookWhile(msg: int, callback: nat, intercept: bool, isNew: bool, x: nat)
      requires Calling(x) && x < nextId
      modifies this`infos, this`lists, this`hookCount, this`installed
      ensures Calling(x) && x < nextId && Edited(old(lists), old(infos), old(nextId), lists, infos, nextId, x)
      ensures UnhookDone(old(infos), old(lists), infos, lists, Unhook(msg, callback, intercept, isNew))
    {
      hide Shape, FirstMatch, Rising, UnmarkedIn;
      ghost var was, were, n := lists, infos, nextId;
      ListExists(x);
      var ok := InternalUnhook(msg, callback, intercept, isNew);
      if ok {
        ghost var i := ListOf(msg, intercept);
        ghost var k: nat :| FirstMatch(was[i], were, callback, isNew, k) && Unhooked(were, was, infos, lists, i, k);
        UnhookedWhile(was, were, n, lists, infos, x, i, k);
      } else {
        SameLists(was, were, n, x);
        if 0 <= msg < MAX_MESSAGES {
          NoFirstMatch(was[ListOf(msg, intercept)], were, callback, isNew);
        }
      }
    }

    lemma ListExists(x: nat)
      requires Calling(x)
      ensures |lists| == 2 * MAX_MESSAGES
    {
    }

    static lemma SameLists(lists: seq<seq<nat>>, infos: map<nat, Info>, n: nat, x: nat)
      requires x in infos
      ensures Edited(lists, infos, n, lists, infos, n, x)
    {
    }

    static lemma UnhookedWhile(lists: seq<seq<nat>>, infos: map<nat, Info>, n: nat, lists': seq<seq<nat>>,
                               infos': map<nat, Info>, x: nat, i: nat, k: nat)
      requires x in infos && infos[x].isHooked && infos[x].list < |lists| && x in lists[infos[x].list]
               && UnmarkedIn(lists, infos, x)
      requires i < |lists| && k < |lists[i]| && lists[i][k] in infos && Unhooked(infos, lists, infos', lists', i, k)
      ensures Edited(lists, infos, n, lists', infos', n, x) && UnmarkedIn(lists', infos', x)
      ensures x in infos' && infos'[x].isHooked && infos'[x].list < |lists'| && x in lists'[infos'[x].list]
    {
      StillThere(lists[i], k, x);
      if infos[lists[i][k]].isHooked {
        MarkedUnmarked(lists, infos, lists[i][k], x, i, k);
      } else {
        ErasedUnmarked(lists, infos, i, k, x);
      }
    }

    static ghost predicate UnmarkedIn(lists: seq<seq<nat>>, infos: map<nat, Info>, but: nat) {
      forall i, k :: 0 <= i < |lists| && 0 <= k < |lists[i]| && lists[i][k] in infos && lists[i][k] != but ==>
        !infos[lists[i][k]].isHooked && !infos[lists[i][k]].killMe
    }

    static lemma ErasedUnmarked(lists: seq<seq<nat>>, infos: map<nat, Info>, i: nat, k: nat, x: nat)
      requires i < |lists| && k < |lists[i]| && UnmarkedIn(lists, infos, x)
      ensures UnmarkedIn(lists[i := lists[i][..k] + lists[i][k + 1..]], infos, x)
    {
    }

    static lemma MarkedUnmarked(lists: seq<seq<nat>>, infos: map<nat, Info>, y: nat, x: nat, i: nat, k: nat)
      requires UnmarkedIn(lists, infos, x) && i < |lists| && k < |lists[i]| && lists[i][k] == y && y in infos
               && infos[y].isHooked
      ensures y == x
    {
    }

    static lemma StillThere(s: seq<nat>, k: nat, x: nat)
      requires k < |s|
      ensures x in s && s[k] != x ==> x in s[..k] + s[k + 1..]
      ensures forall y :: y in s[..k] + s[k + 1..] ==> y in s
    {
      if x in s && s[k] != x {
        var j :| 0 <= j < |s| && s[j] == x;
        assert (s[..k] + s[k + 1..])[if j < k then j else j - 1] == x;
      }
    }

    /** Part way down a list: what is before the iterator has been called, and registered before `bound`;
        what has been called since `from` is in the order of registration, and what is to come is later. */
    static ghost predicate Walked(l: seq<nat>, k: nat, called: seq<nat>, from: nat, bound: nat) {
      && k <= |l| && from <= |called| && Rising(called[from..])
      && (forall j :: 0 <= j < k ==> l[j] in called[from..])
      && (forall j :: k <= j < |l| ==> l[j] >= bound)
      && (forall j :: from <= j < |called| ==> called[j] < bound)
    }

    /** What listener `k` of list `i` does to go is to unhook whatever comes first with its own callback. */
    static ghost predicate UnhooksItself(act: Act, infos: map<nat, Info>, lists: seq<seq<nat>>, i: nat, k: nat)
      requires act.Unhook?
    {
      && 0 <= act.msg < MAX_MESSAGES && i == ListOf(act.msg, act.intercept) < |lists|
      && FirstMatch(lists[i], infos, act.callback, act.isNew, k)
    }

    static lemma MarkedItself(infos: map<nat, Info>, lists: seq<seq<nat>>, i: nat, k: nat, act: Act,
                              marked: map<nat, Info>, infos': map<nat, Info>, lists': seq<seq<nat>>)
      requires act.Unhook? && UnhooksItself(act, infos, lists, i, k)
      requires var x := lists[i][k]; marked == infos[x := infos[x].(isHooked := true)]
      requires UnhookDone(marked, lists, infos', lists', act)
      ensures var x := lists[i][k]; lists' == lists && x in infos' && infos'[x].killMe
    {
      assert FirstMatch(lists[i], marked, act.callback, act.isNew, k);
      var j: nat :|
        && FirstMatch(lists[i], marked, act.callback, act.isNew, j)
        && Unhooked(marked, lists, infos', lists', i, j);
      assert j == k;
    }

    static lemma OnlyPlace(l: seq<nat>, j: nat, k: nat)
      requires Rising(l) && j < |l| && k < |l| && l[j] == l[k]
      ensures j == k
    {
    }

    /** One listener is called: it is marked meanwhile, and leaves the list afterwards if it was unhooked. */
    method CallListener(i: nat, k: nat, step: Step, ghost from: nat, ghost bound: nat) returns (next: nat)
      requires Valid() && i < |lists| && Walked(lists[i], k, called, from, bound) && k < |lists[i]|
      modifies this
      ensures Valid() && i < |lists| && Walked(lists[i], next, called, from, old(lists[i][k]) + 1)
      ensures called == old(called) + [old(lists[i][k])] && inHook == old(inHook)
      ensures step.acts == [] ==> next == k + 1 && lists == old(lists)
      ensures nextId == old(nextId) + Registered(step.acts)
      ensures |step.acts| == 1 && step.acts[0].Unhook?
              && UnhooksItself(step.acts[0], old(infos), old(lists), i, k) ==>
                next == k && lists == old(lists)[i := old(lists[i])[..k] + old(lists[i])[k + 1..]]
    {
      hide Shape, Unmarked, Rising, Walked, UnmarkedIn, NoneMarked, Edited, UnhookDone, UnhooksItself;
      var x := lists[i][k];
      ghost var l, wasCalled := lists[i], called;
      Mark(i, k);
      called := called + [x];
      ghost var n, before, were := nextId, lists, infos;
      RunActs(step.acts, x);
      if |step.acts| == 1 && step.acts[0].Unhook? && UnhooksItself(step.acts[0], old(infos), before, i, k) {
        MarkedItself(old(infos), before, i, k, step.acts[0], were, infos, lists);
      }
      EditedList(before, were, n, lists, infos, nextId, x, i);
      InList(x, i);
      next := Position(lists[i], x);
      InOrder(i);
      if lists == before {
        OnlyPlace(lists[i], k, next);
      }
      CalledSoFar(l, k, lists[i], next, n, wasCalled, from, bound);
      StepBack(lists[i], next, called, from, x + 1);
      next := Release(i, next);
    }

    static lemma EditedList(lists: seq<seq<nat>>, infos: map<nat, Info>, next: nat,
                            lists': seq<seq<nat>>, infos': map<nat, Info>, next': nat, x: nat, i: nat)
      requires Edited(lists, infos, next, lists', infos', next', x) && i < |lists| && x in infos && infos[x].list == i
      ensures i < |lists'| && (forall y :: y in lists'[i] ==> y in lists[i] || y >= next)
      ensures x in infos' && infos'[x].list == i
    {
    }

    static lemma StepBack(l: seq<nat>, p: nat, called: seq<nat>, from: nat, bound: nat)
      requires p < |l| && Walked(l, p + 1, called, from, bound)
      ensures Walked(l[..p] + l[p + 1..], p, called, from, bound)
    {
    }

    method Mark(i: nat, k: nat)
      requires Valid() && i < |lists| && k < |lists[i]|
      modifies this`infos
      ensures Calling(lists[i][k]) && lists[i][k] < nextId && infos[lists[i][k]].list == i && Rising(lists[i])
      ensures lists == old(lists) && !infos[lists[i][k]].killMe && lists[i][k] in old(infos)
      ensures infos == old(infos)[lists[i][k] := old(infos[lists[i][k]]).(isHooked := true)]
    {
      var x := lists[i][k];
      infos := infos[x := infos[x].(isHooked := true)];
    }

    /** The mark is taken off, or the listener off the list. */
    method Release(i: nat, p: nat) returns (next: nat)
      requires i < |lists| && p < |lists[i]| && Calling(lists[i][p])
      modifies this`infos, this`lists, this`hookCount, this`installed
      ensures Valid() && i < |lists|
      ensures lists[i] == if old(infos[lists[i][p]].killMe) then old(lists[i])[..p] + old(lists[i])[p + 1..]
              else old(lists[i])
      ensures next == if old(infos[lists[i][p]].killMe) then p else p + 1
      ensures if old(infos[lists[i][p]].killMe)
              then lists == old(lists)[i := old(lists[i])[..p] + old(lists[i])[p + 1..]] else lists == old(lists)
    {
      var x := lists[i][p];
      if infos[x].killMe {
        Erase(i, p);
        next := p;
      } else {
        infos := infos[x := infos[x].(isHooked := false)];
        next := p + 1;
      }
    }

    lemma InList(x: nat, i: nat)
      requires Calling(x) && infos[x].list == i
      ensures i < |lists| && x in lists[i]
    {
    }

    lemma InOrder(i: nat)
      requires Shape() && i < |lists|
      ensures Rising(lists[i])
    {
    }

    static lemma CalledSoFar(l: seq<nat>, k: nat, l': seq<nat>, p: nat, n: nat, called: seq<nat>, from: nat, bound: nat)
      requires Rising(l) && Rising(l') && k < |l| && p < |l'| && l'[p] == l[k] < n
      requires forall y :: y in l' ==> y in l || y >= n
      requires Walked(l, k, called, from, bound)
      ensures Walked(l', p + 1, called + [l[k]], from, l[k] + 1)
      ensures l' == l ==> p == k
    {
      var c := called + [l[k]];
      assert c[from..] == called[from..] + [l[k]];
      forall i, j | 0 <= i < j < |c[from..]| ensures c[from..][i] < c[from..][j] {
        assert c[from..][i] == called[from..][i] == called[from + i];
      }
      forall j | 0 <= j < p ensures l'[j] in called[from..] {
        assert l'[j] < l'[p];
        assert l'[j] in l';
        var m :| 0 <= m < |l| && l[m] == l'[j];
      }
    }

    /** Where a list iterator points. */
    method Position(list: seq<nat>, x: nat) returns (k: nat)
      requires x in list
      ensures k < |list| && list[k] == x
    {
      k := 0;
      while list[k] != x
        invariant k < |list| && x in list[k..]
        decreases |list| - k
      {
        assert list[k..] == [list[k]] + list[k + 1..];
        k := k + 1;
      }
    }

    /** What a walk down one list did: every listener still on it was called, once, in the order of
        registration, unless one of them stopped the walk. */
    ghost predicate WalkDone(i: nat, from: nat)
      requires i < |lists|
      reads this
    {
      from <= |called| && Rising(called[from..]) && forall x :: x in lists[i] ==> x in called[from..]
    }

    /** The walk over the intercepting listeners. */
    method WalkIntercepts(i: nat, steps: seq<Step>)
      returns (left: seq<Step>, intercepted: bool, handled: bool, stopped: bool)
      requires Valid() && i < |lists|
      modifies this
      ensures Valid() && i < |lists| && inHook == old(inHook) && |left| <= |steps|
      ensures old(called) <= called && (intercepted <==> called != old(called))
      ensures !stopped ==> WalkDone(i, |old(called)|)
      ensures var n := |called| - |old(called)|; stopped <==> Answered(steps, n, Stop)
      ensures var n := |called| - |old(called)|; !stopped ==> (handled <==> Answered(steps, n, Handled))
      ensures old(lists[i]) != [] <==> intercepted
      ensures nextId == old(nextId) + RegisteredBy(steps, |called| - |old(called)|)
      ensures left == Left(steps, |called| - |old(called)|)
    {
      hide Shape, Unmarked, Rising, Walked, NoneMarked, Answered, Heard, Left, Registered, RegisteredBy;
      left, intercepted, handled, stopped := steps, false, false, false;
      HeardNothing(called, steps);
      RegisteredNobody(steps);
      var k: nat := 0;
      ghost var from, bound := |called|, 0;
      WalkStart(lists[i], called);
      while k < |lists[i]|
        invariant Valid() && i < |lists| && inHook == old(inHook) && |left| <= |steps|
        invariant Walked(lists[i], k, called, from, bound) && k <= |lists[i]|
        invariant Heard(old(called), called, steps, left, handled) && !stopped
        invariant (intercepted <==> called != old(called)) && (intercepted ==> old(lists[i]) != [])
        invariant !intercepted ==> k == 0 && lists == old(lists)
        invariant from <= |called| && nextId == old(nextId) + RegisteredBy(steps, |called| - from)
        decreases |left|, |lists[i]| - k
      {
        var step := if left == [] then Step([], Continue) else left[0];
        ghost var x := lists[i][k];
        HeardNext(old(called), called, x, steps, left, handled);
        k := CallListener(i, k, step, from, bound);
        left := if left == [] then [] else left[1..];
        bound, intercepted := x + 1, true;
        InBounds(lists[i], k, called, from, bound);
        if step.result.Stop? {
          stopped := true;
          return;
        }
        handled := handled || step.result.Handled?;
      }
      WalkEnd(lists[i], k, called, from, bound);
      HeardAll(old(called), called, steps, left, handled);
    }

    /** Part way: as many steps have been taken as listeners called, and what they answered so far. */
    static ghost predicate Heard(was: seq<nat>, now: seq<nat>, steps: seq<Step>, left: seq<Step>, handled: bool) {
      && was <= now && left == Left(steps, |now| - |was|) && !Answered(steps, |now| - |was|, Stop)
      && (handled <==> Answered(steps, |now| - |was|, Handled))
    }

    static function Left(steps: seq<Step>, n: nat): seq<Step> { if n < |steps| then steps[n..] else [] }

    static lemma RegisteredNobody(steps: seq<Step>)
      ensures RegisteredBy(steps, 0) == 0
    {
    }

    static lemma HeardNothing(called: seq<nat>, steps: seq<Step>)
      ensures Heard(called, called, steps, steps, false)
    {
      NoAnswer(steps, Stop);
      NoAnswer(steps, Handled);
    }

    static lemma HeardNext(was: seq<nat>, now: seq<nat>, x: nat, steps: seq<Step>, left: seq<Step>, handled: bool)
      requires Heard(was, now, steps, left, handled)
      ensures |left| <= |steps| && was <= now && was <= now + [x] && now + [x] != was
      ensures Left(steps, |now + [x]| - |was|) == if left == [] then [] else left[1..]
      ensures var step := if left == [] then Step([], Continue) else left[0];
              && (RegisteredBy(steps, |now + [x]| - |was|) == RegisteredBy(steps, |now| - |was|)
                  + Registered(step.acts))
              && (Answered(steps, |now + [x]| - |was|, Stop) <==> step.result.Stop?)
              && (!step.result.Stop? ==>
                    Heard(was, now + [x], steps, if left == [] then [] else left[1..], handled || step.result.Handled?))
    {
      hide Answered, Registered;
      NobodyRegistered();
      var n: nat := |now| - |was|;
      AnsweredNext(steps, n, Stop);
      AnsweredNext(steps, n, Handled);
      assert |now + [x]| - |was| == n + 1;
    }

    static lemma HeardAll(was: seq<nat>, now: seq<nat>, steps: seq<Step>, left: seq<Step>, handled: bool)
      requires Heard(was, now, steps, left, handled)
      ensures was <= now && |left| <= |steps| && !Answered(steps, |now| - |was|, Stop)
      ensures handled <==> Answered(steps, |now| - |was|, Handled)
      ensures left == Left(steps, |now| - |was|)
    {
      hide Answered;
    }

    static lemma NobodyRegistered()
      ensures Registered([]) == 0
    {
    }

    static lemma NoAnswer(steps: seq<Step>, r: Result)
      ensures !Answered(steps, 0, r)
    {
    }

    static lemma AnsweredNext(steps: seq<Step>, n: nat, r: Result)
      ensures Answered(steps, n + 1, r) <==> Answered(steps, n, r) || ResultAt(steps, n) == r
    {
    }

    static lemma WalkStart(l: seq<nat>, called: seq<nat>)
      ensures Walked(l, 0, called, |called|, 0)
    {
    }

    static lemma InBounds(l: seq<nat>, k: nat, called: seq<nat>, from: nat, bound: nat)
      requires Walked(l, k, called, from, bound)
      ensures k <= |l|
    {
    }

    static lemma WalkEnd(l: seq<nat>, k: nat, called: seq<nat>, from: nat, bound: nat)
      requires Walked(l, k, called, from, bound) && k >= |l|
      ensures from <= |called| && Rising(called[from..]) && forall x :: x in l ==> x in called[from..]
    {
    }

    static lemma LeftOf(steps: seq<Step>, n: nat)
      ensures var left := Left(steps, n);
              && (n == 0 ==> left == steps)
              && Left(steps, n + 1) == (if left == [] then [] else left[1..])
              && RegisteredBy(steps, n + 1) == RegisteredBy(steps, n)
                 + Registered(if left == [] then [] else left[0].acts)
    {
      NobodyRegistered();
    }

    /** The walk over the listeners that only look. */
    method WalkHooks(i: nat, steps: seq<Step>) returns (left: seq<Step>)
      requires Valid() && i < |lists|
      modifies this
      ensures Valid() && i < |lists| && inHook == old(inHook) && old(called) <= called
      ensures WalkDone(i, |old(called)|)
      ensures nextId == old(nextId) + RegisteredBy(steps, |called| - |old(called)|)
    {
      hide Shape, Unmarked, Rising, Walked, NoneMarked, Heard, Left, Registered, RegisteredBy, Answered;
      left := steps;
      RegisteredNobody(steps);
      LeftOf(steps, 0);
      var k: nat := 0;
      ghost var from, bound := |called|, 0;
      WalkStart(lists[i], called);
      while k < |lists[i]|
        invariant Valid() && i < |lists| && inHook == old(inHook) && old(called) <= called
        invariant Walked(lists[i], k, called, from, bound) && k <= |lists[i]|
        invariant left == Left(steps, |called| - from)
        invariant nextId == old(nextId) + RegisteredBy(steps, |called| - from)
        decreases |left|, |lists[i]| - k
      {
        var step := if left == [] then Step([], Continue) else left[0];
        ghost var x := lists[i][k];
        LeftOf(steps, |called| - from);
        k := CallListener(i, k, step, from, bound);
        left := if left == [] then [] else left[1..];
        bound := x + 1;
        InBounds(lists[i], k, called, from, bound);
      }
      WalkEnd(lists[i], k, called, from, bound);
    }

    /** OnMessageEnd_Pre: `steps` is what the listeners do, one after the other. The message itself goes out
        when some listener looked at it and none handled it; a listener that stops it ends everything. */
    method OnMessageEndPre(msg: nat, steps: seq<Step>)
      returns (sent: bool, superseded: bool, blockEndPost: bool, ghost mid: nat)
      requires Valid() && msg < MAX_MESSAGES
      modifies this
      ensures Valid() && inHook == old(inHook)
      ensures !old(inHook) ==> called == old(called) && lists == old(lists) && !sent && !superseded
      ensures old(inHook) ==> (superseded <==> old(ListsOf(msg, true)) != [])
      ensures old(called) <= called && (!old(inHook) ==> !blockEndPost)
      ensures old(inHook) ==>
                && |old(called)| <= mid <= |called|
                && (blockEndPost <==> Answered(steps, mid - |old(called)|, Stop))
                && (sent <==> superseded && !blockEndPost && !Answered(steps, mid - |old(called)|, Handled))
      ensures old(inHook) && !blockEndPost ==>
                && Rising(called[|old(called)|..mid])
                && |lists| == 2 * MAX_MESSAGES && WalkDone(ListOf(msg, false), mid)
      ensures nextId == old(nextId) + RegisteredBy(steps, |called| - |old(called)|)
    {
      hide Rising, NoneMarked, Answered, RegisteredBy;
      RegisteredNobody(steps);
      sent, superseded, blockEndPost, mid := false, false, false, 0;
      if !inHook {
        return;
      }
      var left, intercepted, handled, stopped := WalkIntercepts(ListOf(msg, true), steps);
      superseded, mid := intercepted, |called|;
      if stopped {
        blockEndPost := true;
        return;
      }
      sent := intercepted && !handled;
      ghost var before := called;
      assert called[|old(called)|..] == called[|old(called)|..mid];
      var _ := WalkHooks(ListOf(msg, false), left);
      RegisteredFrom(steps, mid - |old(called)|, |called| - mid);
      assert called[|old(called)|..mid] == before[|old(called)|..mid];
    }

    function ListsOf(msg: nat, intercept: bool): seq<nat>
      reads this`lists
    {
      if ListOf(msg, intercept) < |lists| then lists[ListOf(msg, intercept)] else []
    }
  }
}
