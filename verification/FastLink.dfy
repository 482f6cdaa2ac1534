/**
 The array-backed doubly linked list of core/sm_fastlink.h. Index 0 stands for "no node"; the
 stack of free indices is kept in the `freeNode` fields of the first slots of the same array.
 */
module FastLinks {
  import opened Sequences

  datatype FastLinkNode<T> = FastLinkNode(prev: nat, next: nat, freeNode: nat, obj: T)

  /** `chain` is a live chain of `ns`: next and prev are mutual inverses along it. */
  ghost predicate Linked<T>(ns: seq<FastLinkNode<T>>, chain: seq<nat>) {
    && NoDup(chain)
    && (forall i :: 0 <= i < |chain| ==>
          && 1 <= chain[i] < |ns|
          && ns[chain[i]].next == Succ(chain, i) && ns[chain[i]].prev == Pred(chain, i))
  }

  function Succ(chain: seq<nat>, i: nat): nat { if i + 1 < |chain| then chain[i + 1] else 0 }

  function Pred(chain: seq<nat>, i: nat): nat { if 0 < i <= |chain| then chain[i - 1] else 0 }

  function Objects<T>(ns: seq<FastLinkNode<T>>, chain: seq<nat>): (s: seq<T>)
    requires forall i :: 0 <= i < |chain| ==> chain[i] < |ns|
    ensures |s| == |chain| && forall i :: 0 <= i < |s| ==> s[i] == ns[chain[i]].obj
  {
    seq(|chain|, i requires 0 <= i < |chain| => ns[chain[i]].obj)
  }

  /** The free stack, bottom first. */
  function Stack<T>(ns: seq<FastLinkNode<T>>, n: nat): (s: seq<nat>)
    requires n < |ns|
    ensures |s| == n && forall k :: 0 <= k < n ==> s[k] == ns[k + 1].freeNode
  {
    seq(n, k requires 0 <= k < n => ns[k + 1].freeNode)
  }

  /** Every index ever handed out is in the chain or on the stack, and in one place only. */
  ghost predicate Slots(chain: seq<nat>, stack: seq<nat>, usable: nat) {
    && NoDup(chain) && NoDup(stack) && |chain| + |stack| == usable
    && (forall i :: 0 <= i < |chain| ==> 1 <= chain[i] <= usable)
    && (forall k :: 0 <= k < |stack| ==> 1 <= stack[k] <= usable && stack[k] !in chain)
  }

  function Last(chain: seq<nat>): nat { if chain == [] then 0 else chain[|chain| - 1] }

  function First(chain: seq<nat>): nat { if chain == [] then 0 else chain[0] }

  /** Appending node `x`: fill it in, then point the old tail at it. */
  function Appended<T>(ns: seq<FastLinkNode<T>>, last: nat, x: nat, obj: T): (r: seq<FastLinkNode<T>>)
    requires 0 < x < |ns| && last < |ns|
    ensures |r| == |ns|
  {
    var s := ns[x := FastLinkNode(last, 0, ns[x].freeNode, obj)];
    if last == 0 then s else s[last := s[last].(next := x)]
  }

  lemma AppendedLinks<T>(ns: seq<FastLinkNode<T>>, chain: seq<nat>, x: nat, obj: T)
    requires Linked(ns, chain) && 0 < x < |ns| && x !in chain
    ensures Last(chain) < |ns|
    ensures var r := Appended(ns, Last(chain), x, obj);
            && Linked(r, chain + [x]) && Objects(r, chain + [x]) == Objects(ns, chain) + [obj]
            && forall k :: 0 <= k < |ns| ==> r[k].freeNode == ns[k].freeNode
  {
    var r, c, n := Appended(ns, Last(chain), x, obj), chain + [x], |chain|;
    if n > 0 {
      LinkAt(ns, chain, n - 1);
    }
    forall i | 0 <= i < n
      ensures 1 <= chain[i] < |ns| && chain[i] != x && c[i] == chain[i] && r[c[i]].obj == ns[chain[i]].obj
              && r[c[i]].prev == Pred(c, i) && r[c[i]].next == Succ(c, i)
    {
      LinkAt(ns, chain, i);
      assert chain[i] in chain && Pred(c, i) == Pred(chain, i);
      assert Succ(c, i) == if i + 1 < n then Succ(chain, i) else x;
    }
    assert NoDup(chain) && x !in chain;
    hide Linked;
    AppendedEnd(ns, r, chain, x, obj);
  }

  lemma AppendedEnd<T>(ns: seq<FastLinkNode<T>>, r: seq<FastLinkNode<T>>, chain: seq<nat>, x: nat, obj: T)
    requires NoDup(chain) && x !in chain && |r| == |ns| && 0 < x < |ns|
             && r[x] == FastLinkNode(Last(chain), 0, r[x].freeNode, obj)
    requires forall i :: 0 <= i < |chain| ==> var c := chain + [x];
               1 <= chain[i] < |ns| && r[chain[i]].obj == ns[chain[i]].obj
               && r[chain[i]].prev == Pred(c, i) && r[chain[i]].next == Succ(c, i)
    ensures Linked(r, chain + [x]) && Objects(r, chain + [x]) == Objects(ns, chain) + [obj]
  {
    var c, n := chain + [x], |chain|;
    assert Pred(c, n) == Last(chain) && Succ(c, n) == 0;
    hide Succ, Pred;
    forall i | 0 <= i < |c|
      ensures 1 <= c[i] < |r| && r[c[i]].next == Succ(c, i) && r[c[i]].prev == Pred(c, i)
    {
      assert i < n ==> c[i] == chain[i];
    }
    NoDupConcat(chain, [x]);
    hide NoDup;
  }

  lemma LinkedIntro<T>(ns: seq<FastLinkNode<T>>, c: seq<nat>)
    requires NoDup(c) && forall i :: 0 <= i < |c| ==> 1 <= c[i] < |ns|
    requires forall i :: 0 <= i < |c| ==> ns[c[i]].next == Succ(c, i) && ns[c[i]].prev == Pred(c, i)
    ensures Linked(ns, c)
  {
  }

  lemma LinkAt<T>(ns: seq<FastLinkNode<T>>, chain: seq<nat>, k: nat)
    requires Linked(ns, chain) && k < |chain|
    ensures 1 <= chain[k] < |ns| && ns[chain[k]].next < |ns| && ns[chain[k]].prev < |ns|
    ensures ns[chain[k]].next == Succ(chain, k) && ns[chain[k]].prev == Pred(chain, k)
    ensures k > 0 ==> 1 <= chain[k - 1] < |ns|
    ensures k + 1 < |chain| ==> 1 <= chain[k + 1] < |ns|
    ensures chain[k] == First(chain) <==> k == 0
    ensures chain[k] == Last(chain) <==> k == |chain| - 1
  {
    if k > 0 {
      assert 1 <= chain[k - 1] < |ns|;
    }
    if k + 1 < |chain| {
      assert 1 <= chain[k + 1] < |ns|;
    }
  }

  /** Unlinking the node in position `k` of the chain, case by case as the code does. */
  function Unlinked<T>(ns: seq<FastLinkNode<T>>, first: nat, last: nat, x: nat): (r: seq<FastLinkNode<T>>)
    requires x < |ns| && ns[x].next < |ns| && ns[x].prev < |ns|
    ensures |r| == |ns|
  {
    if x == first && x == last then ns
    else if x == first then ns[ns[x].next := ns[ns[x].next].(prev := 0)]
    else if x == last then ns[ns[x].prev := ns[ns[x].prev].(next := 0)]
    else
      var s := ns[ns[x].next := ns[ns[x].next].(prev := ns[x].prev)];
      s[s[x].prev := s[s[x].prev].(next := s[x].next)]
  }

  function Dropped<T>(s: seq<T>, k: nat): seq<T>
    requires k < |s|
  {
    s[..k] + s[k + 1..]
  }

  /** Dropping position `k` joins the neighbours and leaves the other links alone. */
  lemma DroppedLinks(chain: seq<nat>, k: nat, i: nat)
    requires k < |chain| && i < |chain| - 1
    ensures var c, j := Dropped(chain, k), if i < k then i else i + 1;
            && |c| == |chain| - 1 && c[i] == chain[j]
            && Succ(c, i) == Succ(chain, if j == k - 1 then k else j)
            && Pred(c, i) == Pred(chain, if j == k + 1 then k else j)
  {
  }

  lemma DroppedNoDup(chain: seq<nat>, k: nat)
    requires NoDup(chain) && k < |chain|
    ensures NoDup(Dropped(chain, k))
  {
    WithoutAt(chain, k);
    WithoutOrder(chain, chain[k]);
    OrderWithinNoDup(Without(chain, chain[k]), chain);
  }

  lemma UnlinkedLinks<T>(ns: seq<FastLinkNode<T>>, chain: seq<nat>, k: nat)
    requires Linked(ns, chain) && k < |chain|
    ensures ns[chain[k]].next < |ns| && ns[chain[k]].prev < |ns|
    ensures var r := Unlinked(ns, First(chain), Last(chain), chain[k]);
            && Linked(r, Dropped(chain, k)) && Objects(r, Dropped(chain, k)) == Dropped(Objects(ns, chain), k)
            && forall j :: 0 <= j < |ns| ==> r[j].freeNode == ns[j].freeNode
  {
    LinkAt(ns, chain, k);
    DroppedNoDup(chain, k);
    hide Unlinked, Succ, Pred, Dropped, NoDup, First, Last;
    var r, c := Unlinked(ns, First(chain), Last(chain), chain[k]), Dropped(chain, k);
    forall j | 0 <= j < |ns| ensures r[j].freeNode == ns[j].freeNode && r[j].obj == ns[j].obj {
      UnlinkedRest(ns, First(chain), Last(chain), chain[k], j);
    }
    DroppedLength(chain, k);
    forall i | 0 <= i < |c|
      ensures 1 <= c[i] < |ns| && r[c[i]].obj == ns[chain[if i < k then i else i + 1]].obj
              && r[c[i]].next == Succ(c, i) && r[c[i]].prev == Pred(c, i)
    {
      DroppedLinks(chain, k, i);
      LinkAt(ns, chain, if i < k then i else i + 1);
      UnlinkedAt(ns, chain, k, if i < k then i else i + 1);
    }
    LinkedIntro(r, c);
    DroppedObjects(ns, r, chain, k);
  }

  lemma DroppedLength<T>(s: seq<T>, k: nat)
    requires k < |s|
    ensures |Dropped(s, k)| == |s| - 1
    ensures forall i :: 0 <= i < |s| - 1 ==> Dropped(s, k)[i] == s[if i < k then i else i + 1]
  {
  }

  lemma DroppedObjects<T>(ns: seq<FastLinkNode<T>>, r: seq<FastLinkNode<T>>, chain: seq<nat>, k: nat)
    requires |r| == |ns| && k < |chain| && forall i :: 0 <= i < |chain| ==> chain[i] < |ns|
    requires forall i :: 0 <= i < |chain| && i != k ==> r[chain[i]].obj == ns[chain[i]].obj
    ensures var c := Dropped(chain, k);
            (forall i :: 0 <= i < |c| ==> c[i] < |r|) && Objects(r, c) == Dropped(Objects(ns, chain), k)
  {
    DroppedLength(chain, k);
    DroppedLength(Objects(ns, chain), k);
    hide Dropped, Objects;
    var c := Dropped(chain, k);
    assert forall i :: 0 <= i < |c| ==> Objects(r, c)[i] == Dropped(Objects(ns, chain), k)[i];
  }

  lemma Distinct(chain: seq<nat>, i: nat, j: nat)
    requires NoDup(chain) && i < |chain| && j < |chain| && i != j
    ensures chain[i] != chain[j]
  {
  }

  /** Which fields unlinking `x` writes: the next of its predecessor and the prev of its successor. */
  lemma UnlinkWrites<T>(ns: seq<FastLinkNode<T>>, first: nat, last: nat, x: nat, y: nat)
    requires x < |ns| && y < |ns| && ns[x].next < |ns| && ns[x].prev < |ns| && y != x
    requires ns[x].next != x && ns[x].prev != x
    requires (x == first ==> ns[x].prev == 0) && (x == last ==> ns[x].next == 0)
    ensures var r := Unlinked(ns, first, last, x);
            && r[y].next == (if x != first && y == ns[x].prev then ns[x].next else ns[y].next)
            && r[y].prev == (if x != last && y == ns[x].next then ns[x].prev else ns[y].prev)
  {
  }

  lemma UnlinkedAt<T>(ns: seq<FastLinkNode<T>>, chain: seq<nat>, k: nat, j: nat)
    requires Linked(ns, chain) && k < |chain| && j < |chain| && j != k
    ensures ns[chain[k]].next < |ns| && ns[chain[k]].prev < |ns| && chain[j] < |ns|
    ensures var r, y := Unlinked(ns, First(chain), Last(chain), chain[k]), chain[j];
            && r[y].next == (if j == k - 1 then Succ(chain, k) else Succ(chain, j))
            && r[y].prev == (if j == k + 1 then Pred(chain, k) else Pred(chain, j))
  {
    assert NoDup(chain);
    hide Linked, NoDup, First, Last, Unlinked;
    LinkAt(ns, chain, k);
    LinkAt(ns, chain, j);
    Distinct(chain, j, k);
    if k > 0 {
      Distinct(chain, k, k - 1);
      if j != k - 1 {
        Distinct(chain, j, k - 1);
      }
    }
    if k + 1 < |chain| {
      Distinct(chain, k, k + 1);
      if j != k + 1 {
        Distinct(chain, j, k + 1);
      }
    }
    UnlinkWrites(ns, First(chain), Last(chain), chain[k], chain[j]);
  }

  lemma UnlinkedRest<T>(ns: seq<FastLinkNode<T>>, first: nat, last: nat, x: nat, j: nat)
    requires x < |ns| && ns[x].next < |ns| && ns[x].prev < |ns| && j < |ns|
    ensures var r := Unlinked(ns, first, last, x); r[j].freeNode == ns[j].freeNode && r[j].obj == ns[j].obj
  {
  }

  lemma SlotsPush(chain: seq<nat>, stack: seq<nat>, usable: nat, x: nat, usable': nat, stack': seq<nat>)
    requires Slots(chain, stack, usable)
    requires if stack == [] then x == usable' == usable + 1 && stack' == []
             else usable' == usable && x == stack[|stack| - 1] && stack' == stack[..|stack| - 1]
    ensures x !in chain && 1 <= x <= usable' && Slots(chain + [x], stack', usable')
  {
  }

  lemma SlotsDrop(chain: seq<nat>, stack: seq<nat>, usable: nat, k: nat)
    requires Slots(chain, stack, usable) && k < |chain|
    ensures Slots(Dropped(chain, k), stack + [chain[k]], usable)
  {
    var c := Dropped(chain, k);
    assert forall i :: 0 <= i < |c| ==> c[i] == chain[if i < k then i else i + 1];
    assert chain[k] in chain;
  }

  /** The live chain and the free stack together are a permutation of 1..usable. */
  lemma {:induction false} SlotsPartition(chain: seq<nat>, stack: seq<nat>, usable: nat, x: nat)
    requires Slots(chain, stack, usable)
    ensures 1 <= x <= usable <==> x in chain + stack
    ensures multiset(chain + stack)[x] <= 1
  {
    var all := chain + stack;
    assert NoDup(all) by {
      assert forall k :: 0 <= k < |stack| ==> stack[k] in stack;
      NoDupConcat(chain, stack);
    }
    NoDupCount(all);
    if 1 <= x <= usable && x !in all {
      Pigeonhole(all + [x], usable);
    }
  }

  /** More than `n` distinct numbers do not fit in 1..n. */
  lemma {:induction false} Pigeonhole(s: seq<nat>, n: nat)
    requires NoDup(s) && forall i :: 0 <= i < |s| ==> 1 <= s[i] <= n
    ensures |s| <= n
  {
    if n in s {
      var k := IndexOf(s, n);
      var t := Dropped(s, k);
      assert forall i :: 0 <= i < |t| ==> t[i] == s[if i < k then i else i + 1];
      Pigeonhole(t, n - 1);
    } else if s != [] {
      assert forall i :: 0 <= i < |s| ==> s[i] in s;
      assert 1 <= s[0] <= n;
      Pigeonhole(s, n - 1);
    }
  }

  class FastLink<T(==,0,!new)> {
    var size: nat
    var firstLink: nat
    var freeNodes: nat
    var lastLink: nat
    var usableIndex: nat
    const maxSize: nat
    const nodes: array<FastLinkNode<T>>

    /** The indices of the live nodes, front to back. */
    ghost var chain: seq<nat>

    ghost predicate Valid()
      reads this, nodes
    {
      && nodes.Length == maxSize + 1 && usableIndex <= maxSize && freeNodes <= maxSize
      && size == |chain| && firstLink == First(chain) && lastLink == Last(chain)
      && Linked(nodes[..], chain) && Slots(chain, Stack(nodes[..], freeNodes), usableIndex)
    }

    /** The list this object stands for. */
    ghost function Contents(): (s: seq<T>)
      requires Valid()
      reads this, nodes
    {
      Objects(nodes[..], chain)
    }

    constructor (maxSize: nat)
      ensures Valid() && fresh(nodes) && this.maxSize == maxSize && Contents() == []
    {
      size, firstLink, freeNodes, lastLink, usableIndex := 0, 0, 0, 0, 0;
      this.maxSize := maxSize;
      nodes := new FastLinkNode<T>[maxSize + 1];
      chain := [];
    }

    /** Pops the free stack, or takes the next index never used; 0 when the array is full. */
    method GetFreeIndex() returns (index: nat)
      requires Valid()
      modifies this`freeNodes, this`usableIndex
      ensures freeNodes <= maxSize && usableIndex <= maxSize
      ensures index == 0 <==> old(|chain|) == maxSize
      ensures index == 0 ==> freeNodes == old(freeNodes) && usableIndex == old(usableIndex)
      ensures if old(freeNodes) != 0
              then Stack(nodes[..], freeNodes) + [index] == old(Stack(nodes[..], freeNodes))
                && usableIndex == old(usableIndex)
              else freeNodes == 0 && (index != 0 ==> index == usableIndex == old(usableIndex) + 1)
      ensures index != 0 ==>
                && 1 <= index <= maxSize && index !in chain
                && Slots(chain + [index], Stack(nodes[..], freeNodes), usableIndex)
    {
      ghost var stack, usable := Stack(nodes[..], freeNodes), usableIndex;
      if freeNodes != 0 {
        index := nodes[freeNodes].freeNode;
        freeNodes := freeNodes - 1;
        assert Stack(nodes[..], freeNodes) == stack[..|stack| - 1];
      } else {
        if usableIndex >= maxSize {
          return 0;
        }
        usableIndex := usableIndex + 1;
        index := usableIndex;
      }
      SlotsPush(chain, stack, usable, index, usableIndex, Stack(nodes[..], freeNodes));
    }

    method PushBack(obj: T) returns (ok: bool)
      requires Valid()
      modifies this, nodes
      ensures Valid()
      ensures ok <==> |old(Contents())| < maxSize
      ensures Contents() == if ok then old(Contents()) + [obj] else old(Contents())
    {
      hide Linked, Slots, Objects, Stack, Appended;
      ghost var ns := nodes[..];
      var newNode := GetFreeIndex();
      if newNode == 0 {
        return false;
      }
      AppendedLinks(ns, chain, newNode, obj);
      LastIs(ns, chain);
      Fill(newNode, obj);
      size := size + 1;
      chain := chain + [newNode];
      StackSame(ns, nodes[..], freeNodes);
      ok := true;
    }

    /** Write the new node and hook it behind the last one. */
    method Fill(newNode: nat, obj: T)
      requires nodes.Length == maxSize + 1 && 0 < newNode <= maxSize && lastLink <= maxSize && newNode != lastLink
      requires firstLink == 0 <==> lastLink == 0
      modifies this`firstLink, this`lastLink, nodes
      ensures nodes[..] == Appended(old(nodes[..]), old(lastLink), newNode, obj)
      ensures lastLink == newNode && firstLink == if old(firstLink) == 0 then newNode else old(firstLink)
    {
      nodes[newNode] := nodes[newNode].(obj := obj);
      nodes[newNode] := nodes[newNode].(next := 0);
      if firstLink == 0 {
        nodes[newNode] := nodes[newNode].(prev := 0);
        firstLink := newNode;
        lastLink := newNode;
      } else {
        nodes[newNode] := nodes[newNode].(prev := lastLink);
        nodes[lastLink] := nodes[lastLink].(next := newNode);
        lastLink := newNode;
      }
    }

    method Size() returns (n: nat)
      requires Valid()
      ensures n == |Contents()|
    {
      n := size;
    }

    /** `position` is an iterator on element `k`; `k == |Contents()|` is end(). */
    ghost predicate At(position: nat, k: nat)
      requires Valid()
      reads this, nodes
    {
      k <= |chain| && position == if k < |chain| then chain[k] else 0
    }

    method Begin() returns (position: nat)
      requires Valid()
      ensures At(position, 0)
    {
      position := firstLink;
    }

    method Deref(position: nat, ghost k: nat) returns (obj: T)
      requires Valid() && At(position, k) && k < |Contents()|
      ensures obj == Contents()[k]
    {
      obj := nodes[position].obj;
    }

    method Advance(position: nat, ghost k: nat) returns (next: nat)
      requires Valid() && At(position, k) && k < |Contents()|
      ensures At(next, k + 1)
    {
      next := nodes[position].next;
    }

    /** Erasing at an iterator gives the iterator on the element that followed. */
    method Erase(position: nat, ghost k: nat) returns (next: nat)
      requires Valid() && At(position, k) && k < |Contents()|
      modifies this, nodes
      ensures Valid() && At(next, k)
      ensures Contents() == Dropped(old(Contents()), k)
    {
      hide Slots, Linked, Unlinked, Dropped, Objects, Stack, Succ, Pred;
      ghost var ns, stack := nodes[..], Stack(nodes[..], freeNodes);
      next := Advance(position, k);
      var index := position;
      UnlinkedLinks(ns, chain, k);
      SlotsDrop(chain, stack, usableIndex, k);
      SlotsRoom(chain, stack, usableIndex);
      DroppedLength(chain, k);
      Unlink(index, k);
      ghost var u := nodes[..];
      PushFree(index);
      size := size - 1;
      chain := Dropped(chain, k);
      StackSame(ns, u, |stack|);
      RelabelFree(u, nodes[..], chain, freeNodes, index);
    }

    method PushFree(index: nat)
      requires freeNodes + 1 < nodes.Length
      modifies this`freeNodes, nodes
      ensures freeNodes == old(freeNodes) + 1
      ensures nodes[..] == old(nodes[..])[freeNodes := old(nodes[..])[freeNodes].(freeNode := index)]
      ensures Stack(nodes[..], freeNodes) == Stack(old(nodes[..]), freeNodes - 1) + [index]
    {
      freeNodes := freeNodes + 1;
      nodes[freeNodes] := nodes[freeNodes].(freeNode := index);
    }

    /** The four cases: only node, head, tail, middle. There is no sentinel. */
    method Unlink(index: nat, ghost k: nat)
      requires Valid() && k < |chain| && index == chain[k]
      modifies this`firstLink, this`lastLink, nodes
      ensures index <= maxSize && old(nodes[index].next) <= maxSize && old(nodes[index].prev) <= maxSize
      ensures nodes[..] == Unlinked(old(nodes[..]), First(chain), Last(chain), index)
      ensures firstLink == First(Dropped(chain, k)) && lastLink == Last(Dropped(chain, k))
    {
      ghost var ns, n := nodes[..], |chain|;
      LinkAt(ns, chain, k);
      assert First(Dropped(chain, k)) == if k > 0 then First(chain) else if n > 1 then chain[1] else 0;
      assert Last(Dropped(chain, k)) == if k + 1 < n then Last(chain) else if k > 0 then chain[k - 1] else 0;
      hide Slots, Linked;
      if index == firstLink && index == lastLink {
        firstLink := 0;
        lastLink := 0;
      } else if index == firstLink {
        firstLink := nodes[index].next;
        nodes[firstLink] := nodes[firstLink].(prev := 0);
      } else if index == lastLink {
        lastLink := nodes[index].prev;
        nodes[lastLink] := nodes[lastLink].(next := 0);
      } else {
        nodes[nodes[index].next] := nodes[nodes[index].next].(prev := nodes[index].prev);
        nodes[nodes[index].prev] := nodes[nodes[index].prev].(next := nodes[index].next);
      }
    }

    /** Removes the first element equal to `obj`, if there is one. */
    method Remove(obj: T)
      requires Valid()
      modifies this, nodes
      ensures Valid()
      ensures Contents() == WithoutFirst(old(Contents()), obj)
    {
      hide Slots, Linked, Objects, Stack, Succ, Pred;
      var iter := Begin();
      ghost var k: nat := 0;
      while iter != 0
        invariant Valid() && At(iter, k) && Contents() == old(Contents())
        invariant obj !in Contents()[..k]
        decreases |chain| - k
      {
        var here := Deref(iter, k);
        if here == obj {
          WithoutFirstAt(Contents(), k);
          var _ := Erase(iter, k);
          return;
        }
        assert Contents()[..k + 1] == Contents()[..k] + [here];
        iter := Advance(iter, k);
        k := k + 1;
      }
      if k < |chain| {
        LinkAt(nodes[..], chain, k);
      }
      assert Contents()[..k] == Contents();
      WithoutFirstNone(Contents(), obj);
    }
  }

  lemma StackSame<T>(a: seq<FastLinkNode<T>>, b: seq<FastLinkNode<T>>, n: nat)
    requires |a| == |b| && n < |a| && forall k :: 0 <= k < |a| ==> b[k].freeNode == a[k].freeNode
    ensures Stack(a, n) == Stack(b, n)
  {
  }

  lemma LastIs<T>(ns: seq<FastLinkNode<T>>, chain: seq<nat>)
    requires Linked(ns, chain) && |ns| > 0
    ensures (First(chain) == 0 <==> chain == []) && (Last(chain) == 0 <==> chain == [])
    ensures Last(chain) < |ns| && (chain != [] ==> Last(chain) in chain)
  {
    if chain != [] {
      LinkAt(ns, chain, 0);
      LinkAt(ns, chain, |chain| - 1);
    }
  }

  lemma SlotsRoom(chain: seq<nat>, stack: seq<nat>, usable: nat)
    requires Slots(chain, stack, usable) && chain != []
    ensures |stack| < usable
  {
  }

  lemma RelabelFree<T>(ns: seq<FastLinkNode<T>>, r: seq<FastLinkNode<T>>, chain: seq<nat>, k: nat, x: nat)
    requires Linked(ns, chain) && k < |ns| && r == ns[k := ns[k].(freeNode := x)]
    ensures Linked(r, chain) && Objects(r, chain) == Objects(ns, chain)
  {
  }

  function WithoutFirst<T(==)>(s: seq<T>, x: T): seq<T> {
    if s == [] then [] else if s[0] == x then s[1..] else [s[0]] + WithoutFirst(s[1..], x)
  }

  lemma {:induction false} WithoutFirstAt<T>(s: seq<T>, k: nat)
    requires k < |s| && s[k] !in s[..k]
    ensures WithoutFirst(s, s[k]) == Dropped(s, k)
  {
    if k > 0 {
      assert s[0] in s[..k];
      assert s[1..][..k - 1] == s[1..k] && forall y :: y in s[1..k] ==> y in s[..k];
      WithoutFirstAt(s[1..], k - 1);
      assert s[1..][k..] == s[k + 1..];
      assert [s[0]] + (s[1..k] + s[k + 1..]) == s[..k] + s[k + 1..];
    }
  }

  lemma {:induction false} WithoutFirstNone<T>(s: seq<T>, x: T)
    requires x !in s
    ensures WithoutFirst(s, x) == s
  {
    if s != [] {
      WithoutFirstNone(s[1..], x);
    }
  }
}
