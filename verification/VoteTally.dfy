/**
 The tabulation in `VoteMenuHandler::EndVoting` (core/MenuVoting.cpp): the item totals are filtered
 and sorted, the clients listed, and one of three outcomes is reported.
 */
module VoteTallies {
  import opened MenuWorlds

  datatype ItemVote = ItemVote(item: nat, count: nat)
  datatype ClientVote = ClientVote(client: nat, item: int)

  /** OnMenuVoteCancel with one of its two reasons, or OnMenuVoteResults. */
  datatype Outcome = Generic | NoVotes | Results(items: seq<ItemVote>, clients: seq<ClientVote>, numVotes: nat)

  /** How many clients hold a choice. */
  function Choosers(choices: seq<int>): nat {
    if choices == [] then 0 else Choosers(choices[..|choices| - 1]) + if choices[|choices| - 1] >= 0 then 1 else 0
  }

  /** The choices that fall on the first `n` items. */
  function Total(choices: seq<int>, n: nat): nat {
    if n == 0 then 0 else Total(choices, n - 1) + Count(choices, n - 1)
  }

  /** The clients in the pool, lowest first. */
  function Pool(choices: seq<int>, n: nat): seq<ClientVote>
    requires n <= |choices|
  {
    if n <= 1 then []
    else Pool(choices, n - 1) + if choices[n - 1] >= VOTE_PENDING then [ClientVote(n - 1, choices[n - 1])] else []
  }

  ghost predicate Descending(s: seq<ItemVote>) {
    forall i, j :: 0 <= i < j < |s| ==> s[i].count >= s[j].count
  }

  ghost predicate Counted(s: seq<ItemVote>, choices: seq<int>, n: nat) {
    forall i :: 0 <= i < |s| ==> s[i].item < n && s[i].count == Count(choices, s[i].item) > 0
  }

  ghost predicate Apart(s: seq<ItemVote>) { forall i, j :: 0 <= i < j < |s| ==> s[i].item != s[j].item }

  ghost predicate Complete(s: seq<ItemVote>, choices: seq<int>, n: nat) {
    forall k: nat :: k < n && Count(choices, k) > 0 ==> ItemVote(k, Count(choices, k)) in s
  }

  /** The positive totals among the first `n` items, one entry each. */
  ghost predicate Positive(s: seq<ItemVote>, choices: seq<int>, n: nat) {
    Counted(s, choices, n) && Apart(s) && Complete(s, choices, n)
  }

  lemma {:induction false} TotalSplit(choices: seq<int>, n: nat)
    requires choices != []
    ensures var k := |choices| - 1;
            Total(choices, n) == Total(choices[..k], n) + if 0 <= choices[k] < n then 1 else 0
  {
    if n > 0 {
      TotalSplit(choices, n - 1);
    }
  }

  /** Every choice is on some item, so the totals add up to the number of clients that chose. */
  lemma {:induction false} TotalsAreChoosers(choices: seq<int>, n: nat)
    requires forall c :: 0 <= c < |choices| ==> choices[c] < n
    ensures Total(choices, n) == Choosers(choices)
  {
    if choices == [] {
      TotalOfNone(n);
    } else {
      TotalSplit(choices, n);
      TotalsAreChoosers(choices[..|choices| - 1], n);
    }
  }

  lemma {:induction false} TotalOfNone(n: nat)
    ensures Total([], n) == 0
  {
    if n > 0 {
      TotalOfNone(n - 1);
    }
  }

  lemma {:induction false} ChoosersBound(choices: seq<int>)
    ensures Choosers(choices) <= |choices|
    ensures choices != [] && choices[0] < 0 ==> Choosers(choices) < |choices|
  {
    if |choices| > 1 {
      ChoosersBound(choices[..|choices| - 1]);
    } else if |choices| == 1 {
      assert Choosers(choices[..0]) == 0;
    }
  }

  lemma {:induction false} PoolBound(choices: seq<int>, n: nat)
    requires n <= |choices|
    ensures n > 0 ==> |Pool(choices, n)| < n
  {
    if n > 1 {
      PoolBound(choices, n - 1);
    }
  }

  /** A client is reported iff it is in the pool, with its own choice. */
  lemma {:induction false} PoolIs(choices: seq<int>, n: nat, c: nat, v: int)
    requires n <= |choices|
    ensures ClientVote(c, v) in Pool(choices, n) <==> 1 <= c < n && choices[c] == v && v >= VOTE_PENDING
  {
    if n > 1 {
      PoolIs(choices, n - 1, c, v);
    }
  }

  /** What may be reported of a vote in state `v`. */
  ghost predicate Reports(o: Outcome, v: VoteState) {
    && (o.Generic? <==> v.cancelled)
    && (o.NoVotes? <==> !v.cancelled && Choosers(v.clientVotes) == 0)
    && (o.Results? ==>
          && Positive(o.items, v.clientVotes, v.items) && Descending(o.items)
          && o.clients == Pool(v.clientVotes, |v.clientVotes|)
          && o.numVotes == Choosers(v.clientVotes)
          && |o.items| <= 256 && |o.clients| <= 256)
  }

  lemma ReportsSame(o: Outcome, v: VoteState, w: VoteState)
    requires Reports(o, w) && w == v.(clients := w.clients)
    ensures Reports(o, v)
  {
  }

  ghost predicate Consistent(v: VoteState) {
    && 0 < |v.clientVotes| <= 257 && v.clientVotes[0] < 0
    && v.items <= |v.votes|
    && (forall i :: 0 <= i < v.items ==> v.votes[i] == Count(v.clientVotes, i))
    && (forall c :: 0 <= c < |v.clientVotes| ==> v.clientVotes[c] < v.items)
  }

  lemma TallyConsistent(w: World)
    requires w.Inv() && w.players != [] && w.vote.menu.Some?
    ensures Consistent(w.vote)
  {
  }

  method ItemList(v: VoteState) returns (items: seq<ItemVote>, numVotes: nat)
    requires Consistent(v)
    ensures Positive(items, v.clientVotes, v.items)
    ensures numVotes == Choosers(v.clientVotes) && |items| <= numVotes <= 256
  {
    items, numVotes := [], 0;
    for i := 0 to v.items
      invariant Positive(items, v.clientVotes, i)
      invariant numVotes == Total(v.clientVotes, i) && |items| <= numVotes
    {
      if v.votes[i] > 0 {
        PositiveExtends(items, v.clientVotes, i);
        items := items + [ItemVote(i, v.votes[i])];
        numVotes := numVotes + v.votes[i];
      }
    }
    TotalsAreChoosers(v.clientVotes, v.items);
    ChoosersBound(v.clientVotes);
  }

  lemma PositiveExtends(s: seq<ItemVote>, choices: seq<int>, i: nat)
    requires Positive(s, choices, i) && Count(choices, i) > 0
    ensures Positive(s + [ItemVote(i, Count(choices, i))], choices, i + 1)
  {
    hide Count, Counted, Apart, Complete;
    var e := ItemVote(i, Count(choices, i));
    CountedExtends(s, choices, i, e);
    ApartExtends(s, choices, i, e);
    CompleteExtends(s, choices, i, e);
  }

  lemma CountedExtends(s: seq<ItemVote>, choices: seq<int>, i: nat, e: ItemVote)
    requires Counted(s, choices, i) && e.item == i && e.count == Count(choices, i) > 0
    ensures Counted(s + [e], choices, i + 1)
  {
    hide Count;
  }

  lemma ApartExtends(s: seq<ItemVote>, choices: seq<int>, i: nat, e: ItemVote)
    requires Counted(s, choices, i) && Apart(s) && e.item == i
    ensures Apart(s + [e])
  {
    hide Count;
  }

  lemma CompleteExtends(s: seq<ItemVote>, choices: seq<int>, i: nat, e: ItemVote)
    requires Complete(s, choices, i) && e == ItemVote(i, Count(choices, i))
    ensures Complete(s + [e], choices, i + 1)
  {
    hide Count;
    assert e in s + [e];
    forall k: nat | k < i + 1 && Count(choices, k) > 0 ensures ItemVote(k, Count(choices, k)) in s + [e] {
      if k < i {
        assert ItemVote(k, Count(choices, k)) in s;
      }
    }
  }

  method ClientList(choices: seq<int>) returns (clients: seq<ClientVote>)
    requires 0 < |choices| <= 257
    ensures clients == Pool(choices, |choices|) && |clients| <= 256
  {
    clients := [];
    for i := 1 to |choices|
      invariant clients == Pool(choices, i)
    {
      if choices[i] >= VOTE_PENDING {
        clients := clients + [ClientVote(i, choices[i])];
      }
    }
    PoolBound(choices, |choices|);
  }

  method Tabulate(v: VoteState) returns (o: Outcome)
    requires Consistent(v)
    ensures Reports(o, v)
  {
    hide Positive, Descending;
    if v.cancelled {
      return Generic;
    }
    var items, numVotes := ItemList(v);
    if numVotes == 0 {
      return NoVotes;
    }
    var clients := ClientList(v.clientVotes);
    var sorted := Sort(items);
    PermutedPositive(items, sorted, v.clientVotes, v.items);
    return Results(sorted, clients, numVotes);
  }

  /** Descending; what the C library's qsort does with equal counts is not fixed, so nothing more is promised. */
  method Sort(s: seq<ItemVote>) returns (r: seq<ItemVote>)
    ensures multiset(r) == multiset(s) && Descending(r)
  {
    hide Descending;
    r := [];
    DescendingEmpty();
    for i := 0 to |s|
      invariant multiset(r) == multiset(s[..i]) && Descending(r)
    {
      assert s[..i + 1] == s[..i] + [s[i]];
      r := Insert(r, s[i]);
    }
    assert s[..|s|] == s;
  }

  lemma DescendingEmpty()
    ensures Descending([])
  {
  }

  method Insert(s: seq<ItemVote>, e: ItemVote) returns (r: seq<ItemVote>)
    requires Descending(s)
    ensures Descending(r) && multiset(r) == multiset(s) + multiset{e}
  {
    hide Descending;
    var k := 0;
    while k < |s| && s[k].count >= e.count
      invariant 0 <= k <= |s|
      invariant forall j :: 0 <= j < k ==> s[j].count >= e.count
    {
      k := k + 1;
    }
    InsertedDescending(s, k, e);
    assert s == s[..k] + s[k..];
    r := s[..k] + [e] + s[k..];
  }

  lemma InsertedDescending(s: seq<ItemVote>, k: nat, e: ItemVote)
    requires Descending(s) && k <= |s|
    requires (forall j :: 0 <= j < k ==> s[j].count >= e.count) && (k < |s| ==> s[k].count < e.count)
    ensures Descending(s[..k] + [e] + s[k..])
  {
    var r := s[..k] + [e] + s[k..];
    forall i, j | 0 <= i < j < |r| ensures r[i].count >= r[j].count {
      var x, y := if i < k then i else i - 1, if j < k then j else j - 1;
      assert i != k ==> r[i] == s[x];
      assert j != k ==> r[j] == s[y];
    }
  }

  lemma PermutedPositive(s: seq<ItemVote>, r: seq<ItemVote>, choices: seq<int>, n: nat)
    requires Positive(s, choices, n) && multiset(r) == multiset(s)
    ensures Positive(r, choices, n) && |r| == |s|
  {
    assert |multiset(r)| == |r| && |multiset(s)| == |s|;
    forall i | 0 <= i < |r| ensures r[i] in s {
      assert r[i] in multiset(r);
    }
    forall k: nat | k < n && Count(choices, k) > 0 ensures ItemVote(k, Count(choices, k)) in r {
      assert ItemVote(k, Count(choices, k)) in multiset(s);
    }
    forall i, j | 0 <= i < j < |r| ensures r[i].item != r[j].item {
      if r[i].item == r[j].item {
        assert r[i] == r[j];
        Twice(r, i, j);
        OnceOnly(s, r[i]);
      }
    }
  }

  lemma Twice(s: seq<ItemVote>, i: nat, j: nat)
    requires i < j < |s| && s[i] == s[j]
    ensures multiset(s)[s[i]] >= 2
  {
    assert s == s[..i] + [s[i]] + s[i + 1..j] + [s[j]] + s[j + 1..];
  }

  lemma {:induction false} OnceOnly(s: seq<ItemVote>, e: ItemVote)
    requires forall i, j :: 0 <= i < j < |s| ==> s[i].item != s[j].item
    ensures multiset(s)[e] <= 1
  {
    if s != [] {
      assert s == [s[0]] + s[1..];
      OnceOnly(s[1..], e);
      assert s[0] !in s[1..];
    }
  }
}
