/**
 Paging through a menu whose items may be undrawable: what `MenuManager::RenderMenu` of
 core/MenuManager.cpp shows, and what Next and Back do to it.
 */
module MenuPaging {
  import opened Wrappers

  /** The ITEMDRAW flags. */
  datatype Style = Style(disabled: bool, rawline: bool, notext: bool, spacer: bool, control: bool)
  {
    predicate Ignored() { rawline && notext }
  }

  const PLAIN := Style(false, false, false, false, false)

  /** `items[i]` is the style GetItemInfo and OnMenuDrawItem leave for item `i`, None where
      GetItemInfo gives NULL. A pagination of 0 is MENU_NO_PAGINATION. */
  datatype Menu = Menu(items: seq<Option<Style>>, pagination: nat, exitButton: bool, exitBack: bool, noVote: bool)

  datatype Order = Ascending | Descending

  /** The radio panel's `CanDrawItem`. */
  predicate CanDrawItem(st: Style) {
    !st.Ignored() && !(st.disabled && st.control)
  }

  predicate IsSlotItem(st: Style) {
    CanDrawItem(st) && !st.Ignored() && !st.rawline
  }

  predicate Drawable(m: Menu, i: nat) {
    i < |m.items| && m.items[i].Some? && IsSlotItem(m.items[i].value)
  }

  /** Raw lines are never drawn as items, and disabled controls not at all. */
  lemma DrawableIs(m: Menu, i: nat)
    ensures Drawable(m, i) <==>
              && i < |m.items| && m.items[i].Some?
              && var st := m.items[i].value; !st.rawline && !(st.disabled && st.control)
  {
  }

  /** The drawable items from `lo` up to but not including `hi`, in order. */
  function Drawables(m: Menu, lo: nat, hi: nat): seq<nat> {
    if hi <= lo then []
    else Drawables(m, lo, hi - 1) + if Drawable(m, hi - 1) then [hi - 1] else []
  }

  ghost predicate Increasing(d: seq<nat>) {
    forall j, k :: 0 <= j < k < |d| ==> d[j] < d[k]
  }

  lemma {:induction false} DrawablesAre(m: Menu, lo: nat, hi: nat)
    ensures var d := Drawables(m, lo, hi);
            Increasing(d) && forall j :: 0 <= j < |d| ==> lo <= d[j] < hi && Drawable(m, d[j])
  {
    if lo < hi {
      DrawablesAre(m, lo, hi - 1);
    }
  }

  lemma {:induction false} DrawablesSplit(m: Menu, lo: nat, mid: nat, hi: nat)
    requires lo <= mid <= hi
    ensures Drawables(m, lo, hi) == Drawables(m, lo, mid) + Drawables(m, mid, hi)
  {
    if mid < hi {
      DrawablesSplit(m, lo, mid, hi - 1);
    } else {
      assert Drawables(m, mid, hi) == [];
    }
  }

  /** Nothing drawable is missing from the list. */
  lemma {:induction false} DrawablesComplete(m: Menu, lo: nat, hi: nat, i: nat)
    requires lo <= i < hi && Drawable(m, i)
    ensures i in Drawables(m, lo, hi)
  {
    DrawablesSplit(m, lo, i, hi);
    DrawablesSplit(m, i, i + 1, hi);
    assert Drawables(m, i, i + 1) == [i];
  }

  lemma DrawablesOne(m: Menu, i: nat)
    ensures Drawables(m, i, i + 1) == if Drawable(m, i) then [i] else []
    ensures Drawables(m, i, i) == []
  {
  }

  lemma DrawablesNone(m: Menu, lo: nat, hi: nat)
    requires hi <= lo
    ensures Drawables(m, lo, hi) == []
  {
  }

  /** Where an increasing list equal to `a + b` passes `x`. */
  lemma CutAt(d: seq<nat>, a: seq<nat>, b: seq<nat>, r: nat)
    requires d == a + b && r < |d|
    requires (forall j :: 0 <= j < |a| ==> a[j] < d[r]) && (forall j :: 0 <= j < |b| ==> d[r] <= b[j])
    requires Increasing(d)
    ensures a == d[..r] && b == d[r..]
  {
    assert forall j :: 0 <= j < |a| ==> d[j] == a[j];
    if |b| > 0 {
      assert d[|a|] == b[0];
    }
  }

  /** Cutting the list of all drawable items at its `r`-th element cuts the index range there. */
  lemma DrawablesFrom(m: Menu, r: nat)
    requires r < |Drawables(m, 0, |m.items|)|
    ensures var d := Drawables(m, 0, |m.items|);
            && Drawables(m, 0, d[r]) == d[..r] && Drawables(m, d[r], |m.items|) == d[r..]
            && Drawables(m, 0, d[r] + 1) == d[..r + 1] && Drawables(m, d[r] + 1, |m.items|) == d[r + 1..]
  {
    hide Drawables;
    var d, n := Drawables(m, 0, |m.items|), |m.items|;
    DrawablesAre(m, 0, n);
    DrawablesAre(m, 0, d[r]);
    DrawablesAre(m, d[r], n);
    DrawablesSplit(m, 0, d[r], n);
    CutAt(d, Drawables(m, 0, d[r]), Drawables(m, d[r], n), r);
    DrawablesSplit(m, d[r], d[r] + 1, n);
    DrawablesSplit(m, 0, d[r], d[r] + 1);
    DrawablesOne(m, d[r]);
    assert Drawables(m, d[r] + 1, n) == d[r..][1..] == d[r + 1..];
    assert d[..r] + [d[r]] == d[..r + 1];
  }

  /** What a rendering shows and leaves in menu_states_t. */
  datatype View = View(shown: seq<nat>, prev: bool, next: bool, firstItem: nat, lastItem: nat)

  function MaxItems(m: Menu, pageMax: nat): int {
    (if m.pagination != 0 then m.pagination else if m.exitButton then pageMax - 1 else pageMax)
    - if m.noVote then 1 else 0
  }

  function Take(s: seq<nat>, n: nat): seq<nat> {
    if |s| <= n then s else s[..n]
  }

  /** The page read upwards from `start`. The search for a previous item never looks at item 0. */
  function Upward(m: Menu, n: nat, start: nat, v: View): (r: Option<View>)
    requires n >= 2
  {
    var all := Drawables(m, start, |m.items|);
    if all == [] then None else
      var before := Drawables(m, 1, all[0]);
      var (prev, next) := (before != [], |all| > n);
      Some(View(Take(all, n), prev, next,
                if prev then before[|before| - 1] else v.firstItem,
                if next then all[n] else v.lastItem))
  }

  /** The page read downwards from `start`. */
  function Downward(m: Menu, n: nat, start: nat, v: View): (r: Option<View>)
    requires n >= 2
  {
    var all := Drawables(m, 0, start + 1);
    if all == [] then None else
      var after := Drawables(m, all[|all| - 1] + 1, |m.items|);
      var (prev, next) := (|all| > n, after != []);
      Some(View(if prev then all[|all| - n..] else all, prev, next,
                if prev then all[|all| - n - 1] else v.firstItem,
                if next then after[0] else v.lastItem))
  }

  /** The paginated search of RenderMenu, from the firstItem and lastItem that `v` left behind. */
  function Page(m: Menu, n: nat, order: Order, v: View): Option<View>
    requires n >= 2
  {
    if |m.items| == 0 then None
    else if order.Ascending? then
      if v.lastItem >= |m.items| then Downward(m, n, |m.items| - 1, v) else Upward(m, n, v.lastItem, v)
    else
      if v.firstItem <= n then Upward(m, n, 0, v) else Downward(m, n, v.firstItem, v)
  }

  function All(m: Menu): seq<nat> { Drawables(m, 0, |m.items|) }

  /** The rank of the first item of page `k`: `k * n`, as OffsetIs says. */
  function Offset(n: nat, k: nat): nat {
    if k == 0 then 0 else Offset(n, k - 1) + n
  }

  lemma {:induction false} OffsetIs(n: nat, k: nat)
    ensures Offset(n, k) == k * n
  {
    if k > 0 {
      OffsetIs(n, k - 1);
      assert k * n == (k - 1) * n + n;
    }
  }

  lemma OffsetZero(n: nat)
    ensures Offset(n, 0) == 0
  {
  }

  lemma {:induction false} OffsetPositive(n: nat, k: nat)
    ensures k > 0 ==> Offset(n, k) >= n
  {
    if k > 1 {
      OffsetPositive(n, k - 1);
    }
  }

  /** Page `k` of the partition of the drawable items into pages of `n`. */
  function Chunk(d: seq<nat>, n: nat, k: nat): seq<nat>
    requires Offset(n, k) <= |d|
  {
    Take(d[Offset(n, k)..], n)
  }

  /** `v` shows page `k`, and its buttons and search positions are those of page `k`. */
  ghost predicate OnPage(m: Menu, n: nat, k: nat, v: View) {
    var d, r := All(m), Offset(n, k);
    && r < |d| && v.shown == Chunk(d, n, k)
    && (v.prev <==> k > 0) && (v.next <==> r + n < |d|)
    && (v.prev && r > 0 ==> v.firstItem == d[r - 1])
    && (v.next && r + n < |d| ==> v.lastItem == d[r + n])
  }

  /** Reading upwards from the item of rank `r`. */
  lemma UpwardFromRank(m: Menu, n: nat, r: nat, start: nat, v: View)
    requires n >= 2 && r < |All(m)| && (start == All(m)[r] || (r == 0 && start == 0)) && r != 1
    ensures var d := All(m);
            Upward(m, n, start, v) == Some(View(Take(d[r..], n), r > 0, r + n < |d|,
              if r > 0 then d[r - 1] else v.firstItem, if r + n < |d| then d[r + n] else v.lastItem))
  {
    var d := All(m);
    DrawablesFrom(m, r);
    BeforeRank(m, r);
    assert d[r..][0] == d[r] && (r + n < |d| ==> d[r..][n] == d[r + n]);
    assert d[0..] == d;
    hide Drawables, Increasing;
  }

  /** The items the upward rendering finds above the item of rank `r`. */
  lemma BeforeRank(m: Menu, r: nat)
    requires r < |All(m)| && r != 1
    ensures var before := Drawables(m, 1, All(m)[r]);
            (before != [] <==> r > 0) && (r > 0 ==> before[|before| - 1] == All(m)[r - 1])
  {
    var d := All(m);
    DrawablesFrom(m, r);
    DrawablesSplitLow(m, d[r]);
    var before := Drawables(m, 1, d[r]);
    hide Drawables;
    if before != d[..r] {
      assert d[..r] == [0] + before;
    }
  }

  /** Reading upwards from the first item of page `k` gives page `k`. */
  lemma UpwardShowsPage(m: Menu, n: nat, k: nat, v: View)
    requires n >= 2 && Offset(n, k) < |All(m)|
    ensures var start := if k == 0 then 0 else All(m)[Offset(n, k)];
            Upward(m, n, start, v).Some? && OnPage(m, n, k, Upward(m, n, start, v).value)
  {
    OffsetPositive(n, k);
    UpwardFromRank(m, n, Offset(n, k), if k == 0 then 0 else All(m)[Offset(n, k)], v);
    hide Drawables, Upward;
  }

  /** Skipping item 0 drops at most the first element. */
  lemma DrawablesSplitLow(m: Menu, hi: nat)
    ensures Drawables(m, 0, hi) == (if hi > 0 && Drawable(m, 0) then [0] else []) + Drawables(m, 1, hi)
  {
    if hi > 0 {
      DrawablesSplit(m, 0, 1, hi);
      DrawablesOne(m, 0);
    }
  }

  /** Distinct increasing indices: the element of rank `r` is at least `r`. */
  lemma {:induction false} RankBound(d: seq<nat>, r: nat)
    requires r < |d| && Increasing(d)
    ensures d[r] >= r
  {
    if r > 0 {
      RankBound(d, r - 1);
    }
  }

  /** Next from page `k` shows page `k + 1`. */
  lemma NextTurnsPage(m: Menu, n: nat, k: nat, v: View)
    requires n >= 2 && OnPage(m, n, k, v) && v.next
    ensures Page(m, n, Ascending, v).Some? && OnPage(m, n, k + 1, Page(m, n, Ascending, v).value)
  {
    assert Offset(n, k + 1) == Offset(n, k) + n;
    UpwardShowsPage(m, n, k + 1, v);
    hide Upward, Downward, Drawables;
  }

  /** Reading downwards from the item of rank `r`, with at least a page's worth of items up to it. */
  lemma DownwardFromRank(m: Menu, n: nat, r: nat, v: View)
    requires n >= 2 && r < |All(m)| && n <= r + 1
    ensures var d, low := All(m), r + 1 - n;
            Downward(m, n, d[r], v) == Some(View(d[low..r + 1], low > 0, r + 1 < |d|,
              if low > 0 then d[low - 1] else v.firstItem, if r + 1 < |d| then d[r + 1] else v.lastItem))
  {
    hide Drawables, Increasing;
    var d, low := All(m), r + 1 - n;
    DrawablesFrom(m, r);
    assert d[..r + 1][low..] == d[low..r + 1] && d[..r + 1][r] == d[r];
    assert low > 0 ==> d[..r + 1][low - 1] == d[low - 1];
  }

  /** Reading downwards from the last item of page `k` gives page `k`. */
  lemma DownwardShowsPage(m: Menu, n: nat, k: nat, v: View)
    requires n >= 2 && Offset(n, k) + n < |All(m)|
    ensures var w := Downward(m, n, All(m)[Offset(n, k) + n - 1], v);
            w.Some? && OnPage(m, n, k, w.value)
  {
    hide Offset, Downward, All;
    var d, r := All(m), Offset(n, k);
    DownwardFromRank(m, n, r + n - 1, v);
    OffsetPositive(n, k);
    OffsetZero(n);
    assert Take(d[r..], n) == d[r..r + n];
  }

  /** Back from page `k` shows page `k - 1`, whichever way the search runs. */
  lemma BackTurnsPage(m: Menu, n: nat, k: nat, v: View)
    requires n >= 2 && OnPage(m, n, k, v) && v.prev
    ensures k > 0 && Page(m, n, Descending, v).Some? && OnPage(m, n, k - 1, Page(m, n, Descending, v).value)
  {
    hide OnPage, Page, Upward, Downward, All, Offset;
    var r := PageBefore(m, n, k, v);
    OffsetPositive(n, k - 1);
    if v.firstItem <= n {
      assert k - 1 > 0 ==> r >= n;
      UpwardShowsPage(m, n, 0, v);
      PageReads(m, n, v);
    } else {
      DownwardShowsPage(m, n, k - 1, v);
      PageReads(m, n, v);
    }
  }

  /** Which way Back reads. */
  lemma PageReads(m: Menu, n: nat, v: View)
    requires n >= 2 && |m.items| > 0
    ensures Page(m, n, Descending, v) == if v.firstItem <= n then Upward(m, n, 0, v) else Downward(m, n, v.firstItem, v)
  {
  }

  /** Where a Back from page `k` starts reading. */
  lemma PageBefore(m: Menu, n: nat, k: nat, v: View) returns (r: nat)
    requires n >= 2 && OnPage(m, n, k, v) && v.prev
    ensures k > 0 && r == Offset(n, k - 1) && r + n < |All(m)| && |m.items| > 0
    ensures v.firstItem == All(m)[r + n - 1] && v.firstItem >= r + n - 1
  {
    r := Offset(n, k - 1);
    DrawablesAre(m, 0, |m.items|);
    RankBound(All(m), r + n - 1);
    hide Increasing, Drawables;
  }

  datatype Key = Next | Back

  /** Pressing navigation keys; a button that is not drawn does nothing. */
  function Browse(m: Menu, n: nat, v: View, keys: seq<Key>): Option<View>
    requires n >= 2
    decreases |keys|
  {
    if keys == [] then Some(v)
    else if keys[0].Next? && v.next then
      match Page(m, n, Ascending, v) case None => None case Some(w) => Browse(m, n, w, keys[1..])
    else if keys[0].Back? && v.prev then
      match Page(m, n, Descending, v) case None => None case Some(w) => Browse(m, n, w, keys[1..])
    else Browse(m, n, v, keys[1..])
  }

  /** Where those keys lead among `pages` pages from page `k`. */
  function PageAfter(pages: nat, k: nat, keys: seq<Key>): (r: nat)
    requires k < pages
    ensures r < pages
    decreases |keys|
  {
    if keys == [] then k
    else if keys[0].Next? then PageAfter(pages, if k + 1 < pages then k + 1 else k, keys[1..])
    else PageAfter(pages, if k > 0 then k - 1 else k, keys[1..])
  }

  /** How many pages of `n` it takes to show `items` items. */
  function PageCount(items: nat, n: nat): nat
    requires n >= 1
  {
    if items == 0 then 0 else 1 + PageCount(if items <= n then 0 else items - n, n)
  }

  lemma {:induction false} PageCountIs(items: nat, n: nat, k: nat)
    requires n >= 1
    ensures k < PageCount(items, n) <==> Offset(n, k) < items
  {
    if k > 0 && items > n {
      PageCountIs(items - n, n, k - 1);
    }
  }

  lemma WhichPage(m: Menu, n: nat, k: nat, v: View)
    requires n >= 1 && OnPage(m, n, k, v)
    ensures k < PageCount(|All(m)|, n) && (v.prev <==> k > 0) && (v.next <==> k + 1 < PageCount(|All(m)|, n))
  {
    PageCountIs(|All(m)|, n, k);
    PageCountIs(|All(m)|, n, k + 1);
    assert Offset(n, k + 1) == Offset(n, k) + n;
  }

  /** Any run of Next and Back over a menu with something to draw stays on the pages of the
      partition, moving by one page each time. */
  lemma {:induction false} BrowsingFollowsPages(m: Menu, n: nat, k: nat, v: View, keys: seq<Key>)
    requires n >= 2 && OnPage(m, n, k, v)
    ensures k < PageCount(|All(m)|, n)
    ensures Browse(m, n, v, keys).Some?
    ensures OnPage(m, n, PageAfter(PageCount(|All(m)|, n), k, keys), Browse(m, n, v, keys).value)
    decreases |keys|
  {
    hide OnPage, Page, PageCount, Offset, All;
    WhichPage(m, n, k, v);
    if keys != [] {
      if keys[0].Next? && v.next {
        NextTurnsPage(m, n, k, v);
        BrowsingFollowsPages(m, n, k + 1, Page(m, n, Ascending, v).value, keys[1..]);
      } else if keys[0].Back? && v.prev {
        BackTurnsPage(m, n, k, v);
        BrowsingFollowsPages(m, n, k - 1, Page(m, n, Descending, v).value, keys[1..]);
      } else {
        BrowsingFollowsPages(m, n, k, v, keys[1..]);
      }
    }
  }

  /** Displaying a menu from its first item starts on page 0. */
  lemma DisplayStartsOnPageZero(m: Menu, n: nat, v: View)
    requires n >= 2 && v.lastItem == 0
    ensures All(m) != [] ==> Page(m, n, Ascending, v).Some? && OnPage(m, n, 0, Page(m, n, Ascending, v).value)
    ensures All(m) == [] ==> Page(m, n, Ascending, v).None?
  {
    if All(m) != [] {
      UpwardShowsPage(m, n, 0, v);
    }
  }

  /** The first `k` pages, laid end to end. */
  function Chunks(d: seq<nat>, n: nat, k: nat): seq<nat>
    requires k > 0 ==> Offset(n, k - 1) <= |d|
  {
    if k == 0 then [] else Chunks(d, n, k - 1) + Chunk(d, n, k - 1)
  }

  lemma {:induction false} ChunksArePrefix(d: seq<nat>, n: nat, k: nat)
    requires k > 0 ==> Offset(n, k - 1) <= |d|
    ensures Chunks(d, n, k) == Take(d, Offset(n, k))
  {
    if k > 0 {
      ChunksArePrefix(d, n, k - 1);
      hide Take;
      TakeOn(d, Offset(n, k - 1), n);
    }
  }

  lemma TakeOn(d: seq<nat>, r: nat, n: nat)
    requires r <= |d|
    ensures Take(d, r) + Take(d[r..], n) == Take(d, r + n)
  {
    assert d[..r] + d[r..] == d;
  }

  /** The pages partition the drawable items. */
  lemma PagesPartition(m: Menu, n: nat)
    requires n >= 2
    ensures var p := PageCount(|All(m)|, n);
            (p > 0 ==> Offset(n, p - 1) <= |All(m)|) && Chunks(All(m), n, p) == All(m)
  {
    var p := PageCount(|All(m)|, n);
    PageCountIs(|All(m)|, n, p);
    if p > 0 {
      PageCountIs(|All(m)|, n, p - 1);
    }
    ChunksArePrefix(All(m), n, p);
  }

  /** Shown from an arbitrary start, a page lacks its Previous button although an earlier item is
      drawable exactly when item 0 is the only such item. */
  lemma PreviousMissing(m: Menu, n: nat, start: nat, v: View)
    requires n >= 2 && Upward(m, n, start, v).Some?
    ensures var w := Upward(m, n, start, v).value;
            !w.prev && Drawables(m, 0, w.shown[0]) != [] <==> Drawables(m, 0, w.shown[0]) == [0]
  {
    var first := Drawables(m, start, |m.items|)[0];
    DrawablesSplitLow(m, first);
    DrawablesAre(m, 1, first);
    var before, whole := Drawables(m, 1, first), Drawables(m, 0, first);
    var w := Upward(m, n, start, v).value;
    assert w.shown[0] == first && (w.prev <==> before != []);
    hide Upward, Drawables;
    if before != [] {
      assert before[0] != 0 && whole[|whole| - 1] == before[|before| - 1];
    }
  }

  /** The smallest such menu: two items, displayed from the second. */
  lemma PreviousMissingExample(v: View)
    ensures var m := Menu([Some(PLAIN), Some(PLAIN)], 2, true, false, false);
            Upward(m, 2, 1, v) == Some(View([1], false, false, v.firstItem, v.lastItem)) && Drawable(m, 0)
  {
    var m := Menu([Some(PLAIN), Some(PLAIN)], 2, true, false, false);
    assert Drawables(m, 1, 1) == [];
    assert Drawables(m, 1, 2) == [1];
  }
}
