/** `MenuManager::RenderMenu` of core/MenuManager.cpp over the radio panel of core/MenuStyle_Radio.cpp. */
module MenuRendering {
  import opened Wrappers
  import opened MenuPaging
  import opened MenuLayout

  datatype Slot = Slot(kind: ItemSelection, item: nat)

  /** menu_states_t */
  class MenuStates {
    var firstItem: nat
    var lastItem: nat
    var itemOnPage: nat
    const slots: array<Slot>

    constructor ()
      ensures fresh(slots) && slots.Length == 11 && firstItem == lastItem == 0
    {
      firstItem, lastItem, itemOnPage := 0, 0, 0;
      slots := new Slot[11](_ => Slot(SelNone, 0));
    }
  }

  /** CRadioDisplay, without its text. */
  class RadioPanel {
    var nextPos: nat
    var keys: set<nat>
    const maxPageItems: nat

    constructor (maxPageItems: nat)
      ensures nextPos == 1 && keys == {} && this.maxPageItems == maxPageItems
    {
      nextPos, keys := 1, {};
      this.maxPageItems := maxPageItems;
    }

    method DrawItem(st: Style) returns (position: nat)
      modifies this
      ensures var drawn := old(nextPos) <= maxPageItems && !st.rawline && !(st.disabled && st.control);
              && position == (if drawn then old(nextPos) else 0)
              && nextPos == old(nextPos) + (if drawn then 1 else 0)
              && keys == old(keys) + if drawn && !st.disabled && !st.spacer && !st.notext then {position} else {}
    {
      if nextPos > maxPageItems || !CanDrawItem(st) {
        return 0;
      }
      if st.rawline {
        return 0;
      }
      if !st.spacer && !st.notext && !st.disabled {
        keys := keys + {nextPos};
      }
      position := nextPos;
      nextPos := nextPos + 1;
    }
  }

  function Reversed(s: seq<nat>): seq<nat> {
    if s == [] then [] else Reversed(s[1..]) + [s[0]]
  }

  lemma ReversedCons(x: nat, s: seq<nat>)
    ensures Reversed([x] + s) == Reversed(s) + [x] && Reversed([]) == []
  {
    assert ([x] + s)[1..] == s;
  }

  lemma {:induction false} ReversedAt(s: seq<nat>)
    ensures |Reversed(s)| == |s| && forall j :: 0 <= j < |s| ==> Reversed(s)[j] == s[|s| - 1 - j]
  {
    if s != [] {
      ReversedAt(s[1..]);
    }
  }

  /** An item that cannot be drawn adds nothing on either side of the search. */
  lemma SkipEmpty(m: Menu, lo: nat, i: nat, j: nat, hi: nat)
    requires lo <= i < hi && j == i + 1
    ensures Drawables(m, lo, hi) == Drawables(m, lo, i) + Drawables(m, i, j) + Drawables(m, j, hi)
    ensures Drawables(m, lo, hi) == Drawables(m, lo, j) + Drawables(m, j, hi)
    ensures Drawables(m, i, hi) == Drawables(m, i, j) + Drawables(m, j, hi)
    ensures Drawables(m, i, j) == if Drawable(m, i) then [i] else []
    ensures !Drawable(m, i) ==> Drawables(m, i, hi) == Drawables(m, j, hi) && Drawables(m, lo, j) == Drawables(m, lo, i)
    ensures Drawable(m, i) ==>
              Drawables(m, i, hi) == [i] + Drawables(m, j, hi) && Drawables(m, lo, j) == Drawables(m, lo, i) + [i]
  {
    DrawablesSplit(m, lo, i, hi);
    DrawablesSplit(m, i, j, hi);
    DrawablesSplit(m, lo, i, j);
    DrawablesSplit(m, lo, j, hi);
    DrawablesOne(m, i);
    hide Drawables;
  }

  function LastOf(s: seq<nat>, n: nat): seq<nat> {
    if |s| <= n then s else s[|s| - n..]
  }

  /** What the search has to find: the first `n` drawable items from `start` upwards, or the last `n` down from it
      with the last one first; and when the menu is paginated, whether there are more, and which is the next. */
  ghost predicate Searched(m: Menu, order: Order, start: nat, n: nat, got: seq<nat>, more: bool, extra: nat) {
    var all := if order.Ascending? then Drawables(m, start, |m.items|) else Drawables(m, 0, start + 1);
    if order.Ascending? then
      && got == Take(all, n)
      && (m.pagination != 0 ==> (more <==> |all| > n) && (more ==> extra == all[n]))
    else m.pagination != 0 && |m.items| > 0 ==>
      && got == Reversed(LastOf(all, n))
      && (more <==> |all| > n) && (more ==> extra == all[|all| - n - 1])
  }

  /** The drawable items between `start` and `i`, in the order the search meets them; with `i` itself, or without. */
  ghost predicate Gathered(m: Menu, order: Order, start: nat, i: nat, past: bool, got: seq<nat>) {
    if order.Ascending? then start <= i && got == Drawables(m, start, if past then i + 1 else i)
    else i <= start && got == Reversed(Drawables(m, if past then i else i + 1, start + 1))
  }

  lemma GatherStarts(m: Menu, order: Order, start: nat)
    ensures Gathered(m, order, start, start, false, [])
  {
  }

  lemma GatherOne(m: Menu, order: Order, start: nat, i: nat, got: seq<nat>)
    requires Gathered(m, order, start, i, false, got)
    ensures Gathered(m, order, start, i, true, if Drawable(m, i) then got + [i] else got)
  {
    hide Drawables, Reversed;
    if order.Ascending? {
      SkipEmpty(m, start, i, i + 1, i + 1);
      DrawablesNone(m, i + 1, i + 1);
    } else {
      SkipEmpty(m, i, i, i + 1, start + 1);
      ReversedCons(i, Drawables(m, i + 1, start + 1));
    }
  }

  lemma GatherOn(m: Menu, order: Order, start: nat, i: nat, j: nat, got: seq<nat>)
    requires Gathered(m, order, start, i, true, got) && if order.Ascending? then j == i + 1 else i == j + 1
    ensures Gathered(m, order, start, j, false, got)
  {
    hide Drawables, Reversed;
  }

  /** The search stops at a drawable item there is no room for. */
  lemma ExtraFound(m: Menu, order: Order, start: nat, i: nat, got: seq<nat>, n: nat)
    requires Gathered(m, order, start, i, false, got) && Drawable(m, i) && |got| == n
    ensures Searched(m, order, start, n, got, true, i)
  {
    hide Drawables, Reversed;
    if order.Ascending? {
      SkipEmpty(m, start, i, i + 1, |m.items|);
      var all := Drawables(m, start, |m.items|);
      assert all[..n] == got && all[n] == i;
    } else {
      var right, all := Drawables(m, i + 1, start + 1), Drawables(m, 0, start + 1);
      SkipEmpty(m, 0, i, i + 1, start + 1);
      ReversedAt(right);
      assert all[|all| - n..] == right && all[|all| - n - 1] == i;
    }
  }

  /** Or, without pagination, when there is no more room. */
  lemma NoMoreRoom(m: Menu, order: Order, start: nat, i: nat, got: seq<nat>, n: nat)
    requires Gathered(m, order, start, i, true, got) && |got| == n && m.pagination == 0
             && (order.Ascending? ==> i < |m.items|)
    ensures Searched(m, order, start, n, got, false, 0)
  {
    hide Drawables, Reversed;
    if order.Ascending? {
      DrawablesSplit(m, start, i + 1, |m.items|);
      assert Drawables(m, start, |m.items|)[..n] == got;
    }
  }

  /** Or at the end of the items. */
  lemma SearchEnds(m: Menu, order: Order, start: nat, i: nat, got: seq<nat>, n: nat)
    requires Gathered(m, order, start, i, true, got) && |got| <= n
    requires if order.Ascending? then i + 1 == |m.items| else i == 0
    ensures Searched(m, order, start, n, got, false, 0)
  {
    hide Drawables, Reversed;
    if order.Descending? {
      ReversedAt(Drawables(m, 0, start + 1));
    }
  }

  /** The item search. The array bound of ten is never exceeded. */
  method SearchItems(m: Menu, order: Order, start: nat, maxItems: nat, drawItems: array<nat>)
    returns (found: nat, foundExtra: bool, extraItem: nat)
    requires drawItems.Length == 10 && 2 <= maxItems <= (if m.pagination == 0 then 10 else 9)
    requires order.Ascending? && |m.items| > 0 ==> start < |m.items|
    modifies drawItems
    ensures found <= maxItems && Searched(m, order, start, maxItems, drawItems[..found], foundExtra, extraItem)
  {
    hide Drawables, Reversed, Searched, Gathered;
    var styles := new Style[10](_ => PLAIN);
    found, foundExtra, extraItem := 0, false, 0;
    var total := |m.items|;
    if total == 0 {
      NothingToSearch(m, order, start, maxItems);
      return;
    }
    var i: nat := start;
    GatherStarts(m, order, start);
    assert drawItems[..found] == [];
    while true
      invariant (order.Ascending? ==> i < total) && found <= maxItems && (m.pagination == 0 ==> found < maxItems)
      invariant !foundExtra && extraItem == 0 && Gathered(m, order, start, i, false, drawItems[..found])
      decreases if order.Ascending? then total - i else i
    {
      ghost var got := drawItems[..found];
      GatherOne(m, order, start, i, got);
      if i < total && m.items[i].Some? {
        styles[found] := m.items[i].value;
        if IsSlotItem(styles[found]) {
          if found >= maxItems {
            ExtraFound(m, order, start, i, got, maxItems);
            foundExtra, extraItem := true, i;
            return;
          }
          drawItems[found] := i;
          found := found + 1;
          assert drawItems[..found] == got + [i];
        }
      }
      if m.pagination == 0 && found >= maxItems {
        NoMoreRoom(m, order, start, i, drawItems[..found], maxItems);
        return;
      }
      if (if order.Descending? then i == 0 else i >= total - 1) {
        SearchEnds(m, order, start, i, drawItems[..found], maxItems);
        return;
      }
      ghost var j := if order.Descending? then i - 1 else i + 1;
      GatherOn(m, order, start, i, j, drawItems[..found]);
      if order.Descending? {
        i := i - 1;
      } else {
        i := i + 1;
      }
    }
  }

  lemma NothingToSearch(m: Menu, order: Order, start: nat, n: nat)
    requires |m.items| == 0
    ensures Searched(m, order, start, n, [], false, 0)
  {
    DrawablesNone(m, start, 0);
  }

  /** The nearest item after `from` that can be drawn. */
  method FindAfter(m: Menu, from: nat) returns (found: bool, at: nat)
    requires from < |m.items|
    ensures var after := Drawables(m, from + 1, |m.items|);
            (found <==> after != []) && (found ==> at == after[0])
  {
    hide Drawables;
    found, at := false, from;
    DrawablesOne(m, from + 1);
    if at >= |m.items| - 1 {
      return;
    }
    at := at + 1;
    while at < |m.items|
      invariant from + 1 <= at <= |m.items| && Drawables(m, from + 1, at) == []
    {
      SkipEmpty(m, from + 1, at, at + 1, |m.items|);
      if m.items[at].Some? && IsSlotItem(m.items[at].value) {
        found := true;
        return;
      }
      at := at + 1;
    }
  }

  /** The nearest item before `from` that can be drawn, item 0 excepted. */
  method FindBefore(m: Menu, from: nat) returns (found: bool, at: nat)
    requires from < |m.items|
    ensures var before := Drawables(m, 1, from);
            (found <==> before != []) && (found ==> at == before[|before| - 1])
  {
    hide Drawables;
    found, at := false, from;
    DrawablesOne(m, 1);
    if at == 0 {
      DrawablesNone(m, 1, 0);
      return;
    }
    DrawablesOne(m, from);
    DrawablesNone(m, from, from);
    at := at - 1;
    while at != 0
      invariant at < from && Drawables(m, at + 1, from) == []
    {
      SkipEmpty(m, 1, at, at + 1, from);
      if m.items[at].Some? && IsSlotItem(m.items[at].value) {
        found := true;
        return;
      }
      at := at - 1;
    }
  }

  /** The drawing so far: keys below `panel.nextPos` hold what `d` puts there, the rest what they held. */
  ghost predicate Progress(d: Drawing, panel: RadioPanel, md: MenuStates, was: seq<Slot>)
    reads panel, md.slots
  {
    && d.Valid() && panel.maxPageItems == d.pageMax && md.slots.Length == 11 == |was|
    && 1 <= panel.nextPos <= d.pageMax + 1
    && (forall p :: 1 <= p < panel.nextPos ==> md.slots[p].kind == d.Drawn(p))
    && (forall p :: panel.nextPos <= p <= 10 ==> md.slots[p] == was[p])
    && (forall p :: d.Shift() < p < panel.nextPos && p <= d.Shift() + |d.shown| ==>
          md.slots[p].item == d.shown[p - d.Shift() - 1])
    && panel.keys == set p: nat | 1 <= p < panel.nextPos && p <= 10 && d.Pressable(p)
  }

  /** Draw one control or padding entry and type its slot. */
  method Put(panel: RadioPanel, md: MenuStates, st: Style, kind: ItemSelection, ghost d: Drawing, ghost was: seq<Slot>)
    returns (position: nat)
    requires Progress(d, panel, md, was) && panel.nextPos <= d.pageMax
    requires CanDrawItem(st) && !st.rawline && d.Drawn(panel.nextPos) == kind
    requires !(d.Shift() < panel.nextPos <= d.Shift() + |d.shown|)
    requires kind != SelNone <==> d.Plain(st)
    modifies panel, md.slots
    ensures Progress(d, panel, md, was) && position == old(panel.nextPos) && panel.nextPos == position + 1
  {
    position := panel.DrawItem(st);
    md.slots[position] := md.slots[position].(kind := kind);
  }

  /** What the menu's own items put on their keys. */
  lemma ItemAt(d: Drawing, p: nat, item: nat)
    requires d.Valid() && d.Shift() < p <= d.Shift() + |d.shown| && p <= d.pageMax && d.shown[p - d.Shift() - 1] == item
    requires Drawable(d.menu, item)
    ensures 1 <= p <= d.pageMax <= 10
    ensures var st := d.menu.items[item].value;
            && CanDrawItem(st) && !st.rawline
            && d.Drawn(p) == (if st.disabled then SelNone else SelItem)
            && (d.Pressable(p) <==> !st.disabled && !st.spacer && !st.notext)
  {
  }

  /** Draw one menu item. OnMenuDisplayItem either answers 0 or draws the same style itself. */
  method PutItem(m: Menu, panel: RadioPanel, md: MenuStates, item: nat, ghost d: Drawing, ghost was: seq<Slot>)
    returns (position: nat)
    requires Progress(d, panel, md, was) && panel.nextPos <= d.pageMax && m == d.menu && Drawable(m, item)
    requires d.Shift() < panel.nextPos <= d.Shift() + |d.shown| && d.shown[panel.nextPos - d.Shift() - 1] == item
    modifies panel, md.slots
    ensures Progress(d, panel, md, was) && position == old(panel.nextPos) && panel.nextPos == position + 1
  {
    hide Drawing.Drawn, Drawing.Pressable, Drawing.Valid, Drawing.Shift, Drawing.Plain, IsSlotItem, CanDrawItem;
    var style := m.items[item].value;
    ItemAt(d, panel.nextPos, item);
    position := panel.DrawItem(style);
    if position != 0 {
      md.slots[position] := Slot(if style.disabled then SelNone else SelItem, item);
    }
  }

  /** The items, in increasing order whichever way they were found. */
  method PutItems(m: Menu, order: Order, drawItems: array<nat>, found: nat, panel: RadioPanel, md: MenuStates,
                  ghost d: Drawing, ghost was: seq<Slot>)
    returns (position: nat)
    requires Progress(d, panel, md, was) && m == d.menu && drawItems.Length == 10 && 0 < found <= 10
    requires panel.nextPos == 1 + d.Shift() && found == |d.shown| && d.Shift() + found <= d.pageMax
    requires drawItems[..found] == if order.Ascending? then d.shown else Reversed(d.shown)
    requires drawItems != md.slots as object
    modifies panel, md.slots, md`itemOnPage
    ensures Progress(d, panel, md, was) && position == d.Shift() + found && panel.nextPos == position + 1
    ensures md.itemOnPage == d.shown[0]
  {
    hide Drawing.Drawn, Drawing.Pressable, Drawing.Valid, Reversed, Progress, Drawable, Increasing;
    position := 0;
    ghost var got := drawItems[..found];
    assert drawItems[0] == got[0] && drawItems[found - 1] == got[found - 1];
    FoundAt(d, panel, md, was, order, got, 0);
    FoundAt(d, panel, md, was, order, got, found - 1);
    if order.Ascending? {
      md.itemOnPage := drawItems[0];
      var i := 0;
      while i < found
        invariant i <= found && Progress(d, panel, md, was) && panel.nextPos == 1 + d.Shift() + i
        invariant i > 0 ==> position == d.Shift() + i
        invariant md.itemOnPage == d.shown[0] && drawItems[..found] == got
      {
        assert drawItems[i] == got[i];
        FoundAt(d, panel, md, was, order, got, i);
        position := PutItem(m, panel, md, drawItems[i], d, was);
        i := i + 1;
      }
    } else {
      md.itemOnPage := drawItems[found - 1];
      var i := found;
      while i > 0
        invariant i <= found && Progress(d, panel, md, was) && panel.nextPos == 1 + d.Shift() + found - i
        invariant i < found ==> position == d.Shift() + found - i
        invariant md.itemOnPage == d.shown[0] && drawItems[..found] == got
      {
        i := i - 1;
        assert drawItems[i] == got[i];
        FoundAt(d, panel, md, was, order, got, i);
        position := PutItem(m, panel, md, drawItems[i], d, was);
      }
    }
  }

  /** Which of the page's items the search found `j`-th. */
  lemma FoundAt(d: Drawing, panel: RadioPanel, md: MenuStates, was: seq<Slot>, order: Order, got: seq<nat>, j: nat)
    requires Progress(d, panel, md, was) && got == (if order.Ascending? then d.shown else Reversed(d.shown))
             && j < |d.shown|
    ensures |got| == |d.shown| && Drawable(d.menu, got[j])
    ensures got[j] == d.shown[if order.Ascending? then j else |d.shown| - 1 - j]
  {
    hide Progress, Reversed, Drawable;
    ValidDrawable(d, panel, md, was);
    FoundInOrder(d.shown, order, j);
  }

  lemma ValidDrawable(d: Drawing, panel: RadioPanel, md: MenuStates, was: seq<Slot>)
    requires Progress(d, panel, md, was)
    ensures forall k :: 0 <= k < |d.shown| ==> Drawable(d.menu, d.shown[k])
  {
    hide Drawing.Drawn, Drawing.Pressable, Drawable;
  }

  lemma FoundInOrder(shown: seq<nat>, order: Order, j: nat)
    requires j < |shown|
    ensures |Reversed(shown)| == |shown|
    ensures (if order.Ascending? then shown else Reversed(shown))[j]
            == shown[if order.Ascending? then j else |shown| - 1 - j]
  {
    hide Reversed;
    ReversedAt(shown);
  }

  /** What stands on the keys below the items. */
  lemma BelowItems(d: Drawing, p: nat)
    requires d.Valid() && d.Shift() + |d.shown| < p <= d.pageMax
    ensures p <= 10 && d.Drawn(p) ==
      if d.ControlRow() && p == d.pageMax - 2 + d.Shift() then
        if !d.BackButton() then SelNone else if !d.prev && d.menu.exitBack then SelExitBack else SelBack
      else if d.ControlRow() && p == d.pageMax - 1 + d.Shift() && d.next then SelNext
      else if d.menu.exitButton && p == d.pageMax + d.Shift() then SelExit
      else SelNone
  {
  }

  /** Spacers that push the control buttons to the last keys. */
  method PutPadding(panel: RadioPanel, md: MenuStates, padding: nat, last: nat, invisible: bool,
                    ghost d: Drawing, ghost was: seq<Slot>)
    returns (position: nat)
    requires Progress(d, panel, md, was) && panel.nextPos == last + 1 && last == d.Shift() + |d.shown|
    requires last + padding <= d.pageMax
    requires d.Paged() ==> last + padding < d.pageMax - 2 + d.Shift()
    requires !d.menu.noVote ==> last + padding < d.pageMax
    modifies panel, md.slots
    ensures Progress(d, panel, md, was) && position == last + padding && panel.nextPos == position + 1
  {
    hide Progress, Drawing.Drawn;
    position := last;
    var pad := if invisible then PLAIN.(notext := true) else PLAIN.(spacer := true);
    var i := 0;
    while i < padding
      invariant i <= padding && Progress(d, panel, md, was) && panel.nextPos == last + 1 + i && position == last + i
    {
      ProgressIs(d, panel, md, was);
      BelowItems(d, panel.nextPos);
      position := Put(panel, md, pad, SelNone, d, was);
      i := i + 1;
    }
  }

  lemma ProgressIs(d: Drawing, panel: RadioPanel, md: MenuStates, was: seq<Slot>)
    requires Progress(d, panel, md, was)
    ensures d.Valid() && panel.maxPageItems == d.pageMax && md.slots.Length == 11 == |was|
    ensures 1 <= panel.nextPos <= d.pageMax + 1
  {
  }

  /** Previous or Back, and Next; or, with neither, two blank keys. */
  method PutPaging(m: Menu, displayPrev: bool, exitBackButton: bool, next: bool,
                   panel: RadioPanel, md: MenuStates, ghost d: Drawing, ghost was: seq<Slot>)
    returns (position: nat)
    requires Progress(d, panel, md, was) && d.menu == m && d.Paged() && d.next == next
    requires displayPrev == d.BackButton() && exitBackButton == (m.exitBack && !d.prev)
    requires panel.nextPos > d.Shift() + |d.shown|
    requires panel.nextPos == if d.ControlRow() || m.exitButton then d.pageMax - 2 + d.Shift()
                              else d.Shift() + |d.shown| + 1
    modifies panel, md.slots
    ensures Progress(d, panel, md, was)
    ensures position == if d.ControlRow() && !next && !m.exitButton then old(panel.nextPos) else old(panel.nextPos) + 1
    ensures panel.nextPos == position + 1
  {
    hide Progress, Drawing.Drawn;
    ProgressIs(d, panel, md, was);
    var canDrawDisabled := CanDrawItem(PLAIN.(disabled := true, control := true));
    var padCtrl := PLAIN.(spacer := true, control := true);
    var ctrl := PLAIN.(control := true);
    BelowItems(d, panel.nextPos);
    BelowItems(d, panel.nextPos + 1);
    position := 0;
    if displayPrev || next {
      if displayPrev || canDrawDisabled {
        if exitBackButton {
          position := Put(panel, md, ctrl, SelExitBack, d, was);
        } else {
          position := Put(panel, md, ctrl.(disabled := !displayPrev), SelBack, d, was);
        }
      } else if next || m.exitButton {
        position := Put(panel, md, padCtrl, SelNone, d, was);
      }
      if next || canDrawDisabled {
        position := Put(panel, md, ctrl.(disabled := !next), SelNext, d, was);
      } else if m.exitButton {
        position := Put(panel, md, padCtrl, SelNone, d, was);
      }
    } else {
      position := Put(panel, md, PLAIN.(notext := true), SelNone, d, was);
      position := Put(panel, md, PLAIN.(notext := true), SelNone, d, was);
    }
  }

  /** The Exit button; on a full panel nothing is drawn and slot 0 is typed instead. */
  method PutExit(panel: RadioPanel, md: MenuStates, ghost d: Drawing, ghost was: seq<Slot>) returns (position: nat)
    requires Progress(d, panel, md, was) && d.menu.exitButton && panel.nextPos == d.pageMax + d.Shift()
    requires panel.nextPos > d.Shift() + |d.shown|
    modifies panel, md.slots
    ensures if d.Overflows() then Progress(d, panel, md, was[0 := Slot(SelExit, was[0].item)]) && position == 0
            else Progress(d, panel, md, was) && position == d.pageMax
    ensures panel.nextPos == d.pageMax + 1
  {
    if panel.nextPos <= panel.maxPageItems {
      BelowItems(d, panel.nextPos);
      position := Put(panel, md, PLAIN.(control := true), SelExit, d, was);
    } else {
      position := panel.DrawItem(PLAIN.(control := true));
      md.slots[position] := md.slots[position].(kind := SelExit);
    }
  }

  /** Everything below the items, in the order of the original. */
  method PutControls(m: Menu, maxItems: nat, found: nat, prev: bool, next: bool,
                     panel: RadioPanel, md: MenuStates, last: nat, ghost d: Drawing, ghost was: seq<Slot>)
    returns (position: nat)
    requires Progress(d, panel, md, was) && d.menu == m && d.prev == prev && d.next == next
    requires maxItems == MaxItems(m, d.pageMax) && found == |d.shown| && found <= maxItems
    requires last == d.Shift() + found && panel.nextPos == last + 1
    requires m.pagination != 0 || m.exitButton
    modifies panel, md.slots
    ensures if d.Overflows() then Progress(d, panel, md, was[0 := Slot(SelExit, was[0].item)]) && position == 0
            else Progress(d, panel, md, was) && position == d.Last()
    ensures panel.nextPos == (if d.Overflows() then d.pageMax else d.Last()) + 1
  {
    hide Progress, Drawing.Drawn;
    ProgressIs(d, panel, md, was);
    position := last;
    var paged := m.pagination != 0;
    var displayPrev, exitBackButton := prev, paged && m.exitBack;
    var padding: int := panel.maxPageItems - maxItems;
    padding := padding + (maxItems - found);
    padding := padding - 1;
    if paged {
      padding := padding - 2;
    }
    assert padding >= 0;
    if exitBackButton {
      if !displayPrev {
        displayPrev := true;
      } else {
        exitBackButton := false;
      }
    }
    if m.exitButton || next || displayPrev {
      position := PutPadding(panel, md, padding, last, !next && !displayPrev, d, was);
      var rawSpacer := DrawRaw(panel, md, d, was);
    }
    if paged {
      position := PutPaging(m, displayPrev, exitBackButton, next, panel, md, d, was);
    }
    if m.exitButton {
      position := PutExit(panel, md, d, was);
    }
  }

  /** A raw line takes no key. */
  method DrawRaw(panel: RadioPanel, md: MenuStates, ghost d: Drawing, ghost was: seq<Slot>) returns (position: nat)
    requires Progress(d, panel, md, was)
    modifies panel
    ensures Progress(d, panel, md, was) && panel.nextPos == old(panel.nextPos) && position == 0
  {
    position := panel.DrawItem(PLAIN.(rawline := true, spacer := true));
  }

  /** The view a rendering gives, as a function of the menu and of where the last one left off. */
  function Rendered(m: Menu, pageMax: nat, order: Order, v: View): Option<View> {
    var n := MaxItems(m, pageMax);
    if n < 2 then None
    else if m.pagination != 0 then Page(m, n, order, v)
    else
      var shown := Take(All(m), n);
      if shown == [] then None else Some(View(shown, false, false, v.firstItem, v.lastItem))
  }

  /** Every view a rendering gives fits the panel. */
  lemma RenderedFits(m: Menu, pageMax: nat, order: Order, v: View)
    requires 4 <= pageMax <= 10 && m.pagination <= pageMax - 3 && Rendered(m, pageMax, order, v).Some?
    ensures var w := Rendered(m, pageMax, order, v).value;
            Drawing(m, pageMax, w.shown, w.prev, w.next).Valid()
  {
    hide Drawables, Page, Upward, Downward;
    var n := MaxItems(m, pageMax);
    if m.pagination != 0 {
      PageIsReading(m, n, order, v);
      var (o, start) := SearchFrom(m, n, order, v.firstItem, v.lastItem);
      ReadingFits(m, n, o, start, v);
    } else {
      DrawablesAre(m, 0, |m.items|);
    }
  }

  lemma ReadingFits(m: Menu, n: nat, order: Order, start: nat, v: View)
    requires n >= 2 && Reading(m, n, order, start, v).Some?
    ensures var w := Reading(m, n, order, start, v).value;
            0 < |w.shown| <= n && forall j :: 0 <= j < |w.shown| ==> Drawable(m, w.shown[j])
  {
    DrawablesAre(m, start, |m.items|);
    DrawablesAre(m, 0, start + 1);
    hide Drawables, Increasing;
  }

  /** Where and which way the search starts: out of range bounds turn it round. */
  function SearchFrom(m: Menu, n: nat, order: Order, first: nat, last: nat): (Order, nat) {
    if order.Ascending? then
      if last >= |m.items| && |m.items| > 0 then (Descending, |m.items| - 1) else (Ascending, last)
    else
      if first <= n then (Ascending, 0) else (Descending, first)
  }

  function Reading(m: Menu, n: nat, order: Order, start: nat, v: View): Option<View>
    requires n >= 2
  {
    if order.Ascending? then Upward(m, n, start, v) else Downward(m, n, start, v)
  }

  lemma PageIsReading(m: Menu, n: nat, order: Order, v: View)
    requires n >= 2
    ensures var (o, start) := SearchFrom(m, n, order, v.firstItem, v.lastItem);
            Page(m, n, order, v) == if |m.items| == 0 then None else Reading(m, n, o, start, v)
  {
    hide Upward, Downward, Drawables;
  }

  /** `v` is what was found, with the search positions of `md`. */
  ghost predicate Found(v: View, order: Order, drawItems: array<nat>, found: nat, prev: bool, next: bool,
                        md: MenuStates)
    reads drawItems, md
  {
    && drawItems.Length == 10 && 0 < found == |v.shown| && found <= 10 && prev == v.prev && next == v.next
    && drawItems[..found] == (if order.Ascending? then v.shown else Reversed(v.shown))
    && md.firstItem == v.firstItem && md.lastItem == v.lastItem
  }

  /** What lies on either side of a page whose first found item is `first`. */
  method FindSides(m: Menu, order: Order, first: nat, foundExtra: bool, extraItem: nat, md: MenuStates)
    returns (prev: bool, next: bool)
    requires first < |m.items|
    modifies md`firstItem, md`lastItem
    ensures if order.Ascending? then
              var before := Drawables(m, 1, first);
              && next == foundExtra && md.lastItem == (if foundExtra then extraItem else old(md.lastItem))
              && prev == (before != []) && md.firstItem == (if prev then before[|before| - 1] else old(md.firstItem))
            else
              var after := Drawables(m, first + 1, |m.items|);
              && prev == foundExtra && md.firstItem == (if foundExtra then extraItem else old(md.firstItem))
              && next == (after != []) && md.lastItem == (if next then after[0] else old(md.lastItem))
  {
    hide Drawables;
    prev, next := false, false;
    if foundExtra {
      if order.Descending? {
        prev, md.firstItem := true, extraItem;
      } else {
        next, md.lastItem := true, extraItem;
      }
    }
    var more, at;
    if order.Descending? {
      more, at := FindAfter(m, first);
      if more {
        next, md.lastItem := true, at;
      }
    } else {
      more, at := FindBefore(m, first);
      if more {
        prev, md.firstItem := true, at;
      }
    }
  }

  /** The paginated search. */
  method FindPaged(m: Menu, maxItems: nat, md: MenuStates, order: Order, startItem: nat, drawItems: array<nat>)
    returns (found: nat, prev: bool, next: bool)
    requires 2 <= maxItems <= 9 && m.pagination != 0 && |m.items| > 0 && drawItems.Length == 10
    requires order.Ascending? ==> startItem < |m.items|
    modifies md`firstItem, md`lastItem, drawItems
    ensures var v0 := View([], false, false, old(md.firstItem), old(md.lastItem));
            var v := Reading(m, maxItems, order, startItem, v0);
            if v.None? then found == 0 && md.firstItem == v0.firstItem && md.lastItem == v0.lastItem
            else Found(v.value, order, drawItems, found, prev, next, md)
  {
    hide Drawables, Reversed, Page, Reading, Searched;
    prev, next := false, false;
    var foundExtra, extraItem;
    found, foundExtra, extraItem := SearchItems(m, order, startItem, maxItems, drawItems);
    ghost var v0 := View([], false, false, old(md.firstItem), old(md.lastItem));
    PageSearched(m, maxItems, order, startItem, v0, drawItems[..found], foundExtra, extraItem);
    if found == 0 {
      return;
    }
    assert drawItems[0] == drawItems[..found][0];
    prev, next := FindSides(m, order, drawItems[0], foundExtra, extraItem, md);
  }

  /** What a search says about the page to be shown. */
  lemma PageSearched(m: Menu, n: nat, order: Order, start: nat, v: View, got: seq<nat>, more: bool, extra: nat)
    requires n >= 2 && m.pagination != 0 && |m.items| > 0 && Searched(m, order, start, n, got, more, extra)
    ensures got == [] <==> Reading(m, n, order, start, v).None?
    ensures got != [] ==>
              && got[0] < |m.items|
              && var w := Reading(m, n, order, start, v).value;
              && got == (if order.Ascending? then w.shown else Reversed(w.shown)) && |w.shown| == |got|
              && if order.Ascending? then
                   var before := Drawables(m, 1, got[0]);
                   && w.next == more && w.lastItem == (if more then extra else v.lastItem)
                   && w.prev == (before != []) && w.firstItem == (if w.prev then before[|before| - 1] else v.firstItem)
                 else
                   var after := Drawables(m, got[0] + 1, |m.items|);
                   && w.prev == more && w.firstItem == (if more then extra else v.firstItem)
                   && w.next == (after != []) && w.lastItem == (if w.next then after[0] else v.lastItem)
  {
    hide Drawables, Reversed;
    FirstFound(m, order, start, n);
    ReversedAt(LastOf(Drawables(m, 0, start + 1), n));
  }

  /** The first item a search finds, and how many. */
  lemma FirstFound(m: Menu, order: Order, start: nat, n: nat)
    requires n >= 2
    ensures var all := if order.Ascending? then Drawables(m, start, |m.items|) else Drawables(m, 0, start + 1);
            var got := if order.Ascending? then Take(all, n) else Reversed(LastOf(all, n));
            && |got| == (if |all| <= n then |all| else n)
            && (all != [] ==>
                  got != [] && got[0] < |m.items| && got[0] == all[if order.Ascending? then 0 else |all| - 1])
  {
    hide Drawables, Reversed;
    var lo, hi := if order.Ascending? then start else 0, if order.Ascending? then |m.items| else start + 1;
    DrawablesAre(m, lo, hi);
    ReversedAt(LastOf(Drawables(m, 0, start + 1), n));
  }

  /** Search, and what lies before and after: the half of RenderMenu that draws nothing. */
  method FindPage(m: Menu, pageMax: nat, maxItems: nat, md: MenuStates, order0: Order)
    returns (found: nat, drawItems: array<nat>, order: Order, prev: bool, next: bool)
    requires 2 <= maxItems <= (if m.pagination == 0 then 10 else 9) && maxItems == MaxItems(m, pageMax)
    requires m.pagination == 0 ==> order0.Ascending?
    modifies md`firstItem, md`lastItem
    ensures fresh(drawItems)
    ensures var v0 := View([], false, false, old(md.firstItem), old(md.lastItem));
            var v := Rendered(m, pageMax, order0, v0);
            if v.None? then found == 0 && md.firstItem == v0.firstItem && md.lastItem == v0.lastItem
            else Found(v.value, order, drawItems, found, prev, next, md)
  {
    hide Drawables, Reversed, Page, Reading;
    ghost var v0 := View([], false, false, md.firstItem, md.lastItem);
    PageIsReading(m, maxItems, order0, v0);
    var totalItems := |m.items|;
    var startItem: nat := 0;
    order := order0;
    drawItems := new nat[10];
    found, prev, next := 0, false, false;
    if m.pagination == 0 {
      var foundExtra, extraItem;
      found, foundExtra, extraItem := SearchItems(m, order, startItem, maxItems, drawItems);
      return;
    }
    if totalItems == 0 {
      return;
    }
    if order.Ascending? {
      startItem := md.lastItem;
      if startItem >= totalItems {
        startItem := totalItems - 1;
        order := Descending;
      }
    } else {
      startItem := md.firstItem;
      if startItem <= maxItems {
        startItem := 0;
        order := Ascending;
      }
    }
    assert (order, startItem) == SearchFrom(m, maxItems, order0, v0.firstItem, v0.lastItem);
    found, prev, next := FindPaged(m, maxItems, md, order, startItem, drawItems);
  }

  /** The No Vote button, on the first key. */
  method PutNoVote(panel: RadioPanel, md: MenuStates, ghost d: Drawing, ghost was: seq<Slot>) returns (position: nat)
    requires Progress(d, panel, md, was) && d.menu.noVote && panel.nextPos == 1
    modifies panel, md.slots
    ensures Progress(d, panel, md, was) && position == panel.nextPos == 2
  {
    position := Put(panel, md, PLAIN, SelExit, d, was);
    position := position + 1;
  }

  /** The keys after the last one drawn are dead; a last position of 0 kills them all. */
  method ClearRest(panel: RadioPanel, md: MenuStates, position: nat, ghost d: Drawing, ghost was: seq<Slot>)
    requires |was| == 11 && d.Valid()
    requires if d.Overflows() then Progress(d, panel, md, was[0 := Slot(SelExit, was[0].item)]) && position == 0
             else Progress(d, panel, md, was) && position == d.Last()
    requires d.Valid() && panel.nextPos == (if d.Overflows() then d.pageMax else d.Last()) + 1
    modifies md.slots
    ensures forall p :: 1 <= p <= 10 ==> md.slots[p].kind == d.Kind(p, was[p].kind)
    ensures Behind(md.slots[..], d.Shift(), d.shown)
    ensures panel.keys == d.Keys()
  {
    ghost var start := md.slots[..];
    AllKeysDrawn(d, panel.nextPos);
    var i := position + 1;
    while i < 10
      invariant position + 1 <= i && (i <= 10 || i == position + 1)
      invariant forall p :: 0 <= p <= 10 ==>
        md.slots[p] == if position < p < i then start[p].(kind := SelNone) else start[p]
    {
      md.slots[i] := md.slots[i].(kind := SelNone);
      i := i + 1;
    }
  }

  /** Nothing past the last key drawn can be pressed. */
  lemma AllKeysDrawn(d: Drawing, next: nat)
    requires d.Valid() && next == (if d.Overflows() then d.pageMax else d.Last()) + 1
    ensures d.Shift() + |d.shown| < next <= 11
    ensures forall p :: next <= p <= 10 ==> !d.Pressable(p) && (!d.Overflows() ==> d.Drawn(p) == SelNone)
    ensures d.Keys() == set p: nat | 1 <= p < next && p <= 10 && d.Pressable(p)
  {
  }

  /** The keys a No Vote button, and without pagination an Exit button, takes. */
  function Buttons(m: Menu): nat {
    (if m.noVote then 1 else 0) + if m.exitButton && m.pagination == 0 then 1 else 0
  }

  ghost predicate AnyDrawable(m: Menu, lo: nat, hi: nat) { exists i :: lo <= i < hi && Drawable(m, i) }

  /** The items shown are drawable and in order, with none left out between them. */
  ghost predicate Unbroken(m: Menu, shown: seq<nat>) {
    && shown != [] && Increasing(shown) && (forall j :: 0 <= j < |shown| ==> Drawable(m, shown[j]))
    && (forall i :: shown[0] <= i <= shown[|shown| - 1] && Drawable(m, i) ==> i in shown)
  }

  /** A page read upwards begins with the first drawable item from `start` on, and fills its `room` unless the menu
      ends before. */
  ghost predicate ReadUp(m: Menu, room: int, start: nat, shown: seq<nat>) {
    && Unbroken(m, shown) && |shown| <= room && shown[0] >= start && !AnyDrawable(m, start, shown[0])
    && (AnyDrawable(m, shown[|shown| - 1] + 1, |m.items|) ==> |shown| == room)
  }

  /** One read downwards ends with the last drawable item up to `start`, and fills its room unless the menu begins
      after. */
  ghost predicate ReadDown(m: Menu, room: int, start: int, shown: seq<nat>) {
    && Unbroken(m, shown) && |shown| <= room && shown[|shown| - 1] <= start
    && !AnyDrawable(m, shown[|shown| - 1] + 1, start + 1) && (AnyDrawable(m, 0, shown[0]) ==> |shown| == room)
  }

  /** What the items of a menu, and where the last page left off, make of the next one: whether there is one at all,
      and which items it shows. Paged, there is room for `pagination` items, but for the buttons; otherwise for as
      many as the panel has keys. */
  ghost predicate ShowsPage(m: Menu, pageMax: nat, order: Order, first: nat, last: nat, shown: Option<seq<nat>>) {
    var room := (if m.pagination != 0 then m.pagination else pageMax) - Buttons(m);
    if room < 2 then shown.None?
    else if m.pagination == 0 || (order.Descending? && first <= room) then
      if shown.None? then !AnyDrawable(m, 0, |m.items|) else ReadUp(m, room, 0, shown.value)
    else if order.Ascending? && last < |m.items| then
      if shown.None? then !AnyDrawable(m, last, |m.items|) else ReadUp(m, room, last, shown.value)
    else if order.Ascending? then
      if shown.None? then !AnyDrawable(m, 0, |m.items|) else ReadDown(m, room, |m.items| - 1, shown.value)
    else
      if shown.None? then !AnyDrawable(m, 0, first + 1) else ReadDown(m, room, first, shown.value)
  }

  lemma AnyDrawableIs(m: Menu, lo: nat, hi: nat)
    ensures AnyDrawable(m, lo, hi) <==> Drawables(m, lo, hi) != []
  {
    DrawablesAre(m, lo, hi);
    if i :| lo <= i < hi && Drawable(m, i) {
      DrawablesComplete(m, lo, hi, i);
    }
    hide Drawables, Drawable;
    var d := Drawables(m, lo, hi);
    if d != [] {
      assert lo <= d[0] < hi && Drawable(m, d[0]);
    }
  }

  /** A stretch of the list of drawable items leaves none out. */
  lemma StretchUnbroken(m: Menu, lo: nat, hi: nat, a: nat, b: nat)
    requires a < b <= |Drawables(m, lo, hi)|
    ensures Unbroken(m, Drawables(m, lo, hi)[a..b])
  {
    hide Drawables, Drawable;
    DrawablesAre(m, lo, hi);
    var d := Drawables(m, lo, hi);
    var s := d[a..b];
    assert s[0] == d[a] && s[|s| - 1] == d[b - 1];
    forall i | s[0] <= i <= s[|s| - 1] && Drawable(m, i) ensures i in s {
      DrawablesComplete(m, lo, hi, i);
      InStretch(d, a, b, i);
    }
  }

  lemma InStretch(d: seq<nat>, a: nat, b: nat, i: nat)
    requires Increasing(d) && a < b <= |d| && i in d && d[a] <= i <= d[b - 1]
    ensures i in d[a..b]
  {
    var j :| 0 <= j < |d| && d[j] == i;
    assert a <= j < b;
    assert d[a..b][j - a] == i;
  }

  /** What lies before the first and behind the last of a stretch. */
  lemma StretchEnds(m: Menu, lo: nat, hi: nat, a: nat, b: nat)
    requires a < b <= |Drawables(m, lo, hi)|
    ensures var d := Drawables(m, lo, hi);
            && lo <= d[a] <= d[b - 1] < hi
            && (AnyDrawable(m, lo, d[a]) <==> a > 0) && (AnyDrawable(m, d[b - 1] + 1, hi) <==> b < |d|)
  {
    var d := Drawables(m, lo, hi);
    DrawablesAre(m, lo, hi);
    if i :| lo <= i < d[a] && Drawable(m, i) {
      DrawablesComplete(m, lo, hi, i);
    }
    if i :| d[b - 1] + 1 <= i < hi && Drawable(m, i) {
      DrawablesComplete(m, lo, hi, i);
    }
    hide Drawables, Drawable;
    if a > 0 {
      assert lo <= d[a - 1] < d[a] && Drawable(m, d[a - 1]);
    }
    if b < |d| {
      assert d[b - 1] + 1 <= d[b] < hi && Drawable(m, d[b]);
    }
  }

  lemma UpwardReadsUp(m: Menu, n: nat, start: nat, v: View)
    requires n >= 2
    ensures var r := Upward(m, n, start, v);
            if r.None? then !AnyDrawable(m, start, |m.items|) else ReadUp(m, n, start, r.value.shown)
  {
    hide Drawables, Unbroken, AnyDrawable;
    var d := Drawables(m, start, |m.items|);
    AnyDrawableIs(m, start, |m.items|);
    if d != [] {
      var b := if |d| <= n then |d| else n;
      assert d[..|d|] == d && d[0..b] == d[..b];
      StretchUnbroken(m, start, |m.items|, 0, b);
      StretchEnds(m, start, |m.items|, 0, b);
    }
  }

  lemma DownwardReadsDown(m: Menu, n: nat, start: nat, v: View)
    requires n >= 2
    ensures var r := Downward(m, n, start, v);
            if r.None? then !AnyDrawable(m, 0, start + 1) else ReadDown(m, n, start, r.value.shown)
  {
    hide Drawables, Unbroken, AnyDrawable;
    var d := Drawables(m, 0, start + 1);
    AnyDrawableIs(m, 0, start + 1);
    if d != [] {
      var a := if |d| <= n then 0 else |d| - n;
      assert d[0..] == d && d[a..|d|] == d[a..];
      StretchUnbroken(m, 0, start + 1, a, |d|);
      StretchEnds(m, 0, start + 1, a, |d|);
    }
  }

  /** Every rendering shows the page it has to. */
  lemma RenderedShows(m: Menu, pageMax: nat, order: Order, v: View)
    requires m.pagination == 0 ==> order.Ascending?
    ensures var r := Rendered(m, pageMax, order, v);
            ShowsPage(m, pageMax, order, v.firstItem, v.lastItem, if r.None? then None else Some(r.value.shown))
  {
    hide Drawables, Upward, Downward, ReadUp, ReadDown, AnyDrawable;
    var n := MaxItems(m, pageMax);
    if n >= 2 {
      if m.pagination == 0 {
        UpwardReadsUp(m, n, 0, v);
        AllUpward(m, n, v);
      } else if |m.items| == 0 {
        NothingDrawable(m);
      } else {
        UpwardReadsUp(m, n, 0, v);
        UpwardReadsUp(m, n, v.lastItem, v);
        DownwardReadsDown(m, n, |m.items| - 1, v);
        DownwardReadsDown(m, n, v.firstItem, v);
      }
    }
  }

  /** A page read upwards has a Next exactly if an item is left behind it, and a Previous exactly if one other than
      item 0 is left before it. */
  lemma UpwardLeads(m: Menu, n: nat, start: nat, v: View)
    requires n >= 2 && Upward(m, n, start, v).Some?
    ensures var r := Upward(m, n, start, v).value;
            && r.shown != []
            && (r.next <==> AnyDrawable(m, r.shown[|r.shown| - 1] + 1, |m.items|))
            && (r.prev <==> AnyDrawable(m, 1, r.shown[0]))
  {
    hide Drawables, AnyDrawable;
    var d := Drawables(m, start, |m.items|);
    var b := if |d| <= n then |d| else n;
    StretchEnds(m, start, |m.items|, 0, b);
    AnyDrawableIs(m, 1, d[0]);
  }

  lemma DownwardLeads(m: Menu, n: nat, start: nat, v: View)
    requires n >= 2 && Downward(m, n, start, v).Some?
    ensures var r := Downward(m, n, start, v).value;
            && r.shown != []
            && (r.next <==> AnyDrawable(m, r.shown[|r.shown| - 1] + 1, |m.items|))
            && (r.prev <==> AnyDrawable(m, 0, r.shown[0]))
  {
    hide Drawables, AnyDrawable;
    var d := Drawables(m, 0, start + 1);
    var a := if |d| <= n then 0 else |d| - n;
    StretchEnds(m, 0, start + 1, a, |d|);
    AnyDrawableIs(m, d[|d| - 1] + 1, |m.items|);
  }

  /** With pagination, Next is there exactly if an item is left behind the page, and Previous if one is left before
      it, unless that is item 0. */
  lemma ButtonsLead(m: Menu, pageMax: nat, order: Order, v: View)
    requires m.pagination != 0 && Rendered(m, pageMax, order, v).Some?
    ensures var r := Rendered(m, pageMax, order, v).value;
            && r.shown != []
            && (r.next <==> AnyDrawable(m, r.shown[|r.shown| - 1] + 1, |m.items|))
            && (r.prev ==> AnyDrawable(m, 0, r.shown[0]))
            && (AnyDrawable(m, 1, r.shown[0]) ==> r.prev)
  {
    hide Drawables, Upward, Downward;
    var n := MaxItems(m, pageMax);
    if order.Ascending? && v.lastItem < |m.items| {
      UpwardLeads(m, n, v.lastItem, v);
    } else if order.Ascending? {
      DownwardLeads(m, n, |m.items| - 1, v);
    } else if v.firstItem <= n {
      UpwardLeads(m, n, 0, v);
    } else {
      DownwardLeads(m, n, v.firstItem, v);
    }
  }

  lemma AllUpward(m: Menu, n: nat, v: View)
    requires n >= 2
    ensures var r := Upward(m, n, 0, v);
            if r.None? then Take(All(m), n) == [] else r.value.shown == Take(All(m), n) != []
  {
    hide Drawables;
  }

  lemma NothingDrawable(m: Menu)
    requires m.items == []
    ensures forall lo, hi :: !AnyDrawable(m, lo, hi)
  {
  }

  /** The items stand on consecutive keys, from `k` on. */
  ghost predicate OnKeys(slots: seq<Slot>, k: nat, items: seq<nat>) {
    k + |items| <= |slots| && forall j :: 0 <= j < |items| ==> slots[k + j].item == items[j]
  }

  ghost predicate Behind(slots: seq<Slot>, s: nat, items: seq<nat>) {
    s + |items| < |slots| && forall p :: s < p <= s + |items| ==> slots[p].item == items[p - s - 1]
  }

  lemma AreOnKeys(slots: seq<Slot>, s: nat, items: seq<nat>)
    requires Behind(slots, s, items)
    ensures OnKeys(slots, s + 1, items)
  {
    forall j | 0 <= j < |items| ensures slots[s + 1 + j].item == items[j] {
      var p := s + 1 + j;
      assert slots[p].item == items[p - s - 1];
    }
  }

  /** MenuManager::RenderMenu. The page is the one to be shown, and its items are on their keys; the rest is as a
      function of the view. */
  method RenderMenu(m: Menu, pageMax: nat, md: MenuStates, order0: Order)
    returns (panel: RadioPanel?, ghost shown: Option<seq<nat>>)
    requires 4 <= pageMax <= 10 && m.pagination <= pageMax - 3 && md.slots.Length == 11
    requires m.pagination == 0 ==> order0.Ascending?
    modifies md, md.slots
    ensures panel != null ==> fresh(panel)
    ensures ShowsPage(m, pageMax, order0, old(md.firstItem), old(md.lastItem), shown)
            && (shown.None? <==> panel == null)
    ensures shown.Some? ==>
              && shown.value != [] && md.itemOnPage == shown.value[0]
              && OnKeys(md.slots[..], if m.noVote then 2 else 1, shown.value)
    ensures var v := Rendered(m, pageMax, order0, View([], false, false, old(md.firstItem), old(md.lastItem)));
            if v.None? then
              && panel == null && md.firstItem == old(md.firstItem) && md.lastItem == old(md.lastItem)
              && md.slots[..] == old(md.slots[..])
            else
              var d := Drawing(m, pageMax, v.value.shown, v.value.prev, v.value.next);
              && panel != null && d.Valid() && panel.keys == d.Keys()
              && md.firstItem == v.value.firstItem && md.lastItem == v.value.lastItem
              && md.itemOnPage == v.value.shown[0]
              && (forall p :: 1 <= p <= 10 ==> md.slots[p].kind == d.Kind(p, old(md.slots[..])[p].kind))
  {
    hide Drawables, Reversed, Page, Progress, Drawing.Drawn, Drawing.Kind, Drawing.Keys, ShowsPage, OnKeys;
    RenderedShows(m, pageMax, order0, View([], false, false, md.firstItem, md.lastItem));
    shown := None;
    var maxItems: int := pageMax;
    if m.pagination != 0 {
      maxItems := m.pagination;
    } else if m.exitButton {
      maxItems := maxItems - 1;
    }
    if m.noVote {
      maxItems := maxItems - 1;
    }
    if maxItems < 2 {
      return null, None;
    }
    ghost var v0 := View([], false, false, md.firstItem, md.lastItem);
    ghost var was := md.slots[..];
    var found, drawItems, order, prev, next := FindPage(m, pageMax, maxItems, md, order0);
    if found == 0 {
      return null, None;
    }
    ghost var v := Rendered(m, pageMax, order0, v0).value;
    ghost var d := Drawing(m, pageMax, v.shown, v.prev, v.next);
    RenderedFits(m, pageMax, order0, v0);
    panel := new RadioPanel(pageMax);
    DrawAll(m, maxItems, order, drawItems, found, prev, next, panel, md, d, was);
    shown := Some(d.shown);
  }

  /** Draw the page on an empty panel. */
  method DrawAll(m: Menu, maxItems: nat, order: Order, drawItems: array<nat>, found: nat, prev: bool, next: bool,
                 panel: RadioPanel, md: MenuStates, ghost d: Drawing, ghost was: seq<Slot>)
    requires d.Valid() && d.menu == m && d.prev == prev && d.next == next && maxItems == MaxItems(m, d.pageMax)
    requires drawItems.Length == 10 && 0 < found == |d.shown| && found <= maxItems
    requires drawItems[..found] == if order.Ascending? then d.shown else Reversed(d.shown)
    requires panel.nextPos == 1 && panel.keys == {} && panel.maxPageItems == d.pageMax
    requires md.slots.Length == 11 && was == md.slots[..]
    modifies panel, md.slots, md`itemOnPage
    ensures md.itemOnPage == d.shown[0] && panel.keys == d.Keys()
    ensures forall p :: 1 <= p <= 10 ==> md.slots[p].kind == d.Kind(p, was[p].kind)
    ensures OnKeys(md.slots[..], d.Shift() + 1, d.shown)
  {
    assert Progress(d, panel, md, was);
    hide Reversed, Progress, Drawing.Drawn, Drawing.Kind, Drawing.Keys, OnKeys, Behind;
    var position := 0;
    if m.noVote {
      position := PutNoVote(panel, md, d, was);
    }
    position := PutItems(m, order, drawItems, found, panel, md, d, was);
    if m.pagination != 0 || m.exitButton {
      position := PutControls(m, maxItems, found, prev, next, panel, md, position, d, was);
    }
    ClearRest(panel, md, position, d, was);
    AreOnKeys(md.slots[..], d.Shift(), d.shown);
  }
}
