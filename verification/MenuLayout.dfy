/**
 Where `MenuManager::RenderMenu` puts items and control buttons on the panel's keys, in closed
 form: `Kind` is the slot table after a rendering and `Keys` the keys the radio panel advertises.
 */
module MenuLayout {
  import opened Wrappers
  import opened MenuPaging

  datatype ItemSelection = SelNone | SelBack | SelNext | SelExit | SelItem | SelExitBack

  /** What a rendering draws: `pageMax` is GetMaxPageItems of the style. */
  datatype Drawing = Drawing(menu: Menu, pageMax: nat, shown: seq<nat>, prev: bool, next: bool)
  {
    ghost predicate Valid() {
      && 4 <= pageMax <= 10 && menu.pagination <= pageMax - 3
      && (menu.pagination == 0 ==> !prev && !next)
      && 0 < |shown| <= MaxItems(menu, pageMax)
      && forall j :: 0 <= j < |shown| ==> Drawable(menu, shown[j])
    }

    /** The No Vote button takes the first key and moves everything after it up by one. */
    function Shift(): nat { if menu.noVote then 1 else 0 }

    function Paged(): bool { menu.pagination != 0 }

    function BackButton(): bool { Paged() && (prev || menu.exitBack) }

    function ControlRow(): bool { BackButton() || next }

    /** With both a No Vote and an Exit button the panel runs out of keys before Exit is drawn. */
    predicate Overflows() { menu.noVote && menu.exitButton }

    function ItemKind(p: nat): ItemSelection
      requires Shift() < p <= Shift() + |shown| && Drawable(menu, shown[p - Shift() - 1])
    {
      if menu.items[shown[p - Shift() - 1]].value.disabled then SelNone else SelItem
    }

    /** The slot drawn at key `p`, before the unused slots are cleared. */
    function Drawn(p: nat): ItemSelection
      requires Valid() && 1 <= p <= 10
    {
      if p <= Shift() then SelExit
      else if p <= Shift() + |shown| then ItemKind(p)
      else if ControlRow() && p == pageMax - 2 + Shift() then
        if !BackButton() then SelNone else if !prev && menu.exitBack then SelExitBack else SelBack
      else if ControlRow() && p == pageMax - 1 + Shift() && next then SelNext
      else if menu.exitButton && p == pageMax + Shift() then SelExit
      else SelNone
    }

    /** The last key drawn. */
    function Last(): nat
      requires Valid()
    {
      if menu.exitButton then pageMax
      else if !Paged() then Shift() + |shown|
      else if !ControlRow() then Shift() + |shown| + 2
      else if next then pageMax - 1 + Shift()
      else pageMax - 2 + Shift()
    }

    /** The slot table at key `p` afterwards; key 10 keeps its old entry unless something was drawn on it. */
    function Kind(p: nat, was: ItemSelection): ItemSelection
      requires Valid() && 1 <= p <= 10
    {
      if p == 10 && (if Overflows() then pageMax else Last()) < 10 then was
      else if Overflows() && p <= 9 then SelNone
      else Drawn(p)
    }

    predicate Plain(st: Style) { !st.disabled && !st.spacer && !st.notext }

    /** The keys the radio panel tells the client it may press. */
    function Keys(): set<nat>
      requires Valid()
    {
      set p: nat | 1 <= p <= 10 && Pressable(p)
    }

    predicate Pressable(p: nat)
      requires Valid() && 1 <= p <= 10
    {
      if Shift() < p <= Shift() + |shown| then Plain(menu.items[shown[p - Shift() - 1]].value)
      else Drawn(p) != SelNone && p <= pageMax
    }
  }

  /** Exactly without the overflow, every key the client may press is one the server will act on. */
  lemma KeysServed(d: Drawing, was: ItemSelection)
    requires d.Valid()
    ensures (forall p :: p in d.Keys() ==> d.Kind(p, was) != SelNone) <==> !d.Overflows()
  {
    if d.Overflows() {
      assert d.Pressable(1);
      assert 1 in d.Keys() && d.Kind(1, was) == SelNone;
    }
  }

  /** The smallest such menu: one item between a No Vote and an Exit button. Both its keys are advertised, and dead. */
  lemma KeysServedExample(was: ItemSelection)
    ensures var d := Drawing(Menu([Some(PLAIN)], 3, true, false, true), 9, [0], false, false);
            && d.Valid() && 1 in d.Keys() && 2 in d.Keys()
            && d.Kind(1, was) == SelNone && d.Kind(2, was) == SelNone
  {
    var d := Drawing(Menu([Some(PLAIN)], 3, true, false, true), 9, [0], false, false);
    assert Drawable(d.menu, 0);
    assert d.Pressable(1) && d.Pressable(2);
  }

  /** What each key does, as long as the panel does not overflow; a No Vote button moves all others up by one. */
  lemma WhatKeysDo(d: Drawing, was: ItemSelection)
    requires d.Valid() && !(d.menu.noVote && d.menu.exitButton)
    ensures var m, s, n, max := d.menu, if d.menu.noVote then 1 else 0, |d.shown|, d.pageMax;
            var paged := d.menu.pagination != 0;
            && (m.noVote ==> d.Kind(1, was) == SelExit)
            && (forall p :: s < p <= s + n ==>
                  && d.shown[p - s - 1] < |m.items| && m.items[d.shown[p - s - 1]].Some?
                  && d.Kind(p, was) == if m.items[d.shown[p - s - 1]].value.disabled then SelNone else SelItem)
            && (paged && d.prev ==> d.Kind(max - 2 + s, was) == SelBack)
            && (paged && !d.prev && m.exitBack ==> d.Kind(max - 2 + s, was) == SelExitBack)
            && (d.next ==> d.Kind(max - 1 + s, was) == SelNext)
            && (m.exitButton ==> d.Kind(max, was) == SelExit)
            && (forall p :: s + n < p <= 9 && d.Kind(p, was) != SelNone ==>
                  || (p == max - 2 + s && paged && (d.prev || m.exitBack))
                  || (p == max - 1 + s && d.next)
                  || (p == max && m.exitButton))
  {
  }

  /** The keys advertised are those of the items that can be chosen, of No Vote and of the controls, as far as the
      panel has that many. */
  lemma WhatIsAdvertised(d: Drawing, p: nat)
    requires d.Valid()
    ensures var m, s, n, max := d.menu, if d.menu.noVote then 1 else 0, |d.shown|, d.pageMax;
            var paged := d.menu.pagination != 0;
            p in d.Keys() <==>
              || (p == 1 && m.noVote)
              || (s < p <= s + n && d.shown[p - s - 1] < |m.items| && m.items[d.shown[p - s - 1]].Some?
                  && var st := m.items[d.shown[p - s - 1]].value; !st.disabled && !st.spacer && !st.notext)
              || (p == max - 2 + s && paged && (d.prev || m.exitBack))
              || (p == max - 1 + s && d.next && p <= max)
              || (p == max && m.exitButton && s == 0)
  {
  }

  /** Without a No Vote button the three control buttons sit on the last three keys. */
  lemma ControlsOnLastKeys(d: Drawing, was: ItemSelection)
    requires d.Valid() && !d.menu.noVote && d.menu.pagination != 0
    ensures d.prev ==> d.Kind(d.pageMax - 2, was) == SelBack
    ensures !d.prev && d.menu.exitBack ==> d.Kind(d.pageMax - 2, was) == SelExitBack
    ensures d.next ==> d.Kind(d.pageMax - 1, was) == SelNext
    ensures d.menu.exitButton ==> d.Kind(d.pageMax, was) == SelExit
    ensures forall p :: 1 <= p <= 9 && d.Kind(p, was) in {SelBack, SelExitBack, SelNext, SelExit} ==> p >= d.pageMax - 2
  {
  }
}
