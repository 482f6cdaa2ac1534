/** Runs from a fresh server: any at all, and two in which a page is drawn again after its menu was closed. */
module MenuRuns {
  import opened MenuWorlds
  import opened MenuProtocol
  import opened MenuLaws

  /** The client is in game, no item is asked about, and there is a page to show. */
  const SHOWN := Step(Done, true, Step(Done, false, Step(Done, true, End)))

  lemma ShownDisplays()
    ensures Displays(Vote, SHOWN) && AfterDisplay(Vote, SHOWN) == End
    ensures Displays(Plugin, Step(Done, false, SHOWN)) && OneVoter(Step(Done, false, SHOWN))
  {
    var s := Step(Done, false, Step(Done, true, End));
    assert Rest(SHOWN) == s;
    assert AfterItems(s) == Step(Done, true, End);
  }

  /** A display from between two events leaves nothing unfinished. */
  lemma StillQuiet(a: World, b: World)
    requires a.Keeps(b) && Calm(a)
    ensures b.flying == a.flying && b.cancelling == a.cancelling && b.again == a.again && Calm(b)
  {
    KeepsFrame(a, b);
    CalmStays(a, b);
  }

  /** Whatever happens, until the vote handler comes to harm, each OnMenuStart is answered and ended as often: not while
      its menu is open, and then once, or twice for the ones in `again`. As long as no plugin closes menus from a
      callback of a key press there are none of these, and no harm comes. */
  method StartsAndEnds(maxClients: nat, events: seq<Event>) returns (m: MenuSystem, fine: bool)
    requires 1 <= maxClients <= 256
    ensures fine ==> m.Quiet() && EachCounted(m.W())
    ensures GentleKeys(events) ==> fine && m.again == []
  {
    hide World.Inv, World.Keeps, Calm, EachCounted;
    m := new MenuSystem(maxClients);
    fine := m.Play(events);
    if fine {
      AllCounted(m.W());
    }
  }

  ghost predicate EachCounted(w: World) {
    forall s: nat :: s < w.next ==>
      w.Answers(s) == w.Ends(s) == if s in w.where then 0 else if s in w.again then 2 else 1
  }

  lemma AllCounted(w: World)
    requires w.Inv() && w.flying == {}
    ensures EachCounted(w)
  {
    hide World.Inv;
    forall s: nat | s < w.next
      ensures w.Answers(s) == w.Ends(s) == if s in w.where then 0 else if s in w.again then 2 else 1
    {
      EachStartEndsOnce(w, s);
    }
  }

  /** A plugin's menu gets OnMenuCancel and OnMenuEnd twice: asked about an item of the next page, the plugin closes
      the menu, and then there is no page to show. */
  method EndedTwice() returns (m: MenuSystem, fate: Fate)
    ensures fate.SecondEnd? && m.Quiet() && m.again == [0]
    ensures m.W().Answers(0) == m.W().Ends(0) == 2
  {
    hide World.Inv, World.Keeps, Calm, StaysOpen, MenuSystem.DrawnFate, MenuSystem.Drew;
    ShownDisplays();
    m := new MenuSystem(1);
    ghost var w := m.W();
    var left, ok := m.Display(1, 0, Plugin, 0, Step(Done, false, SHOWN));
    StillQuiet(w, m.W());
    ghost var drawn, due;
    fate, left, drawn, due := m.ClientPressedKey(1, Navigate, NoPage(Closing(1)));
    HeardTwice(m.W(), 0);
  }

  lemma HeardTwice(w: World, s: nat)
    requires w.Inv() && w.flying == {} && s in w.again
    ensures w.Answers(s) == w.Ends(s) == 2
  {
    EachStartEndsOnce(w, s);
  }

  /** The vote handler is left with nobody to pass a callback to: asked about an item, the plugin closes the last
      vote menu, the vote ends, and then there is another item to ask about. */
  method OrphanedVote() returns (fate: Fate)
    ensures fate.NoHandler?
  {
    hide World.Inv, World.Keeps, Calm, StaysOpen, MenuSystem.DrawnFate, MenuSystem.Drew;
    ShownDisplays();
    var m := new MenuSystem(1);
    ghost var w := m.W();
    var left, ok, _ := m.BeginVote(0, 1, [1], 0, false, Step(Done, false, SHOWN));
    StillQuiet(w, m.W());
    OnlyVoter(m.W());
    ghost var drawn, due;
    fate, left, drawn, due := m.ClientPressedKey(1, Navigate, TwoItems(Closing(1)));
  }

  /** On a server for one player, a vote that goes on has that player's menu open. */
  lemma OnlyVoter(w: World)
    requires w.Inv() && |w.players| == 2 && w.flying == {} && w.vote.clients > 0
    ensures w.players[1].HasMenu() && w.players[1].handler.Vote? && w.vote.clients == 1
  {
    ClientsAreOpenVotes(w);
    var open := OpenVotes(w, 2);
    assert !w.players[0].inMenu;
    assert open == {} || open == {1};
  }
}
