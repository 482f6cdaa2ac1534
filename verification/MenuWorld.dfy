/**
 The state shared by the menu style of core/MenuStyle_Base.cpp and the vote handler of
 core/MenuVoting.cpp, and what each of their steps keeps.

 A session is one OnMenuStart: the bookkeeping numbers them, and a session is over when its
 OnMenuEnd is delivered. Between the two it is either the menu some client has open or in
 flight, that is being displayed or being closed further up the call stack.
 */
module MenuWorlds {
  import opened Sequences
  import opened Wrappers

  const VOTE_NOT_VOTING: int := -2
  const VOTE_PENDING: int := -1

  /** Whose callbacks a menu reports to: the vote handler's or a plugin's. */
  datatype Handler = Vote | Plugin

  datatype Player = Player(inMenu: bool, autoIgnore: bool, menu: Option<nat>, handler: Handler,
                           holdTime: nat, startTime: real)
  {
    predicate HasMenu() { inMenu && menu.Some? }
    predicate Watched() { inMenu && holdTime != 0 }

    /** The time limit of the menu has passed at `now`. */
    predicate Expired(now: real) { Watched() && now > startTime + holdTime as real }
  }

  function Count(votes: seq<int>, item: int): nat {
    if votes == [] then 0 else Count(votes[..|votes| - 1], item) + if votes[|votes| - 1] == item then 1 else 0
  }

  datatype VoteState = VoteState(clients: nat, started: bool, cancelled: bool, menu: Option<nat>, items: nat,
                                 votes: seq<nat>, clientVotes: seq<int>)

  datatype World = World(
    players: seq<Player>, watch: seq<nat>, cancelling: set<nat>, vote: VoteState, curtime: real,
    sess: seq<nat>, next: nat, where: map<nat, nat>, flying: set<nat>, voteLive: set<nat>,
    answered: seq<nat>, ended: seq<nat>, again: seq<nat>,
    nextVote: nat, decided: seq<nat>, closed: seq<nat>,
    cuts: nat)
  {
    /** How many times its handler has heard OnMenuCancel or OnMenuSelect of a session, and how many OnMenuEnd. */
    ghost function Answers(s: nat): nat { multiset(answered)[s] + multiset(again)[s] }

    ghost function Ends(s: nat): nat { multiset(ended)[s] + multiset(again)[s] }

    ghost predicate Open(c: nat) { c < |players| && players[c].HasMenu() }

    /** Session `s` is the one client `c` has open. */
    ghost predicate Holds(c: nat, s: nat) { Open(c) && c < |sess| && sess[c] == s }

    ghost predicate Live(s: nat) { s in where || s in flying }

    /** Every OnMenuStart so far: answered by one OnMenuCancel or OnMenuSelect and then over, once; or open,
        at one client, and not answered; or in flight. */
    ghost predicate Sessions() {
      && |sess| == |players|
      && where.Keys !! flying
      && (forall s :: s in where ==> Open(where[s]) && sess[where[s]] == s)
      && (forall c: nat :: Open(c) ==> sess[c] in where && where[sess[c]] == c)
      && NoDup(ended) && NoDup(answered)
      && (forall s :: s in where || s in flying || s in answered ==> s < next)
      && (forall s :: s in ended ==> s in answered)
      && (forall c: nat :: Open(c) ==> sess[c] !in answered)
      && (forall s: nat :: s < next ==> (Live(s) <==> s !in ended))
    }

    /** Only what is over is cancelled and ended again, and not a third time. */
    ghost predicate Repeated() { NoDup(again) && forall s :: s in again ==> s in ended }

    /** The vote handler counts exactly the vote menus that have started and not ended. */
    ghost predicate VoteCounts() {
      && |sess| == |players|
      && (forall s :: s in voteLive ==> Live(s))
      && vote.clients == |voteLive|
      && (forall c: nat :: Open(c) ==> (players[c].handler.Vote? <==> sess[c] in voteLive))
      && (forall c: nat :: Open(c) && players[c].handler.Vote? ==> players[c].menu == vote.menu)
      && (vote.menu.None? ==> vote.clients == 0 && !vote.started && !vote.cancelled)
    }

    /** The watch list is the clients whose menu can time out. */
    ghost predicate Watching() {
      && NoDup(watch) && (players != [] ==> !players[0].inMenu)
      && (forall c: nat :: c in watch <==> c < |players| && players[c].Watched())
    }

    /** The item totals match the clients' choices, and no client with an open ballot has chosen. */
    ghost predicate Tally() {
      && |vote.clientVotes| == |players| && (players != [] ==> vote.clientVotes[0] < 0)
      && (vote.menu.Some? ==>
            && vote.items <= |vote.votes|
            && (forall i :: 0 <= i < vote.items ==> vote.votes[i] == Count(vote.clientVotes, i))
            && (forall c :: 0 <= c < |players| ==> vote.clientVotes[c] < vote.items)
            && (forall c: nat :: Open(c) && players[c].handler.Vote? ==> vote.clientVotes[c] < 0))
    }

    /** Each accepted vote is either the current one or has been decided, once; and it has had its
        one OnMenuEnd after that, or is about to. */
    ghost predicate Ballots() {
      && NoDup(decided) && NoDup(closed)
      && (forall v :: v in decided ==> v < nextVote) && (forall v :: v in closed ==> v in decided)
      && (forall v: nat :: v < nextVote ==> (v in decided <==> !(vote.menu.Some? && v == nextVote - 1)))
      && (vote.menu.Some? ==> nextVote > 0)
    }

    ghost predicate Inv() {
      |players| <= 257 && Sessions() && Repeated() && VoteCounts() && Watching() && Tally() && Ballots()
    }

    ghost predicate SameVote(w: World) {
      w.nextVote == nextVote && w.vote.menu == vote.menu && w.vote.items == vote.items
    }

    /** What plugin code run in a callback keeps of the menus: what is further down the call stack stays
        there, a client told to ignore displays gets none, what is over stays over, a session stays with
        its client, a menu being cancelled opens for nobody, and every new display is timed from now. */
    ghost predicate KeepsMenus(w: World) { KeepsSessions(w) && KeepsClients(w) && KeepsOpen(w) }

    ghost predicate KeepsSessions(w: World) {
      && |w.players| == |players| && w.cancelling == cancelling && w.curtime == curtime
      && w.flying == flying && w.next >= next && w.again == again
      && (forall s :: s in flying ==> (s in w.voteLive <==> s in voteLive))
      && (forall s :: s in flying ==> (s in w.answered <==> s in answered))
      && (forall s :: s in answered ==> s in w.answered)
      && (forall s :: s in ended ==> s in w.ended)
    }

    ghost predicate KeepsClients(w: World) {
      && |w.players| == |players|
      && (forall c :: 0 <= c < |players| ==> w.players[c].autoIgnore == players[c].autoIgnore)
      && (forall c :: 0 <= c < |players| && players[c].autoIgnore ==>
            && w.players[c].menu == players[c].menu && w.players[c].handler == players[c].handler
            && (w.players[c].inMenu ==> players[c].inMenu && c < |sess| && c < |w.sess| && w.sess[c] == sess[c]))
      && (forall c :: 0 <= c < |players| && w.players[c].Watched() ==>
            || w.players[c].startTime == curtime
            || (players[c].Watched() && w.players[c].startTime == players[c].startTime
                && w.players[c].holdTime == players[c].holdTime))
    }

    ghost predicate KeepsOpen(w: World) {
      && |w.players| == |players|
      && (forall c: nat :: w.Open(c) && c < |w.sess| && w.sess[c] < next ==> Holds(c, w.sess[c]))
      && (forall c: nat :: w.Open(c) && w.players[c].menu.value in cancelling ==>
            && Open(c) && w.players[c].menu == players[c].menu
            && c < |sess| && c < |w.sess| && w.sess[c] == sess[c])
    }

    /** What it keeps of the votes: choices are only dropped, what is decided stays so and is closed by the
        code that decided it, and a vote that has not started, or has a session further down the call
        stack, is still the current one. */
    ghost predicate KeepsVotes(w: World) {
      && |w.vote.clientVotes| == |vote.clientVotes| && nextVote <= w.nextVote
      && (forall c :: 0 <= c < |vote.clientVotes| && w.vote.clientVotes[c] >= 0 ==>
            w.vote.clientVotes[c] == vote.clientVotes[c])
      && (forall v :: v in decided ==> v in w.decided)
      && (forall v :: v in closed ==> v in w.closed)
      && (forall v :: v in decided && v !in closed ==> v !in w.closed)
      && (forall v :: v in w.decided && v !in w.closed ==> v in decided)
      && (vote.menu.Some? && !vote.started ==> SameVote(w) && !w.vote.started)
      && (voteLive * flying != {} ==> SameVote(w))
    }

    ghost predicate Keeps(w: World) { KeepsMenus(w) && KeepsVotes(w) }

    function SetPlayer(c: nat, p: Player): World
      requires c < |players|
    {
      this.(players := players[c := p])
    }

    /** OnMenuStart. */
    function Start(h: Handler): World {
      this.(next := next + 1, flying := flying + {next},
            voteLive := if h.Vote? then voteLive + {next} else voteLive,
            vote := if h.Vote? then vote.(clients := vote.clients + 1) else vote)
    }

    /** OnMenuCancel or OnMenuSelect. */
    function Answer(s: nat): World { this.(answered := answered + [s]) }

    /** OnMenuEnd. */
    function End(s: nat, h: Handler): World
      requires h.Vote? ==> vote.clients > 0
    {
      this.(flying := flying - {s}, ended := ended + [s], voteLive := voteLive - {s},
            vote := if h.Vote? then vote.(clients := vote.clients - 1) else vote)
    }

    /** OnMenuCancel and OnMenuEnd, of a session that is over. */
    function EndAgain(s: nat): World { this.(again := again + [s]) }

    /** A client's menu closes: bInMenu is cleared and the watch list brought up to date. */
    function Close(c: nat): World
      requires c < |players| && |sess| == |players|
    {
      var p := players[c];
      this.(players := players[c := p.(inMenu := false)],
            watch := if p.holdTime != 0 then Without(watch, c) else watch,
            where := if p.HasMenu() then where - {sess[c]} else where,
            flying := if p.HasMenu() then flying + {sess[c]} else flying)
    }

    /** A menu or panel is on the client's screen. */
    function Show(c: nat, hold: nat, s: nat): World
      requires c < |players| && |sess| == |players|
    {
      var p := players[c];
      this.(players := players[c := p.(inMenu := true, holdTime := hold, startTime := curtime)],
            watch := if hold != 0 then watch + [c] else watch,
            sess := if p.menu.Some? then sess[c := s] else sess,
            where := if p.menu.Some? then where[s := c] else where,
            flying := if p.menu.Some? then flying - {s} else flying)
    }

    function SetVote(c: nat, v: int): World
      requires c < |vote.clientVotes|
    {
      this.(vote := vote.(clientVotes := vote.clientVotes[c := v]))
    }
  }

  /** A client to whom displays are ignored, because a page is being drawn for it, keeps its menu, except `but`;
      unless in between somebody asked for a menu to be closed, as `cuts` counts. */
  ghost predicate StaysOpen(a: World, b: World, but: nat) {
    && a.cuts <= b.cuts && |b.players| == |a.players|
    && (b.cuts == a.cuts ==>
          forall d :: 0 <= d < |a.players| && d != but && a.players[d].autoIgnore && a.players[d].inMenu ==>
            b.players[d].autoIgnore && b.players[d].inMenu)
  }

  lemma StaysOpenThen(a: World, b: World, c: World, but: nat)
    requires (StaysOpen(a, b, but) || StaysOpen(a, b, 0)) && (StaysOpen(b, c, but) || StaysOpen(b, c, 0)) && a.Inv()
    ensures StaysOpen(a, c, but)
  {
  }

  lemma StaysOpenAll(a: World, b: World, c: nat)
    requires StaysOpen(a, b, c) && (c < |a.players| ==> !a.players[c].autoIgnore)
    ensures StaysOpen(a, b, 0)
  {
  }

  lemma StaysOpenSame(a: World, b: World, but: nat)
    requires |b.players| == |a.players| && b.cuts == a.cuts
    requires forall d :: 0 <= d < |a.players| && d != but ==> b.players[d] == a.players[d]
    ensures StaysOpen(a, b, but)
  {
  }

  /** Somebody asks for a menu to be closed. */
  lemma CutStep(w: World)
    requires w.Inv()
    ensures w.(cuts := w.cuts + 1).Inv() && w.Keeps(w.(cuts := w.cuts + 1))
  {
    hide World.KeepsMenus, World.KeepsVotes, World.Sessions, World.VoteCounts, World.Watching, World.Tally,
         World.Ballots;
    var r := w.(cuts := w.cuts + 1);
    KeepsReflexive(w);
    CutKeepsMenus(w, r);
    CutKeepsVotes(w, r);
    CutInv(w, r);
  }

  lemma CutInv(w: World, r: World)
    requires w.Inv() && r == w.(cuts := r.cuts)
    ensures r.Inv()
  {
    assert forall d: nat :: r.Open(d) <==> w.Open(d);
    assert forall s: nat :: r.Live(s) <==> w.Live(s);
    assert r.Sessions();
    assert r.Ballots() && r.Tally();
  }

  lemma CutKeepsMenus(w: World, r: World)
    requires w.KeepsMenus(w) && r == w.(cuts := r.cuts)
    ensures w.KeepsMenus(r)
  {
    assert forall d: nat :: r.Open(d) <==> w.Open(d);
  }

  lemma CutKeepsVotes(w: World, r: World)
    requires w.KeepsVotes(w) && r == w.(cuts := r.cuts)
    ensures w.KeepsVotes(r)
  {
  }

  lemma KeepsReflexive(w: World)
    requires w.Inv()
    ensures w.Keeps(w)
  {
  }

  lemma KeepsTransitive(a: World, b: World, c: World)
    requires a.Keeps(b) && b.Keeps(c) && a.Inv() && b.Inv() && c.Inv()
    ensures a.Keeps(c)
  {
    hide World.Inv;
    if a.voteLive * a.flying != {} {
      var s :| s in a.voteLive * a.flying;
      assert s in b.voteLive * b.flying;
    }
  }

  /** Between two moments nothing happened. */
  lemma NothingHappened(w: World)
    requires w.Inv()
    ensures w.Keeps(w) && StaysOpen(w, w, 0)
  {
    KeepsReflexive(w);
  }

  lemma BothHappened(a: World, b: World, c: World)
    requires a.Inv() && b.Inv() && c.Inv() && a.Keeps(b) && b.Keeps(c) && StaysOpen(a, b, 0) && StaysOpen(b, c, 0)
    ensures a.Keeps(c) && StaysOpen(a, c, 0)
  {
    KeepsTransitive(a, b, c);
  }

  lemma CutHappened(a: World, b: World, c: World)
    requires a.Inv() && b == a.(cuts := a.cuts + 1) && b.Inv() && c.Inv() && b.Keeps(c) && b.cuts <= c.cuts
    ensures a.Keeps(c) && StaysOpen(a, c, 0)
  {
    CutStep(a);
    KeepsTransitive(a, b, c);
  }

  lemma StartStep(w: World, h: Handler)
    requires w.Inv() && (h.Vote? ==> w.vote.menu.Some?)
    ensures var r := w.Start(h); r.Inv() && w.next in r.flying && (h.Vote? <==> w.next in r.voteLive)
    ensures w.next !in w.flying && w.next !in w.voteLive && w.next !in w.answered
  {
    hide World.Sessions, World.VoteCounts, World.Watching, World.Tally, World.Ballots;
    StartSessions(w, h);
    SameScreens(w, w.Start(h));
  }

  lemma StartSessions(w: World, h: Handler)
    requires w.Sessions() && w.VoteCounts() && (h.Vote? ==> w.vote.menu.Some?)
    ensures var r := w.Start(h);
            r.Sessions() && r.VoteCounts() && w.next in r.flying && (h.Vote? <==> w.next in r.voteLive)
    ensures w.next !in w.flying && w.next !in w.voteLive && w.next !in w.answered
  {
    assert !w.Live(w.next) && w.next !in w.ended;
  }

  /** What happens to sessions alone leaves clients, choices and ballots as they are. */
  lemma SameScreens(w: World, r: World)
    requires w.Watching() && w.Tally() && w.Ballots()
    requires r == w.(next := r.next, where := r.where, flying := r.flying, voteLive := r.voteLive,
                     answered := r.answered, ended := r.ended, vote := w.vote.(clients := r.vote.clients))
    ensures r.Watching() && r.Tally() && r.Ballots()
  {
    assert forall d: nat :: r.Open(d) <==> w.Open(d);
  }

  lemma EndStep(w: World, s: nat, h: Handler)
    requires w.Inv() && s in w.flying && (h.Vote? <==> s in w.voteLive) && s in w.answered
    ensures h.Vote? ==> w.vote.clients > 0 && w.vote.menu.Some?
    ensures w.End(s, h).Inv()
  {
    hide World.Sessions, World.VoteCounts, World.Watching, World.Tally, World.Ballots;
    EndVotes(w, s, h);
    EndSessions(w, s, h);
    SameScreens(w, w.End(s, h));
  }

  lemma EndAgainStep(w: World, s: nat)
    requires w.Inv() && s in w.ended && s !in w.again
    ensures w.EndAgain(s).Inv()
  {
    var r := w.EndAgain(s);
    assert forall d: nat :: r.Open(d) <==> w.Open(d);
    assert forall t: nat :: r.Live(t) <==> w.Live(t);
    assert r.Sessions() && r.Tally() && r.Ballots();
    NoDupConcat(w.again, [s]);
  }

  /** What a client has open has not been ended a first time, let alone a second. */
  lemma OpenNotAgain(w: World, c: nat)
    requires w.Inv() && w.Open(c)
    ensures |w.sess| == |w.players| && w.sess[c] !in w.again
  {
    EndedNotOpen(w, c);
  }

  lemma EndSessions(w: World, s: nat, h: Handler)
    requires w.Sessions() && s in w.flying && s in w.answered && (h.Vote? ==> w.vote.clients > 0)
    ensures w.End(s, h).Sessions()
  {
    assert w.Live(s) && s !in w.ended;
    assert NoDup(w.End(s, h).ended);
  }

  lemma EndVotes(w: World, s: nat, h: Handler)
    requires w.Sessions() && w.VoteCounts() && s in w.flying && (h.Vote? <==> s in w.voteLive)
    ensures h.Vote? ==> w.vote.clients > 0 && w.vote.menu.Some?
    ensures w.End(s, h).VoteCounts()
  {
    if h.Vote? {
      assert |w.voteLive| == |w.voteLive - {s}| + 1;
    } else {
      assert w.voteLive - {s} == w.voteLive;
    }
    SessionsOpen(w);
    assert forall d: nat :: w.End(s, h).Open(d) <==> w.Open(d);
  }

  lemma AnswerStep(w: World, s: nat)
    requires w.Inv() && s in w.flying && s !in w.answered
    ensures w.Answer(s).Inv()
  {
    hide World.Watching, World.Tally, World.Ballots;
    assert NoDup(w.Answer(s).answered);
    assert w.Answer(s).Sessions();
    SameScreens(w, w.Answer(s));
  }

  lemma CloseStep(w: World, c: nat)
    requires w.Inv() && c < |w.players| && w.players[c].inMenu
    ensures var r := w.Close(c);
            && r.Inv()
            && (w.players[c].menu.Some? ==>
                  && w.sess[c] in r.flying && w.sess[c] !in w.flying && w.sess[c] !in r.answered
                  && (w.sess[c] in w.voteLive <==> w.players[c].handler.Vote?))
  {
    hide World.Sessions, World.VoteCounts, World.Watching, World.Tally;
    SessionsOpen(w);
    CloseSessions(w, c);
    CloseVotes(w, c);
    CloseWatch(w, c);
    CloseTally(w, c);
  }

  lemma CloseFrame(w: World, c: nat)
    requires c < |w.players| == |w.sess|
    ensures var r := w.Close(c);
            && r.players == w.players[c := w.players[c].(inMenu := false)]
            && r.vote == w.vote && r.nextVote == w.nextVote && r.cuts == w.cuts && r.curtime == w.curtime
  {
  }

  lemma CloseSessions(w: World, c: nat)
    requires w.Sessions() && c < |w.players| == |w.sess| && w.players[c].inMenu
    ensures w.Close(c).Sessions()
    ensures w.players[c].menu.Some? ==>
              w.sess[c] in w.Close(c).flying && w.sess[c] !in w.flying && w.sess[c] !in w.answered
  {
    assert forall d: nat :: w.Close(c).Open(d) <==> w.Open(d) && d != c;
  }

  lemma CloseVotes(w: World, c: nat)
    requires w.Sessions() && w.VoteCounts() && c < |w.players| && w.players[c].inMenu
    ensures w.Close(c).VoteCounts()
    ensures w.players[c].menu.Some? ==> (w.sess[c] in w.voteLive <==> w.players[c].handler.Vote?)
  {
    assert forall d: nat :: w.Close(c).Open(d) <==> w.Open(d) && d != c;
    assert forall s :: w.Live(s) ==> w.Close(c).Live(s);
    assert w.players[c].menu.Some? ==> w.Open(c);
  }

  lemma CloseWatch(w: World, c: nat)
    requires w.Watching() && c < |w.players| == |w.sess| && w.players[c].inMenu
    ensures w.Close(c).Watching()
  {
    WithoutOrder(w.watch, c);
    OrderWithinNoDup(Without(w.watch, c), w.watch);
  }

  lemma CloseTally(w: World, c: nat)
    requires w.Tally() && c < |w.players| == |w.sess|
    ensures w.Close(c).Tally()
  {
    assert forall d: nat :: w.Close(c).Open(d) ==> w.Open(d) && w.Close(c).players[d] == w.players[d];
  }

  lemma ShowSessions(w: World, c: nat, hold: nat, s: nat)
    requires w.Sessions() && c < |w.players| && !w.players[c].inMenu
    requires w.players[c].menu.Some? ==> s in w.flying && s !in w.answered
    ensures w.Show(c, hold, s).Sessions()
  {
    var r := w.Show(c, hold, s);
    assert forall d: nat :: r.Open(d) <==> w.Open(d) || (d == c && w.players[c].menu.Some?);
  }

  lemma ShowStep(w: World, c: nat, hold: nat, s: nat)
    requires w.Inv() && 0 < c < |w.players| && !w.players[c].inMenu
    requires w.players[c].menu.Some? ==>
               && s in w.flying && s !in w.answered && (s in w.voteLive <==> w.players[c].handler.Vote?)
               && (w.players[c].handler.Vote? ==> w.players[c].menu == w.vote.menu)
               && (w.players[c].handler.Vote? && w.vote.menu.Some? ==> w.vote.clientVotes[c] < 0)
    ensures w.Show(c, hold, s).Inv()
  {
    hide World.Sessions, World.VoteCounts, World.Watching, World.Tally;
    InvSessions(w);
    SessionsOpen(w);
    ShowSessions(w, c, hold, s);
    ShowVotes(w, c, hold, s);
    ShowWatch(w, c, hold, s);
    ShowTally(w, c, hold, s);
  }

  lemma ShowVotes(w: World, c: nat, hold: nat, s: nat)
    requires w.Sessions() && w.VoteCounts() && c < |w.players| && !w.players[c].inMenu
    requires w.players[c].menu.Some? ==>
               && s in w.flying && (s in w.voteLive <==> w.players[c].handler.Vote?)
               && (w.players[c].handler.Vote? ==> w.players[c].menu == w.vote.menu)
    ensures w.Show(c, hold, s).VoteCounts()
  {
    SessionsOpen(w);
    hide World.Sessions;
    var r := w.Show(c, hold, s);
    assert forall d: nat :: r.Open(d) <==> w.Open(d) || (d == c && w.players[c].menu.Some?);
  }

  lemma ShowWatch(w: World, c: nat, hold: nat, s: nat)
    requires w.Watching() && 0 < c < |w.players| == |w.sess| && !w.players[c].inMenu
    ensures w.Show(c, hold, s).Watching()
  {
    assert c !in w.watch;
    NoDupConcat(w.watch, [c]);
  }

  lemma ShowTally(w: World, c: nat, hold: nat, s: nat)
    requires w.Tally() && c < |w.players| == |w.sess| && !w.players[c].inMenu
    requires w.players[c].menu.Some? && w.players[c].handler.Vote? && w.vote.menu.Some? ==> w.vote.clientVotes[c] < 0
    ensures w.Show(c, hold, s).Tally()
  {
    var r := w.Show(c, hold, s);
    assert forall d: nat :: r.Open(d) <==> w.Open(d) || (d == c && w.players[c].menu.Some?);
  }

  /** Fields of a client without an open menu may change freely. */
  lemma SetPlayerStep(w: World, c: nat, p: Player)
    requires w.Inv() && c < |w.players|
    requires if w.players[c].inMenu then p == w.players[c].(autoIgnore := p.autoIgnore) else !p.inMenu
    ensures w.SetPlayer(c, p).Inv()
  {
    var r := w.SetPlayer(c, p);
    assert forall d: nat :: r.Open(d) <==> w.Open(d);
    assert r.Sessions();
    assert r.Tally() && r.Watching() && r.Ballots();
  }

  lemma {:induction false} CountUpdate(votes: seq<int>, c: nat, v: int, item: int)
    requires c < |votes|
    ensures Count(votes[c := v], item)
            == Count(votes, item) + (if v == item then 1 else 0) - if votes[c] == item then 1 else 0
  {
    var n := |votes| - 1;
    if c == n {
      assert votes[c := v][..n] == votes[..n];
    } else {
      assert votes[c := v][..n] == votes[..n][c := v];
      CountUpdate(votes[..n], c, v, item);
    }
  }

  /** A step that touches nothing but the tally leaves the rest of the invariant alone. */
  lemma SameSessions(w: World, r: World)
    requires w.Sessions() && w.VoteCounts() && w.Watching() && w.Ballots()
    requires r == w.(vote := w.vote.(votes := r.vote.votes, clientVotes := r.vote.clientVotes))
    ensures r.Sessions() && r.VoteCounts() && r.Watching() && r.Ballots()
  {
    assert forall d: nat :: r.Open(d) <==> w.Open(d);
  }

  /** A step that touches nothing but the vote. */
  lemma VoteOnlyKeeps(w: World, r: World)
    requires w.Inv() && r == w.(vote := r.vote, nextVote := r.nextVote)
    ensures w.KeepsMenus(r)
  {
  }

  /** A client without a choice is marked pending, or out of the pool. */
  lemma PendStep(w: World, c: nat, v: int)
    requires w.Inv() && c < |w.players| && v < 0 && w.vote.clientVotes[c] < 0
    ensures w.SetVote(c, v).Inv() && w.Keeps(w.SetVote(c, v))
  {
    hide World.KeepsMenus;
    VoteOnlyKeeps(w, w.SetVote(c, v));
    forall i: nat ensures Count(w.vote.clientVotes[c := v], i) == Count(w.vote.clientVotes, i) {
      CountUpdate(w.vote.clientVotes, c, v, i);
    }
  }

  /** A client's choice is taken back: by a redraw, or by a disconnect. */
  function Unchosen(w: World, c: nat, v: int): World
    requires c < |w.vote.clientVotes| && 0 <= w.vote.clientVotes[c] < |w.vote.votes|
             && w.vote.votes[w.vote.clientVotes[c]] > 0
  {
    var i := w.vote.clientVotes[c];
    w.(vote := w.vote.(votes := w.vote.votes[i := w.vote.votes[i] - 1], clientVotes := w.vote.clientVotes[c := v]))
  }

  lemma UnchooseStep(w: World, c: nat, v: int)
    requires w.Inv() && c < |w.players| && w.vote.menu.Some? && w.vote.clientVotes[c] >= 0 && v < 0
    ensures var i := w.vote.clientVotes[c];
            i < w.vote.items <= |w.vote.votes| && w.vote.votes[i] > 0
    ensures Unchosen(w, c, v).Inv() && w.Keeps(Unchosen(w, c, v))
  {
    hide World.KeepsMenus, World.Sessions, World.VoteCounts, World.Watching, World.Ballots;
    CountPositive(w.vote.clientVotes, c);
    var r := Unchosen(w, c, v);
    VoteOnlyKeeps(w, r);
    SameSessions(w, r);
    forall i: nat
      ensures Count(w.vote.clientVotes[c := v], i)
              == Count(w.vote.clientVotes, i) - if w.vote.clientVotes[c] == i then 1 else 0
    {
      CountUpdate(w.vote.clientVotes, c, v, i);
    }
  }

  lemma {:induction false} CountPositive(votes: seq<int>, c: nat)
    requires c < |votes|
    ensures Count(votes, votes[c]) > 0
  {
    if c < |votes| - 1 {
      CountPositive(votes[..|votes| - 1], c);
    }
  }

  /** A ballot is cast. */
  function Chosen(w: World, c: nat, i: nat): World
    requires c < |w.vote.clientVotes| && i < |w.vote.votes|
  {
    w.(vote := w.vote.(votes := w.vote.votes[i := w.vote.votes[i] + 1], clientVotes := w.vote.clientVotes[c := i]))
  }

  lemma ChooseStep(w: World, c: nat, i: nat)
    requires w.Inv() && 0 < c < |w.players| && w.vote.menu.Some? && i < w.vote.items
    requires w.vote.clientVotes[c] < 0 && !(w.players[c].HasMenu() && w.players[c].handler.Vote?)
    ensures Chosen(w, c, i).Inv()
  {
    forall j: nat
      ensures Count(w.vote.clientVotes[c := i], j) == Count(w.vote.clientVotes, j) + if i == j then 1 else 0
    {
      CountUpdate(w.vote.clientVotes, c, i, j);
    }
  }

  function NobodyAsked(n: nat): seq<int> { seq(n, _ => VOTE_NOT_VOTING) }

  /** A vote is accepted: nobody is in the pool and every total is zero. */
  function Accepted(w: World, menu: nat, items: nat, votes: seq<nat>): World {
    w.(nextVote := w.nextVote + 1,
       vote := VoteState(0, false, false, Some(menu), items, votes, NobodyAsked(|w.vote.clientVotes|)))
  }

  lemma {:induction false} CountNone(n: nat, item: int)
    requires item >= 0
    ensures Count(NobodyAsked(n), item) == 0
  {
    if n > 0 {
      assert NobodyAsked(n)[..n - 1] == NobodyAsked(n - 1);
      CountNone(n - 1, item);
    }
  }

  lemma AcceptStep(w: World, menu: nat, items: nat, votes: seq<nat>)
    requires w.Inv() && w.vote.menu.None? && items <= |votes| && forall i :: 0 <= i < items ==> votes[i] == 0
    ensures Accepted(w, menu, items, votes).Inv() && w.Keeps(Accepted(w, menu, items, votes))
  {
    hide World.KeepsMenus;
    var r := Accepted(w, menu, items, votes);
    VoteOnlyKeeps(w, r);
    forall i: nat ensures Count(r.vote.clientVotes, i) == 0 {
      CountNone(|w.vote.clientVotes|, i);
    }
    assert w.voteLive == {};
    assert forall v: nat :: v < w.nextVote ==> v in w.decided;
  }

  /** The vote is decided and the handler reset. */
  function Decided(w: World): World
    requires w.nextVote > 0
  {
    w.(decided := w.decided + [w.nextVote - 1],
       vote := w.vote.(clients := 0, started := false, cancelled := false, menu := None, items := 0))
  }

  lemma DecideStep(w: World)
    requires w.Inv() && w.vote.menu.Some? && w.vote.clients == 0
    ensures Decided(w).Inv() && w.nextVote - 1 !in w.decided && w.nextVote - 1 in Decided(w).decided
    ensures w.voteLive == {} && w.nextVote - 1 !in w.closed
  {
    assert w.voteLive == {};
    assert w.nextVote - 1 !in w.decided;
    assert NoDup(Decided(w).decided);
  }

  function VoteClosed(w: World, v: nat): World { w.(closed := w.closed + [v]) }

  lemma CloseVoteStep(w: World, v: nat)
    requires w.Inv() && v in w.decided && v !in w.closed
    ensures VoteClosed(w, v).Inv()
  {
    assert NoDup(VoteClosed(w, v).closed);
  }

  lemma FlagsStep(w: World, started: bool, cancelled: bool)
    requires w.Inv() && w.vote.menu.Some?
    ensures w.(vote := w.vote.(started := started, cancelled := cancelled)).Inv()
  {
  }

  lemma CancellingStep(w: World, menus: set<nat>)
    requires w.Inv()
    ensures w.(cancelling := menus).Inv()
  {
  }

  lemma FlyingStays(w: World, r: World, s: nat)
    requires w.Keeps(r) && s in w.flying
    ensures s in r.flying && (s in r.voteLive <==> s in w.voteLive) && (s in r.answered <==> s in w.answered)
  {
  }

  /** A live vote session means a vote is on: the handler the vote forwards to is set. */
  lemma HasHandler(w: World, s: nat)
    requires w.Inv()
    ensures s in w.voteLive ==> w.vote.menu.Some?
  {
    if s in w.voteLive {
      assert w.voteLive != {};
    }
  }

  /** Part way through a call that began at `w0`: it has the sessions `mine` in flight, and may have
      told client `c` to ignore displays. */
  ghost predicate Within(w0: World, w: World, mine: set<nat>, c: nat) {
    && w0.Inv() && w.Inv() && c < |w0.players| == |w.players|
    && w.flying == w0.flying + mine && w0.flying !! mine
    && (w0.players[c].autoIgnore ==> w.players[c].autoIgnore)
    && w0.Keeps(Masked(w0, w, c))
  }

  ghost function Masked(w0: World, w: World, c: nat): World
    requires c < |w0.players| && c < |w.players|
  {
    w.(flying := w0.flying, players := w.players[c := w.players[c].(autoIgnore := w0.players[c].autoIgnore)])
  }

  lemma WithinStart(w: World, c: nat)
    requires w.Inv() && c < |w.players|
    ensures Within(w, w, {}, c)
  {
    assert w.players[c := w.players[c]] == w.players;
    assert Masked(w, w, c) == w;
  }

  lemma WithinThen(w0: World, w1: World, w2: World, mine: set<nat>, c: nat)
    requires Within(w0, w1, mine, c) && w1.Keeps(w2) && w2.Inv()
    ensures Within(w0, w2, mine, c)
  {
    hide World.Inv;
    IgnoredStaysShut(w1, w2, c);
    KeepsFrame(w1, w2);
    ThenKeeps(w0, w1, w2, c);
  }

  lemma KeepsFrame(a: World, b: World)
    requires a.Keeps(b)
    ensures |b.players| == |a.players| && b.flying == a.flying && b.cancelling == a.cancelling
    ensures b.next >= a.next && b.curtime == a.curtime && b.again == a.again
  {
  }

  lemma ThenKeeps(w0: World, w1: World, w2: World, c: nat)
    requires c < |w0.players| == |w1.players| == |w2.players| && w0.Keeps(Masked(w0, w1, c)) && w1.Keeps(w2)
    requires w0.flying <= w1.flying && (w0.players[c].autoIgnore ==> w1.players[c].autoIgnore)
    ensures w0.Keeps(Masked(w0, w2, c))
  {
    hide World.KeepsMenus, World.KeepsVotes;
    ThenKeepsMenus(w0, w1, w2, c);
    ThenKeepsVotes(w0, w1, w2, c);
  }

  lemma ThenKeepsMenus(w0: World, w1: World, w2: World, c: nat)
    requires c < |w0.players| == |w1.players| == |w2.players| && w0.KeepsMenus(Masked(w0, w1, c)) && w1.KeepsMenus(w2)
    requires w0.flying <= w1.flying && (w0.players[c].autoIgnore ==> w1.players[c].autoIgnore)
    ensures w0.KeepsMenus(Masked(w0, w2, c))
  {
  }

  lemma ThenKeepsVotes(w0: World, w1: World, w2: World, c: nat)
    requires c < |w0.players| == |w1.players| == |w2.players| && w0.KeepsVotes(Masked(w0, w1, c)) && w1.KeepsVotes(w2)
    requires w0.flying <= w1.flying && w0.KeepsMenus(Masked(w0, w1, c))
    ensures w0.KeepsVotes(Masked(w0, w2, c))
  {
    if w0.voteLive * w0.flying != {} {
      var s :| s in w0.voteLive * w0.flying;
      assert s in w1.voteLive * w1.flying;
    }
  }

  lemma WithinDone(w0: World, w: World, c: nat)
    requires Within(w0, w, {}, c) && w.players[c].autoIgnore == w0.players[c].autoIgnore
    ensures w0.Keeps(w)
  {
    assert w.players[c := w.players[c]] == w.players;
    assert Masked(w0, w, c) == w;
  }

  lemma WithinStarts(w0: World, w: World, mine: set<nat>, c: nat, h: Handler)
    requires Within(w0, w, mine, c) && (h.Vote? ==> w.vote.menu.Some?)
    ensures Within(w0, w.Start(h), mine + {w.next}, c) && w.next !in mine
    ensures w.next in w.Start(h).flying && (w.next in w.Start(h).voteLive <==> h.Vote?) && w.next !in w.answered
  {
    hide World.Inv, World.Keeps;
    StartStep(w, h);
    StartKeeps(w0, w, c, h);
    assert w0.flying + (mine + {w.next}) == w0.flying + mine + {w.next};
  }

  lemma WithinStarted(w0: World, w: World, c: nat, h: Handler)
    requires w0.Inv() && c < |w0.players| && (h.Vote? ==> w0.vote.menu.Some?) && w0.Start(h).Keeps(w) && w.Inv()
    ensures Within(w0, w, {w0.next}, c)
  {
    hide World.Inv, World.Keeps, Within;
    WithinStart(w0, c);
    WithinStarts(w0, w0, {}, c, h);
    assert {} + {w0.next} == {w0.next};
    WithinThen(w0, w0.Start(h), w, {w0.next}, c);
  }

  lemma StartHappened(w0: World, w: World, c: nat, h: Handler)
    requires w0.Inv() && c < |w0.players| && (h.Vote? ==> w0.vote.menu.Some?) && w0.Start(h).Keeps(w) && w.Inv()
    requires StaysOpen(w0.Start(h), w, 0)
    ensures Within(w0, w, {w0.next}, c) && StaysOpen(w0, w, 0)
  {
    WithinStarted(w0, w, c, h);
  }

  lemma StartKeeps(w0: World, w: World, c: nat, h: Handler)
    requires c < |w0.players| == |w.players| && w0.Keeps(Masked(w0, w, c)) && w.next !in w0.flying
    ensures w0.Keeps(Masked(w0, w.Start(h), c))
  {
    assert w0.voteLive * w0.flying == {} || exists s :: s in w0.voteLive * w0.flying;
  }

  lemma WithinEnds(w0: World, w: World, mine: set<nat>, c: nat, s: nat, h: Handler)
    requires Within(w0, w, mine, c) && s in mine && (h.Vote? <==> s in w.voteLive) && s in w.answered
    ensures h.Vote? ==> w.vote.clients > 0 && w.vote.menu.Some?
    ensures Within(w0, w.End(s, h), mine - {s}, c)
  {
    hide World.Inv, World.Keeps;
    EndStep(w, s, h);
    EndKeeps(w0, w, c, s, h);
    assert w0.flying + mine - {s} == w0.flying + (mine - {s});
  }

  lemma WithinAnswers(w0: World, w: World, mine: set<nat>, c: nat, s: nat)
    requires Within(w0, w, mine, c) && s in mine && s !in w.answered
    ensures Within(w0, w.Answer(s), mine, c)
  {
    hide World.Inv, World.Keeps;
    AnswerStep(w, s);
    AnswerKeeps(w0, w, c, s);
  }

  lemma AnswerKeeps(w0: World, w: World, c: nat, s: nat)
    requires c < |w0.players| == |w.players| && w0.Keeps(Masked(w0, w, c)) && s !in w0.flying
    ensures w0.Keeps(Masked(w0, w.Answer(s), c))
  {
  }

  lemma EndKeeps(w0: World, w: World, c: nat, s: nat, h: Handler)
    requires c < |w0.players| == |w.players| && w0.Keeps(Masked(w0, w, c)) && s !in w0.flying
    requires h.Vote? ==> w.vote.clients > 0
    ensures w0.Keeps(Masked(w0, w.End(s, h), c))
  {
  }

  lemma WithinCloses(w0: World, w: World, mine: set<nat>, c: nat)
    requires Within(w0, w, mine, c) && w.players[c].inMenu
    ensures |w.sess| == |w.players|
    ensures w.players[c].menu.Some? ==>
              && Within(w0, w.Close(c), mine + {w.sess[c]}, c) && w.sess[c] !in mine
              && w.sess[c] in w.Close(c).flying && (w.sess[c] in w.Close(c).voteLive <==> w.players[c].handler.Vote?)
              && w.sess[c] !in w.answered
    ensures w.players[c].menu.None? ==> Within(w0, w.Close(c), mine, c)
  {
    hide World.Inv, World.Keeps;
    CloseStep(w, c);
    InvSessions(w);
    CloseKeeps(w0, w, c);
    assert w.players[c].menu.Some? ==> w.Open(c) && w.sess[c] in w.where && w.sess[c] !in w.flying;
  }

  lemma CloseKeeps(w0: World, w: World, c: nat)
    requires c < |w0.players| == |w.players| == |w.sess| && w0.Keeps(Masked(w0, w, c))
    ensures w0.Keeps(Masked(w0, w.Close(c), c))
  {
    hide World.KeepsSessions, World.KeepsClients, World.KeepsOpen, World.KeepsVotes;
    CloseKeepsSessions(w0, w, c);
    CloseKeepsClients(w0, w, c);
    CloseKeepsOpen(w0, w, c);
    CloseKeepsVotes(w0, w, c);
  }

  lemma CloseKeepsSessions(w0: World, w: World, c: nat)
    requires c < |w0.players| == |w.players| == |w.sess| && w0.Keeps(Masked(w0, w, c))
    ensures w0.KeepsSessions(Masked(w0, w.Close(c), c))
  {
    hide World.KeepsClients, World.KeepsOpen, World.KeepsVotes;
  }

  lemma CloseKeepsClients(w0: World, w: World, c: nat)
    requires c < |w0.players| == |w.players| == |w.sess| && w0.Keeps(Masked(w0, w, c))
    ensures w0.KeepsClients(Masked(w0, w.Close(c), c))
  {
    hide World.KeepsSessions, World.KeepsOpen, World.KeepsVotes;
  }

  lemma CloseKeepsOpen(w0: World, w: World, c: nat)
    requires c < |w0.players| == |w.players| == |w.sess| && w0.Keeps(Masked(w0, w, c))
    ensures w0.KeepsOpen(Masked(w0, w.Close(c), c))
  {
    hide World.KeepsSessions, World.KeepsClients, World.KeepsVotes;
  }

  lemma CloseKeepsVotes(w0: World, w: World, c: nat)
    requires c < |w0.players| == |w.players| == |w.sess| && w0.Keeps(Masked(w0, w, c))
    ensures w0.KeepsVotes(Masked(w0, w.Close(c), c))
  {
    hide World.KeepsSessions, World.KeepsClients, World.KeepsOpen;
  }

  lemma WithinShows(w0: World, w: World, mine: set<nat>, c: nat, hold: nat, s: nat)
    requires Within(w0, w, mine, c) && c > 0 && !w.players[c].inMenu && !w0.players[c].autoIgnore
    requires w.players[c].menu.Some? ==>
               && w.players[c].menu.value !in w.cancelling && s >= w0.next
               && (w.players[c].handler.Vote? ==> w.players[c].menu == w.vote.menu)
               && s in mine && s !in w.answered && (s in w.voteLive <==> w.players[c].handler.Vote?)
               && (w.players[c].handler.Vote? && w.vote.menu.Some? ==> w.vote.clientVotes[c] < 0)
    ensures |w.sess| == |w.players|
    ensures Within(w0, w.Show(c, hold, s), if w.players[c].menu.Some? then mine - {s} else mine, c)
  {
    hide World.Inv, World.Keeps;
    ShowStep(w, c, hold, s);
    InvSessions(w);
    ShowKeeps(w0, w, c, hold, s);
    var r := w.Show(c, hold, s);
    if w.players[c].menu.Some? {
      assert w0.flying + mine - {s} == w0.flying + (mine - {s});
      assert r.flying == w.flying - {s};
    }
  }

  lemma SessionsOpen(w: World)
    requires w.Sessions()
    ensures |w.sess| == |w.players| && forall s :: s in w.flying ==> w.Live(s)
    ensures forall d: nat :: w.Open(d) ==> w.sess[d] !in w.flying && w.sess[d] in w.where
  {
  }

  lemma InvSessions(w: World)
    requires w.Inv()
    ensures |w.sess| == |w.players| && w.Sessions()
  {
  }

  lemma ShowKeeps(w0: World, w: World, c: nat, hold: nat, s: nat)
    requires c < |w0.players| == |w.players| == |w.sess| && w0.Keeps(Masked(w0, w, c)) && !w0.players[c].autoIgnore
    requires w.players[c].menu.Some? ==> w.players[c].menu.value !in w.cancelling && s >= w0.next
    ensures w0.Keeps(Masked(w0, w.Show(c, hold, s), c))
  {
    hide World.KeepsSessions, World.KeepsClients, World.KeepsOpen, World.KeepsVotes;
    ShowKeepsSessions(w0, w, c, hold, s);
    ShowKeepsClients(w0, w, c, hold, s);
    ShowKeepsOpen(w0, w, c, hold, s);
    ShowKeepsVotes(w0, w, c, hold, s);
  }

  lemma ShowKeepsSessions(w0: World, w: World, c: nat, hold: nat, s: nat)
    requires c < |w0.players| == |w.players| == |w.sess| && w0.Keeps(Masked(w0, w, c)) && !w0.players[c].autoIgnore
    requires w.players[c].menu.Some? ==> w.players[c].menu.value !in w.cancelling && s >= w0.next
    ensures w0.KeepsSessions(Masked(w0, w.Show(c, hold, s), c))
  {
    hide World.KeepsClients, World.KeepsOpen, World.KeepsVotes;
  }

  lemma ShowKeepsClients(w0: World, w: World, c: nat, hold: nat, s: nat)
    requires c < |w0.players| == |w.players| == |w.sess| && w0.Keeps(Masked(w0, w, c)) && !w0.players[c].autoIgnore
    requires w.players[c].menu.Some? ==> w.players[c].menu.value !in w.cancelling && s >= w0.next
    ensures w0.KeepsClients(Masked(w0, w.Show(c, hold, s), c))
  {
    hide World.KeepsOpen, World.KeepsVotes;
  }

  lemma ShowKeepsOpen(w0: World, w: World, c: nat, hold: nat, s: nat)
    requires c < |w0.players| == |w.players| == |w.sess| && w0.Keeps(Masked(w0, w, c)) && !w0.players[c].autoIgnore
    requires w.players[c].menu.Some? ==> w.players[c].menu.value !in w.cancelling && s >= w0.next
    ensures w0.KeepsOpen(Masked(w0, w.Show(c, hold, s), c))
  {
    hide World.KeepsClients, World.KeepsVotes;
  }

  lemma ShowKeepsVotes(w0: World, w: World, c: nat, hold: nat, s: nat)
    requires c < |w0.players| == |w.players| == |w.sess| && w0.Keeps(Masked(w0, w, c)) && !w0.players[c].autoIgnore
    requires w.players[c].menu.Some? ==> w.players[c].menu.value !in w.cancelling && s >= w0.next
    ensures w0.KeepsVotes(Masked(w0, w.Show(c, hold, s), c))
  {
    hide World.KeepsSessions, World.KeepsClients, World.KeepsOpen;
  }

  /** Writing the client's own record: bAutoIgnore at any time, the rest while no display is ignored for the caller. */
  lemma WithinSets(w0: World, w: World, mine: set<nat>, c: nat, p: Player)
    requires Within(w0, w, mine, c)
    requires if w.players[c].inMenu then p == w.players[c].(autoIgnore := p.autoIgnore) else !p.inMenu
    requires w0.players[c].autoIgnore ==>
               p.autoIgnore && p.menu == w.players[c].menu && p.handler == w.players[c].handler
    ensures Within(w0, w.SetPlayer(c, p), mine, c)
  {
    hide World.Inv, World.Keeps;
    SetPlayerStep(w, c, p);
    SetKeeps(w0, w, c, p);
  }

  lemma SetKeeps(w0: World, w: World, c: nat, p: Player)
    requires c < |w0.players| == |w.players| && w0.Keeps(Masked(w0, w, c))
    requires if w.players[c].inMenu then p == w.players[c].(autoIgnore := p.autoIgnore) else !p.inMenu
    requires w0.players[c].autoIgnore ==>
               p.autoIgnore && p.menu == w.players[c].menu && p.handler == w.players[c].handler
    ensures w0.Keeps(Masked(w0, w.SetPlayer(c, p), c))
  {
    hide World.KeepsSessions, World.KeepsClients, World.KeepsOpen, World.KeepsVotes;
    SetKeepsSessions(w0, w, c, p);
    SetKeepsClients(w0, w, c, p);
    SetKeepsOpen(w0, w, c, p);
    SetKeepsVotes(w0, w, c, p);
  }

  lemma SetKeepsSessions(w0: World, w: World, c: nat, p: Player)
    requires c < |w0.players| == |w.players| && w0.Keeps(Masked(w0, w, c))
    requires if w.players[c].inMenu then p == w.players[c].(autoIgnore := p.autoIgnore) else !p.inMenu
    requires w0.players[c].autoIgnore ==>
               p.autoIgnore && p.menu == w.players[c].menu && p.handler == w.players[c].handler
    ensures w0.KeepsSessions(Masked(w0, w.SetPlayer(c, p), c))
  {
    hide World.KeepsClients, World.KeepsOpen, World.KeepsVotes;
  }

  lemma SetKeepsClients(w0: World, w: World, c: nat, p: Player)
    requires c < |w0.players| == |w.players| && w0.Keeps(Masked(w0, w, c))
    requires if w.players[c].inMenu then p == w.players[c].(autoIgnore := p.autoIgnore) else !p.inMenu
    requires w0.players[c].autoIgnore ==>
               p.autoIgnore && p.menu == w.players[c].menu && p.handler == w.players[c].handler
    ensures w0.KeepsClients(Masked(w0, w.SetPlayer(c, p), c))
  {
    hide World.KeepsSessions, World.KeepsOpen, World.KeepsVotes;
  }

  lemma SetKeepsOpen(w0: World, w: World, c: nat, p: Player)
    requires c < |w0.players| == |w.players| && w0.Keeps(Masked(w0, w, c))
    requires if w.players[c].inMenu then p == w.players[c].(autoIgnore := p.autoIgnore) else !p.inMenu
    requires w0.players[c].autoIgnore ==>
               p.autoIgnore && p.menu == w.players[c].menu && p.handler == w.players[c].handler
    ensures w0.KeepsOpen(Masked(w0, w.SetPlayer(c, p), c))
  {
    hide World.KeepsSessions, World.KeepsClients, World.KeepsVotes;
  }

  lemma SetKeepsVotes(w0: World, w: World, c: nat, p: Player)
    requires c < |w0.players| == |w.players| && w0.Keeps(Masked(w0, w, c))
    requires if w.players[c].inMenu then p == w.players[c].(autoIgnore := p.autoIgnore) else !p.inMenu
    requires w0.players[c].autoIgnore ==>
               p.autoIgnore && p.menu == w.players[c].menu && p.handler == w.players[c].handler
    ensures w0.KeepsVotes(Masked(w0, w.SetPlayer(c, p), c))
  {
    hide World.KeepsSessions, World.KeepsClients, World.KeepsOpen;
  }

  /** From deciding a vote, through telling the plugin its outcome, to telling it the menu ended. */
  lemma VoteEnds(w: World, r: World)
    requires w.Inv() && r.Inv() && w.vote.menu.Some? && w.vote.clients == 0 && w.vote.started
    requires Decided(w).Inv() && Decided(w).Keeps(r) && StaysOpen(Decided(w), r, 0)
    ensures StaysOpen(w, VoteClosed(r, w.nextVote - 1), 0)
    ensures var v := w.nextVote - 1;
            v in r.decided && v !in r.closed && VoteClosed(r, v).Inv() && w.Keeps(VoteClosed(r, v))
  {
    hide World.Inv, World.Keeps;
    DecideStep(w);
    var v := w.nextVote - 1;
    EndedStays(Decided(w), r, v);
    VoteEndsKeeps(w, r);
    CloseVoteStep(r, v);
  }

  lemma VoteEndsKeeps(w: World, r: World)
    requires w.voteLive == {} && w.vote.started && w.nextVote > 0 && Decided(w).Keeps(r)
    requires w.nextVote - 1 !in w.closed && w.nextVote - 1 !in w.decided
    ensures w.Keeps(VoteClosed(r, w.nextVote - 1)) && w.nextVote - 1 !in r.closed
  {
  }

  lemma WithinValid(w0: World, w: World, mine: set<nat>, c: nat)
    requires Within(w0, w, mine, c)
    ensures w.Inv() && c < |w.players| == |w0.players| && |w.vote.clientVotes| == |w0.vote.clientVotes|
  {
  }

  /** A client told to ignore displays keeps its record, and no menu opens for it. */
  lemma IgnoredStaysShut(a: World, b: World, c: nat)
    requires a.Keeps(b) && c < |a.players|
    ensures c < |b.players| && b.players[c].autoIgnore == a.players[c].autoIgnore
    ensures a.players[c].autoIgnore ==>
              && b.players[c].menu == a.players[c].menu && b.players[c].handler == a.players[c].handler
              && (b.players[c].inMenu ==> a.players[c].inMenu && c < |a.sess| && c < |b.sess| && b.sess[c] == a.sess[c])
    ensures b.players[c].Expired(b.curtime) ==> a.players[c].Expired(a.curtime)
  {
  }

  lemma EndedStays(a: World, b: World, s: nat)
    requires a.Keeps(b)
    ensures (s in a.ended ==> s in b.ended) && (s in a.closed ==> s in b.closed) && (s in a.decided ==> s in b.decided)
  {
  }

  /** Nobody's choice changes except to be dropped. */
  lemma ChoicesOnlyDrop(a: World, b: World, c: nat)
    requires a.Keeps(b) && c < |a.vote.clientVotes|
    ensures |b.vote.clientVotes| == |a.vote.clientVotes| && (a.vote.clientVotes[c] < 0 ==> b.vote.clientVotes[c] < 0)
  {
  }

  lemma EndedNotOpen(w: World, c: nat)
    requires w.Inv() && w.Open(c)
    ensures |w.sess| == |w.players| && w.sess[c] !in w.ended
  {
    assert w.Live(w.sess[c]);
  }

  /** While a menu is being cancelled it opens for nobody. */
  lemma CancelledOpensNowhere(a: World, b: World, menu: nat, c: nat)
    requires a.Keeps(b) && menu in a.cancelling && b.Open(c) && b.players[c].menu == Some(menu)
    ensures a.Open(c) && a.players[c].menu == Some(menu) && c < |a.sess| && c < |b.sess| && b.sess[c] == a.sess[c]
    ensures menu in b.cancelling
  {
  }

  lemma CancellingDone(a: World, menu: nat, b: World)
    requires a.(cancelling := a.cancelling + {menu}).Keeps(b)
    ensures a.Keeps(b.(cancelling := a.cancelling))
  {
  }

  /** The hold time is nobody's business. */
  lemma HoldStep(w: World, c: nat, hold: nat)
    requires w.Inv() && c < |w.players| && !w.players[c].inMenu
    ensures var r := w.SetPlayer(c, w.players[c].(holdTime := hold)); r.Inv() && w.Keeps(r)
  {
    hide World.Inv, World.Keeps;
    SetPlayerStep(w, c, w.players[c].(holdTime := hold));
    HoldKeeps(w, c, hold);
  }

  lemma HoldKeeps(w: World, c: nat, hold: nat)
    requires w.Inv() && c < |w.players| && !w.players[c].inMenu
    ensures w.Keeps(w.SetPlayer(c, w.players[c].(holdTime := hold)))
  {
  }

  /** Before StartVote accepts nothing is voted on, so what follows may set the flags as it likes. */
  lemma StartedKeeps(w: World, r: World, started: bool)
    requires w.Inv() && w.vote.menu.None? && w.Keeps(r)
    ensures w.Keeps(r.(vote := r.vote.(started := started)))
  {
    assert w.voteLive == {};
  }

  lemma CancelledKeeps(w: World)
    requires w.Inv() && w.vote.menu.Some?
    ensures var r := w.(vote := w.vote.(cancelled := true)); r.Inv() && w.Keeps(r)
  {
    hide World.KeepsMenus;
    VoteOnlyKeeps(w, w.(vote := w.vote.(cancelled := true)));
  }

  /** A vote that has not started is still the current one after any callback. */
  lemma PendingVoteStays(a: World, b: World)
    requires a.Keeps(b) && a.vote.menu.Some? && !a.vote.started
    ensures b.vote.menu == a.vote.menu && !b.vote.started && b.nextVote == a.nextVote
  {
  }

  /** So is one with a session further down the call stack. */
  lemma FlyingVoteStays(a: World, b: World, s: nat)
    requires a.Keeps(b) && s in a.voteLive && s in a.flying
    ensures b.vote.menu == a.vote.menu && b.nextVote == a.nextVote
  {
    assert s in a.voteLive * a.flying;
  }

  lemma VoteStays(a: World, b: World, s: nat, h: Handler)
    requires a.Keeps(b) && s in a.flying && (h.Vote? <==> s in a.voteLive)
    ensures h.Vote? ==> b.vote.menu == a.vote.menu && b.nextVote == a.nextVote
    ensures s in b.flying && (h.Vote? <==> s in b.voteLive) && (s in b.answered <==> s in a.answered)
  {
    if h.Vote? {
      FlyingVoteStays(a, b, s);
    }
  }

  ghost predicate Has(w: World, c: nat, menu: nat) { w.Open(c) && w.players[c].menu == Some(menu) }

  ghost predicate NobodyHas(w: World, menu: nat) { forall c: nat :: !Has(w, c, menu) }

  ghost predicate NobodyHasBelow(w: World, menu: nat, n: nat) {
    menu in w.cancelling && forall c: nat :: c < n ==> !Has(w, c, menu)
  }

  lemma NobodyAtZero(w: World, menu: nat)
    requires w.Inv() && menu in w.cancelling
    ensures NobodyHasBelow(w, menu, 1)
  {
  }

  lemma NobodyAlready(w: World, menu: nat, n: nat)
    requires NobodyHasBelow(w, menu, n) && !Has(w, n, menu)
    ensures NobodyHasBelow(w, menu, n + 1)
  {
  }

  lemma NobodyAtAll(w: World, menu: nat)
    requires NobodyHasBelow(w, menu, |w.players|)
    ensures NobodyHas(w, menu)
  {
  }

  lemma NobodyAfterCancel(a: World, b: World, menu: nat, n: nat)
    requires NobodyHasBelow(a, menu, n) && a.Keeps(b) && b.Inv()
    requires n < |a.players| && a.players[n].HasMenu() && n < |a.sess| && a.sess[n] in b.ended
    ensures NobodyHasBelow(b, menu, n + 1)
  {
    hide World.Inv, World.Keeps;
    forall c: nat | c < n + 1 ensures !Has(b, c, menu) {
      assert c < n ==> !Has(a, c, menu);
      if Has(b, c, menu) {
        CancelledOpensNowhere(a, b, menu, c);
        EndedNotOpen(b, c);
      }
    }
    KeepsFrame(a, b);
  }

  lemma NobodyStill(w: World, menu: nat, menus: set<nat>)
    requires NobodyHas(w, menu)
    ensures NobodyHas(w.(cancelling := menus), menu)
  {
    forall c: nat ensures !Has(w.(cancelling := menus), c, menu) {
      assert !Has(w, c, menu);
    }
  }

  lemma VotesGrow(a: World, b: World)
    requires a.Keeps(b)
    ensures a.nextVote <= b.nextVote
  {
  }

  /** Session `s` is the one the client has open, or over. */
  ghost predicate HeldOrEnded(w: World, client: int, s: nat) {
    s in w.ended || (client >= 0 && w.Holds(client, s))
  }

  /** A session that has been shown to a client stays with it until it is over. */
  ghost predicate SessionsStay(a: World, b: World) {
    a.next <= b.next && forall client: int, s: nat :: HeldOrEnded(a, client, s) ==> HeldOrEnded(b, client, s)
  }

  lemma KeptSessionsStay(a: World, b: World)
    requires a.Inv() && b.Inv() && a.Keeps(b)
    ensures SessionsStay(a, b)
  {
    forall client: int, s: nat | HeldOrEnded(a, client, s) ensures HeldOrEnded(b, client, s) {
      if s !in a.ended && s !in b.ended {
        HeldStays(a, b, client, s);
      }
    }
  }

  lemma HeldStays(a: World, b: World, c: nat, s: nat)
    requires a.Inv() && b.Inv() && a.Keeps(b) && a.Holds(c, s) && s !in b.ended
    ensures b.Holds(c, s)
  {
    hide World.KeepsClients, World.KeepsVotes, World.Watching, World.Tally, World.Ballots, World.VoteCounts;
    assert s in a.where && s !in a.flying && s < b.next;
    assert b.Live(s) && s in b.where;
    var d := b.where[s];
    assert b.Holds(d, s);
    assert a.Holds(d, s);
  }

  lemma SessionsStaySame(a: World, b: World)
    requires b == a.(vote := b.vote)
    ensures SessionsStay(a, b)
  {
    assert forall d: nat :: b.Open(d) <==> a.Open(d);
  }

  lemma SessionsStayThen(a: World, b: World, c: World)
    requires SessionsStay(a, b) && SessionsStay(b, c)
    ensures SessionsStay(a, c)
  {
  }

  /** Each client named that can be one has been given a session, one after another. */
  ghost predicate Given(w: World, from: nat, clients: seq<int>, given: seq<Option<nat>>) {
    && |given| == |clients|
    && (forall i :: 0 <= i < |clients| ==> (given[i].Some? <==> 1 <= clients[i] <= 256))
    && (forall i :: 0 <= i < |clients| && given[i].Some? ==>
          from <= given[i].value < w.next && HeldOrEnded(w, clients[i], given[i].value))
    && (forall i, j :: 0 <= i < j < |clients| && given[i].Some? && given[j].Some? ==> given[i].value < given[j].value)
  }

  lemma GivenStays(a: World, b: World, from: nat, clients: seq<int>, given: seq<Option<nat>>)
    requires Given(a, from, clients, given) && SessionsStay(a, b)
    ensures Given(b, from, clients, given)
  {
    hide HeldOrEnded;
  }

  lemma GivenFrom(w: World, from: nat, less: nat, clients: seq<int>, given: seq<Option<nat>>)
    requires Given(w, from, clients, given) && less <= from
    ensures Given(w, less, clients, given)
  {
    hide HeldOrEnded;
  }

  lemma NoneGiven(w: World, from: nat)
    ensures Given(w, from, [], [])
  {
  }

  lemma GivenMore(w: World, from: nat, clients: seq<int>, given: seq<Option<nat>>, client: int, s: Option<nat>,
                  before: nat)
    requires Given(w, from, clients, given) && (s.Some? <==> 1 <= client <= 256)
    requires forall i :: 0 <= i < |given| && given[i].Some? ==> given[i].value < before
    requires s.Some? ==> from <= before == s.value < w.next && HeldOrEnded(w, client, s.value)
    ensures Given(w, from, clients + [client], given + [s])
  {
    hide HeldOrEnded;
    var cs, gs, n := clients + [client], given + [s], |clients|;
    assert forall i :: 0 <= i < n ==> cs[i] == clients[i] && gs[i] == given[i];
    assert cs[n] == client && gs[n] == s;
  }

  lemma GivenBefore(w: World, from: nat, clients: seq<int>, given: seq<Option<nat>>)
    requires Given(w, from, clients, given)
    ensures forall i :: 0 <= i < |given| && given[i].Some? ==> given[i].value < w.next
  {
  }

  /** Of the clients in `done`, exactly those whose menu's time is up have lost it, and nobody else has. */
  ghost predicate OnlyLateClosed(a: World, b: World, done: seq<nat>) {
    && |b.players| == |a.players|
    && (forall c :: 0 <= c < |a.players| ==>
          b.players[c] == if c in done && a.players[c].Expired(a.curtime) then a.players[c].(inMenu := false)
                          else a.players[c])
  }

  lemma NoneLateClosed(w: World)
    ensures OnlyLateClosed(w, w, [])
  {
  }

  lemma OneLateClosed(a: World, b: World, r: World, all: seq<nat>, i: nat)
    requires i < |all| && OnlyLateClosed(a, b, all[..i]) && NoDup(all) && all[i] < |a.players|
    requires r.players == if b.players[all[i]].Expired(a.curtime)
                          then b.players[all[i] := b.players[all[i]].(inMenu := false)] else b.players
    ensures OnlyLateClosed(a, r, all[..i + 1])
  {
    assert all[..i + 1] == all[..i] + [all[i]];
    assert all[i] !in all[..i];
  }

  lemma AllLateClosed(a: World, b: World)
    requires a.Inv() && OnlyLateClosed(a, b, a.watch)
    ensures |b.players| == |a.players|
    ensures forall c :: 0 <= c < |a.players| ==>
              var p := a.players[c];
              b.players[c].inMenu <==> p.inMenu && !(p.holdTime != 0 && a.curtime > p.startTime + p.holdTime as real)
  {
  }

  lemma WatchedOnce(w: World)
    requires w.Inv()
    ensures NoDup(w.watch)
  {
  }

  lemma VoteHasNumber(w: World)
    requires w.Inv() && w.vote.menu.Some?
    ensures w.nextVote > 0
  {
  }

  lemma StartedHasMenu(w: World)
    requires w.Inv() && w.vote.started
    ensures w.vote.menu.Some?
  {
  }

  /** Between game events: displays are ignored for nobody, and every decided vote has been closed. */
  ghost predicate Calm(w: World) {
    && (forall c :: 0 <= c < |w.players| ==> !w.players[c].autoIgnore)
    && (forall v :: v in w.decided ==> v in w.closed)
  }

  lemma CalmStays(a: World, b: World)
    requires a.Keeps(b) && Calm(a)
    ensures Calm(b)
  {
  }

  lemma AgainIsCalm(w: World, s: nat)
    requires Calm(w)
    ensures Calm(w.EndAgain(s))
  {
  }

  lemma OnlyClientsWatched(w: World)
    requires w.Inv()
    ensures forall i :: 0 <= i < |w.watch| ==> 1 <= w.watch[i] < |w.players|
  {
    forall i | 0 <= i < |w.watch| ensures 1 <= w.watch[i] < |w.players| {
      assert w.watch[i] in w.watch;
    }
  }

  lemma NotWatched(w: World, c: nat)
    requires w.Inv() && c < |w.players| && !w.players[c].Watched()
    ensures c !in w.watch
  {
  }

  /** With nothing in flight, a session its client no longer has open is over. */
  lemma GoneMeansEnded(a: World, b: World, c: nat)
    requires a.Inv() && b.Inv() && a.Keeps(b) && a.flying == {} && a.Open(c)
    ensures |a.sess| == |a.players|
    ensures a.sess[c] in b.ended || b.Holds(c, a.sess[c])
  {
    var s := a.sess[c];
    assert a.Live(s) && s < a.next;
    if s !in b.ended {
      assert b.Live(s) && s in b.where;
      var d := b.where[s];
      assert b.Holds(d, s);
      assert a.Holds(d, s);
    }
  }

  /** When the vote is over, so is every session of it. */
  lemma NoVoteNoSession(w: World, c: nat)
    requires w.Inv() && w.vote.menu.None? && w.Open(c)
    ensures w.players[c].handler.Plugin?
  {
    assert w.voteLive == {};
  }

  lemma NoVoteNoHolder(w: World, c: nat)
    requires w.Inv() && c < |w.players| && (w.vote.menu.None? && w.players[c].handler.Vote?)
    ensures !w.Open(c)
  {
    if w.Open(c) {
      NoVoteNoSession(w, c);
    }
  }

  lemma AtMost256(w: World)
    requires w.Inv()
    ensures |w.players| <= 257
  {
  }

  lemma OpenVoteCounts(w: World, c: nat)
    requires w.Inv() && w.Open(c) && w.players[c].handler.Vote?
    ensures w.vote.clients > 0
  {
    assert w.sess[c] in w.voteLive;
  }

  lemma OpenHasNotChosen(w: World, c: nat)
    requires w.Inv() && w.Open(c)
    ensures |w.vote.clientVotes| == |w.players|
    ensures w.players[c].handler.Vote? ==> w.vote.menu.Some? && w.vote.clientVotes[c] < 0
  {
    if w.players[c].handler.Vote? && w.vote.menu.None? {
      NoVoteNoSession(w, c);
    }
  }

  lemma InvTally(w: World)
    requires w.Inv()
    ensures w.vote.menu.Some? ==> w.vote.items <= |w.vote.votes|
  {
  }

  lemma CalmSame(a: World, b: World, c: nat)
    requires Calm(a) && c < |a.players| && |b.players| == |a.players| && b.decided == a.decided && b.closed == a.closed
    requires b.players == a.players[c := b.players[c]] && b.players[c].autoIgnore == a.players[c].autoIgnore
    ensures Calm(b)
  {
  }

  lemma CalmEnd(w: World, s: nat, h: Handler)
    requires Calm(w) && (h.Vote? ==> w.vote.clients > 0)
    ensures Calm(w.End(s, h))
  {
  }

  lemma EndedIsOld(w: World, s: nat)
    requires w.Inv()
    ensures s in w.ended ==> s < w.next
    ensures forall c: nat :: w.Holds(c, s) ==> s < w.next
  {
  }

  /** Only clients in `rest` can have a menu whose time is up. */
  ghost predicate NoneLateBut(w: World, rest: seq<nat>) {
    forall c :: 0 <= c < |w.players| && w.players[c].Expired(w.curtime) ==> c in rest
  }

  lemma LateIsWatched(w: World)
    requires w.Inv()
    ensures NoneLateBut(w, w.watch[0..])
  {
    assert w.watch[0..] == w.watch;
  }

  lemma LateOnlyPasses(a: World, b: World, rest: seq<nat>)
    requires a.Keeps(b) && NoneLateBut(a, rest)
    ensures NoneLateBut(b, rest)
  {
    forall c | 0 <= c < |b.players| && b.players[c].Expired(b.curtime) ensures c in rest {
      IgnoredStaysShut(a, b, c);
    }
  }

  lemma OneLess(w: World, all: seq<nat>, i: nat)
    requires i < |all| && NoneLateBut(w, all[i..]) && all[i] < |w.players| && !w.players[all[i]].Expired(w.curtime)
    ensures NoneLateBut(w, all[i + 1..])
  {
    assert all[i..] == [all[i]] + all[i + 1..];
  }
}
