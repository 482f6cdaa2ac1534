/**
 `BaseMenuStyle` (core/MenuStyle_Base.cpp), `CBaseMenu` cancellation and `VoteMenuHandler`
 (core/MenuVoting.cpp), calling plugin code through arbitrary scripts.
 */
module MenuProtocol {
  import opened Sequences
  import opened Wrappers
  import opened MenuWorlds
  import opened VoteTallies

  /** The menu API as plugin code sees it; and dropping a player, of which the menu style and the vote handler each
      hear at once. */
  datatype Api =
    | ShowMenu(client: int, menu: nat, hold: nat)
    | ShowPanel(client: int, hold: nat)
    | CancelClientMenu(client: int, autoIgnore: bool)
    | CancelMenu(menu: nat)
    | StartVote(menu: nat, items: nat, clients: seq<int>, hold: nat, noRevotes: bool)
    | CancelVoting
    | Redraw(client: int, revotes: bool, hold: nat)
    | ExternalMenu(client: int, hold: nat)
    | Drop(client: int)
    | DropFromVote(client: int)

  datatype Script = Done | Call(api: Api, steps: Steps, rest: Script)

  /** What happens while a call runs, in order: the body of each plugin callback it makes, and the
      answer to each question it puts to the engine. Past the end, callbacks do nothing and answers are no. */
  datatype Steps = End | Step(acts: Script, yes: bool, tail: Steps)

  function Size(p: Script): nat {
    match p case Done => 0 case Call(_, steps, rest) => 1 + StepsSize(steps) + Size(rest)
  }

  /** How many calls it makes itself. */
  function Calls(p: Script): nat { match p case Done => 0 case Call(_, _, rest) => 1 + Calls(rest) }

  function StepsSize(s: Steps): nat {
    match s case End => 0 case Step(acts, _, tail) => 1 + Size(acts) + StepsSize(tail)
  }

  /** The calls that close menus. */
  predicate Cuts(api: Api) {
    api.CancelClientMenu? || api.CancelMenu? || api.CancelVoting? || api.ExternalMenu? || api.Drop?
  }

  /** None of them is made, however deep. */
  predicate Gentle(p: Script) {
    match p case Done => true case Call(api, steps, rest) => !Cuts(api) && GentleSteps(steps) && Gentle(rest)
  }

  predicate GentleSteps(s: Steps) {
    match s case End => true case Step(acts, _, tail) => Gentle(acts) && GentleSteps(tail)
  }

  function Rest(s: Steps): (r: Steps)
    ensures StepsSize(r) <= StepsSize(s) && (s.Step? ==> StepsSize(r) < StepsSize(s))
  {
    if s.Step? then s.tail else End
  }

  predicate Yes(s: Steps) { s.Step? && s.yes }

  /** The next callback does nothing. */
  predicate Still(s: Steps) { s.Step? ==> s.acts.Done? }

  /** What is left once a page's items have all been asked about. */
  function AfterItems(s: Steps): Steps
    decreases StepsSize(s)
  {
    if Yes(s) then AfterItems(Rest(Rest(s))) else Rest(s)
  }

  /** How many items that is. */
  function ItemsAsked(s: Steps): nat
    decreases StepsSize(s)
  {
    if Yes(s) then 1 + ItemsAsked(Rest(Rest(s))) else 0
  }

  /** Whether there is a page to show, and what is left once it is drawn. */
  predicate HasPage(s: Steps) { Yes(AfterItems(s)) }

  function AfterPage(s: Steps): Steps { if HasPage(s) then Rest(Rest(AfterItems(s))) else Rest(AfterItems(s)) }

  /** What is left once what the player has open is closed: a panel's handler hears one callback, a menu's two; the
      vote handler passes one on, and two more if the vote is over with it. */
  predicate Cleared(p: Player, s: Steps, left: Steps) {
    if !p.inMenu then left == s
    else if p.menu.None? then left == Rest(s)
    else HeardEnd(p.handler, Rest(s), left)
  }

  predicate HeardEnd(h: Handler, s: Steps, left: Steps) {
    if h.Plugin? then left == Rest(s) else left == s || left == Rest(Rest(s))
  }

  /** The page is drawn, beginning with what is left once what the player has open is closed. */
  predicate Shows(p: Player, s: Steps, ok: bool, left: Steps) {
    if !p.inMenu then Drawn(s, ok, left)
    else if p.menu.None? then Drawn(Rest(s), ok, left)
    else if p.handler.Plugin? then Drawn(Rest(Rest(s)), ok, left)
    else Drawn(Rest(s), ok, left) || Drawn(Rest(Rest(Rest(s))), ok, left)
  }

  predicate Drawn(from: Steps, ok: bool, left: Steps) { ok == HasPage(from) && (ok ==> left == AfterPage(from)) }

  lemma ClearedShows(p: Player, s: Steps, from: Steps, ok: bool, left: Steps)
    requires Cleared(p, s, from) && Drawn(from, ok, left)
    ensures Shows(p, s, ok, left)
  {
  }

  /** What is left after OnMenuStart, which the vote handler does not pass on. */
  function Started(h: Handler, s: Steps): Steps { if h.Plugin? then Rest(s) else s }

  /** A display to a client that is in game and has nothing open, with a page to show. */
  predicate Displays(h: Handler, s: Steps) { Yes(Started(h, s)) && HasPage(Rest(Started(h, s))) }

  function AfterDisplay(h: Handler, s: Steps): Steps { AfterPage(Rest(Started(h, s))) }

  /** A vote's menu is displayed to its one client, and nothing happens when it starts. */
  predicate OneVoter(s: Steps) { Still(s) && Displays(Vote, Rest(s)) && Still(AfterDisplay(Vote, Rest(s))) }

  /** Plugin code that closes the client's menu. */
  function Closing(c: nat): Script { Call(CancelClientMenu(c, true), End, Done) }

  /** One item is asked about, at which the handler does `acts`; and then there is no page to show. */
  function NoPage(acts: Script): Steps {
    Step(Done, true, Step(acts, false, Step(Done, false, Step(Done, false, End))))
  }

  /** Two items are asked about, at the first of which the handler does `acts`. */
  function TwoItems(acts: Script): Steps { Step(Done, true, Step(acts, false, Step(Done, true, End))) }

  /** How drawing a page went: `Orphaned` is the vote handler having a callback to pass on and nobody to pass it to. */
  datatype Page = Shown | Nothing | Orphaned

  /** What a client did with an open menu; navigation asks for a new rendering. */
  datatype Press = Navigate | Leave | Pick(item: nat, realItem: nat)

  /** What the engine tells the menu code of: a key, a player who left (the menu style and the vote handler each hear
      of it), the passing of time, or nothing, when plugin code runs for a reason of its own. */
  datatype Event =
    | Key(client: int, press: Press, steps: Steps)
    | Gone(client: int, steps: Steps)
    | GoneFromVote(client: int)
    | Time(now: real, steps: Steps)
    | Code(acts: Script)

  ghost predicate GentleKeys(events: seq<Event>) {
    forall i :: 0 <= i < |events| && events[i].Key? ==> GentleSteps(events[i].steps)
  }

  /** How many calls plugin code makes for reasons of its own. */
  function CodeCalls(events: seq<Event>): nat {
    if events == [] then 0
    else CodeCalls(events[..|events| - 1]) + (var e := events[|events| - 1]; if e.Code? then Calls(e.acts) else 0)
  }

  /** How a key press went. `SecondEnd`: a menu that plugin code closed while the page was being drawn gets a
      second OnMenuCancel and OnMenuEnd. `NoHandler`: the vote handler is about to pass a drawing callback on, and
      the vote is over. Both happen only to a menu closed during its own drawing. The model stops at `NoHandler`, and
      at a `SecondEnd` of the vote handler, whose count of open menus is about to be wrong. */
  datatype Fate = Fine | SecondEnd | NoHandler

  /** What a plugin's handler hears. The vote handler passes on everything but OnMenuStart and OnMenuEnd of the menus
      of a vote, and reports on the vote itself. */
  datatype Told =
    | OnMenuStart(session: nat)
    | OnMenuDrawItem(client: nat)
    | OnMenuDisplay(client: nat)
    | OnMenuCancel(session: nat)
    | OnMenuSelect(session: nat, item: nat)
    | OnMenuSelect2(session: nat)
    | OnMenuEnd(session: nat)
    | OnPanelCancel(client: nat)
    | OnPanelSelect(client: nat)
    | OnVoteMenuStart(vote: nat)
    | OnMenuVoteStart(vote: nat)
    | OnVoteOver(vote: nat, outcome: Outcome)
    | OnVoteEnd(vote: nat)

  /** And how the vote stood when it did. */
  datatype Heard = Heard(what: Told, vote: VoteState)

  /** What has been heard, selected, asked and cancelled so far, and which vote is on. */
  datatype Book = Book(log: seq<Heard>, selected: seq<nat>, asked: nat, cancels: nat,
                       nextVote: nat, menu: Option<nat>, items: nat, noRevotes: bool)

  class MenuSystem {
    const maxClients: nat
    var players: seq<Player>
    var watch: seq<nat>
    var cancelling: set<nat>
    var vote: VoteState
    var noRevotes: bool
    ghost var sess: seq<nat>
    ghost var next: nat
    ghost var where: map<nat, nat>
    ghost var flying: set<nat>
    ghost var voteLive: set<nat>
    var curtime: real
    ghost var answered: seq<nat>
    ghost var ended: seq<nat>
    /** The sessions whose handler heard OnMenuCancel and OnMenuEnd a second time. */
    ghost var again: seq<nat>
    ghost var nextVote: nat
    ghost var decided: seq<nat>
    ghost var closed: seq<nat>
    /** StartVote has accepted the current vote and not yet returned. */
    ghost var opening: bool
    /** How many times plugin code has asked for menus to be closed. */
    ghost var cuts: nat
    /** The sessions that ended with OnMenuSelect. */
    ghost var selected: seq<nat>
    /** Every callback made to a plugin, in order. */
    ghost var log: seq<Heard>
    /** How many calls plugin code has made. */
    ghost var asked: nat
    /** How many votes have been cancelled, and how many reported as cancelled. */
    ghost var cancels: nat
    ghost var voided: nat

    ghost function W(): World
      reads this
    {
      World(players, watch, cancelling, vote, curtime, sess, next, where, flying, voteLive, answered, ended, again,
            nextVote, decided, closed, cuts)
    }

    ghost predicate Valid()
      reads this
    {
      && W().Inv() && |players| == maxClients + 1 && |vote.clientVotes| == maxClients + 1
      && Alive()
    }

    /** Once StartVote has returned, a vote that goes on has an open menu to end it. */
    ghost predicate Alive()
      reads this
    {
      && (if vote.menu.None? then !opening else opening || (vote.started && vote.clients > 0))
      && Voids()
    }

    /** Every vote cancelled is reported as cancelled, and no other, but for one that is still on. */
    ghost predicate Voids()
      reads this`vote, this`cancels, this`voided
    {
      voided + (if vote.menu.Some? && vote.cancelled then 1 else 0) == cancels
    }

    twostate predicate NothingOpened()
      reads this`opening, this`nextVote, this`vote
    {
      opening ==> old(opening) && nextVote == old(nextVote) && vote.started == old(vote.started)
    }

    ghost function B(): Book
      reads this
    {
      Book(log, selected, asked, cancels, nextVote, vote.menu, vote.items, noRevotes)
    }

    /** Plugins have heard more, no menu has been selected from, and the vote, if it is still on, is the same. */
    static ghost predicate Grew(a: Book, b: Book) {
      && a.log <= b.log && a.selected == b.selected && a.asked <= b.asked && a.cancels <= b.cancels
      && a.nextVote <= b.nextVote
      && (a.nextVote == b.nextVote ==>
            && a.noRevotes == b.noRevotes && (b.menu.None? || (a.menu == b.menu && a.items == b.items)))
    }

    static lemma GrewThen(a: Book, b: Book, c: Book)
      requires Grew(a, b) && Grew(b, c)
      ensures Grew(a, c)
    {
    }

    static lemma NewVoteGrew(a: Book, b: Book)
      requires b == a.(nextVote := a.nextVote + 1, menu := b.menu, items := b.items, noRevotes := b.noRevotes)
      ensures Grew(a, b)
    {
    }

    static lemma LogGrew(a: Book, b: Book)
      requires Grew(a, b)
      ensures a.log <= b.log
    {
    }

    static lemma VoteOverGrew(a: Book, b: Book)
      requires b == a.(menu := None, items := 0)
      ensures Grew(a, b)
    {
    }

    static lemma NothingGrew(a: Book)
      ensures Grew(a, a)
    {
    }

    twostate predicate Logged()
      reads this
    {
      Grew(old(B()), B())
    }

    /** The first thing a plugin heard is `what`, with the vote as it was. */
    twostate predicate TellsFirst(what: Told)
      reads this
    {
      |old(log)| < |log| && log[|old(log)|] == Heard(what, old(vote))
    }

    /** Some plugin has heard it. */
    twostate predicate Tells(what: Told)
      reads this
    {
      ToldSince(log, |old(log)|, what)
    }

    static ghost predicate ToldSince(log: seq<Heard>, from: nat, what: Told) {
      exists k :: from <= k < |log| && log[k].what == what
    }

    static lemma ToldAt(log: seq<Heard>, k: nat, from: nat, what: Told)
      requires from <= k < |log| && log[k].what == what
      ensures ToldSince(log, from, what)
    {
    }

    static lemma ToldBefore(log: seq<Heard>, from: nat, less: nat, what: Told)
      requires ToldSince(log, from, what) && less <= from
      ensures ToldSince(log, less, what)
    {
    }

    /** What the client had open was cancelled. */
    twostate predicate TellsClosed(c: nat)
      reads this
    {
      if c < |old(players)| && old(players[c]).menu.None? then TellsFirst(OnPanelCancel(c))
      else c < |old(sess)| && TellsFirst(OnMenuCancel(old(sess[c])))
    }

    /** The first thing a plugin heard is how the vote came out. */
    twostate predicate TellsOutcome()
      reads this
    {
      OutcomeAt(log, |old(log)|, old(nextVote), old(vote))
    }

    twostate predicate Passed()
      reads this
    {
      Valid() && old(W()).Keeps(W()) && NothingOpened() && Logged()
    }

    twostate predicate Kept()
      reads this
    {
      Passed() && StaysOpen(old(W()), W(), 0)
    }

    /** Of what was to happen, this is left; gentle steps close no menus. */
    twostate predicate Used(steps: Steps, left: Steps)
      reads this
    {
      && StepsSize(left) <= StepsSize(steps) && old(cuts) <= cuts
      && (GentleSteps(steps) ==> GentleSteps(left) && cuts == old(cuts)) && Logged()
    }

    /** A client told to ignore displays keeps its record, and no menu opens for it; and no menu is late that was
        not. */
    static ghost predicate StaysIgnored(a: World, b: World, c: nat) {
      && c < |a.players| == |b.players| && b.players[c].autoIgnore == a.players[c].autoIgnore
      && (a.players[c].autoIgnore ==>
            && b.players[c].menu == a.players[c].menu && b.players[c].handler == a.players[c].handler
            && (b.players[c].inMenu ==> a.players[c].inMenu))
      && (b.players[c].Expired(b.curtime) ==> a.players[c].Expired(a.curtime))
    }

    /** The client's menu is closed; what is open instead, if displays were not ignored, is new. */
    static ghost predicate StaysClosed(a: World, b: World, c: nat) {
      && c < |a.players| == |b.players|
      && b.players[c].autoIgnore == a.players[c].autoIgnore && !b.players[c].Expired(b.curtime)
      && (b.players[c].autoIgnore ==>
            && !b.players[c].inMenu && b.players[c].menu == a.players[c].menu
            && b.players[c].handler == a.players[c].handler)
    }

    static lemma StaysClosedSince(w1: World, w2: World, w3: World, c: nat)
      requires c < |w1.players| && w2.players == w1.players[c := w1.players[c].(inMenu := false)]
      requires StaysIgnored(w2, w3, c)
      ensures StaysClosed(w1, w3, c)
    {
    }

    /** If what ran was plugin code that closes a client's menu, the menu is closed; and with it the vote, if it was
        the last of the vote's. */
    twostate predicate Closed(p: Script)
      reads this
    {
      forall c: nat :: IsClient(c) && p == Closing(c) ==>
        c < |players| && !players[c].inMenu && (old(LastVoter(c)) ==> vote.menu.None?)
    }

    /** Every call of it was made; and if there is but one, it has had its effect. */
    twostate predicate Obeyed(p: Script)
      reads this
    {
      old(asked) + Calls(p) <= asked
        && (p.Call? && p.rest.Done? ==> Did(old(W()), W(), p.api, p.steps) && Spoilt(p.api))
    }

    /** A call that cancels the vote. */
    twostate predicate Spoilt(api: Api)
      reads this
    {
      old(vote.menu.Some? && !vote.cancelled) && (api.CancelVoting? || api == CancelMenu(old(vote.menu).value)) ==>
        old(cancels) < cancels
    }

    /** What each call does. */
    static ghost predicate Did(a: World, b: World, api: Api, steps: Steps) {
      match api
      case ShowMenu(_, menu, _) => menu !in a.cancelling ==> a.next < b.next
      case ShowPanel(c, hold) =>
        1 <= c < |a.players| && Yes(steps) && !a.players[c].autoIgnore ==>
          c < |b.players| && b.players[c].inMenu && b.players[c].menu.None? && b.players[c].holdTime == hold
      case StartVote(_, _, _, _, _) => a.vote.menu.None? ==> a.nextVote < b.nextVote
      case Redraw(c, _, _) =>
        && 1 <= c < |a.vote.clientVotes| && a.vote.menu.Some? && a.vote.clientVotes[c] == VOTE_PENDING
        && a.vote.menu.value !in a.cancelling ==>
          a.next < b.next
      case DropFromVote(c) =>
        1 <= c < |a.players| && b.vote.menu.Some? ==>
          c < |b.vote.clientVotes| && b.vote.clientVotes[c] < VOTE_PENDING
      case CancelClientMenu(c, autoIgnore) =>
        1 <= c < |a.players| && (autoIgnore || a.players[c].autoIgnore) ==> c < |b.players| && !b.players[c].inMenu
      case CancelMenu(menu) => menu !in a.cancelling ==> NobodyHas(b, menu)
      case CancelVoting =>
        a.vote.menu.Some? && !a.vote.cancelled && a.vote.menu.value !in a.cancelling ==>
          NobodyHas(b, a.vote.menu.value)
      case ExternalMenu(c, hold) =>
        1 <= c < |a.players| ==> c < |b.players| && !b.players[c].inMenu && b.players[c].holdTime == hold
      case Drop(c) => 1 <= c < |a.players| ==> c < |b.players| && !b.players[c].inMenu
    }

    /** The client's is the only vote menu left open. */
    ghost predicate LastVoter(c: nat)
      reads this`players, this`vote
    {
      c < |players| && players[c].HasMenu() && players[c].handler.Vote? && vote.started && vote.clients == 1
    }

    static ghost predicate LastVoterIn(w: World, c: nat) {
      c < |w.players| && w.players[c].HasMenu() && w.players[c].handler.Vote? && w.vote.started && w.vote.clients == 1
    }

    predicate IsClient(client: int) { 1 <= client <= maxClients }

    constructor (maxClients: nat)
      requires 1 <= maxClients <= 256
      ensures Quiet() && this.maxClients == maxClients && vote.menu.None? && next == 0 && again == []
      ensures selected == [] && log == []
      ensures forall c :: 0 <= c <= maxClients ==> !players[c].inMenu && !players[c].autoIgnore
    {
      this.maxClients := maxClients;
      players := seq(maxClients + 1, _ => Player(false, false, None, Plugin, 0, 0.0));
      watch, cancelling, noRevotes, curtime := [], {}, false, 0.0;
      vote := VoteState(0, false, false, None, 0, [], seq(maxClients + 1, _ => VOTE_NOT_VOTING));
      sess := seq(maxClients + 1, _ => 0);
      next, where, flying, voteLive, answered, ended, again := 0, map[], {}, {}, [], [], [];
      nextVote, decided, closed, opening, cuts := 0, [], [], false, 0;
      selected, log, asked, cancels, voided := [], [], 0, 0, 0;
    }

    /** One plugin callback. */
    method Callback(ghost what: Told, steps: Steps) returns (left: Steps)
      requires Valid()
      modifies this
      ensures Kept() && Used(steps, left) && TellsFirst(what)
      ensures left == Rest(steps)
      ensures Still(steps) ==> W() == old(W()) && |log| == |old(log)| + 1
      ensures steps.Step? ==> Closed(steps.acts) && Obeyed(steps.acts)
      decreases StepsSize(steps), 0
    {
      hide World.Inv, World.Keeps, StaysOpen, Did;
      log := log + [Heard(what, vote)];
      match steps
      case End =>
        NothingHappened(W());
        left := End;
      case Step(acts, _, tail) =>
        Run(acts);
        left := tail;
    }

    method Ask(steps: Steps) returns (yes: bool, left: Steps)
      ensures StepsSize(left) <= StepsSize(steps) && (yes ==> StepsSize(left) < StepsSize(steps))
      ensures GentleSteps(steps) ==> GentleSteps(left)
      ensures yes == Yes(steps) && left == Rest(steps)
    {
      match steps
      case End => yes, left := false, End;
      case Step(_, y, tail) => yes, left := y, tail;
    }

    method Run(p: Script)
      requires Valid()
      modifies this
      ensures Kept() && (Gentle(p) ==> cuts == old(cuts)) && (p.Done? ==> W() == old(W()) && log == old(log))
      ensures Closed(p) && Obeyed(p) && old(cuts) <= cuts
      decreases Size(p), 12
    {
      hide World.Inv, World.Keeps, StaysOpen, Did;
      ghost var w := W();
      NothingHappened(w);
      if p.Call? {
        var _ := Perform(p.api, p.steps);
        ghost var v := W();
        Run(p.rest);
        BothHappened(w, v, W());
      }
    }

    method Perform(api: Api, steps: Steps) returns (left: Steps)
      requires Valid()
      modifies this
      ensures Kept() && StepsSize(left) <= StepsSize(steps)
      ensures GentleSteps(steps) && !Cuts(api) ==> GentleSteps(left) && cuts == old(cuts)
      ensures Closed(Call(api, steps, Done)) && Did(old(W()), W(), api, steps)
      ensures old(asked) < asked && old(cuts) <= cuts && Spoilt(api)
      decreases StepsSize(steps), 11
    {
      hide World.Inv, World.Keeps, StaysOpen, Did;
      asked := asked + 1;
      if Cuts(api) {
        left := CutOff(api, steps);
      } else {
        left := PerformOther(api, steps);
      }
    }

    /** A call that closes menus, which is counted. */
    method CutOff(api: Api, steps: Steps) returns (left: Steps)
      requires Valid() && Cuts(api)
      modifies this
      ensures Kept() && StepsSize(left) <= StepsSize(steps)
      ensures Closed(Call(api, steps, Done)) && Did(old(W()), W(), api, steps) && old(cuts) < cuts
      ensures Spoilt(api)
      decreases StepsSize(steps), 10, 1
    {
      hide World.Inv, World.Keeps, StaysOpen, Did, Voids, Grew, LastVoter;
      ghost var w := W();
      CutStep(w);
      cuts := cuts + 1;
      ghost var v := W();
      left := PerformCut(api, steps);
      CutHappened(w, v, W());
      DidSince(w, W(), api, steps);
    }

    static lemma DidSince(a: World, b: World, api: Api, steps: Steps)
      requires Did(a.(cuts := a.cuts + 1), b, api, steps)
      ensures Did(a, b, api, steps)
    {
    }

    /** The calls that close no menus. */
    method PerformOther(api: Api, steps: Steps) returns (left: Steps)
      requires Valid() && !Cuts(api)
      modifies this
      ensures Kept() && Used(steps, left) && Did(old(W()), W(), api, steps)
      decreases StepsSize(steps), 10
    {
      hide World.Inv, World.Keeps, StaysOpen, Closed, Reports, Tells, TellsFirst, Given, LastVoter, NobodyHas;
      NothingHappened(W());
      match api {
        case ShowMenu(client, menu, hold) =>
          var rest, _ := Display(client, menu, Plugin, hold, steps);
          left := rest;
        case ShowPanel(client, hold) =>
          var rest, _ := DoClientPanel(client, hold, steps);
          left := rest;
        case StartVote(menu, items, clients, hold, noRev) =>
          var rest, _, _ := BeginVote(menu, items, clients, hold, noRev, steps);
          left := rest;
        case Redraw(client, revotes, hold) =>
          var rest, _ := RedrawToClient(client, revotes, hold, steps);
          left := rest;
        case DropFromVote(client) =>
          left := steps;
          if IsClient(client) {
            VoteDisconnect(client);
          }
      }
    }

    /** The calls that close menus. */
    method PerformCut(api: Api, steps: Steps) returns (left: Steps)
      requires Valid() && Cuts(api)
      modifies this
      ensures Passed() && Used(steps, left)
      ensures Closed(Call(api, steps, Done)) && Did(old(W()), W(), api, steps) && Spoilt(api)
      decreases StepsSize(steps), 10, 0
    {
      hide World.Inv, World.Keeps, StaysOpen, Grew, TellsClosed, Voids;
      NothingHappened(W());
      NothingGrew(B());
      match api {
        case CancelClientMenu(client, autoIgnore) =>
          left := steps;
          if IsClient(client) && players[client].inMenu {
            left := CancelClient(client, autoIgnore, steps);
          }
        case CancelMenu(menu) =>
          if vote.menu == Some(menu) && !vote.cancelled {
            left := CancelVote(steps);
          } else {
            left := MenuCancel(menu, steps);
          }
        case CancelVoting =>
          left := CancelVote(steps);
        case ExternalMenu(client, hold) =>
          left := steps;
          if IsClient(client) {
            left := OnUserMessageSent(client, hold, steps);
          }
        case Drop(client) =>
          left := steps;
          if IsClient(client) {
            left := OnClientDisconnected(client, steps);
          }
      }
    }

    /** OnMenuStart to `h`, for a display to client `c`. */
    method HandlerStart(h: Handler, c: nat, steps: Steps) returns (left: Steps, ghost s: nat)
      requires Valid() && (h.Vote? ==> vote.menu.Some?) && c <= maxClients
      modifies this
      ensures Valid() && Used(steps, left) && Within(old(W()), W(), {s}, c)
      ensures s in flying && s == old(next) && (s in voteLive <==> h.Vote?) && s !in answered
      ensures NothingOpened() && cancelling == old(cancelling) && players[c].autoIgnore == old(players[c].autoIgnore)
      ensures h.Vote? ==> vote == old(vote).(clients := old(vote.clients) + 1)
      ensures StaysOpen(old(W()), W(), 0)
      ensures left == Started(h, steps) && (h.Plugin? ==> TellsFirst(OnMenuStart(s)))
      ensures h.Vote? || Still(steps) ==> players == old(players)
      decreases StepsSize(steps), 1
    {
      hide World.Inv, World.Keeps, Within, StaysOpen, Closed, LastVoter;
      ghost var w := W();
      StartStep(w, h);
      s := BeginSession(h);
      NothingHappened(W());
      left := steps;
      if h.Plugin? {
        left := Callback(OnMenuStart(s), steps);
      }
      StartHappened(w, W(), c, h);
      FlyingStays(w.Start(h), W(), s);
      KeepsFrame(w.Start(h), W());
      IgnoredStaysShut(w.Start(h), W(), c);
    }

    method BeginSession(h: Handler) returns (ghost s: nat)
      modifies this`vote, this`next, this`flying, this`voteLive
      ensures s == old(next) && W() == old(W()).Start(h)
    {
      s := next;
      if h.Vote? {
        vote := vote.(clients := vote.clients + 1);
      }
      next, flying, voteLive := next + 1, flying + {s}, if h.Vote? then voteLive + {s} else voteLive;
    }

    /** OnMenuCancel to `h`. The vote handler passes it on, and always has someone to pass it to. */
    method HandlerCancel(h: Handler, ghost s: nat, steps: Steps) returns (left: Steps)
      requires Valid() && s in flying && (h.Vote? <==> s in voteLive) && s !in answered
      modifies this
      ensures Valid() && Used(steps, left)
      ensures old(W()).Answer(s).Keeps(W()) && NothingOpened()
      ensures StaysOpen(old(W()), W(), 0)
      ensures s in flying && (h.Vote? <==> s in voteLive) && s in answered
      ensures steps.End? ==> W() == old(W()).Answer(s)
      ensures left == Rest(steps) && TellsFirst(OnMenuCancel(s))
      decreases StepsSize(steps), 1
    {
      hide World.Inv, World.Keeps, Closed, LastVoter;
      ghost var w := W();
      HasHandler(w, s);
      assert h.Vote? ==> vote.menu.Some?;
      AnswerStep(w, s);
      answered := answered + [s];
      assert W() == w.Answer(s);
      left := Callback(OnMenuCancel(s), steps);
      FlyingStays(w.Answer(s), W(), s);
    }

    /** OnMenuEnd to `h`. */
    method HandlerEnd(h: Handler, ghost s: nat, steps: Steps) returns (left: Steps)
      requires Valid() && s in flying && (h.Vote? <==> s in voteLive) && s in answered
      modifies this
      ensures Valid() && Used(steps, left)
      ensures h.Vote? ==> old(vote.clients) > 0
      ensures old(W()).End(s, h).Keeps(W()) && NothingOpened()
      ensures StaysOpen(old(W()), W(), 0)
      ensures steps.End? && h.Vote? && old(vote.started && vote.clients == 1) ==> vote.menu.None?
      ensures HeardEnd(h, steps, left) && (h.Plugin? ==> TellsFirst(OnMenuEnd(s)))
      ensures h.Vote? && old(vote.started && vote.clients == 1) ==> TellsOutcome()
      ensures steps.End? ==> players == old(players)
      decreases StepsSize(steps), 4, 1
    {
      hide World.Inv, World.Keeps, Closed, LastVoter, OutcomeAt, Tells, Reports, Voids, Grew;
      ghost var w := W();
      EndStep(w, s, h);
      if h.Vote? {
        left := DecrementPlayerCount(s, steps);
      } else {
        flying, ended, voteLive := flying - {s}, ended + [s], voteLive - {s};
        assert W() == w.End(s, h);
        left := Callback(OnMenuEnd(s), steps);
      }
    }

    /** One open vote menu less; the vote is over with the last. */
    method DecrementPlayerCount(ghost s: nat, steps: Steps) returns (left: Steps)
      requires Valid() && s in flying && s in voteLive && s in answered && vote.clients > 0 && vote.menu.Some?
      modifies this
      ensures Valid() && Used(steps, left)
      ensures old(W()).End(s, Vote).Keeps(W()) && NothingOpened()
      ensures StaysOpen(old(W()), W(), 0)
      ensures old(vote.started && vote.clients == 1) ==> old(nextVote) - 1 in decided && old(nextVote) - 1 in closed
      ensures steps.End? && old(vote.started && vote.clients == 1) ==> vote.menu.None?
      ensures if old(vote.started && vote.clients == 1) then left == Rest(Rest(steps)) && TellsOutcome()
              else left == steps && log == old(log)
      ensures steps.End? ==> players == old(players)
      decreases StepsSize(steps), 4, 0
    {
      hide World.Inv, World.Keeps, StaysOpen, Closed, LastVoter, Grew, OutcomeAt;
      ghost var w := W();
      EndStep(w, s, Vote);
      OneFewer(s);
      ghost var w1 := W();
      NothingHappened(w1);
      NothingGrew(B());
      left := steps;
      if vote.started && vote.clients == 0 {
        left := EndWithLast(w.vote, steps);
      }
      StaysOpenSame(w, w1, 0);
      StaysOpenThen(w, w1, W(), 0);
    }

    /** The vote `was` ends with its last open menu. */
    method EndWithLast(ghost was: VoteState, steps: Steps) returns (left: Steps)
      requires W().Inv() && |players| == maxClients + 1 == |vote.clientVotes|
      requires vote.menu.Some? && vote.clients == 0 && vote.started && Voids()
      requires vote == was.(clients := vote.clients)
      modifies this
      ensures Kept() && !opening && Used(steps, left) && left == Rest(Rest(steps))
      ensures old(nextVote) - 1 in decided && old(nextVote) - 1 in closed
      ensures steps.End? ==> vote.menu.None? && players == old(players)
      ensures OutcomeAt(log, |old(log)|, old(nextVote), was)
      decreases StepsSize(steps), 3, 1
    {
      hide World.Inv, World.Keeps, StaysOpen, Closed, LastVoter, Grew, Reports, Voids;
      ghost var now := vote;
      var rest, outcome := EndVoting(steps);
      left := rest;
      ReportsSame(outcome, was, now);
    }

    method OneFewer(ghost s: nat)
      requires vote.clients > 0
      modifies this`vote, this`flying, this`ended, this`voteLive
      ensures W() == old(W()).End(s, Vote)
    {
      vote := vote.(clients := vote.clients - 1);
      flying, ended, voteLive := flying - {s}, ended + [s], voteLive - {s};
    }

    /** The vote is tabulated, or dropped; then the plugin hears of it, and that the menu ended. */
    method EndVoting(steps: Steps) returns (left: Steps, outcome: Outcome)
      requires W().Inv() && |players| == maxClients + 1 == |vote.clientVotes|
      requires vote.menu.Some? && vote.clients == 0 && vote.started && Voids()
      modifies this
      ensures Kept() && !opening && Used(steps, left)
      ensures Reports(outcome, old(vote))
      ensures old(nextVote) - 1 !in old(decided) && old(nextVote) - 1 !in old(closed)
      ensures old(nextVote) - 1 in decided && old(nextVote) - 1 in closed
      ensures steps.End? ==> vote.menu.None?
      ensures left == Rest(Rest(steps)) && |old(log)| < |log|
      ensures steps.End? ==> players == old(players)
      ensures log[|old(log)|].what == OnVoteOver(old(nextVote) - 1, outcome) && Tells(OnVoteEnd(old(nextVote) - 1))
      decreases StepsSize(steps), 3, 0
    {
      hide World.Inv, World.Keeps, StaysOpen, Reports, Closed, LastVoter, Grew, ToldSince, Voids;
      ghost var w, book := W(), B();
      outcome := Decide();
      VoteOverGrew(book, B());
      ghost var v: nat, told := nextVote - 1, B();
      left := Callback(OnVoteOver(v, outcome), steps);
      ghost var r, mid := W(), B();
      VoteEnds(w, r);
      GrewThen(book, told, mid);
      left := CloseVote(v, w, left);
      GrewThen(book, mid, B());
      LogGrew(mid, B());
      ToldAt(log, |mid.log|, |book.log|, OnVoteEnd(v));
    }

    /** The vote's own OnMenuEnd. */
    method CloseVote(ghost v: nat, ghost w: World, steps: Steps) returns (left: Steps)
      requires Valid() && VoteClosed(W(), v).Inv() && v in decided && w.Inv()
      requires w.Keeps(VoteClosed(W(), v)) && StaysOpen(w, VoteClosed(W(), v), 0)
      modifies this
      ensures Valid() && w.Keeps(W()) && StaysOpen(w, W(), 0)
      ensures NothingOpened() && Used(steps, left) && left == Rest(steps) && TellsFirst(OnVoteEnd(v))
      ensures v in closed && v in decided
      ensures Still(steps) ==> W() == VoteClosed(old(W()), v)
      decreases StepsSize(steps), 2
    {
      hide World.Inv, World.Keeps, StaysOpen, Closed, LastVoter;
      ghost var r := VoteClosed(W(), v);
      closed := closed + [v];
      assert W() == r;
      left := Callback(OnVoteEnd(v), steps);
      EndedStays(r, W(), v);
      BothHappened(w, r, W());
    }

    /** The tabulation, and the vote handler made ready for the next vote before anybody hears of it. */
    method Decide() returns (outcome: Outcome)
      requires W().Inv() && |players| == maxClients + 1 == |vote.clientVotes|
      requires vote.menu.Some? && vote.clients == 0 && vote.started && Voids()
      modifies this`vote, this`decided, this`opening, this`voided
      ensures Valid() && nextVote > 0 && W() == Decided(old(W())) && Reports(outcome, old(vote)) && !opening
      ensures nextVote - 1 !in old(decided) && nextVote - 1 !in closed
    {
      ghost var w := W();
      DecideStep(w);
      TallyConsistent(w);
      hide World.Inv, World.Keeps, Reports, Consistent, Closed, LastVoter;
      outcome := Tabulate(vote);
      InternalReset();
      decided, opening := decided + [nextVote - 1], false;
      voided := if outcome.Generic? then voided + 1 else voided;
      assert W() == Decided(w);
    }

    method InternalReset()
      requires vote.menu.Some?
      modifies this`vote
      ensures vote == old(vote).(clients := 0, started := false, cancelled := false, menu := None, items := 0)
    {
      vote := vote.(clients := 0, items := 0, started := false, menu := None, cancelled := false);
    }

    /** OnMenuCancel and then OnMenuEnd, to a session in flight. */
    method Dismiss(h: Handler, c: nat, ghost s: nat, ghost w0: World, steps: Steps) returns (left: Steps)
      requires Valid() && Within(w0, W(), {s}, c)
      requires s in flying && (h.Vote? <==> s in voteLive) && s !in answered
      modifies this
      ensures Valid() && Within(w0, W(), {}, c) && NothingOpened() && Used(steps, left)
      ensures s in ended && StaysOpen(old(W()), W(), 0)
      ensures StaysIgnored(old(W()), W(), c)
      ensures steps.End? && h.Vote? && old(vote.started && vote.clients == 1) ==> vote.menu.None?
      ensures HeardEnd(h, Rest(steps), left) && TellsFirst(OnMenuCancel(s)) && (h.Plugin? ==> Tells(OnMenuEnd(s)))
      ensures steps.End? ==> players == old(players)
      decreases StepsSize(steps), 5, 0
    {
      hide World.Inv, World.Keeps, Within, Closed, LastVoter, Voids;
      ghost var w1 := W();
      left := HandlerCancel(h, s, steps);
      ghost var w2 := W();
      WithinAnswers(w0, w1, {s}, c, s);
      WithinThen(w0, w1.Answer(s), w2, {s}, c);
      WithinEnds(w0, w2, {s}, c, s, h);
      ghost var told := log;
      left := HandlerEnd(h, s, left);
      assert told <= log && log[|old(log)|] == told[|old(log)|];
      assert h.Plugin? ==> log[|told|].what == OnMenuEnd(s);
      ghost var w3 := w2.End(s, h);
      assert {s} - {s} == {};
      WithinThen(w0, w3, W(), {}, c);
      WithinValid(w0, w1, {s}, c);
      IgnoredStaysShut(w1.Answer(s), w2, c);
      IgnoredStaysShut(w3, W(), c);
      EndedStays(w3, W(), s);
    }

    /** _CancelClientMenu */
    method CancelClient(c: nat, autoIgnore: bool, steps: Steps) returns (left: Steps)
      requires Valid() && IsClient(c) && players[c].inMenu
      modifies this
      ensures Passed() && Used(steps, left) && StaysOpen(old(W()), W(), c)
      ensures autoIgnore || old(players[c].autoIgnore) ==> !players[c].inMenu
      ensures old(players[c].HasMenu()) ==> old(sess[c]) in ended
      ensures !players[c].Expired(curtime)
      ensures steps.End? && old(LastVoter(c)) ==> vote.menu.None?
      ensures Cleared(old(players[c]), steps, left) && TellsClosed(c)
      ensures steps.End? ==> players == old(players)[c := old(players[c]).(inMenu := false)]
      decreases StepsSize(steps), 6
    {
      hide World.Inv, World.Keeps, Within, StaysOpen, Closed, Reports, Tells, Voids, Grew;
      ghost var w0 := W();
      WithinStart(w0, c);
      var oldIgnore := players[c].autoIgnore;
      if autoIgnore {
        SetIgnore(c, true, w0);
      }
      ghost var w1 := W();
      left := CloseMenu(c, w0, steps);
      ghost var w2 := W();
      if autoIgnore {
        SetIgnore(c, oldIgnore, w0);
      }
      StaysOpenSame(w0, w1, c);
      StaysOpenThen(w0, w1, w2, c);
      StaysOpenSame(w2, W(), c);
      StaysOpenThen(w0, w2, W(), c);
      WithinDone(w0, W(), c);
    }

    method SetIgnore(c: nat, ignore: bool, ghost w0: World)
      requires Valid() && IsClient(c) && Within(w0, W(), {}, c) && (w0.players[c].autoIgnore ==> ignore)
      modifies this`players
      ensures Valid() && Within(w0, W(), {}, c) && players == old(players)[c := old(players)[c].(autoIgnore := ignore)]
    {
      hide World.Inv, World.Keeps, Within;
      WithinSets(w0, W(), {}, c, players[c].(autoIgnore := ignore));
      players := players[c := players[c].(autoIgnore := ignore)];
      WithinValid(w0, W(), {}, c);
    }

    /** The client's menu closes, and its handler is told. */
    method CloseMenu(c: nat, ghost w0: World, steps: Steps) returns (left: Steps)
      requires Within(w0, W(), {}, c) && IsClient(c) && |players| == maxClients + 1 && players[c].inMenu
      requires Alive() && |vote.clientVotes| == maxClients + 1
      modifies this
      ensures Valid() && Within(w0, W(), {}, c) && NothingOpened() && Used(steps, left)
      ensures StaysOpen(old(W()), W(), c)
      ensures StaysClosed(old(W()), W(), c)
      ensures old(players[c].HasMenu()) ==> |old(sess)| == maxClients + 1 && old(sess[c]) in ended
      ensures steps.End? && old(LastVoter(c)) ==> vote.menu.None?
      ensures Cleared(old(players[c]), steps, left) && TellsClosed(c)
      ensures steps.End? ==> players == old(players)[c := old(players[c]).(inMenu := false)]
      decreases StepsSize(steps), 6, 0
    {
      hide World.Inv, World.Keeps, World.Close, Within, StaysOpen, StaysIgnored, StaysClosed, Closed, Reports, Tells,
           Voids, Grew;
      ghost var w1 := W();
      var menu, h := players[c].menu, players[c].handler;
      WithinValid(w0, w1, {}, c);
      ghost var s;
      s := Shut(c, w0);
      ghost var w2 := W();
      left := TellClosed(h, c, menu.None?, s, w0, steps);
      StaysOpenThen(w1, w2, W(), c);
      StaysClosedSince(w1, w2, W(), c);
    }

    /** Nothing is open at the client, and its handler is yet to be told. */
    method Shut(c: nat, ghost w0: World) returns (ghost s: nat)
      requires Within(w0, W(), {}, c) && IsClient(c) && |players| == maxClients + 1 && players[c].inMenu
      requires Alive() && |vote.clientVotes| == maxClients + 1
      modifies this`players, this`watch, this`where, this`flying
      ensures Valid() && |sess| == maxClients + 1 && s == sess[c]
      ensures players == old(players)[c := old(players[c]).(inMenu := false)]
      ensures Within(w0, W(), if players[c].menu.None? then {} else {s}, c)
      ensures players[c].menu.Some? ==> s in flying && (players[c].handler.Vote? <==> s in voteLive) && s !in answered
      ensures StaysOpen(old(W()), W(), c)
    {
      hide World.Inv, World.Keeps, World.Close, Within, StaysOpen, Closed, LastVoter, Voids;
      ghost var w1 := W();
      WithinValid(w0, w1, {}, c);
      WithinCloses(w0, w1, {}, c);
      s := sess[c];
      ClosePlayer(c);
      CloseFrame(w1, c);
      StaysOpenSame(w1, W(), c);
      assert {} + {s} == {s};
      WithinValid(w0, W(), if players[c].menu.None? then {} else {s}, c);
    }

    /** The handler of a menu hears OnMenuCancel and OnMenuEnd, that of a panel OnMenuCancel. */
    method TellClosed(h: Handler, c: nat, panel: bool, ghost s: nat, ghost w0: World, steps: Steps)
      returns (left: Steps)
      requires Valid() && Within(w0, W(), if panel then {} else {s}, c)
      requires !panel ==> s in flying && (h.Vote? <==> s in voteLive) && s !in answered
      modifies this
      ensures Valid() && Within(w0, W(), {}, c) && NothingOpened() && Used(steps, left)
      ensures (!panel ==> s in ended) && StaysOpen(old(W()), W(), 0)
      ensures StaysIgnored(old(W()), W(), c)
      ensures !panel && steps.End? && h.Vote? && old(vote.started && vote.clients == 1) ==> vote.menu.None?
      ensures if panel then left == Rest(steps) && TellsFirst(OnPanelCancel(c))
              else HeardEnd(h, Rest(steps), left) && TellsFirst(OnMenuCancel(s)) && (h.Plugin? ==> Tells(OnMenuEnd(s)))
      ensures steps.End? ==> players == old(players)
      decreases StepsSize(steps), 5, 1
    {
      hide World.Inv, World.Keeps, Within, StaysOpen, Closed, LastVoter, Voids;
      ghost var w := W();
      if panel {
        left := Callback(OnPanelCancel(c), steps);
        WithinValid(w0, w, {}, c);
        WithinThen(w0, w, W(), {}, c);
        IgnoredStaysShut(w, W(), c);
      } else {
        left := Dismiss(h, c, s, w0, steps);
      }
    }

    /** Clear bInMenu and take the client off the watch list. */
    method ClosePlayer(c: nat)
      requires c < |players| == |sess|
      modifies this`players, this`watch, this`where, this`flying
      ensures W() == old(W()).Close(c)
    {
      var p := players[c];
      players := players[c := p.(inMenu := false)];
      if p.holdTime != 0 {
        watch := Without(watch, c);
      }
      if p.HasMenu() {
        where, flying := where - {sess[c]}, flying + {sess[c]};
      }
    }

    /** CBaseMenu::Cancel: the menu closes for every client that has it, and meanwhile opens for none. */
    method MenuCancel(menu: nat, steps: Steps) returns (left: Steps)
      requires Valid()
      modifies this
      ensures Passed() && Used(steps, left)
      ensures menu !in old(cancelling) ==> NobodyHas(W(), menu)
      decreases StepsSize(steps), 7
    {
      hide World.Inv, World.Keeps, StaysOpen, NobodyHas, Closed, LastVoter;
      ghost var w0 := W();
      left := steps;
      if menu in cancelling {
        NothingHappened(w0);
        return;
      }
      CancellingStep(w0, cancelling + {menu});
      var before := cancelling;
      cancelling := cancelling + {menu};
      ghost var w1 := W();
      left := CancelFinally(menu, steps);
      CancellingDone(w0, menu, W());
      CancellingStep(W(), before);
      NobodyStill(W(), menu, before);
      ghost var w2 := W().(cancelling := before);
      cancelling := before;
      assert W() == w2;
    }

    /** BaseMenuStyle::CancelMenu */
    method CancelFinally(menu: nat, steps: Steps) returns (left: Steps)
      requires Valid() && menu in cancelling
      modifies this
      ensures Passed() && Used(steps, left)
      ensures NobodyHas(W(), menu)
      decreases StepsSize(steps), 7, 0
    {
      hide World.Inv, World.Keeps, NobodyHasBelow, Closed, LastVoter, Grew;
      ghost var w1 := W();
      NothingHappened(w1);
      NobodyAtZero(w1, menu);
      NothingGrew(B());
      left := steps;
      for i := 1 to maxClients + 1
        invariant Passed() && Used(steps, left)
        invariant NobodyHasBelow(W(), menu, i)
      {
        ghost var w2, mid := W(), B();
        if players[i].inMenu && players[i].menu == Some(menu) {
          InvSessions(w2);
          left := CancelClient(i, false, left);
          GrewThen(old(B()), mid, B());
          KeepsTransitive(w1, w2, W());
          NobodyAfterCancel(w2, W(), menu, i);
        } else {
          NobodyAlready(w2, menu, i);
        }
      }
      NobodyAtAll(W(), menu);
    }

    /** A menu's Display: refused while the menu is being cancelled. */
    method Display(client: int, menu: nat, h: Handler, hold: nat, steps: Steps) returns (left: Steps, ok: bool)
      requires Valid() && MayDisplay(client, menu, h)
      modifies this
      ensures Kept() && Used(steps, left)
      ensures if menu in old(cancelling) then !ok && W() == old(W()) else old(next) < next
      ensures ok ==> IsClient(client) && OnScreen(client, menu, h, hold, old(next))
      ensures !ok && menu !in old(cancelling) ==> old(next) in ended
      ensures ok ==> !old(players[client].autoIgnore) && Yes(Started(h, steps))
      ensures menu !in old(cancelling) && (h.Vote? || Still(steps)) && IsClient(client)
              && !old(players[client].autoIgnore) && Yes(Started(h, steps)) ==>
                Shows(old(players[client]), Rest(Started(h, steps)), ok, left)
      decreases StepsSize(steps), 8
    {
      hide World.Inv, World.Keeps, Closed, LastVoter;
      if menu in cancelling {
        NothingHappened(W());
        return steps, false;
      }
      left, ok := DoClientMenu(client, menu, h, hold, steps);
      EndedIsOld(W(), old(next));
    }

    /** BaseMenuStyle::DoClientMenu for a menu: the session starts, and at once ends if the client cannot be
        shown anything. */
    method DoClientMenu(client: int, menu: nat, h: Handler, hold: nat, steps: Steps) returns (left: Steps, ok: bool)
      requires Valid() && MayDisplay(client, menu, h) && menu !in cancelling
      modifies this
      ensures Kept() && Used(steps, left)
      ensures ok ==> IsClient(client) && OnScreen(client, menu, h, hold, old(next))
      ensures !ok ==> old(next) in ended
      ensures ok ==> IsClient(client) && !old(players[client].autoIgnore) && Yes(Started(h, steps))
      ensures (h.Vote? || Still(steps))
              && IsClient(client) && !old(players[client].autoIgnore) && Yes(Started(h, steps)) ==>
                Shows(old(players[client]), Rest(Started(h, steps)), ok, left)
      decreases StepsSize(steps), 7, 5
    {
      hide World.Inv, World.Keeps, Within, StaysOpen, Closed, LastVoter;
      ghost var w0 := W();
      var c: nat := if IsClient(client) then client else 0;
      ghost var s;
      left, s := HandlerStart(h, c, steps);
      ghost var w1 := W();
      left, ok := ShowOrRefuse(client, menu, h, hold, s, w0, left);
      StaysOpenThen(w0, w1, W(), 0);
    }

    /** The session has started: unless the client is there and takes displays, it ends at once. */
    method ShowOrRefuse(client: int, menu: nat, h: Handler, hold: nat, ghost s: nat, ghost w0: World, steps: Steps)
      returns (left: Steps, ok: bool)
      requires Valid() && MayDisplay(client, menu, h) && menu !in cancelling && s >= w0.next
      requires Within(w0, W(), {s}, if IsClient(client) then client else 0)
      requires var c := if IsClient(client) then client else 0;
               c < |w0.players| && w0.players[c].autoIgnore == players[c].autoIgnore
      requires s in flying && (h.Vote? <==> s in voteLive) && s !in answered
      modifies this
      ensures Valid() && w0.Keeps(W()) && NothingOpened() && Used(steps, left) && StaysOpen(old(W()), W(), 0)
      ensures if ok then IsClient(client) && OnScreen(client, menu, h, hold, s) else s in ended
      ensures ok ==> IsClient(client) && !old(players[client].autoIgnore) && Yes(steps)
      ensures IsClient(client) && !old(players[client].autoIgnore) && Yes(steps) ==>
                Shows(old(players[client]), Rest(steps), ok, left)
      decreases StepsSize(steps), 7, 4
    {
      hide World.Inv, World.Keeps, Within, StaysOpen, Closed, LastVoter, Reports, Tells, Shows, OnScreen, MayDisplay,
           TellsFirst, Voids;
      ghost var w1 := W();
      var c: nat := if IsClient(client) then client else 0;
      WithinValid(w0, w1, {s}, c);
      var inGame;
      inGame, left := Ask(steps);
      if !IsClient(client) || !inGame || players[client].autoIgnore {
        left := Dismiss(h, c, s, w0, left);
        ok := false;
      } else {
        left, ok := ShowClientMenu(client, menu, h, hold, s, w0, left);
        StaysOpenAll(w1, W(), c);
      }
      WithinDone(w0, W(), c);
      WithinValid(w0, W(), {}, c);
    }

    /** The client has this menu open, as session `s`. */
    ghost predicate OnScreen(c: nat, menu: nat, h: Handler, hold: nat, s: nat)
      reads this
    {
      && W().Holds(c, s) && players[c].menu == Some(menu) && players[c].handler == h
      && players[c].holdTime == hold && players[c].startTime == curtime
    }

    predicate MayDisplay(client: int, menu: nat, h: Handler)
      reads this
    {
      h.Vote? ==>
        vote.menu == Some(menu) && (IsClient(client) && client < |vote.clientVotes| ==> vote.clientVotes[client] < 0)
    }

    /** The display itself: the old menu is cancelled, the new one rendered, and shown if that worked. */
    method ShowClientMenu(c: nat, menu: nat, h: Handler, hold: nat, ghost s: nat, ghost w0: World, steps: Steps)
      returns (left: Steps, ok: bool)
      requires Valid() && IsClient(c) && !players[c].autoIgnore && Within(w0, W(), {s}, c) && !w0.players[c].autoIgnore
      requires s in flying && (h.Vote? <==> s in voteLive) && s !in answered
      requires menu !in cancelling && MayDisplay(c, menu, h)
      requires s >= w0.next
      modifies this
      ensures Valid() && Within(w0, W(), {}, c) && NothingOpened() && Used(steps, left)
      ensures StaysOpen(old(W()), W(), c)
      ensures !players[c].autoIgnore
      ensures if ok then OnScreen(c, menu, h, hold, s) else s in ended
      ensures Shows(old(players[c]), steps, ok, left)
      decreases StepsSize(steps), 7, 3
    {
      hide World.Inv, World.Keeps, Within, StaysOpen, Closed, LastVoter, Voids;
      ghost var was := W();
      left, ok := Prepare(c, menu, h, s, w0, steps);
      ghost var w2 := W();
      if ok {
        assert {s} - {s} == {};
        Present(c, hold, s, {s}, w0);
        StaysOpenThen(was, w2, W(), c);
      } else {
        ghost var from := left;
        left := NotShown(c, h, s, w0, left);
        StaysOpenThen(was, w2, W(), c);
        assert Shows(was.players[c], steps, false, from) ==> Shows(was.players[c], steps, false, left);
      }
    }

    /** There was no page to show: the session ends. */
    method NotShown(c: nat, h: Handler, ghost s: nat, ghost w0: World, steps: Steps) returns (left: Steps)
      requires Valid() && IsClient(c) && !players[c].inMenu && Within(w0, W(), {s}, c) && !w0.players[c].autoIgnore
      requires s in flying && (h.Vote? <==> s in voteLive) && s !in answered
      modifies this
      ensures Valid() && Within(w0, W(), {}, c) && NothingOpened() && Used(steps, left)
      ensures StaysOpen(old(W()), W(), c) && !players[c].autoIgnore && s in ended
      decreases StepsSize(steps), 6
    {
      hide World.Inv, World.Keeps, Within, StaysOpen, Closed, LastVoter;
      ghost var w1 := W();
      WithinSets(w0, w1, {s}, c, players[c].(autoIgnore := false, inMenu := false));
      players := players[c := players[c].(autoIgnore := false, inMenu := false)];
      ghost var w2 := W();
      WithinValid(w0, w2, {s}, c);
      left := Dismiss(h, c, s, w0, steps);
      StaysOpenSame(w1, w2, c);
      StaysOpenThen(w1, w2, W(), c);
    }

    /** Up to and including the rendering. */
    method Prepare(c: nat, menu: nat, h: Handler, ghost s: nat, ghost w0: World, steps: Steps)
      returns (left: Steps, ok: bool)
      requires Valid() && IsClient(c) && !players[c].autoIgnore && Within(w0, W(), {s}, c) && !w0.players[c].autoIgnore
      requires s in flying && (h.Vote? <==> s in voteLive) && s !in answered
      requires menu !in cancelling && MayDisplay(c, menu, h)
      modifies this
      ensures Valid() && Within(w0, W(), {s}, c) && NothingOpened() && Used(steps, left)
      ensures StaysOpen(old(W()), W(), c)
      ensures s in flying && (h.Vote? <==> s in voteLive) && s !in answered && menu !in cancelling
              && MayDisplay(c, menu, h)
      ensures players[c].autoIgnore && !players[c].inMenu && players[c].menu == Some(menu) && players[c].handler == h
      ensures Shows(old(players[c]), steps, ok, left)
      decreases StepsSize(steps), 7, 2
    {
      hide World.Inv, World.Keeps, Within, StaysOpen, Closed, LastVoter, Voids, Grew, Shows, Cleared;
      ghost var was, book := W(), B();
      left := Assign(c, menu, h, s, w0, steps);
      ghost var from, w1, mid := left, W(), B();
      ok, left := Render(c, h, s, left);
      WithinThen(w0, w1, W(), {s}, c);
      IgnoredStaysShut(w1, W(), c);
      KeepsFrame(w1, W());
      VoteStays(w1, W(), s, h);
      StaysOpenThen(was, w1, W(), c);
      ClearedShows(was.players[c], steps, from, ok, left);
      GrewThen(book, mid, B());
    }

    /** What the client has open is closed, and the menu takes its place. */
    method Assign(c: nat, menu: nat, h: Handler, ghost s: nat, ghost w0: World, steps: Steps) returns (left: Steps)
      requires Valid() && IsClient(c) && !players[c].autoIgnore && Within(w0, W(), {s}, c) && !w0.players[c].autoIgnore
      requires s in flying && (h.Vote? <==> s in voteLive) && s !in answered
      requires menu !in cancelling && MayDisplay(c, menu, h)
      modifies this
      ensures Valid() && Within(w0, W(), {s}, c) && NothingOpened() && Used(steps, left)
      ensures StaysOpen(old(W()), W(), c)
      ensures s in flying && (h.Vote? <==> s in voteLive) && s !in answered && menu !in cancelling
              && MayDisplay(c, menu, h)
      ensures players[c].autoIgnore && !players[c].inMenu && players[c].menu == Some(menu) && players[c].handler == h
      ensures Cleared(old(players[c]), steps, left)
      decreases StepsSize(steps), 7, 1
    {
      hide World.Inv, World.Keeps, Within, StaysOpen, Closed, LastVoter, Voids, Grew, Cleared, TellsClosed;
      ghost var was, w := W(), Ignoring(W(), c);
      left := Replace(c, {s}, w0, steps);
      ghost var wr := W();
      KeepsFrame(w, wr);
      VoteStays(w, wr, s, h);
      ChoicesOnlyDrop(w, wr, c);
      WithinSets(w0, wr, {s}, c, players[c].(menu := Some(menu), handler := h));
      players := players[c := players[c].(menu := Some(menu), handler := h)];
      ghost var w1 := W();
      WithinValid(w0, w1, {s}, c);
      StaysOpenSame(wr, w1, c);
      StaysOpenThen(was, wr, w1, c);
    }

    static ghost function Ignoring(w: World, c: nat): World
      requires c < |w.players|
    {
      w.SetPlayer(c, w.players[c].(autoIgnore := true))
    }

    /** Displays to the client are ignored from here on, and whatever it has open is cancelled. */
    method Replace(c: nat, ghost mine: set<nat>, ghost w0: World, steps: Steps) returns (left: Steps)
      requires Valid() && IsClient(c) && Within(w0, W(), mine, c) && !w0.players[c].autoIgnore
      modifies this
      ensures Valid() && Within(w0, W(), mine, c) && NothingOpened() && Used(steps, left)
      ensures players[c].autoIgnore && !players[c].inMenu && Ignoring(old(W()), c).Keeps(W())
              && StaysOpen(old(W()), W(), c)
      ensures Cleared(old(players[c]), steps, left) && (old(players[c].inMenu) ==> TellsClosed(c))
      decreases StepsSize(steps), 7, 0
    {
      hide World.Inv, World.Keeps, Within, Closed, LastVoter;
      WithinSets(w0, W(), mine, c, players[c].(autoIgnore := true));
      players := players[c := players[c].(autoIgnore := true)];
      ghost var w1 := W();
      WithinValid(w0, w1, mine, c);
      NothingHappened(w1);
      left := steps;
      if players[c].inMenu {
        left := CancelClient(c, true, steps);
        WithinThen(w0, w1, W(), mine, c);
        IgnoredStaysShut(w1, W(), c);
      }
    }

    /** The menu or panel goes on the screen, and displays are no longer ignored. */
    method Present(c: nat, hold: nat, ghost s: nat, ghost mine: set<nat>, ghost w0: World)
      requires Within(w0, W(), mine, c) && c > 0 && !players[c].inMenu && !w0.players[c].autoIgnore
      requires |players| == maxClients + 1 == |vote.clientVotes| && Alive()
      requires players[c].menu.Some? ==>
                 && players[c].menu.value !in cancelling && s >= w0.next
                 && (players[c].handler.Vote? ==> players[c].menu == vote.menu)
                 && s in mine && s !in answered && (s in voteLive <==> players[c].handler.Vote?)
                 && (players[c].handler.Vote? && vote.menu.Some? ==> vote.clientVotes[c] < 0)
      modifies this`players, this`watch, this`sess, this`where, this`flying
      ensures Valid() && Within(w0, W(), if old(players[c].menu).Some? then mine - {s} else mine, c)
      ensures players[c] == old(players[c]).(inMenu := true, holdTime := hold, startTime := curtime,
                                             autoIgnore := false)
      ensures old(players[c].menu).Some? ==> W().Holds(c, s)
      ensures StaysOpen(old(W()), W(), c)
    {
      hide World.Inv, World.Keeps, Within, Closed, LastVoter;
      ghost var w := W();
      WithinValid(w0, w, mine, c);
      ghost var left := if players[c].menu.Some? then mine - {s} else mine;
      WithinShows(w0, w, mine, c, hold, s);
      PutOnScreen(c, hold, s);
      WithinSets(w0, W(), left, c, players[c].(autoIgnore := false));
      players := players[c := players[c].(autoIgnore := false)];
      WithinValid(w0, W(), left, c);
    }

    method PutOnScreen(c: nat, hold: nat, ghost s: nat)
      requires c < |players| == |sess|
      modifies this`players, this`watch, this`sess, this`where, this`flying
      ensures W() == old(W()).Show(c, hold, s)
    {
      players := players[c := players[c].(inMenu := true, holdTime := hold, startTime := curtime)];
      if hold != 0 {
        watch := watch + [c];
      }
      if players[c].menu.Some? {
        sess, where, flying := sess[c := s], where[s := c], flying - {s};
      }
    }

    /** MenuManager::RenderMenu, as far as callbacks go: the items are drawn, and if there is a page to
        show the handler hears of it, which puts the client in the vote pool. */
    method Render(c: nat, h: Handler, ghost s: nat, steps: Steps) returns (shown: bool, left: Steps)
      requires Valid() && IsClient(c) && s in flying && (h.Vote? <==> s in voteLive)
      requires h.Vote? ==> vote.clientVotes[c] < 0
      modifies this
      ensures Kept() && Used(steps, left)
      ensures s in flying && (h.Vote? <==> s in voteLive) && (h.Vote? ==> vote.clientVotes[c] < 0)
      ensures s in answered <==> s in old(answered)
      ensures shown == HasPage(steps) && left == AfterPage(steps)
      ensures |log| >= |old(log)| + ItemsAsked(steps) + if shown then 1 else 0
      decreases StepsSize(steps), 2
    {
      hide World.Inv, World.Keeps, StaysOpen, Closed, LastVoter, Voids, Grew;
      ghost var w, book := W(), B();
      var orphaned;
      orphaned, left := DrawItems(c, h, steps);
      FlyingStays(w, W(), s);
      ChoicesOnlyDrop(w, W(), c);
      VoteStays(w, W(), s, h);
      HasHandler(w, s);
      assert !orphaned;
      shown, left := Ask(left);
      if shown {
        ghost var w1, mid := W(), B();
        orphaned, left := TellDisplayed(c, h, left);
        assert !orphaned;
        FlyingStays(w1, W(), s);
        ChoicesOnlyDrop(w1, W(), c);
        BothHappened(w, w1, W());
        GrewThen(book, mid, B());
      }
    }

    /** OnMenuDisplay, on which the vote handler puts the client in the pool before it passes it on. */
    method TellDisplayed(c: nat, h: Handler, steps: Steps) returns (orphaned: bool, left: Steps)
      requires Valid() && IsClient(c) && (h.Vote? ==> vote.clientVotes[c] < 0)
      modifies this
      ensures Kept() && Used(steps, left)
      ensures orphaned <==> h.Vote? && old(vote.menu).None?
      ensures orphaned ==> vote.menu.None?
      ensures !orphaned ==> left == Rest(steps) && |old(log)| < |log| && log[|old(log)|].what == OnMenuDisplay(c)
      decreases StepsSize(steps), 1
    {
      hide World.Inv, World.Keeps, StaysOpen, Closed, LastVoter, Grew;
      ghost var w := W();
      if h.Vote? {
        PendStep(w, c, VOTE_PENDING);
        vote := vote.(clientVotes := vote.clientVotes[c := VOTE_PENDING]);
        assert W() == w.SetVote(c, VOTE_PENDING);
      }
      ghost var w1 := W();
      StaysOpenSame(w, w1, 0);
      NothingGrew(B());
      if h.Vote? && vote.menu.None? {
        return true, steps;
      }
      if h.Plugin? {
        NothingHappened(w);
      }
      orphaned := false;
      left := Callback(OnMenuDisplay(c), steps);
      BothHappened(w, w1, W());
    }

    /** The handler is asked about items, one after another: about which depends on the menu and on the answers.
        The vote handler passes each question on; if the vote is over there is nobody to pass it to. */
    method DrawItems(c: nat, h: Handler, steps: Steps) returns (orphaned: bool, left: Steps)
      requires Valid() && IsClient(c)
      modifies this
      ensures Kept() && Used(steps, left)
      ensures orphaned ==> h.Vote? && vote.menu.None?
      ensures steps == NoPage(Closing(c)) && (h.Vote? ==> old(vote.menu).Some?) ==>
                !orphaned && !players[c].inMenu && left == Step(Done, false, End)
      ensures steps == TwoItems(Closing(c)) && h.Vote? && old(LastVoter(c) && vote.menu.Some?) ==> orphaned
      ensures !orphaned ==> left == AfterItems(steps) && |log| >= |old(log)| + ItemsAsked(steps)
      decreases StepsSize(steps), 1
    {
      hide World.Inv, World.Keeps, StaysOpen, Closed, Drawing, Traced;
      ghost var w, o, b := W(), opening, B();
      var more;
      more, left := Ask(steps);
      DrawingStarts(c, h, steps);
      orphaned := false;
      while more
        invariant Drawing(w, o, b, steps, left, more) && Traced(w, c, h, steps, left, more)
        decreases StepsSize(left), more
      {
        if h.Vote? && vote.menu.None? {
          orphaned := true;
          break;
        }
        more, left := DrawItem(w, o, b, c, h, steps, left);
      }
      DrawingDone(w, o, b, c, h, steps, left, more);
    }

    /** Part way through the items of a page: where the drawing began, and what is left. */
    ghost predicate Drawing(w: World, o: bool, b: Book, steps: Steps, left: Steps, more: bool)
      reads this
    {
      && Valid() && w.Inv() && w.Keeps(W()) && StaysOpen(w, W(), 0)
      && (opening ==> o && nextVote == w.nextVote && vote.started == w.vote.started)
      && StepsSize(left) <= StepsSize(steps) && w.cuts <= cuts
      && (GentleSteps(steps) ==> GentleSteps(left) && cuts == w.cuts)
      && (more ==> StepsSize(left) < StepsSize(steps))
      && AfterItems(steps) == (if more then AfterItems(Rest(left)) else left)
      && Grew(b, B()) && |log| + (if more then 1 + ItemsAsked(Rest(left)) else 0) >= |b.log| + ItemsAsked(steps)
    }

    /** How the two drawings that go wrong go on. */
    ghost predicate Traced(w: World, c: nat, h: Handler, steps: Steps, left: Steps, more: bool)
      reads this
    {
      && IsClient(c) && c < |players|
      && (steps == NoPage(Closing(c)) && (h.Vote? ==> w.vote.menu.Some?) ==>
            if more then left == steps.tail && W() == w else !players[c].inMenu && left == Step(Done, false, End))
      && (steps == TwoItems(Closing(c)) && h.Vote? && LastVoterIn(w, c) && w.vote.menu.Some? ==>
            more && if left == steps.tail then W() == w else vote.menu.None?)
    }

    lemma DrawingStarts(c: nat, h: Handler, steps: Steps)
      requires Valid() && IsClient(c)
      ensures Drawing(W(), opening, B(), steps, Rest(steps), Yes(steps))
              && Traced(W(), c, h, steps, Rest(steps), Yes(steps))
    {
      hide World.Inv, World.Keeps, StaysOpen;
      NothingHappened(W());
    }

    lemma DrawingDone(w: World, o: bool, b: Book, c: nat, h: Handler, steps: Steps, left: Steps, more: bool)
      requires Drawing(w, o, b, steps, left, more) && Traced(w, c, h, steps, left, more)
      requires more ==> h.Vote? && vote.menu.None?
      ensures Valid() && w.Keeps(W()) && StaysOpen(w, W(), 0)
      ensures opening ==> o && nextVote == w.nextVote && vote.started == w.vote.started
      ensures StepsSize(left) <= StepsSize(steps) && w.cuts <= cuts
              && (GentleSteps(steps) ==> GentleSteps(left) && cuts == w.cuts)
      ensures !more ==> left == AfterItems(steps)
      ensures Grew(b, B()) && (!more ==> |log| >= |b.log| + ItemsAsked(steps))
      ensures steps == NoPage(Closing(c)) && (h.Vote? ==> w.vote.menu.Some?) ==>
                !more && c < |players| && !players[c].inMenu && left == Step(Done, false, End)
      ensures steps == TwoItems(Closing(c)) && h.Vote? && LastVoterIn(w, c) && w.vote.menu.Some? ==> more
    {
      hide World.Inv, World.Keeps, StaysOpen;
    }

    /** One item is asked about. */
    method DrawItem(ghost w: World, ghost o: bool, ghost b: Book, c: nat, h: Handler, ghost steps: Steps, from: Steps)
      returns (more: bool, left: Steps)
      requires Drawing(w, o, b, steps, from, true) && Traced(w, c, h, steps, from, true)
               && (h.Vote? ==> vote.menu.Some?)
      modifies this
      ensures Drawing(w, o, b, steps, left, more) && Traced(w, c, h, steps, left, more)
      ensures StepsSize(left) <= StepsSize(from) && (more ==> StepsSize(left) < StepsSize(from))
      decreases StepsSize(from), 1
    {
      hide World.Inv, World.Keeps, StaysOpen, Voids, Grew;
      ghost var w1, b1 := W(), B();
      var rest := Callback(OnMenuDrawItem(c), from);
      BothHappened(w, w1, W());
      GrewThen(b, b1, B());
      more, left := Ask(rest);
    }

    /** BaseMenuStyle::DoClientMenu for a panel, which has no OnMenuStart and no OnMenuEnd. */
    method DoClientPanel(client: int, hold: nat, steps: Steps) returns (left: Steps, ok: bool)
      requires Valid()
      modifies this
      ensures Kept() && Used(steps, left)
      ensures ok <==> IsClient(client) && Yes(steps) && !old(players[client].autoIgnore)
      ensures ok ==>
                && players[client].inMenu && players[client].menu.None? && players[client].holdTime == hold
      ensures !ok ==> W() == old(W())
      decreases StepsSize(steps), 8
    {
      hide World.Inv, World.Keeps, Within, StaysOpen, Closed, LastVoter;
      ghost var w0 := W();
      NothingHappened(w0);
      var inGame;
      inGame, left := Ask(steps);
      ok := IsClient(client) && inGame && !players[client].autoIgnore;
      if ok {
        left := ShowPanel(client, hold, left);
      }
    }

    /** The panel replaces what the client has open. */
    method ShowPanel(c: nat, hold: nat, steps: Steps) returns (left: Steps)
      requires Valid() && IsClient(c) && !players[c].autoIgnore
      modifies this
      ensures Kept() && Used(steps, left)
      ensures players[c].inMenu && players[c].menu.None? && players[c].holdTime == hold
      decreases StepsSize(steps), 7, 1
    {
      hide World.Inv, World.Keeps, Within, StaysOpen, Closed, LastVoter, Voids;
      ghost var w0 := W();
      WithinStart(w0, c);
      left := Replace(c, {}, w0, steps);
      ghost var w1 := W();
      WithinSets(w0, w1, {}, c, players[c].(menu := None, handler := Plugin));
      players := players[c := players[c].(menu := None, handler := Plugin)];
      ghost var w2 := W();
      Present(c, hold, 0, {}, w0);
      WithinDone(w0, W(), c);
      StaysOpenSame(w1, w2, c);
      StaysOpenThen(w0, w1, w2, c);
      StaysOpenThen(w0, w2, W(), c);
      StaysOpenAll(w0, W(), c);
    }

    /** VoteMenuHandler::CancelVoting */
    method CancelVote(steps: Steps) returns (left: Steps)
      requires Valid()
      modifies this
      ensures Passed() && Used(steps, left)
      ensures old(vote.menu.Some? && !vote.cancelled && vote.menu.value !in cancelling) ==>
                NobodyHas(W(), old(vote.menu).value)
      ensures old(vote.menu.Some? && !vote.cancelled) ==> old(cancels) < cancels
      decreases StepsSize(steps), 8
    {
      hide World.Inv, World.Keeps, NobodyHas, Closed, LastVoter;
      ghost var w := W();
      NothingHappened(w);
      if vote.cancelled || vote.menu.None? {
        return steps;
      }
      CancelledKeeps(w);
      vote, cancels := vote.(cancelled := true), cancels + 1;
      ghost var w1 := W();
      left := MenuCancel(vote.menu.value, steps);
      KeepsTransitive(w, w1, W());
    }

    /** VoteMenuHandler::StartVote: refused while a vote is on; otherwise the menu goes to each client named,
        and then the vote is open. */
    method BeginVote(menu: nat, items: nat, clients: seq<int>, hold: nat, noRevotes: bool, steps: Steps)
      returns (left: Steps, ok: bool, ghost given: seq<Option<nat>>)
      requires Valid()
      modifies this
      ensures Kept() && Used(steps, left)
      ensures ok <==> old(vote.menu).None?
      ensures if ok then nextVote > old(nextVote) else W() == old(W()) && log == old(log)
      ensures ok && menu !in old(cancelling) ==> Given(W(), old(next), clients, given)
      ensures ok ==>
                && |old(log)| < |log| && log[|old(log)|].what == OnVoteMenuStart(old(nextVote))
                && Tells(OnMenuVoteStart(old(nextVote)))
      ensures ok && nextVote == old(nextVote) + 1 ==>
                this.noRevotes == noRevotes && (vote.menu.None? || (vote.menu == Some(menu) && vote.items == items))
      ensures old(vote.menu).None? ==> !opening
      ensures ok && |clients| == 1 && old(CanShow(clients[0])) && menu !in old(cancelling) && OneVoter(steps) ==>
                vote.menu == Some(menu)
      decreases StepsSize(steps), 9, 4
    {
      hide World.Inv, World.Keeps, StaysOpen, Closed, LastVoter, SessionsStay, Given, Reports, Grew, Voids, ToldSince;
      ghost var w0 := W();
      NothingHappened(w0);
      NothingGrew(B());
      given := [];
      if vote.menu.Some? {
        return steps, false, given;
      }
      ok := true;
      InitializeVoting(menu, items, noRevotes);
      ghost var w1, mid := W(), B();
      NewVoteGrew(old(B()), mid);
      left, given := Announce(menu, clients, hold, w0, steps);
      StaysOpenThen(w0, w1, W(), 0);
      GrewThen(old(B()), mid, B());
    }

    /** The plugin hears that the vote begins, the menu goes to the clients, and the vote is open. */
    method Announce(menu: nat, clients: seq<int>, hold: nat, ghost w0: World, steps: Steps)
      returns (left: Steps, ghost given: seq<Option<nat>>)
      requires Valid() && vote.menu == Some(menu) && !vote.started && nextVote > 0
      requires forall c :: 0 <= c <= maxClients ==> vote.clientVotes[c] < 0
      requires w0.Inv() && w0.vote.menu.None? && w0.Keeps(W())
      modifies this
      ensures Valid() && w0.Keeps(W()) && !opening && Used(steps, left) && StaysOpen(old(W()), W(), 0)
      ensures menu !in old(cancelling) ==> Given(W(), old(next), clients, given)
      ensures TellsFirst(OnVoteMenuStart(old(nextVote) - 1)) && Tells(OnMenuVoteStart(old(nextVote) - 1))
      ensures nextVote >= old(nextVote)
      ensures nextVote == old(nextVote) ==>
                noRevotes == old(noRevotes)
                  && (vote.menu.None? || (vote.menu == Some(menu) && vote.items == old(vote.items)))
      ensures |clients| == 1 && old(CanShow(clients[0])) && menu !in old(cancelling) && OneVoter(steps) ==>
                vote.menu == Some(menu)
      decreases StepsSize(steps), 9, 3
    {
      hide World.Inv, World.Keeps, StaysOpen, Closed, LastVoter, SessionsStay, Given, Reports, Voids, ToldSince;
      ghost var w1 := W();
      left := Callback(OnVoteMenuStart(nextVote - 1), steps);
      ghost var w2 := W();
      PendingVoteStays(w1, w2);
      KeepsFrame(w1, w2);
      ghost var m := |log|;
      left, given := Poll(menu, clients, hold, w0, w1, left);
      ToldBefore(log, m, |old(log)|, OnMenuVoteStart(old(nextVote) - 1));
      StaysOpenThen(w1, w2, W(), 0);
      if menu !in old(cancelling) {
        GivenFrom(W(), w2.next, old(next), clients, given);
      }
    }

    /** The menu goes to the clients, and the vote is open. */
    method Poll(menu: nat, clients: seq<int>, hold: nat, ghost w0: World, ghost w1: World, steps: Steps)
      returns (left: Steps, ghost given: seq<Option<nat>>)
      requires Valid() && w1.Inv() && w1.Keeps(W()) && w1.vote.menu == Some(menu) && !w1.vote.started
      requires |w1.vote.clientVotes| == maxClients + 1
      requires forall c :: 0 <= c <= maxClients ==> w1.vote.clientVotes[c] < 0
      requires w0.Inv() && w0.vote.menu.None? && w0.Keeps(w1)
      modifies this
      ensures Valid() && w0.Keeps(W()) && !opening && Used(steps, left) && StaysOpen(old(W()), W(), 0)
      ensures menu !in old(cancelling) ==> Given(W(), old(next), clients, given)
      ensures old(nextVote) > 0 && Tells(OnMenuVoteStart(old(nextVote) - 1))
      ensures |clients| == 1 && old(CanShow(clients[0])) && menu !in old(cancelling) && Displays(Vote, steps)
              && Still(AfterDisplay(Vote, steps)) ==>
                vote.menu == Some(menu)
      decreases StepsSize(steps), 9, 2
    {
      hide World.Inv, World.Keeps, StaysOpen, Closed, LastVoter, SessionsStay, Given, Reports, TellsOutcome;
      ghost var w2 := W();
      PendingVoteStays(w1, w2);
      left, given := DisplayVote(menu, clients, hold, w1, steps);
      ghost var w3 := W();
      PendingVoteStays(w1, w3);
      KeepsTransitive(w0, w1, w3);
      ghost var m := |log|;
      left := StartVoting(w0, left);
      assert log[m].what == OnMenuVoteStart(old(nextVote) - 1);
      StaysOpenThen(w2, w3, W(), 0);
      if menu !in old(cancelling) {
        GivenStays(w3, W(), w2.next, clients, given);
      }
    }

    /** VoteMenuHandler::InitializeVoting, up to its callback. */
    method InitializeVoting(menu: nat, items: nat, noRevotes: bool)
      requires Valid() && vote.menu.None?
      modifies this`vote, this`noRevotes, this`nextVote, this`opening
      ensures Valid() && old(W()).Keeps(W()) && StaysOpen(old(W()), W(), 0) && nextVote == old(nextVote) + 1
      ensures vote.menu == Some(menu) && vote.items == items && !vote.started && !vote.cancelled && vote.clients == 0
      ensures forall c :: 0 <= c <= maxClients ==> vote.clientVotes[c] == VOTE_NOT_VOTING
      ensures this.noRevotes == noRevotes
    {
      hide World.Inv, World.Keeps, Closed, LastVoter;
      ghost var w0 := W();
      var votes := ClearVotes(vote.votes, items);
      AcceptStep(w0, menu, items, votes);
      Accept(menu, items, votes, noRevotes);
    }

    method Accept(menu: nat, items: nat, votes: seq<nat>, noRevotes: bool)
      modifies this`vote, this`noRevotes, this`nextVote, this`opening
      ensures W() == Accepted(old(W()), menu, items, votes) && this.noRevotes == noRevotes && opening
    {
      vote := VoteState(0, false, false, Some(menu), items, votes, NobodyAsked(|vote.clientVotes|));
      this.noRevotes := noRevotes;
      nextVote, opening := nextVote + 1, true;
    }

    /** A client with nothing open to which displays are not ignored. */
    predicate CanShow(client: int)
      reads this`players
    {
      IsClient(client) && client < |players| && !players[client].inMenu && !players[client].autoIgnore
    }

    /** The menu goes to each client named, skipping what cannot be one. */
    method DisplayVote(menu: nat, clients: seq<int>, hold: nat, ghost w1: World, steps: Steps)
      returns (left: Steps, ghost given: seq<Option<nat>>)
      requires Valid() && w1.Inv() && w1.Keeps(W()) && w1.vote.menu == Some(menu) && !w1.vote.started
      requires |w1.vote.clientVotes| == maxClients + 1
      requires forall c :: 0 <= c <= maxClients ==> w1.vote.clientVotes[c] < 0
      modifies this
      ensures Valid() && w1.Keeps(W()) && Used(steps, left) && StaysOpen(old(W()), W(), 0)
      ensures menu !in old(cancelling) ==> Given(W(), old(next), clients, given)
      ensures |clients| == 1 && old(CanShow(clients[0])) && menu !in old(cancelling) && Displays(Vote, steps) ==>
                vote.clients > 0 && left == AfterDisplay(Vote, steps)
      decreases StepsSize(steps), 9, 1
    {
      hide World.Inv, World.Keeps, StaysOpen, Closed, LastVoter, Given, SessionsStay, HeldOrEnded;
      left, given := steps, [];
      NoneGiven(W(), next);
      AtMost256(w1);
      KeepsFrame(w1, W());
      StaysOpenSame(W(), W(), 0);
      for i := 0 to |clients|
        invariant Valid() && w1.Keeps(W()) && Used(steps, left) && cancelling == old(cancelling)
        invariant StaysOpen(old(W()), W(), 0)
        invariant old(next) <= next && |given| == i
        invariant menu !in cancelling ==> Given(W(), old(next), clients[..i], given)
        invariant i == 0 ==> left == steps && W() == old(W())
        invariant i == 1 && old(CanShow(clients[0])) && menu !in cancelling && Displays(Vote, steps) ==>
                    vote.clients > 0 && left == AfterDisplay(Vote, steps)
      {
        assert clients[..i + 1] == clients[..i] + [clients[i]];
        ghost var w := W();
        ghost var s: Option<nat> := None;
        if 1 <= clients[i] <= 256 {
          left := ShowBallot(clients[i], menu, hold, w1, left);
          StaysOpenThen(old(W()), w, W(), 0);
          s := Some(w.next);
        } else {
          SessionsStaySame(w, W());
        }
        if menu !in cancelling {
          GivenBefore(w, old(next), clients[..i], given);
          GivenStays(w, W(), old(next), clients[..i], given);
          GivenMore(W(), old(next), clients[..i], given, clients[i], s, w.next);
        }
        given := given + [s];
      }
      assert clients[..|clients|] == clients;
    }

    method ShowBallot(client: int, menu: nat, hold: nat, ghost w1: World, steps: Steps) returns (left: Steps)
      requires Valid() && w1.Inv() && w1.Keeps(W()) && w1.vote.menu == Some(menu) && !w1.vote.started
      requires |w1.vote.clientVotes| == maxClients + 1
      requires forall c :: 0 <= c <= maxClients ==> w1.vote.clientVotes[c] < 0
      modifies this
      ensures Valid() && w1.Keeps(W()) && Used(steps, left) && StaysOpen(old(W()), W(), 0)
              && cancelling == old(cancelling)
      ensures SessionsStay(old(W()), W()) && next >= old(next)
      ensures menu !in old(cancelling) ==> next > old(next) && HeldOrEnded(W(), client, old(next))
      ensures old(CanShow(client)) && menu !in old(cancelling) && Displays(Vote, steps) ==>
                vote.clients > 0 && left == AfterDisplay(Vote, steps)
      decreases StepsSize(steps), 9, 0
    {
      hide World.Inv, World.Keeps, StaysOpen, Closed, LastVoter;
      ghost var w := W();
      PendingVoteStays(w1, w);
      if IsClient(client) {
        ChoicesOnlyDrop(w1, w, client);
      }
      var ok;
      left, ok := Display(client, menu, Vote, hold, steps);
      if ok {
        OpenVoteCounts(W(), client);
      }
      KeptSessionsStay(w, W());
      KeepsTransitive(w1, w, W());
      KeepsFrame(w, W());
    }

    /** The item totals are cleared, as far as they will be used. */
    method ClearVotes(totals: seq<nat>, items: nat) returns (votes: seq<nat>)
      ensures |votes| == if items > |totals| then items else |totals|
      ensures forall i :: 0 <= i < items ==> votes[i] == 0
    {
      votes := totals;
      var n := if |votes| < items then |votes| else items;
      for i := 0 to n
        invariant |votes| == |totals| && forall j :: 0 <= j < i ==> votes[j] == 0
      {
        votes := votes[i := 0];
      }
      if |votes| < items {
        votes := votes + seq(items - |votes|, _ => 0);
      }
    }

    /** The vote counts from here on; if nobody has its menu it is over at once. */
    method StartVoting(ghost w0: World, steps: Steps) returns (left: Steps)
      requires Valid() && vote.menu.Some? && !vote.started && w0.Inv() && w0.vote.menu.None? && w0.Keeps(W())
      modifies this
      ensures Valid() && w0.Keeps(W()) && !opening && Used(steps, left) && StaysOpen(old(W()), W(), 0)
      ensures nextVote >= old(nextVote) && SessionsStay(old(W()), W()) && old(nextVote) > 0
      ensures |old(log)| < |log| && log[|old(log)|].what == OnMenuVoteStart(old(nextVote) - 1)
      ensures Still(steps) && old(vote.clients) > 0 ==> vote.menu == old(vote.menu)
      decreases StepsSize(steps), 8
    {
      hide World.Inv, World.Keeps, StaysOpen, Closed, LastVoter, SessionsStay, Reports;
      ghost var w := W();
      left := OpenVote(w0, steps);
      ghost var w2 := W();
      if vote.started {
        left := EndIfDeserted(w0, left);
        SessionsStayThen(w, w2, W());
        StaysOpenThen(w, w2, W(), 0);
      }
      opening := false;
    }

    /** The vote is open, and the plugin hears of it. */
    method OpenVote(ghost w0: World, steps: Steps) returns (left: Steps)
      requires Valid() && vote.menu.Some? && !vote.started && w0.Inv() && w0.vote.menu.None? && w0.Keeps(W())
      modifies this
      ensures Valid() && w0.Keeps(W()) && Used(steps, left) && StaysOpen(old(W()), W(), 0)
      ensures nextVote >= old(nextVote) && SessionsStay(old(W()), W()) && old(nextVote) > 0
      ensures |old(log)| < |log| && log[|old(log)|].what == OnMenuVoteStart(old(nextVote) - 1)
      ensures vote.menu.Some? ==> vote.started
      ensures Still(steps) ==> W() == old(W()).(vote := old(vote).(started := true))
      decreases StepsSize(steps), 6
    {
      hide World.Inv, World.Keeps, Closed, LastVoter, SessionsStay, Reports;
      ghost var w := W();
      FlagsStep(w, true, vote.cancelled);
      VoteHasNumber(w);
      StartedKeeps(w0, w, true);
      vote := vote.(started := true);
      ghost var w1 := W();
      assert w1 == w.(vote := w.vote.(started := true, cancelled := w.vote.cancelled));
      left := Callback(OnMenuVoteStart(nextVote - 1), steps);
      KeepsTransitive(w0, w1, W());
      VotesGrow(w1, W());
      KeepsFrame(w1, W());
      SessionsStaySame(w, w1);
      KeptSessionsStay(w1, W());
      SessionsStayThen(w, w1, W());
    }

    method EndIfDeserted(ghost w0: World, steps: Steps) returns (left: Steps)
      requires Valid() && vote.started && w0.Inv() && w0.Keeps(W())
      modifies this
      ensures Valid() && w0.Keeps(W()) && Used(steps, left) && StaysOpen(old(W()), W(), 0)
      ensures nextVote >= old(nextVote) && SessionsStay(old(W()), W()) && NothingOpened()
      ensures vote.menu.Some? ==> vote.started && vote.clients > 0
      ensures old(vote.clients) > 0 ==> W() == old(W())
      decreases StepsSize(steps), 7
    {
      hide World.Inv, World.Keeps, Closed, LastVoter, SessionsStay, Reports;
      ghost var w2 := W();
      StartedHasMenu(w2);
      NothingHappened(w2);
      KeptSessionsStay(w2, w2);
      left := steps;
      if vote.clients == 0 {
        var rest, _ := EndVoting(left);
        left := rest;
        KeepsTransitive(w0, w2, W());
        KeptSessionsStay(w2, W());
        VotesGrow(w2, W());
        KeepsFrame(w2, W());
      }
    }

    /** VoteMenuHandler::RedrawToClient: a choice already made is taken back, if that is allowed. */
    method RedrawToClient(client: int, revotes: bool, hold: nat, steps: Steps) returns (left: Steps, ok: bool)
      requires Valid()
      modifies this
      ensures Kept() && Used(steps, left)
      ensures !old(MayRedraw(client, revotes)) ==> !ok && W() == old(W()) && log == old(log)
      ensures old(MayRedraw(client, revotes)) <==>
                && 1 <= client <= maxClients && old(vote.menu).Some? && old(vote.clientVotes)[client] >= -1
                && (old(vote.clientVotes)[client] < 0 || (revotes && !old(noRevotes)))
      ensures old(MayRedraw(client, revotes)) ==> vote.clientVotes[client] < 0
      ensures old(MayRedraw(client, revotes) && vote.menu.value !in cancelling) ==>
                old(next) < next && (!ok ==> old(next) in ended)
      ensures ok ==> OnScreen(client, old(vote.menu).value, Vote, hold, old(next))
      decreases StepsSize(steps), 9
    {
      hide World.Inv, World.Keeps, Closed, LastVoter;
      ghost var w := W();
      NothingHappened(w);
      if !MayRedraw(client, revotes) {
        return steps, false;
      }
      Unchoose(client);
      ghost var w1 := W();
      left, ok := Display(client, vote.menu.value, Vote, hold, steps);
      ChoicesOnlyDrop(w1, W(), client);
      KeepsTransitive(w, w1, W());
    }

    /** IsClientInVotePool */
    predicate InPool(client: int)
      reads this
      requires |vote.clientVotes| == maxClients + 1
    {
      IsClient(client) && vote.menu.Some? && vote.clientVotes[client] > VOTE_NOT_VOTING
    }

    predicate MayRedraw(client: int, revotes: bool)
      reads this
      requires |vote.clientVotes| == maxClients + 1
    {
      InPool(client) && (vote.clientVotes[client] >= 0 ==> revotes && !noRevotes)
    }

    /** A choice the client has made no longer counts, and it is pending again. */
    method Unchoose(c: nat)
      requires Valid() && InPool(c)
      modifies this`vote
      ensures Kept() && next == old(next) && cancelling == old(cancelling)
      ensures vote.menu == old(vote.menu) && vote.clientVotes == old(vote.clientVotes)[c := VOTE_PENDING]
    {
      hide World.Inv, World.Keeps, Closed, LastVoter;
      ghost var w := W();
      NothingHappened(w);
      var i := vote.clientVotes[c];
      if i >= 0 {
        UnchooseStep(w, c, VOTE_PENDING);
        vote := vote.(votes := vote.votes[i := vote.votes[i] - 1], clientVotes := vote.clientVotes[c := VOTE_PENDING]);
        assert W() == Unchosen(w, c, VOTE_PENDING);
      }
    }

    /** Another program's menu reached the client's screen. */
    method OnUserMessageSent(c: nat, hold: nat, steps: Steps) returns (left: Steps)
      requires Valid() && IsClient(c)
      modifies this
      ensures Passed() && Used(steps, left)
      ensures !players[c].inMenu && players[c].holdTime == hold && (old(players[c].inMenu) ==> TellsClosed(c))
      ensures old(players[c].HasMenu()) ==> |old(sess)| == maxClients + 1 && old(sess[c]) in ended
      decreases StepsSize(steps), 7
    {
      hide World.Inv, World.Keeps, Closed, LastVoter;
      ghost var w := W();
      NothingHappened(w);
      left := steps;
      InvSessions(w);
      if players[c].inMenu {
        left := CancelClient(c, true, steps);
      }
      ghost var w1 := W();
      HoldStep(w1, c, hold);
      players := players[c := players[c].(holdTime := hold)];
      assert W() == w1.SetPlayer(c, w1.players[c].(holdTime := hold));
      KeepsTransitive(w, w1, W());
    }

    /** Between game events nothing is in flight, and every vote decided has had its OnMenuEnd. */
    ghost predicate Quiet()
      reads this
    {
      Valid() && flying == {} && cancelling == {} && !opening && Calm(W())
    }

    /** BaseMenuStyle::OnClientDisconnected */
    method OnClientDisconnected(c: nat, steps: Steps) returns (left: Steps)
      requires Valid() && IsClient(c)
      modifies this
      ensures Passed() && Used(steps, left)
      ensures !players[c].inMenu && (old(players[c].inMenu) ==> TellsClosed(c))
      ensures old(players[c].HasMenu()) ==> |old(sess)| == maxClients + 1 && old(sess[c]) in ended
      decreases StepsSize(steps), 7
    {
      hide World.Inv, World.Keeps, Closed, LastVoter;
      NothingHappened(W());
      InvSessions(W());
      left := steps;
      if players[c].inMenu {
        left := CancelClient(c, true, steps);
      }
    }

    /** A player leaves between events, as the menu style sees it. */
    method StyleDisconnect(c: nat, steps: Steps) returns (left: Steps)
      requires Quiet() && IsClient(c)
      modifies this
      ensures Quiet() && old(W()).Keeps(W()) && Logged()
      ensures !players[c].inMenu && (old(players[c].inMenu) ==> TellsClosed(c))
      ensures old(players[c].HasMenu()) ==> |old(sess)| == maxClients + 1 && old(sess[c]) in ended
    {
      hide World.Inv, World.Keeps, Calm, Closed, LastVoter;
      ghost var w := W();
      left := OnClientDisconnected(c, steps);
      KeepsFrame(w, W());
      CalmStays(w, W());
    }

    /** A player leaves, as the vote handler sees it: a choice is taken back, and the pool is one smaller. */
    method VoteDisconnect(c: nat)
      requires Valid() && IsClient(c)
      modifies this`vote
      ensures Kept()
      ensures vote.menu == old(vote.menu)
      ensures vote.clientVotes ==
                if vote.menu.Some? && old(vote.clientVotes[c]) >= VOTE_PENDING
                then old(vote.clientVotes)[c := VOTE_NOT_VOTING] else old(vote.clientVotes)
    {
      hide World.Inv, World.Keeps, Closed, LastVoter;
      ghost var w := W();
      NothingHappened(w);
      if vote.menu.None? {
        return;
      }
      var i := vote.clientVotes[c];
      if i >= 0 {
        UnchooseStep(w, c, VOTE_NOT_VOTING);
        vote := vote.(votes := vote.votes[i := vote.votes[i] - 1],
                      clientVotes := vote.clientVotes[c := VOTE_NOT_VOTING]);
        assert W() == Unchosen(w, c, VOTE_NOT_VOTING);
      } else if i >= VOTE_PENDING {
        PendStep(w, c, VOTE_NOT_VOTING);
        vote := vote.(clientVotes := vote.clientVotes[c := VOTE_NOT_VOTING]);
        assert W() == w.SetVote(c, VOTE_NOT_VOTING);
      }
    }

    /** Plugin code runs outside any callback. */
    method Act(p: Script)
      requires Quiet()
      modifies this
      ensures Quiet() && old(W()).Keeps(W()) && Logged() && Obeyed(p)
    {
      hide World.Inv, World.Keeps, Calm, Closed, LastVoter, Did;
      ghost var w := W();
      Run(p);
      KeepsFrame(w, W());
      CalmStays(w, W());
    }

    /** The clock moves between events. */
    method Tick(now: real)
      requires Quiet()
      modifies this`curtime
      ensures Quiet() && W() == old(W()).(curtime := now)
    {
      curtime := now;
    }

    /** BaseMenuStyle::ProcessWatchList: every menu whose time is up is cancelled. */
    method ProcessWatchList(steps: Steps) returns (left: Steps)
      requires Quiet()
      modifies this
      ensures Quiet() && old(W()).Keeps(W()) && Logged()
      ensures forall c :: 0 <= c <= maxClients ==> !players[c].Expired(curtime)
      ensures |players| == |old(players)|
      ensures steps.End? ==> forall c :: 0 <= c < |players| ==>
                var p := old(players)[c];
                players[c].inMenu <==>
                  p.inMenu && !(p.holdTime != 0 && curtime > p.startTime + p.holdTime as real)
    {
      hide World.Inv, World.Keeps, Calm, Closed, LastVoter, OnlyLateClosed, Tells, TellsFirst, TellsClosed, Grew;
      ghost var w0 := W();
      NothingHappened(w0);
      left := steps;
      var lookup := watch;
      OnlyClientsWatched(w0);
      LateIsWatched(w0);
      WatchedOnce(w0);
      NoneLateClosed(w0);
      NothingGrew(B());
      for i := 0 to |lookup|
        invariant Valid() && w0.Keeps(W()) && NothingOpened() && Logged()
        invariant NoneLateBut(W(), lookup[i..])
        invariant steps.End? ==> left.End? && OnlyLateClosed(w0, W(), lookup[..i])
      {
        var c := lookup[i];
        ghost var w, mid := W(), B();
        KeepsFrame(w0, w);
        if !players[c].inMenu || players[c].holdTime == 0 {
          NotWatched(w, c);
          watch := Without(watch, c);
        } else if curtime > players[c].startTime + players[c].holdTime as real {
          left := CancelClient(c, false, left);
          GrewThen(old(B()), mid, B());
          KeepsTransitive(w0, w, W());
          LateOnlyPasses(w, W(), lookup[i..]);
        }
        OneLess(W(), lookup, i);
        if steps.End? {
          OneLateClosed(w0, w, W(), lookup, i);
        }
      }
      assert lookup[..|lookup|] == lookup;
      if steps.End? {
        AllLateClosed(w0, W());
      }
      KeepsFrame(w0, W());
      CalmStays(w0, W());
    }

    /** BaseMenuStyle::RedoClientMenu. A page that fails to draw leaves the watch list without the client; `w1`
        is the state just before that. `drawn` is the state after the last drawing callback, and `due` whether
        another one is. */
    method RedoClientMenu(c: nat, steps: Steps)
      returns (shown: bool, fate: Fate, left: Steps, ghost w1: World, ghost drawn: World, ghost due: bool)
      requires Quiet() && IsClient(c) && players[c].HasMenu()
      modifies this
      ensures !fate.NoHandler? ==> w1.Inv() && old(W()).Keeps(w1) && NothingOpened() && Alive()
      ensures shown && fate.Fine? ==> Valid() && W() == w1
      ensures again == old(again)
      ensures |w1.players| == maxClients + 1 && |w1.vote.clientVotes| == maxClients + 1 && |old(sess)| == maxClients + 1
      ensures !shown ==> W() == w1.(watch := if w1.players[c].holdTime != 0 then Without(w1.watch, c) else w1.watch)
      ensures Drew(old(W()), drawn, c) && DrawnFate(drawn, c, due, fate) && Used(steps, left)
      ensures GentleSteps(steps) ==> drawn.cuts == old(cuts)
      ensures steps == NoPage(Closing(c)) ==> !due && !drawn.players[c].inMenu
      ensures fate.SecondEnd? <==> !shown && !w1.players[c].inMenu
      ensures fate.NoHandler? ==> shown && old(players[c].handler).Vote? && vote.menu.None?
      ensures w1.players[c].menu == old(players[c].menu) && w1.players[c].handler == old(players[c].handler)
      ensures w1.Holds(c, old(sess[c])) || (!w1.players[c].inMenu && old(sess[c]) in w1.ended)
      ensures fate.NoHandler? ==> old(sess[c]) in ended
      ensures steps == TwoItems(Closing(c)) && old(LastVoter(c)) ==> due && drawn.vote.menu.None?
    {
      hide World.Inv, World.Keeps, Within, StaysOpen, Drew, Closed, Voids, Grew;
      ghost var w0 := W();
      var page;
      page, left, drawn, due := DrawIgnoring(c, steps);
      shown := !page.Nothing?;
      ghost var wb := W();
      Redrawn(w0, wb, c);
      w1 := wb.SetPlayer(c, players[c].(autoIgnore := false));
      if page.Orphaned? {
        fate := NoHandler;
        return;
      }
      if !shown && players[c].holdTime != 0 {
        watch := Without(watch, c);
      }
      players := players[c := players[c].(autoIgnore := false)];
      fate := if !shown && !players[c].inMenu then SecondEnd else Fine;
    }

    static lemma Redrawn(w0: World, wb: World, c: nat)
      requires w0.Inv() && Within(w0, wb, {}, c) && w0.flying == {} && w0.Open(c) && !w0.players[c].autoIgnore
      requires c < |wb.players| && wb.players[c].menu == w0.players[c].menu
      requires wb.players[c].inMenu ==> c < |w0.sess| && c < |wb.sess| && wb.sess[c] == w0.sess[c]
      ensures var w1 := wb.SetPlayer(c, wb.players[c].(autoIgnore := false));
              && w1.Inv() && w0.Keeps(w1) && w1.again == w0.again && |w1.players| == |w0.players| == |w0.sess|
              && |w1.vote.clientVotes| == |w0.vote.clientVotes|
              && (w1.Holds(c, w0.sess[c]) || (!w1.players[c].inMenu && w0.sess[c] in w1.ended))
              && (w1.players[c].handler.Vote? && w1.vote.menu.None? ==> w0.sess[c] in w1.ended)
    {
      hide World.Inv, World.Keeps, Within;
      WithinValid(w0, wb, {}, c);
      var w1 := wb.SetPlayer(c, wb.players[c].(autoIgnore := false));
      WithinSets(w0, wb, {}, c, w1.players[c]);
      WithinDone(w0, w1, c);
      WithinValid(w0, w1, {}, c);
      KeepsFrame(w0, w1);
      GoneMeansEnded(w0, w1, c);
      InvSessions(w1);
      if w1.players[c].handler.Vote? && w1.vote.menu.None? {
        NoVoteNoHolder(w1, c);
      }
    }

    /** The page is drawn with displays to the client ignored. */
    method DrawIgnoring(c: nat, steps: Steps) returns (page: Page, left: Steps, ghost drawn: World, ghost due: bool)
      requires Quiet() && IsClient(c) && players[c].HasMenu()
      modifies this
      ensures Valid() && Within(old(W()), W(), {}, c) && NothingOpened() && Used(steps, left)
      ensures Drew(old(W()), drawn, c) && |drawn.players| == maxClients + 1
      ensures drawn.players[c].handler == old(players[c].handler)
      ensures GentleSteps(steps) ==> drawn.cuts == old(cuts)
      ensures page.Nothing? <==> !due
      ensures page.Nothing? ==> W() == drawn
      ensures page.Orphaned? <==> due && drawn.players[c].handler.Vote? && drawn.vote.menu.None?
      ensures page.Orphaned? ==> vote.menu.None?
      ensures steps == NoPage(Closing(c)) ==> page.Nothing? && !players[c].inMenu
      ensures players[c].menu == old(players[c].menu) && players[c].handler == old(players[c].handler)
      ensures players[c].inMenu ==> c < |old(sess)| && c < |sess| && sess[c] == old(sess[c])
      ensures steps == TwoItems(Closing(c)) && old(LastVoter(c)) ==> due && drawn.vote.menu.None?
    {
      hide World.Inv, World.Keeps, Within, StaysOpen, Closed;
      ghost var w0 := W();
      WithinStart(w0, c);
      WithinSets(w0, w0, {}, c, players[c].(autoIgnore := true));
      players := players[c := players[c].(autoIgnore := true)];
      ghost var wa := W();
      WithinValid(w0, wa, {}, c);
      OpenHasNotChosen(w0, c);
      page, left, drawn, due := RenderAgain(c, steps);
      DrewAgain(w0, wa, drawn, c);
      WithinThen(w0, wa, W(), {}, c);
      IgnoredStaysShut(wa, W(), c);
    }

    /** `drawn` is where drawing a page for the client, who has a menu in `w0`, may lead. */
    static ghost predicate Drew(w0: World, drawn: World, c: nat) {
      && c < |w0.players| == |drawn.players| && w0.cuts <= drawn.cuts
      && drawn.players[c].handler == w0.players[c].handler && drawn.players[c].menu == w0.players[c].menu
      && (drawn.cuts == w0.cuts ==>
            drawn.players[c].inMenu && (drawn.players[c].handler.Vote? ==> drawn.vote.menu.Some?))
    }

    /** What becomes of a key press that has a page drawn: it is told by the state after the last drawing callback,
        and by whether another one is due, when there is a page and OnMenuDisplay to come included. */
    static ghost predicate DrawnFate(drawn: World, c: nat, due: bool, fate: Fate) {
      && c < |drawn.players|
      && (fate.SecondEnd? <==> !due && !drawn.players[c].inMenu)
      && (fate.NoHandler? <==> due && drawn.players[c].handler.Vote? && drawn.vote.menu.None?)
    }

    static lemma DrewAgain(w0: World, wa: World, drawn: World, c: nat)
      requires c < |w0.players| && w0.players[c].HasMenu() && wa == w0.SetPlayer(c, w0.players[c].(autoIgnore := true))
      requires wa.Inv() && drawn.Inv() && wa.Keeps(drawn) && StaysOpen(wa, drawn, 0) && c > 0
      ensures Drew(w0, drawn, c)
    {
      hide World.Inv, World.Keeps;
      KeepsFrame(wa, drawn);
      IgnoredStaysShut(wa, drawn, c);
      if drawn.vote.menu.None? && drawn.players[c].handler.Vote? {
        NoVoteNoHolder(drawn, c);
      }
    }

    /** The page of an open menu is drawn again. */
    method RenderAgain(c: nat, steps: Steps) returns (page: Page, left: Steps, ghost drawn: World, ghost due: bool)
      requires Valid() && IsClient(c) && players[c].autoIgnore
      requires players[c].handler.Vote? ==> vote.clientVotes[c] < 0 && vote.menu.Some?
      modifies this
      ensures Kept() && Used(steps, left)
      ensures drawn.Inv() && old(W()).Keeps(drawn) && StaysOpen(old(W()), drawn, 0)
      ensures GentleSteps(steps) ==> drawn.cuts == old(cuts)
      ensures page.Nothing? <==> !due
      ensures page.Nothing? ==> W() == drawn
      ensures page.Orphaned? <==> due && old(players[c].handler).Vote? && drawn.vote.menu.None?
      ensures page.Orphaned? ==> vote.menu.None?
      ensures steps == NoPage(Closing(c)) ==> page.Nothing? && !players[c].inMenu
      ensures steps == TwoItems(Closing(c)) && old(LastVoter(c)) ==> due && drawn.vote.menu.None?
      decreases StepsSize(steps), 2
    {
      hide World.Inv, World.Keeps, StaysOpen, Closed, Voids, Grew;
      ghost var w, book := W(), B();
      var h := players[c].handler;
      var orphaned;
      orphaned, left := DrawItems(c, h, steps);
      ChoicesOnlyDrop(w, W(), c);
      drawn, due := W(), true;
      ghost var mid := B();
      if orphaned {
        return Orphaned, left, drawn, due;
      }
      var shown;
      shown, left := Ask(left);
      if !shown {
        return Nothing, left, drawn, false;
      }
      orphaned, left := TellDisplayed(c, h, left);
      BothHappened(w, drawn, W());
      GrewThen(book, mid, B());
      page := if orphaned then Orphaned else Shown;
    }

    /** A ballot counts for the item chosen and for no other, and is that client's choice; anything else that is
        chosen leaves the votes alone. */
    static ghost predicate Counted(was: VoteState, c: nat, item: nat, realItem: nat, h: Handler, now: VoteState) {
      if h.Vote? && item < was.items then
        && |now.votes| == |was.votes| && |now.clientVotes| == |was.clientVotes|
        && c < |was.clientVotes| && realItem < |was.votes|
        && (forall d :: 0 <= d < |was.clientVotes| ==>
              now.clientVotes[d] == if d == c then realItem else was.clientVotes[d])
        && (forall i :: 0 <= i < |was.votes| ==> now.votes[i] == was.votes[i] + if i == realItem then 1 else 0)
        && now == was.(votes := now.votes, clientVotes := now.clientVotes)
      else now == was
    }

    /** BaseMenuStyle::ClientPressedKey. If none of the drawing callbacks asks for a menu to be closed, all is fine;
        and there are ones that do, at which it is not. */
    method ClientPressedKey(c: nat, press: Press, steps: Steps)
      returns (fate: Fate, left: Steps, ghost drawn: World, ghost due: bool)
      requires Quiet() && IsClient(c)
      requires press.Pick? && press.item < vote.items ==> press.realItem < vote.items
      modifies this
      ensures fate.Fine? || (fate.SecondEnd? && old(players[c].handler).Plugin?) ==> Quiet()
      ensures |old(sess)| == maxClients + 1 && old(asked) <= asked
      ensures again == old(again) + if fate.SecondEnd? && old(players[c].handler).Plugin? then [old(sess[c])] else []
      ensures selected == old(selected) + if press.Pick? && old(players[c].HasMenu()) then [old(sess[c])] else []
      ensures press.Pick? && old(players[c].HasMenu()) ==>
                && |old(log)| < |log| && log[|old(log)|].what == OnMenuSelect(old(sess[c]), press.item)
                && Counted(old(vote), c, press.item, press.realItem, old(players[c].handler), log[|old(log)|].vote)
                && (old(LastVoter(c)) && Still(steps) && Still(Rest(steps)) ==>
                      OutcomeAt(log, |old(log)| + 2, old(nextVote), log[|old(log)|].vote))
      ensures press.Leave? && old(players[c].HasMenu()) ==> TellsFirst(OnMenuCancel(old(sess[c])))
      ensures old(players[c].inMenu && players[c].menu.None?) ==> TellsFirst(OnPanelSelect(c))
      ensures !old(players[c].inMenu) ==> W() == old(W()) && log == old(log)
      ensures if press.Navigate? && old(players[c].HasMenu())
              then DrawnFate(drawn, c, due, fate) && Drew(old(W()), drawn, c)
              else fate.Fine? && drawn.cuts == old(cuts)
      ensures drawn.cuts == old(cuts) ==> fate.Fine?
      ensures GentleSteps(steps) ==> drawn.cuts == old(cuts)
      ensures press.Navigate? && old(players[c].HasMenu()) && steps == NoPage(Closing(c)) ==> fate.SecondEnd?
      ensures press.Navigate? && old(LastVoter(c)) && steps == TwoItems(Closing(c)) ==> fate.NoHandler?
      ensures !fate.Fine? ==> old(sess[c]) in ended
      ensures old(players[c].HasMenu()) ==> old(sess[c]) in ended || (press.Navigate? && W().Holds(c, old(sess[c])))
    {
      hide World.Inv, World.Keeps, Calm, StaysOpen, Closed, Reports, Tells, OutcomeAt, DrawnFate;
      ghost var w0 := W();
      NothingHappened(w0);
      InvSessions(w0);
      left, fate, drawn, due := steps, Fine, w0, false;
      if !players[c].inMenu {
        return;
      }
      if players[c].menu.None? {
        left := SelectFromPanel(c, steps);
        return;
      }
      match press {
        case Navigate =>
          fate, left, drawn, due := Turn(c, steps);
        case Leave =>
          left := Leave(c, w0, steps);
        case Pick(item, realItem) =>
          ghost var heard;
          left, heard := Select(c, item, realItem, steps);
          IsCounted(w0, c, item, realItem, heard);
      }
    }

    /** Another page is asked for: it is drawn, or the menu closes. */
    method Turn(c: nat, steps: Steps) returns (fate: Fate, left: Steps, ghost drawn: World, ghost due: bool)
      requires Quiet() && IsClient(c) && players[c].HasMenu()
      modifies this
      ensures |old(sess)| == maxClients + 1 && selected == old(selected) && old(asked) <= asked
      ensures fate.Fine? || (fate.SecondEnd? && old(players[c].handler).Plugin?) ==> Quiet()
      ensures again == old(again) + if fate.SecondEnd? && old(players[c].handler).Plugin? then [old(sess[c])] else []
      ensures DrawnFate(drawn, c, due, fate) && Drew(old(W()), drawn, c) && (drawn.cuts == old(cuts) ==> fate.Fine?)
      ensures GentleSteps(steps) ==> drawn.cuts == old(cuts)
      ensures steps == NoPage(Closing(c)) ==> fate.SecondEnd?
      ensures steps == TwoItems(Closing(c)) && old(LastVoter(c)) ==> fate.NoHandler?
      ensures !fate.Fine? ==> old(sess[c]) in ended
      ensures old(sess[c]) in ended || W().Holds(c, old(sess[c]))
    {
      hide World.Inv, World.Keeps, Calm, StaysOpen, Closed, Reports, Tells, Drew, DrawnFate, Voids;
      ghost var w0 := W();
      InvSessions(w0);
      var shown;
      ghost var w1;
      shown, fate, left, w1, drawn, due := RedoClientMenu(c, steps);
      WhatFate(w0, drawn, c, due, fate);
      if fate.NoHandler? {
        return;
      }
      KeepsFrame(w0, w1);
      CalmStays(w0, w1);
      if fate.SecondEnd? {
        NotWatched(w1, c);
        if players[c].handler.Plugin? {
          OpenNotAgain(w0, c);
          left := EndAgain(w0.sess[c], left);
        }
      } else if !shown {
        InvSessions(w1);
        left := Leave(c, w1, left);
      }
    }

    static lemma WhatFate(w0: World, drawn: World, c: nat, due: bool, fate: Fate)
      requires Drew(w0, drawn, c) && DrawnFate(drawn, c, due, fate)
      ensures c < |w0.players| && c < |drawn.players| && (drawn.cuts == w0.cuts ==> fate.Fine?)
      ensures !due && !drawn.players[c].inMenu ==> fate.SecondEnd?
      ensures due && w0.players[c].handler.Vote? && drawn.vote.menu.None? ==> fate.NoHandler?
    {
    }

    static lemma IsCounted(w: World, c: nat, item: nat, realItem: nat, heard: World)
      requires w.Inv() && c < |w.players| && |w.sess| == |w.players| && w.players[c].HasMenu()
      requires w.players[c].handler.Vote? && item < w.vote.items ==> realItem < |w.vote.votes|
      requires heard == (var x := w.Close(c);
                         if w.players[c].handler.Vote? && item < w.vote.items
                         then Chosen(x, c, realItem) else x).Answer(w.sess[c])
      ensures Counted(w.vote, c, item, realItem, w.players[c].handler, heard.vote)
    {
    }

    /** A plugin hears OnMenuCancel and OnMenuEnd of a menu for the second time. */
    method EndAgain(ghost s: nat, steps: Steps) returns (left: Steps)
      requires Quiet() && s in ended && s !in again
      modifies this
      ensures Quiet() && again == old(again) + [s] && left == Rest(Rest(steps))
      ensures Logged() && TellsFirst(OnMenuCancel(s)) && Tells(OnMenuEnd(s))
      ensures forall t :: t in old(ended) ==> t in ended
    {
      hide World.Inv, World.Keeps, Calm, StaysOpen, Closed, LastVoter;
      EndAgainStep(W(), s);
      AgainIsCalm(W(), s);
      again := again + [s];
      ghost var w := W();
      assert w == old(W()).EndAgain(s);
      left := Callback(OnMenuCancel(s), steps);
      ghost var w1, m := W(), |log|;
      left := Callback(OnMenuEnd(s), left);
      assert log[m].what == OnMenuEnd(s);
      KeepsTransitive(w, w1, W());
      KeepsFrame(w, W());
      CalmStays(w, W());
      forall t | t in w.ended ensures t in ended {
        EndedStays(w, W(), t);
      }
    }

    /** The menu closes, and its handler hears OnMenuCancel and OnMenuEnd. */
    method Leave(c: nat, ghost w1: World, steps: Steps) returns (left: Steps)
      requires w1.Inv() && IsClient(c) && |w1.players| == maxClients + 1 == |w1.vote.clientVotes|
               && w1.players[c].HasMenu()
      requires |w1.sess| == |w1.players| && Alive()
      requires W() == w1 || W() == w1.(watch := if w1.players[c].holdTime != 0 then Without(w1.watch, c) else w1.watch)
      requires w1.flying == {} && w1.cancelling == {} && !opening && Calm(w1)
      modifies this
      ensures Quiet() && w1.sess[c] in ended && again == w1.again && Logged() && TellsFirst(OnMenuCancel(w1.sess[c]))
    {
      hide World.Inv, World.Keeps, Within, Calm, Closed, LastVoter, Reports, Tells, Voids;
      var h := players[c].handler;
      ghost var s := sess[c];
      ClosePlayer(c);
      assert W() == w1.Close(c);
      WithinStart(w1, c);
      WithinCloses(w1, w1, {}, c);
      assert {} + {s} == {s};
      WithinValid(w1, W(), {s}, c);
      assert s == w1.sess[c] && vote == w1.vote;
      left := Dismiss(h, c, s, w1, steps);
      WithinDone(w1, W(), c);
      KeepsFrame(w1, W());
      CalmStays(w1, W());
    }

    /** An item is chosen: the menu closes, a ballot in it is counted, and the handler hears of it. */
    method Select(c: nat, item: nat, realItem: nat, steps: Steps) returns (left: Steps, ghost heard: World)
      requires Quiet() && IsClient(c) && players[c].HasMenu()
      requires item < vote.items ==> realItem < vote.items
      modifies this
      ensures |old(sess)| == maxClients + 1 && (old(IsBallot(c, item)) ==> realItem < |old(vote.votes)|)
      ensures heard == (var w := old(W()).Close(c);
                        if old(IsBallot(c, item)) then Chosen(w, c, realItem) else w).Answer(old(sess[c]))
      ensures Quiet() && old(sess[c]) in ended && again == old(again)
      ensures old(log) <= log && selected == old(selected) + [old(sess[c])] && old(asked) <= asked
      ensures |old(log)| < |log| && log[|old(log)|] == Heard(OnMenuSelect(old(sess[c]), item), heard.vote)
      ensures old(LastVoter(c)) && Still(steps) && Still(Rest(steps)) ==>
                OutcomeAt(log, |old(log)| + 2, old(nextVote), heard.vote)
    {
      hide World.Inv, World.Keeps, World.Close, Calm, Closed, Reports, OutcomeAt, Tells;
      var h := players[c].handler;
      ghost var last := LastVoter(c);
      ghost var s;
      s := Choose(c, item, realItem);
      ghost var w2 := W();
      assert last ==> h.Vote? && vote.started && vote.clients == 1;
      selected := selected + [s];
      left := TellSelected(h, s, item, steps);
      heard := w2;
    }

    /** OnMenuSelect, OnMenuSelect2 and OnMenuEnd. */
    method TellSelected(h: Handler, ghost s: nat, item: nat, steps: Steps) returns (left: Steps)
      requires Valid() && flying == {s} && (h.Vote? <==> s in voteLive) && s in answered
      requires cancelling == {} && !opening && Calm(W())
      modifies this
      ensures Quiet() && s in ended && again == old(again) && Logged() && TellsFirst(OnMenuSelect(s, item))
      ensures h.Vote? && old(vote.started && vote.clients == 1) && Still(steps) && Still(Rest(steps)) ==>
                OutcomeAt(log, |old(log)| + 2, old(nextVote), old(vote))
    {
      hide World.Inv, World.Keeps, Calm, Closed, Reports, LastVoter, OutcomeAt, Tells;
      ghost var w2 := W();
      left := Callback(OnMenuSelect(s, item), steps);
      ghost var w3 := W();
      CalmStays(w2, w3);
      FlyingStays(w2, w3, s);
      KeepsFrame(w2, w3);
      left := SelectedEnd(h, s, left);
    }

    /** What a plugin heard in place `k` is how the vote `v` came out. */
    static ghost predicate OutcomeAt(log: seq<Heard>, k: nat, nextVote: nat, v: VoteState) {
      k < |log| && nextVote > 0 && exists o :: Reports(o, v) && log[k].what == OnVoteOver(nextVote - 1, o)
    }

    /** What a selection does before the handler hears of it. */
    method Choose(c: nat, item: nat, realItem: nat) returns (ghost s: nat)
      requires Quiet() && IsClient(c) && players[c].HasMenu()
      requires item < vote.items ==> realItem < vote.items
      modifies this`players, this`watch, this`where, this`flying, this`vote, this`answered
      ensures |old(sess)| == maxClients + 1 && s == old(sess[c])
              && (old(IsBallot(c, item)) ==> realItem < |old(vote.votes)|)
      ensures W() == (var w := old(W()).Close(c);
                      if old(IsBallot(c, item)) then Chosen(w, c, realItem) else w).Answer(s)
      ensures Valid() && flying == {s} && cancelling == {} && !opening && Calm(W())
      ensures (old(players[c].handler).Vote? <==> s in voteLive) && s in answered
      ensures vote.started == old(vote.started) && vote.clients == old(vote.clients)
    {
      hide World.Inv, World.Keeps, Calm;
      ghost var w0 := W();
      InvSessions(w0);
      OpenHasNotChosen(w0, c);
      CloseStep(w0, c);
      var h := players[c].handler;
      s := sess[c];
      ClosePlayer(c);
      ghost var w1 := W();
      HasHandler(w1, s);
      if h.Vote? && item < vote.items {
        ChooseStep(w1, c, realItem);
        InvTally(w1);
        CountBallot(c, realItem);
      }
      AnswerStep(W(), s);
      answered := answered + [s];
      CalmSame(w0, W(), c);
    }

    method CountBallot(c: nat, realItem: nat)
      requires c < |vote.clientVotes| && realItem < |vote.votes|
      modifies this`vote
      ensures W() == Chosen(old(W()), c, realItem)
    {
      vote := vote.(votes := vote.votes[realItem := vote.votes[realItem] + 1],
                    clientVotes := vote.clientVotes[c := realItem]);
    }

    ghost predicate IsBallot(c: nat, item: nat)
      reads this
      requires c < |players|
    {
      players[c].handler.Vote? && item < vote.items
    }

    /** OnMenuSelect2, and then OnMenuEnd. */
    method SelectedEnd(h: Handler, ghost s: nat, steps: Steps) returns (left: Steps)
      requires Valid() && flying == {s} && (h.Vote? <==> s in voteLive) && s in answered
      requires cancelling == {} && !opening && Calm(W())
      modifies this
      ensures Quiet() && s in ended && again == old(again) && Logged()
      ensures h.Vote? && old(vote.started && vote.clients == 1) && Still(steps) ==>
                OutcomeAt(log, |old(log)| + 1, old(nextVote), old(vote))
    {
      hide World.Inv, World.Keeps, Calm, Closed, LastVoter, OutcomeAt, Tells, Reports;
      ghost var w2 := W();
      left := Callback(OnMenuSelect2(s), steps);
      ghost var w3 := W();
      CalmStays(w2, w3);
      FlyingStays(w2, w3, s);
      KeepsFrame(w2, w3);
      EndStep(w3, s, h);
      left := HandlerEnd(h, s, left);
      ghost var w4 := w3.End(s, h);
      CalmEnd(w3, s, h);
      CalmStays(w4, W());
      KeepsFrame(w4, W());
      EndedStays(w4, W(), s);
    }

    method SelectFromPanel(c: nat, steps: Steps) returns (left: Steps)
      requires Quiet() && IsClient(c) && players[c].inMenu && players[c].menu.None?
      modifies this
      ensures Quiet() && again == old(again) && Logged() && TellsFirst(OnPanelSelect(c))
    {
      hide World.Inv, World.Keeps, Calm, Closed, LastVoter;
      ghost var w0 := W();
      InvSessions(w0);
      CloseStep(w0, c);
      ClosePlayer(c);
      ghost var w1 := W();
      CalmSame(w0, w1, c);
      left := Callback(OnPanelSelect(c), steps);
      CalmStays(w1, W());
      KeepsFrame(w1, W());
    }

    /** Any run of events. It leaves the menus in order, unless a key press goes wrong in the hands of the vote
        handler; and none goes wrong, for a plugin either, as long as no plugin asks for a menu to be closed from a
        callback of a key press. */
    method Play(events: seq<Event>) returns (fine: bool)
      requires Quiet()
      modifies this
      ensures fine ==> Quiet() && old(again) <= again && old(asked) + CodeCalls(events) <= asked
      ensures GentleKeys(events) ==> fine && again == old(again)
    {
      hide World.Inv, World.Keeps, Calm, DrawnFate, Drew, Closed, Did;
      for i := 0 to |events|
        invariant Quiet() && old(again) <= again && old(asked) + CodeCalls(events[..i]) <= asked
        invariant GentleKeys(events) ==> again == old(again)
      {
        assert events[..i + 1][..i] == events[..i];
        fine := Happen(events[i]);
        if !fine {
          return;
        }
      }
      assert events[..|events|] == events;
      fine := true;
    }

    /** What an event does. */
    twostate predicate Took(e: Event)
      reads this
    {
      match e
      case Key(c, press, _) =>
        IsClient(c) && c < |old(players)| && c < |old(sess)| && old(players[c]).HasMenu() ==>
          && (press.Leave? ==> old(sess[c]) in ended)
          && (press.Pick? && (press.item < old(vote).items ==> press.realItem < old(vote).items) ==>
                old(sess[c]) in selected)
      case Gone(c, _) => IsClient(c) ==> c < |players| && !players[c].inMenu
      case GoneFromVote(c) =>
        IsClient(c) && vote.menu.Some? ==> c < |vote.clientVotes| && vote.clientVotes[c] < VOTE_PENDING
      case Time(now, _) => curtime == now && forall c :: 0 <= c < |players| ==> !players[c].Expired(now)
      case Code(acts) => Obeyed(acts)
    }

    method Happen(e: Event) returns (fine: bool)
      requires Quiet()
      modifies this
      ensures fine ==> Quiet() && old(again) <= again && Took(e)
      ensures old(asked) <= asked
      ensures (e.Key? ==> GentleSteps(e.steps)) ==> fine && again == old(again)
    {
      hide World.Inv, World.Keeps, Calm, DrawnFate, Drew, Closed;
      fine := true;
      match e {
        case Key(client, press, steps) =>
          if IsClient(client) && (press.Pick? && press.item < vote.items ==> press.realItem < vote.items) {
            var h := players[client].handler;
            var fate, _, _, _ := ClientPressedKey(client, press, steps);
            fine := fate.Fine? || (fate.SecondEnd? && h.Plugin?);
          }
        case Gone(client, steps) =>
          if IsClient(client) {
            ghost var w := W();
            var _ := StyleDisconnect(client, steps);
            KeepsFrame(w, W());
          }
        case GoneFromVote(client) =>
          if IsClient(client) {
            ghost var w := W();
            VoteDisconnect(client);
            KeepsFrame(w, W());
            CalmStays(w, W());
          }
        case Time(now, steps) =>
          Tick(now);
          ghost var w := W();
          var _ := ProcessWatchList(steps);
          KeepsFrame(w, W());
        case Code(acts) =>
          ghost var w := W();
          Act(acts);
          KeepsFrame(w, W());
      }
    }
  }
}
