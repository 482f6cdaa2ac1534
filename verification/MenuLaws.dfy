/**
 What the invariant of `MenuWorlds` says between game events, when nothing is in flight.
 */
module MenuLaws {
  import opened Sequences
  import opened MenuWorlds
  import opened VoteTallies
  import FastLinks

  /** A menu session is either open and unanswered at one client, or over: after one OnMenuCancel or OnMenuSelect
      and one OnMenuEnd, or, if it is among those ended again, after two of each. */
  lemma EachStartEndsOnce(w: World, s: nat)
    requires w.Inv() && w.flying == {} && s < w.next
    ensures w.Ends(s) == w.Answers(s) == if s in w.where then 0 else if s in w.again then 2 else 1
    ensures s in w.where ==> w.Holds(w.where[s], s)
    ensures forall c: nat :: w.Holds(c, s) ==> s in w.where && c == w.where[s]
  {
    NoDupCount(w.ended);
    NoDupCount(w.answered);
    NoDupCount(w.again);
    assert w.Live(s) <==> s in w.where;
    if s in w.where {
      assert w.Open(w.where[s]);
    }
  }

  function OpenVotes(w: World, n: nat): set<nat>
    requires n <= |w.players|
  {
    set c | 0 <= c < n && w.players[c].HasMenu() && w.players[c].handler.Vote?
  }

  ghost function VoteSessions(w: World, n: nat): set<nat>
    requires n <= |w.players| == |w.sess|
  {
    set c | c in OpenVotes(w, n) :: w.sess[c]
  }

  lemma {:induction false} SessionsPerClient(w: World, n: nat)
    requires w.Sessions() && n <= |w.players| == |w.sess|
    ensures |VoteSessions(w, n)| == |OpenVotes(w, n)|
  {
    hide World.Sessions;
    if n == 0 {
      assert OpenVotes(w, 0) == {} && VoteSessions(w, 0) == {};
    } else {
      var k := n - 1;
      SessionsPerClient(w, k);
      if k in OpenVotes(w, n) {
        assert OpenVotes(w, n) == OpenVotes(w, k) + {k};
        assert VoteSessions(w, n) == VoteSessions(w, k) + {w.sess[k]};
        OneEach(w, k);
      } else {
        assert OpenVotes(w, n) == OpenVotes(w, k);
        assert VoteSessions(w, n) == VoteSessions(w, k);
      }
    }
  }

  lemma OneEach(w: World, k: nat)
    requires w.Sessions() && w.Open(k) && |w.players| == |w.sess|
    ensures forall c :: c in OpenVotes(w, k) ==> w.sess[c] != w.sess[k]
  {
    forall c | c in OpenVotes(w, k) ensures w.sess[c] != w.sess[k] {
      assert w.Open(c);
    }
  }

  /** m_Clients is the number of clients with an open vote menu. */
  lemma ClientsAreOpenVotes(w: World)
    requires w.Inv() && w.flying == {}
    ensures w.vote.clients == |OpenVotes(w, |w.players|)|
  {
    var n := |w.players|;
    InvSessions(w);
    SessionsPerClient(w, n);
    forall s | s in w.voteLive ensures s in VoteSessions(w, n) {
      assert w.Live(s) && s in w.where;
      var c := w.where[s];
      assert w.Open(c);
      assert c in OpenVotes(w, n);
    }
    forall s | s in VoteSessions(w, n) ensures s in w.voteLive {
      var c :| c in OpenVotes(w, n) && w.sess[c] == s;
      assert w.Open(c);
    }
    assert w.voteLive == VoteSessions(w, n);
  }

  /** While no vote is on, nobody has a vote menu open. */
  lemma NoVoteNoMenus(w: World)
    requires w.Inv() && w.vote.menu.None?
    ensures OpenVotes(w, |w.players|) == {}
  {
    forall c | c in OpenVotes(w, |w.players|) ensures false {
      assert w.Open(c);
      NoVoteNoHolder(w, c);
    }
  }

  /** Every vote accepted so far was reported, and ended, exactly once; or it is the one that is on. */
  lemma EachVoteEndsOnce(w: World, v: nat)
    requires w.Inv() && Calm(w) && v < w.nextVote
    ensures multiset(w.decided)[v] == multiset(w.closed)[v] == if w.vote.menu.Some? && v == w.nextVote - 1 then 0 else 1
  {
    NoDupCount(w.decided);
    NoDupCount(w.closed);
  }

  /** The item totals are the clients' choices, and add up to the number of clients that made one. */
  lemma BallotsAddUp(w: World)
    requires w.Inv() && w.vote.menu.Some?
    ensures w.vote.items <= |w.vote.votes|
    ensures forall i :: 0 <= i < w.vote.items ==> w.vote.votes[i] == Count(w.vote.clientVotes, i)
    ensures Total(w.vote.clientVotes, w.vote.items) == Choosers(w.vote.clientVotes)
  {
    TotalsAreChoosers(w.vote.clientVotes, w.vote.items);
  }

  /** The watch list never outgrows the 256 nodes it has. */
  lemma WatchListFits(w: World)
    requires w.Inv()
    ensures |w.watch| <= 256
  {
    OnlyClientsWatched(w);
    FastLinks.Pigeonhole(w.watch, 256);
  }
}
