/**
 The HUD channel allocator (core/smn_hudtext.cpp): six channels per client, shared by sync objects that keep
 theirs until the channel that was used longest ago is taken from them.
 */
module HudChannels {
  import opened Wrappers

  const MAX_HUD_CHANNELS: nat := 6

  /** One client's channels: when each was last used, and by whom; and each object's last channel. */
  datatype Channels = Channels(times: seq<real>, owners: seq<Option<nat>>, last: map<nat, nat>)
  {
    /** What a new object remembers is channel 0. */
    function Last(o: nat): nat { if o in last then last[o] else 0 }

    predicate Owns(o: nat) { Last(o) < |owners| && owners[Last(o)] == Some(o) }

    /** An object owns no channel but the one it remembers. */
    ghost predicate Inv() {
      && |times| == |owners| == MAX_HUD_CHANNELS
      && (forall o :: o in last ==> last[o] < MAX_HUD_CHANNELS)
      && (forall c: nat :: c < |owners| && owners[c].Some? ==> Last(owners[c].value) == c)
    }
  }

  /** The first of the channels used longest ago. */
  ghost predicate IsOldest(times: seq<real>, c: nat) {
    && c < |times| && (forall d :: 0 <= d < |times| ==> times[c] <= times[d])
    && (forall d :: 0 <= d < c ==> times[c] < times[d])
  }

  function Oldest(times: seq<real>): (c: nat)
    requires times != []
    ensures IsOldest(times, c)
  {
    if |times| == 1 then 0
    else
      var c := Oldest(times[..|times| - 1]);
      if times[|times| - 1] < times[c] then |times| - 1 else c
  }

  lemma OldestIs(times: seq<real>, c: nat)
    requires IsOldest(times, c)
    ensures Oldest(times) == c
  {
  }

  function Stamp(s: Channels, c: nat, owner: Option<nat>, now: real): Channels
    requires c < |s.times| == |s.owners|
  {
    s.(times := s.times[c := now], owners := s.owners[c := owner],
       last := if owner.Some? then s.last[owner.value := c] else s.last)
  }

  /** An object shows its text. */
  function Use(s: Channels, o: nat, now: real): Channels
    requires s.Inv()
  {
    if s.Owns(o) then s.(times := s.times[s.Last(o) := now]) else Stamp(s, Oldest(s.times), Some(o), now)
  }

  function UsedChannel(s: Channels, o: nat): (c: nat)
    requires s.Inv()
    ensures c < MAX_HUD_CHANNELS
  {
    if s.Owns(o) then s.Last(o) else Oldest(s.times)
  }

  lemma UseInv(s: Channels, o: nat, now: real)
    requires s.Inv()
    ensures Use(s, o, now).Inv() && Use(s, o, now).Owns(o) && Use(s, o, now).Last(o) == UsedChannel(s, o)
  {
  }

  /** No object has two channels. */
  lemma OneChannelEach(s: Channels, c: nat, d: nat)
    requires s.Inv() && c < |s.owners| && d < |s.owners| && s.owners[c].Some? && s.owners[c] == s.owners[d]
    ensures c == d
  {
  }

  /** An object that has a channel gets it again, and nobody else's channel is touched. */
  lemma KeepsItsChannel(s: Channels, o: nat, p: nat, now: real)
    requires s.Inv() && s.Owns(o)
    ensures UsedChannel(s, o) == s.Last(o)
    ensures Use(s, p, now).Owns(o) && Use(s, p, now).Last(o) == s.Last(o) <==> s.Owns(p) || Oldest(s.times) != s.Last(o)
  {
    UseInv(s, p, now);
  }

  /** Whoever loses a channel loses it to an object without one, and had used it no later than any other. */
  lemma OnlyTheOldestIsEvicted(s: Channels, o: nat, p: nat, now: real)
    requires s.Inv() && s.Owns(o) && !Use(s, p, now).Owns(o)
    ensures !s.Owns(p) && s.Last(o) == Oldest(s.times)
    ensures forall c :: 0 <= c < MAX_HUD_CHANNELS ==> s.times[s.Last(o)] <= s.times[c]
    ensures forall q :: s.Owns(q) && q != o ==> Use(s, p, now).Owns(q) && Use(s, p, now).Last(q) == s.Last(q)
  {
  }

  /** A client connects: its channels are free. What objects remember is not erased. */
  function Connected(last: map<nat, nat>): Channels {
    Channels(seq(MAX_HUD_CHANNELS, _ => 0.0), seq(MAX_HUD_CHANNELS, _ => None), last)
  }

  function Run(s: Channels, uses: seq<(nat, real)>): Channels
    requires s.Inv()
    ensures Run(s, uses).Inv()
  {
    if uses == [] then s
    else
      var n := |uses| - 1;
      UseInv(Run(s, uses[..n]), uses[n].0, uses[n].1);
      Use(Run(s, uses[..n]), uses[n].0, uses[n].1)
  }

  function Users(uses: seq<(nat, real)>): set<nat> { set i | 0 <= i < |uses| :: uses[i].0 }

  /** Every object used so far has a channel, nobody else does, and a free channel is one never used. */
  ghost predicate Roomy(s: Channels, users: set<nat>) {
    && s.Inv()
    && (forall o :: o in users ==> s.Owns(o))
    && (forall c: nat :: c < |s.owners| && s.owners[c].Some? ==> s.owners[c].value in users && s.times[c] > 0.0)
    && (forall c: nat :: c < |s.owners| && s.owners[c].None? ==> s.times[c] == 0.0)
  }

  lemma {:induction false} ImageSize(s: Channels, users: set<nat>, taken: set<nat>)
    requires forall c :: c in taken ==> exists o :: o in users && s.Last(o) == c
    ensures |taken| <= |users|
  {
    if users == {} {
      assert taken == {};
    } else {
      var o :| o in users;
      forall c | c in taken - {s.Last(o)} ensures exists p :: p in users - {o} && s.Last(p) == c {
        var p :| p in users && s.Last(p) == c;
        assert p in users - {o};
      }
      ImageSize(s, users - {o}, taken - {s.Last(o)});
    }
  }

  lemma FreeChannel(s: Channels, users: set<nat>)
    requires Roomy(s, users) && |users| < MAX_HUD_CHANNELS
    ensures exists c: nat :: c < |s.owners| && s.owners[c].None?
  {
    if forall c: nat :: c < |s.owners| ==> s.owners[c].Some? {
      var taken := {0, 1, 2, 3, 4, 5};
      forall c | c in taken ensures exists o :: o in users && s.Last(o) == c {
        assert s.owners[c].value in users;
      }
      ImageSize(s, users, taken);
    }
  }

  lemma OldestIsFree(s: Channels, users: set<nat>)
    requires Roomy(s, users) && |users| < MAX_HUD_CHANNELS
    ensures s.owners[Oldest(s.times)].None?
  {
    FreeChannel(s, users);
    var c: nat :| c < |s.owners| && s.owners[c].None?;
    assert s.times[Oldest(s.times)] <= s.times[c];
  }

  lemma RoomyStep(s: Channels, users: set<nat>, o: nat, now: real)
    requires Roomy(s, users) && now > 0.0 && |users + {o}| <= MAX_HUD_CHANNELS
    ensures Roomy(Use(s, o, now), users + {o})
    ensures forall p :: p in users ==> Use(s, o, now).Last(p) == s.Last(p)
  {
    if s.Owns(o) {
      RoomyAgain(s, users, o, now);
    } else {
      assert |users + {o}| == |users| + 1;
      OldestIsFree(s, users);
      RoomyNew(s, users, o, Oldest(s.times), now);
    }
  }

  lemma RoomyAgain(s: Channels, users: set<nat>, o: nat, now: real)
    requires Roomy(s, users) && now > 0.0 && s.Owns(o)
    ensures users + {o} == users && Roomy(s.(times := s.times[s.Last(o) := now]), users)
  {
    assert s.owners[s.Last(o)].value in users;
  }

  lemma RoomyNew(s: Channels, users: set<nat>, o: nat, k: nat, now: real)
    requires Roomy(s, users) && now > 0.0 && o !in users && k < |s.owners| && s.owners[k].None?
    ensures Roomy(Stamp(s, k, Some(o), now), users + {o})
    ensures forall p :: p in users ==> Stamp(s, k, Some(o), now).Last(p) == s.Last(p)
  {
    var r := Stamp(s, k, Some(o), now);
    assert r.Inv();
    forall p | p in users ensures r.Owns(p) && r.Last(p) == s.Last(p) {
      assert s.Owns(p);
    }
  }

  /** With at most six objects and a running clock, every object used since the client connected has a channel
      of its own. */
  lemma {:induction false} SixNeverEvict(last: map<nat, nat>, uses: seq<(nat, real)>)
    requires Connected(last).Inv()
    requires forall i :: 0 <= i < |uses| ==> uses[i].1 > 0.0
    requires |Users(uses)| <= MAX_HUD_CHANNELS
    ensures Roomy(Run(Connected(last), uses), Users(uses))
  {
    if uses != [] {
      var n := |uses| - 1;
      assert Users(uses) == Users(uses[..n]) + {uses[n].0} by { UsersSnoc(uses); }
      Subset(Users(uses[..n]), Users(uses));
      SixNeverEvict(last, uses[..n]);
      RoomyStep(Run(Connected(last), uses[..n]), Users(uses[..n]), uses[n].0, uses[n].1);
    }
  }

  lemma UsersSnoc(uses: seq<(nat, real)>)
    requires uses != []
    ensures Users(uses) == Users(uses[..|uses| - 1]) + {uses[|uses| - 1].0}
  {
    var n := |uses| - 1;
    forall o | o in Users(uses) ensures o in Users(uses[..n]) + {uses[n].0} {
      var i :| 0 <= i < |uses| && uses[i].0 == o;
      assert i < n ==> uses[..n][i].0 == o;
    }
    forall o | o in Users(uses[..n]) ensures o in Users(uses) {
      var i :| 0 <= i < n && uses[..n][i].0 == o;
      assert uses[i].0 == o;
    }
    assert uses[n].0 in Users(uses);
  }

  lemma {:induction false} Subset(a: set<nat>, b: set<nat>)
    requires a <= b
    ensures |a| <= |b|
  {
    if a != {} {
      var x :| x in a;
      Subset(a - {x}, b - {x});
    }
  }

  /** And the channel it got first is the one it keeps. */
  lemma ChannelIsForGood(last: map<nat, nat>, uses: seq<(nat, real)>, n: nat, o: nat)
    requires Connected(last).Inv() && n < |uses| && o in Users(uses[..n])
    requires forall i :: 0 <= i < |uses| ==> uses[i].1 > 0.0
    requires |Users(uses)| <= MAX_HUD_CHANNELS
    ensures Run(Connected(last), uses[..n + 1]).Last(o) == Run(Connected(last), uses[..n]).Last(o)
  {
    assert uses[..n + 1][..n] == uses[..n];
    UsersSnoc(uses[..n + 1]);
    UsersPrefix(uses, n + 1);
    UsersPrefix(uses, n);
    Subset(Users(uses[..n + 1]), Users(uses));
    Subset(Users(uses[..n]), Users(uses));
    SixNeverEvict(last, uses[..n]);
    RoomyStep(Run(Connected(last), uses[..n]), Users(uses[..n]), uses[n].0, uses[n].1);
  }

  lemma UsersPrefix(uses: seq<(nat, real)>, n: nat)
    requires n <= |uses|
    ensures Users(uses[..n]) <= Users(uses)
  {
    forall o | o in Users(uses[..n]) ensures o in Users(uses) {
      var i :| 0 <= i < n && uses[..n][i].0 == o;
      assert uses[i].0 == o;
    }
  }

  /** When an object was last used; a channel nobody has used counts as used when the client connected. */
  function LastUse(uses: seq<(nat, real)>, o: nat): real {
    if uses == [] then 0.0
    else if uses[|uses| - 1].0 == o then uses[|uses| - 1].1
    else LastUse(uses[..|uses| - 1], o)
  }

  /** Over any run of uses, the time of a channel is that of its owner's last use. */
  lemma {:induction false} TimesAreLastUses(last: map<nat, nat>, uses: seq<(nat, real)>)
    requires Connected(last).Inv()
    ensures var s := Run(Connected(last), uses);
            && |s.owners| == |s.times|
            && forall c: nat :: c < |s.owners| ==>
                 if s.owners[c].Some? then s.owners[c].value in Users(uses)
                    && s.times[c] == LastUse(uses, s.owners[c].value)
                 else s.times[c] == 0.0
  {
    if uses != [] {
      var n := |uses| - 1;
      TimesAreLastUses(last, uses[..n]);
      UsersSnoc(uses);
      UseTimes(Run(Connected(last), uses[..n]), uses[n].0, uses[n].1);
    }
  }

  /** A use stamps the channel it goes to, which is the only one of that object's, and no other. */
  lemma UseTimes(s: Channels, o: nat, now: real)
    requires s.Inv()
    ensures var r := Use(s, o, now);
            && |r.owners| == |r.times| == |s.owners| == |s.times|
            && forall c: nat :: c < |r.owners| ==>
                 if r.owners[c] == Some(o) then r.times[c] == now
                 else r.owners[c] == s.owners[c] && r.times[c] == s.times[c]
  {
    UseInv(s, o, now);
  }

  /** So the object that loses its channel is one that has not been used for longest. */
  lemma LeastRecentLoses(last: map<nat, nat>, uses: seq<(nat, real)>, o: nat, p: nat, q: nat, now: real)
    requires Connected(last).Inv()
    requires var s := Run(Connected(last), uses); s.Owns(o) && !Use(s, p, now).Owns(o) && s.Owns(q)
    ensures LastUse(uses, o) <= LastUse(uses, q)
  {
    var s := Run(Connected(last), uses);
    TimesAreLastUses(last, uses);
    OnlyTheOldestIsEvicted(s, o, p, now);
    assert s.owners[s.Last(o)] == Some(o) && s.owners[s.Last(q)] == Some(q);
  }

  class HudHelpers {
    /** One `Channels` per client. */
    var players: seq<Channels>

    ghost predicate Valid()
      reads this
    {
      forall c :: 0 <= c < |players| ==> players[c].Inv()
    }

    constructor (n: nat)
      ensures Valid() && |players| == n
    {
      players := seq(n, _ => Connected(map[]));
    }

    method OnClientConnected(client: nat)
      requires Valid() && client < |players|
      modifies this
      ensures Valid() && players == old(players)[client := Connected(old(players[client].last))]
      ensures forall c :: 0 <= c < MAX_HUD_CHANNELS ==>
                players[client].owners[c].None? && players[client].times[c] == 0.0
    {
      players := players[client := Connected(players[client].last)];
    }

    /** The minimum search both AutoSelectChannel functions make. */
    method FindOldest(times: seq<real>) returns (k: nat)
      requires times != []
      ensures k == Oldest(times)
    {
      k := 0;
      for i := 1 to |times|
        invariant k < i && IsOldest(times[..i], k)
      {
        if times[i] < times[k] {
          k := i;
        }
      }
      assert times[..|times|] == times;
      OldestIs(times, k);
    }

    /** AutoSelectChannel for a sync object. */
    method AutoSelectFor(client: nat, o: nat, now: real) returns (channel: nat)
      requires Valid() && client < |players|
      modifies this
      ensures Valid() && channel == UsedChannel(old(players[client]), o)
      ensures players == old(players)[client := Use(old(players[client]), o, now)]
      ensures players[client].times == old(players[client].times)[channel := now]
      ensures players[client].owners == old(players[client].owners)[channel := Some(o)]
    {
      UseInv(players[client], o, now);
      var p := players[client];
      channel := p.Last(o);
      if p.owners[channel] == Some(o) {
        players := players[client := p.(times := p.times[channel := now])];
        return;
      }
      channel := FindOldest(p.times);
      players := players[client := Channels(p.times[channel := now], p.owners[channel := Some(o)],
                                            p.last[o := channel])];
    }

    /** TryReuseLastChannel */
    method TryReuse(client: nat, o: nat, now: real) returns (channel: Option<nat>)
      requires Valid() && client < |players|
      modifies this
      ensures Valid() && channel == (if old(players[client]).Owns(o) then Some(old(players[client]).Last(o)) else None)
      ensures players == if channel.Some? then old(players)[client := Use(old(players[client]), o, now)]
              else old(players)
      ensures channel.Some? ==>
                && channel.value < MAX_HUD_CHANNELS && players[client].owners == old(players[client].owners)
                && players[client].times == old(players[client].times)[channel.value := now]
    {
      UseInv(players[client], o, now);
      var p := players[client];
      var c := p.Last(o);
      if p.owners[c] == Some(o) {
        players := players[client := p.(times := p.times[c := now])];
        return Some(c);
      }
      return None;
    }

    /** ManualSelectChannel: the channel is nobody's afterwards. */
    method ManualSelect(client: nat, channel: nat, now: real)
      requires Valid() && client < |players| && channel < MAX_HUD_CHANNELS
      modifies this
      ensures Valid() && players == old(players)[client := Stamp(old(players[client]), channel, None, now)]
      ensures players[client].times == old(players[client].times)[channel := now]
      ensures players[client].owners == old(players[client].owners)[channel := None]
      ensures players[client].last == old(players[client].last)
    {
      var p := players[client];
      players := players[client := p.(times := p.times[channel := now], owners := p.owners[channel := None])];
    }

    /** AutoSelectChannel without an object. */
    method AutoSelect(client: nat, now: real) returns (channel: nat)
      requires Valid() && client < |players|
      modifies this
      ensures Valid() && channel < MAX_HUD_CHANNELS && channel == Oldest(old(players[client].times))
      ensures players == old(players)[client := Stamp(old(players[client]), channel, None, now)]
    {
      channel := FindOldest(players[client].times);
      ManualSelect(client, channel, now);
    }
  }
}
