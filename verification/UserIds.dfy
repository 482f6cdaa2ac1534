/** The user id cache of core/PlayerManager.cpp, which answers what a scan of the players would. */
module UserIds {

  const USHRT_MAX: nat := 65535

  /** A slot, and the id the engine reports for whoever is in it. */
  datatype Slot = Slot(connected: bool, userid: int)

  predicate Holds(players: seq<Slot>, c: nat, userid: int) {
    1 <= c < |players| && players[c].connected && players[c].userid == userid
  }

  /** The first client with the id, or 0. */
  function Scan(players: seq<Slot>, userid: int, from: nat): (c: nat)
    ensures c == 0 ==> forall d: nat :: d >= from ==> !Holds(players, d, userid)
    ensures c != 0 ==>
              && c >= from && Holds(players, c, userid)
              && forall d: nat :: from <= d < c ==> !Holds(players, d, userid)
    decreases |players| - from
  {
    if from >= |players| then 0 else if Holds(players, from, userid) then from else Scan(players, userid, from + 1)
  }

  /** No two connected clients share an id. */
  ghost predicate Distinct(players: seq<Slot>) {
    forall c: nat, d: nat, id: int :: Holds(players, c, id) && Holds(players, d, id) ==> c == d
  }

  class UserIdCache {
    const lookup: array<nat>
    var players: seq<Slot>

    ghost predicate Valid()
      reads this
    {
      lookup.Length == USHRT_MAX + 1 && players != []
    }

    constructor (n: nat)
      requires n > 0
      ensures Valid() && fresh(lookup) && |players| == n
    {
      lookup := new nat[USHRT_MAX + 1](_ => 0);
      players := seq(n, _ => Slot(false, -1));
    }

    /** A client is let in: its id is cached. */
    method Connect(c: nat, userid: int)
      requires Valid() && 1 <= c < |players|
      modifies this`players, lookup
      ensures Valid() && players == old(players)[c := Slot(true, userid)]
      ensures lookup[..] == if 0 <= userid <= USHRT_MAX then old(lookup[..])[userid := c] else old(lookup[..])
    {
      players := players[c := Slot(true, userid)];
      if 0 <= userid <= USHRT_MAX {
        lookup[userid] := c;
      }
    }

    /** InvalidatePlayer: the id is forgotten. */
    method Invalidate(c: nat)
      requires Valid() && 1 <= c < |players|
      modifies this`players, lookup
      ensures Valid() && players == old(players)[c := Slot(false, -1)]
      ensures var id := old(players)[c].userid;
              lookup[..] == if 0 <= id <= USHRT_MAX then old(lookup[..])[id := 0] else old(lookup[..])
    {
      var userid := players[c].userid;
      if 0 <= userid <= USHRT_MAX {
        lookup[userid] := 0;
      }
      players := players[c := Slot(false, -1)];
    }

    /** GetClientOfUserId: whatever the cache holds, the answer is a client with that id, and 0 only when there is
        none; it is the first such client unless a verified cache entry says otherwise. */
    method GetClientOfUserId(userid: int) returns (client: nat)
      requires Valid()
      modifies lookup
      ensures !(0 <= userid <= USHRT_MAX) ==> client == 0
      ensures client != 0 ==> Holds(players, client, userid)
      ensures client == 0 && 0 <= userid <= USHRT_MAX ==> forall d: nat :: !Holds(players, d, userid)
      ensures 0 <= userid <= USHRT_MAX ==>
                (client == Scan(players, userid, 1)
                 <==> !(Holds(players, old(lookup[userid]), userid) && old(lookup[userid]) != Scan(players, userid, 1)))
      ensures 0 <= userid <= USHRT_MAX && Distinct(players) ==> client == Scan(players, userid, 1)
    {
      if userid < 0 || userid > USHRT_MAX {
        return 0;
      }
      client := lookup[userid];
      if client != 0 && client < |players| && players[client].connected && players[client].userid == userid {
        return;
      }
      var i := 1;
      while i < |players|
        invariant 1 <= i <= |players| && Scan(players, userid, 1) == Scan(players, userid, i)
        invariant forall d: nat :: 1 <= d < i ==> !Holds(players, d, userid)
      {
        if players[i].connected && players[i].userid == userid {
          lookup[userid] := i;
          return i;
        }
        i := i + 1;
      }
      return 0;
    }
  }
}
