/**
 The console print queue of core/PlayerManager.cpp and the two frame action queues of core/frame_hooks.cpp
 that keep it moving.
 */
module PrintQueues {

  const NETMSG_TYPE_BITS: nat := 5
  const BUFFER_SIZE: nat := 2047
  const NO_SERIAL: nat := 0xFFFFFFFF

  /** A client's serial: its index in the low 8 bits, the number of the connection above them. */
  function SerialOf(index: nat, count: nat): nat { index + 256 * count }

  /** `Flush` empties the buffer of whoever has the serial; `Other` is anybody else's frame action. */
  datatype Action = Flush(serial: nat) | Other(calls: seq<Call>)

  /** What other code does to clients, or defers to the next frame. */
  datatype Call = Say(client: nat, msg: string) | Leave(client: nat) | Join(client: nat) | Defer(calls: seq<Call>)

  datatype Player = Player(connected: bool, serial: nat, buffer: seq<string>)

  /** What became of a message: given to the engine, or thrown away with a buffer. */
  datatype Outcome = Outcome(msg: string, sent: bool)

  /** The record of one connection: the messages let through, what became of each that has left the queue, and
      how many flushes of its buffer found it without a channel. */
  datatype Track = Track(said: seq<string>, out: seq<Outcome>, missed: nat) {
    predicate Leads(later: Track) { said <= later.said && out <= later.out && missed <= later.missed }
  }

  const BLANK := Track([], [], 0)

  function Messages(out: seq<Outcome>): seq<string> { seq(|out|, i requires 0 <= i < |out| => out[i].msg) }

  function Delivered(out: seq<Outcome>): seq<string> {
    if out == [] then [] else (if out[0].sent then [out[0].msg] else []) + Delivered(out[1..])
  }

  function Marked(msgs: seq<string>, sent: bool): seq<Outcome> {
    seq(|msgs|, i requires 0 <= i < |msgs| => Outcome(msgs[i], sent))
  }

  ghost predicate NoneLost(out: seq<Outcome>) { forall i :: 0 <= i < |out| ==> out[i].sent }

  lemma MessagesConcat(a: seq<Outcome>, b: seq<Outcome>)
    ensures Messages(a + b) == Messages(a) + Messages(b)
    ensures NoneLost(a + b) <==> NoneLost(a) && NoneLost(b)
  {
    assert forall i :: 0 <= i < |a| ==> (a + b)[i] == a[i];
    assert forall i :: 0 <= i < |b| ==> (a + b)[|a| + i] == b[i];
  }

  lemma MessagesMarked(msgs: seq<string>, sent: bool)
    ensures Messages(Marked(msgs, sent)) == msgs && (NoneLost(Marked(msgs, sent)) <==> sent || msgs == [])
  {
    assert msgs != [] ==> Marked(msgs, sent)[0].sent == sent;
  }

  /** The engine has been given all that left the queue iff none of it was thrown away. */
  lemma {:induction false} DeliveredIff(out: seq<Outcome>)
    ensures |Delivered(out)| <= |out|
    ensures Delivered(out) == Messages(out) <==> NoneLost(out)
    ensures |Delivered(out)| == |out| <==> NoneLost(out)
  {
    if out != [] {
      DeliveredIff(out[1..]);
      MessagesConcat([out[0]], out[1..]);
      assert out == [out[0]] + out[1..];
    }
  }

  /** The clients, their records and the connection counter at one moment. */
  datatype Snapshot = Snapshot(players: seq<Player>, tracks: seq<Track>, count: nat)

  /** Every connection that has lasted has a record that only grew; if `there`, no flush of it missed a channel. */
  ghost predicate Grown(a: Snapshot, b: Snapshot, there: bool) {
    && |a.players| == |a.tracks| == |b.players| == |b.tracks| && a.count <= b.count
    && forall c :: 0 <= c < |a.players| && b.players[c].connected ==>
         if a.players[c].connected && a.players[c].serial == b.players[c].serial
         then a.tracks[c].Leads(b.tracks[c]) && (there ==> b.tracks[c].missed == a.tracks[c].missed)
         else !Issued(b.players[c].serial, a.count)
  }

  lemma GrownLess(a: Snapshot, b: Snapshot, x: bool, y: bool)
    requires Grown(a, b, x) && (y ==> x)
    ensures Grown(a, b, y)
  {
  }

  ghost predicate AllIssuedNow(a: Snapshot) {
    forall k :: 0 <= k < |a.players| && a.players[k].connected ==> Issued(a.players[k].serial, a.count)
  }

  lemma GrownTransitive(a: Snapshot, b: Snapshot, c: Snapshot, x: bool, y: bool, z: bool)
    requires Grown(a, b, x) && Grown(b, c, y) && (z ==> x && y)
    requires AllIssuedNow(a)
    ensures Grown(a, c, z)
  {
  }

  /** What a flush does to the client it is for. */
  ghost predicate Flushed(p: Player, t: Track, q: Player, u: Track, there: bool) {
    && q.connected == p.connected && q.serial == p.serial && u.said == t.said
    && if there then
         && |q.buffer| <= |p.buffer| && u.missed == t.missed
         && var n := |p.buffer| - |q.buffer|; q.buffer == p.buffer[n..] && u.out == t.out + Marked(p.buffer[..n], true)
       else q.buffer == [] && u.out == t.out + Marked(p.buffer, false) && u.missed == t.missed + 1
  }

  /** Of the clients with something buffered in `a`, those that last have had something leave the queue since, or
      still have a flush coming. */
  ghost predicate Progressed(a: Snapshot, b: Snapshot, left: seq<Action>) {
    forall c :: 0 <= c < |a.players| && Buffering(a, b, c) ==>
      |b.tracks[c].out| > |a.tracks[c].out| || Flushes(left, a.players[c].serial) > 0
  }

  ghost predicate Buffering(a: Snapshot, b: Snapshot, c: nat) {
    && c < |a.players| == |a.tracks| == |b.players| == |b.tracks|
    && a.players[c].connected && a.players[c].buffer != []
    && b.players[c].connected && b.players[c].serial == a.players[c].serial
  }

  /** Something has left the queue of whoever has `serial`. */
  ghost predicate MovedOn(a: Snapshot, b: Snapshot, serial: nat) {
    && |a.players| == |a.tracks| == |b.tracks|
    && forall c :: 0 <= c < |a.players| && a.players[c].connected && a.players[c].serial == serial ==>
         |b.tracks[c].out| > |a.tracks[c].out|
  }

  lemma ProgressedOn(a: Snapshot, b: Snapshot, d: Snapshot, left: seq<Action>, was: bool, there: bool)
    requires left != [] && Progressed(a, b, left) && Grown(a, b, was) && Grown(b, d, there) && AllIssuedNow(a)
    requires left[0].Flush? ==> MovedOn(b, d, left[0].serial)
    ensures Progressed(a, d, left[1..])
  {
    forall c | 0 <= c < |a.players| && Buffering(a, d, c)
      ensures |d.tracks[c].out| > |a.tracks[c].out| || Flushes(left[1..], a.players[c].serial) > 0
    {
      assert b.players[c].connected && b.players[c].serial == a.players[c].serial;
      assert Buffering(a, b, c);
    }
  }

  /** A client's record accounts for every message let through, in order: each has one outcome or is buffered. */
  ghost predicate Accounted(p: Player, t: Track) {
    t.said == Messages(t.out) + p.buffer && (t.missed == 0 <==> NoneLost(t.out))
  }

  /** A connection's messages have all reached the engine, in order, or are buffered, iff no flush of it has found
      the channel missing. */
  lemma NothingLostIff(p: Player, t: Track)
    requires Accounted(p, t)
    ensures t.said == Delivered(t.out) + p.buffer <==> t.missed == 0
  {
    DeliveredIff(t.out);
    assert |t.said| == |t.out| + |p.buffer|;
  }

  lemma FlushedAccounted(p: Player, t: Track, q: Player, u: Track, there: bool)
    requires Accounted(p, t) && Flushed(p, t, q, u, there) && p.buffer != []
    ensures Accounted(q, u)
  {
    var n := |p.buffer| - |q.buffer|;
    var gone := Marked(p.buffer[..n], there);
    assert p.buffer[..|p.buffer|] == p.buffer;
    MessagesMarked(p.buffer[..n], there);
    MessagesConcat(t.out, gone);
    assert p.buffer == p.buffer[..n] + p.buffer[n..];
  }

  /** Whether a message would overflow the channel's print buffer. */
  predicate Overflows(bits: nat, length: nat) { (bits + NETMSG_TYPE_BITS + 7) / 8 + length >= BUFFER_SIZE }

  /** Whether the message is one the engine could ever send. */
  predicate Sendable(msg: string) { |msg| + 1 < BUFFER_SIZE }

  /** A message that is let into the queue fits an empty channel, so the head never blocks for good. */
  lemma HeadFits(msg: string)
    ensures Sendable(msg) <==> !Overflows(0, |msg|)
    ensures Sendable(msg) <==> |msg| <= 2045
  {
  }

  /** What overflows is more than 2046 bytes: the bits already written, the message's type in 5 bits, and its
      characters. */
  lemma WhatOverflows(bits: nat, length: nat)
    ensures Overflows(bits, length) <==> bits + 5 + 8 * length > 8 * 2046
  {
    var bytes := (bits + 12) / 8;
    assert 8 * bytes <= bits + 12 < 8 * bytes + 8;
  }

  function Flushes(q: seq<Action>, serial: nat): nat {
    if q == [] then 0 else Flushes(q[1..], serial) + if q[0] == Flush(serial) then 1 else 0
  }

  lemma {:induction false} FlushesConcat(a: seq<Action>, b: seq<Action>, serial: nat)
    ensures Flushes(a + b, serial) == Flushes(a, serial) + Flushes(b, serial)
  {
    if a == [] {
      assert a + b == b;
    } else {
      assert (a + b)[1..] == a[1..] + b;
      FlushesConcat(a[1..], b, serial);
    }
  }

  lemma FlushesSnoc(q: seq<Action>, act: Action, serial: nat)
    ensures Flushes(q + [act], serial) == Flushes(q, serial) + if act == Flush(serial) then 1 else 0
  {
    FlushesConcat(q, [act], serial);
    assert [act][1..] == [];
  }

  /** Serials in the queue are ones that have been given out. */
  predicate Issued(serial: nat, count: nat) { serial / 256 < count }

  ghost predicate AllIssued(q: seq<Action>, count: nat) {
    forall i :: 0 <= i < |q| && q[i].Flush? ==> Issued(q[i].serial, count)
  }

  lemma {:induction false} NotIssuedNotQueued(q: seq<Action>, count: nat, serial: nat)
    requires AllIssued(q, count) && !Issued(serial, count)
    ensures Flushes(q, serial) == 0
  {
    if q != [] {
      NotIssuedNotQueued(q[1..], count, serial);
    }
  }

  class PrintQueue {
    const maxClients: nat
    /** The engine's answers, in the order they are asked for: is there a channel, and how full is it. */
    const hasChannel: nat -> bool
    const bitsWritten: nat -> nat
    var asked: nat
    var players: seq<Player>
    var serialCount: nat
    var frameQueue: seq<Action>
    var frameActions: seq<Action>
    /** The record of each client's connection, and every frame action run. */
    ghost var tracks: seq<Track>
    ghost var ran: seq<Action>

    ghost predicate Shape()
      reads this
    {
      && 1 <= maxClients <= 101 && |players| == |tracks| == maxClients + 1 && !players[0].connected
      && AllIssued(frameQueue, serialCount) && AllIssued(frameActions, serialCount)
      && (forall c :: 0 <= c <= maxClients ==> Fits(c, players[c], serialCount))
    }

    static ghost predicate Fits(c: nat, p: Player, count: nat) {
      && (if p.connected then p.serial % 256 == c && Issued(p.serial, count)
          else p.serial == NO_SERIAL && p.buffer == [])
      && (forall i :: 0 <= i < |p.buffer| ==> Sendable(p.buffer[i]))
    }

    ghost predicate InOrder()
      requires |players| == |tracks|
      reads this
    {
      forall c :: 0 <= c < |players| && players[c].connected ==> Accounted(players[c], tracks[c])
    }

    ghost function Now(): Snapshot
      reads this`players, this`tracks, this`serialCount
    {
      Snapshot(players, tracks, serialCount)
    }

    /** Every channel looked at since the engine was asked `from` times was empty. */
    ghost predicate AllEmpty(from: nat)
      reads this`asked
    {
      forall k :: from <= k < asked ==> bitsWritten(k) == 0
    }

    /** The engine had a channel for whoever was asked about since it was asked `from` times. */
    ghost predicate AllThere(from: nat)
      reads this`asked
    {
      forall k :: from <= k < asked ==> hasChannel(k)
    }

    ghost function Pending(serial: nat): nat
      reads this`frameActions, this`frameQueue
    {
      Flushes(frameActions, serial) + Flushes(frameQueue, serial)
    }

    /** A connected client has one action pending while something is buffered for it, and none otherwise;
        `but` is the serial whose action is being run. */
    ghost predicate OnePending(but: nat)
      requires |players| == maxClients + 1
      reads this
    {
      forall c :: 0 <= c <= maxClients && players[c].connected ==>
        Pending(players[c].serial) == if players[c].buffer != [] && players[c].serial != but then 1 else 0
    }

    ghost predicate ValidBut(but: nat)
      reads this
    {
      Shape() && InOrder() && OnePending(but)
    }

    ghost predicate Valid()
      reads this
    {
      ValidBut(NO_SERIAL)
    }

    constructor (maxClients: nat, hasChannel: nat -> bool, bitsWritten: nat -> nat)
      requires 1 <= maxClients <= 101
      ensures Valid() && frameQueue == frameActions == [] && asked == 0 && ran == []
      ensures this.maxClients == maxClients && this.hasChannel == hasChannel && this.bitsWritten == bitsWritten
      ensures |players| == |tracks| == maxClients + 1 && forall c :: 0 <= c <= maxClients ==> !players[c].connected
    {
      this.maxClients, this.hasChannel, this.bitsWritten, asked := maxClients, hasChannel, bitsWritten, 0;
      players := seq(maxClients + 1, _ => Player(false, NO_SERIAL, []));
      serialCount, frameQueue, frameActions := 0, [], [];
      tracks, ran := seq(maxClients + 1, _ => BLANK), [];
    }

    method AddFrameAction(act: Action)
      requires Shape() && (act.Flush? ==> Issued(act.serial, serialCount))
      modifies this`frameQueue
      ensures Shape() && frameQueue == old(frameQueue) + [act]
      ensures forall s: nat :: Pending(s) == old(Pending(s)) + if act == Flush(s) then 1 else 0
    {
      forall s: nat
        ensures Flushes(frameQueue + [act], s) == Flushes(frameQueue, s) + if act == Flush(s) then 1 else 0
      {
        FlushesSnoc(frameQueue, act, s);
      }
      frameQueue := frameQueue + [act];
    }

    /** A player connects. */
    method Connect(c: nat)
      requires Valid() && 1 <= c <= maxClients && !players[c].connected
      modifies this
      ensures Valid() && players == old(players)[c := Player(true, SerialOf(c, old(serialCount)), [])]
      ensures tracks == old(tracks)[c := BLANK] && Grown(old(Now()), Now(), true) && ran == old(ran)
              && frameActions == old(frameActions)
      ensures serialCount == old(serialCount) + 1 && frameQueue == old(frameQueue) && asked == old(asked)
    {
      NotIssuedNotQueued(frameQueue, serialCount, SerialOf(c, serialCount));
      NotIssuedNotQueued(frameActions, serialCount, SerialOf(c, serialCount));
      players := players[c := Player(true, SerialOf(c, serialCount), [])];
      serialCount := serialCount + 1;
      tracks := tracks[c := BLANK];
      MessagesConcat([], []);
    }

    /** A player leaves; its serial is void and its buffer dropped, and a pending action will find nobody. */
    method Disconnect(c: nat)
      requires Valid() && 1 <= c <= maxClients
      modifies this`players
      ensures Valid() && players == old(players)[c := Player(false, NO_SERIAL, [])] && Grown(old(Now()), Now(), true)
    {
      players := players[c := Player(false, NO_SERIAL, [])];
    }

    /** GetClientFromSerial */
    method GetClientFromSerial(serial: nat) returns (c: nat)
      requires Shape()
      ensures c <= maxClients
      ensures c != 0 <==> exists d :: 1 <= d <= maxClients && players[d].connected && players[d].serial == serial
      ensures c != 0 ==> players[c].connected && players[c].serial == serial
      ensures forall d :: 1 <= d <= maxClients && players[d].connected && players[d].serial == serial ==> d == c
    {
      var index := serial % 256;
      if index < 1 || index > maxClients {
        return 0;
      }
      if players[index].serial == serial {
        return index;
      }
      return 0;
    }

    /** OnClientPrintf: a message that would overflow the channel, or that would overtake one, is held back. */
    method OnClientPrintf(c: nat, msg: string) returns (held: bool)
      requires Valid() && c <= maxClients
      modifies this
      ensures Valid() && players == old(players)[c := players[c]]
      ensures ran == old(ran) && frameActions == old(frameActions) && serialCount == old(serialCount)
      ensures players[c] == old(players[c]).(buffer := if held then old(players[c].buffer) + [msg]
                                             else old(players[c].buffer))
      ensures tracks == old(tracks)[c := tracks[c]] && asked == old(asked) + if old(players[c].connected) then 1 else 0
      ensures if old(players[c].connected && hasChannel(asked)) && Sendable(msg)
              then tracks[c].said == old(tracks[c].said) + [msg] && tracks[c].missed == old(tracks[c].missed)
                   && tracks[c].out == old(tracks[c].out) + if held then [] else [Outcome(msg, true)]
              else tracks == old(tracks) && !held
      ensures held <==> old(players[c].connected && hasChannel(asked)) && Sendable(msg)
                        && old(players[c].buffer != [] || Overflows(bitsWritten(asked), |msg|))
      ensures frameQueue == old(frameQueue)
                            + if held && old(players[c].buffer) == [] then [Flush(old(players[c].serial))] else []
    {
      hide Accounted, Overflows, Sendable, Flushes;
      held := false;
      if !players[c].connected {
        return;
      }
      var k := asked;
      asked := asked + 1;
      if !hasChannel(k) || !Sendable(msg) {
        return;
      }
      if players[c].buffer != [] || Overflows(bitsWritten(k), |msg|) {
        if players[c].buffer == [] {
          AddFrameAction(Flush(players[c].serial));
        }
        players := players[c := players[c].(buffer := players[c].buffer + [msg])];
        held := true;
      }
      LetThrough(old(players[c]), tracks[c], msg, held);
      tracks := tracks[c := tracks[c].(said := tracks[c].said + [msg],
                                       out := tracks[c].out + if held then [] else [Outcome(msg, true)])];
    }

    static lemma LetThrough(p: Player, t: Track, msg: string, held: bool)
      requires Accounted(p, t) && (!held ==> p.buffer == [])
      ensures Accounted(p.(buffer := if held then p.buffer + [msg] else p.buffer),
                        t.(said := t.said + [msg], out := t.out + if held then [] else [Outcome(msg, true)]))
    {
      MessagesConcat(t.out, [Outcome(msg, true)]);
      assert t.out + [] == t.out;
    }

    /** The flush of whoever has `serial`, every other client left alone. */
    static ghost predicate OneFlushed(a: Snapshot, b: Snapshot, serial: nat, there: bool) {
      && |a.players| == |a.tracks| == |b.players| == |b.tracks| && b.count == a.count
      && forall c :: 0 <= c < |a.players| ==>
           if a.players[c].connected && a.players[c].serial == serial
           then Flushed(a.players[c], a.tracks[c], b.players[c], b.tracks[c], there)
           else b.players[c] == a.players[c] && b.tracks[c] == a.tracks[c]
    }

    static lemma OneFlushedGrown(a: Snapshot, b: Snapshot, serial: nat, there: bool)
      requires OneFlushed(a, b, serial, there)
      ensures Grown(a, b, there)
    {
    }

    static lemma OneMovedOn(a: Snapshot, b: Snapshot, c: nat, serial: nat, there: bool)
      requires OneFlushed(a, b, serial, there) && c < |a.players| && a.players[c].buffer != []
      requires forall d :: 0 <= d < |a.players| && a.players[d].connected && a.players[d].serial == serial ==> d == c
      requires there ==> |b.players[c].buffer| < |a.players[c].buffer|
      ensures MovedOn(a, b, serial)
    {
    }

    static lemma NobodyMoves(a: Snapshot, b: Snapshot, serial: nat)
      requires |a.players| == |a.tracks| == |b.tracks|
      requires forall d :: 0 <= d < |a.players| && a.players[d].connected ==> a.players[d].serial != serial
      ensures MovedOn(a, b, serial)
    {
    }

    /** OnPrintfFrameAction: as many of the buffered messages go out as fit, and if any are left, so does another
        action; but a client found without a channel loses them all. */
    method OnPrintfFrameAction(serial: nat)
      requires ValidBut(serial)
      requires forall c :: 0 <= c <= maxClients && players[c].connected && players[c].serial == serial ==>
                 players[c].buffer != []
      modifies this
      ensures Valid() && ran == old(ran) && frameActions == old(frameActions) && serialCount == old(serialCount)
      ensures OneFlushed(old(Now()), Now(), serial, old(hasChannel(asked))) && old(asked) <= asked
      ensures (exists c :: 0 <= c < |players| && players[c].connected && players[c].serial == serial) ==>
                old(asked) < asked
      ensures Grown(old(Now()), Now(), AllThere(old(asked)))
      ensures AllEmpty(old(asked)) ==> MovedOn(old(Now()), Now(), serial)
      ensures old(hasChannel(asked)) ==>
                forall c ::
                  && 0 <= c <= maxClients && players[c].connected && players[c].serial == serial
                  && players[c].buffer != [] ==>
                    && Overflows(bitsWritten(asked - 1), |players[c].buffer[0]|)
                    && (old(bitsWritten(asked)) == 0 ==> |players[c].buffer| < old(|players[c].buffer|))
    {
      hide Overflows, Sendable, Accounted, Flushed, MovedOn, Grown;
      var c := GetClientFromSerial(serial);
      if !players[c].connected {
        Nobody(c, serial);
        players := players[c := players[c].(buffer := [])];
        NobodyMoves(old(Now()), Now(), serial);
        return;
      }
      FlushClient(c);
    }

    /** What fits is sent and the rest put off; without a channel it is all forgotten. */
    method SendOrForget(c: nat)
      requires c <= maxClients && |players| == maxClients + 1 && players[c].connected && ValidBut(players[c].serial)
      requires players[c].buffer != []
      modifies this`asked, this`players, this`tracks, this`frameQueue
      ensures Valid() && |players| == maxClients + 1
      ensures OneFlushed(old(Now()), Now(), old(players[c].serial), old(hasChannel(asked))) && old(asked) < asked
      ensures old(hasChannel(asked)) && players[c].buffer != [] ==>
                Overflows(bitsWritten(asked - 1), |players[c].buffer[0]|)
      ensures old(hasChannel(asked)) && old(bitsWritten(asked)) == 0 ==> |players[c].buffer| < old(|players[c].buffer|)
    {
      hide Overflows, Sendable, Accounted, Flushed, OneFlushed;
      var k := asked;
      if !hasChannel(k) {
        asked := asked + 1;
        Forget(c);
      } else {
        asked := Drain(c, k);
        Requeue(c);
      }
    }

    /** The flush of a client that is there. */
    method FlushClient(c: nat)
      requires c <= maxClients && |players| == maxClients + 1 && players[c].connected && ValidBut(players[c].serial)
      requires players[c].buffer != []
      requires forall d :: 0 <= d <= maxClients && players[d].connected && players[d].serial == players[c].serial ==>
                 d == c
      modifies this`asked, this`players, this`tracks, this`frameQueue
      ensures Valid() && |players| == maxClients + 1 && players[c].serial == old(players[c].serial)
      ensures OneFlushed(old(Now()), Now(), old(players[c].serial), old(hasChannel(asked))) && old(asked) < asked
      ensures Grown(old(Now()), Now(), AllThere(old(asked)))
      ensures AllEmpty(old(asked)) ==> MovedOn(old(Now()), Now(), old(players[c].serial))
      ensures old(hasChannel(asked)) && players[c].buffer != [] ==>
                Overflows(bitsWritten(asked - 1), |players[c].buffer[0]|)
      ensures old(hasChannel(asked)) && old(bitsWritten(asked)) == 0 ==> |players[c].buffer| < old(|players[c].buffer|)
    {
      hide Overflows, Sendable, Accounted, Flushed, MovedOn, Grown, OneFlushed;
      ghost var k := asked;
      ghost var serial := players[c].serial;
      ghost var before := Now();
      SendOrForget(c);
      SameShape(before, Now(), c, serial, hasChannel(k));
      OneFlushedGrown(before, Now(), serial, hasChannel(k));
      GrownLess(before, Now(), hasChannel(k), AllThere(k));
      if AllEmpty(k) {
        OneMovedOn(before, Now(), c, serial, hasChannel(k));
      }
    }

    static lemma SameShape(a: Snapshot, b: Snapshot, c: nat, serial: nat, there: bool)
      requires OneFlushed(a, b, serial, there) && c < |a.players| && a.players[c].connected
               && a.players[c].serial == serial
      ensures |b.players| == |a.players| && b.players[c].serial == serial
    {
    }

    /** ClearNetchannelQueue on a client that is still there. */
    method Forget(c: nat)
      requires c <= maxClients && |players| == maxClients + 1 && players[c].connected && ValidBut(players[c].serial)
      requires players[c].buffer != []
      modifies this`players, this`tracks
      ensures Valid() && OneFlushed(old(Now()), Now(), old(players[c].serial), false)
    {
      hide Overflows, Sendable;
      var p := players[c];
      ghost var t := tracks[c];
      players := players[c := p.(buffer := [])];
      tracks := tracks[c := Track(t.said, t.out + Marked(p.buffer, false), t.missed + 1)];
      FlushedAccounted(p, t, players[c], tracks[c], false);
    }

    lemma Nobody(c: nat, serial: nat)
      requires ValidBut(serial) && c <= maxClients && |players| == maxClients + 1 && !players[c].connected
      ensures players[c := players[c].(buffer := [])] == players && Grown(Now(), Now(), true)
    {
      assert Fits(c, players[c], serialCount);
    }

    /** Whatever is left has an action pending for the next frame. */
    method Requeue(c: nat)
      requires c <= maxClients && |players| == maxClients + 1 && players[c].connected && ValidBut(players[c].serial)
      modifies this`frameQueue
      ensures Valid()
    {
      hide Overflows, Sendable;
      assert Fits(c, players[c], serialCount);
      if players[c].buffer != [] {
        AddFrameAction(Flush(players[c].serial));
      }
    }

    /** The loop of OnPrintfFrameAction. */
    method Drain(c: nat, from: nat) returns (k: nat)
      requires c <= maxClients && |players| == maxClients + 1 && players[c].connected && ValidBut(players[c].serial)
      requires players[c].buffer != []
      modifies this`players, this`tracks
      ensures |players| == maxClients + 1 && players[c].connected && players[c].serial == old(players[c].serial)
      ensures ValidBut(players[c].serial) && OneFlushed(old(Now()), Now(), players[c].serial, true) && from < k
      ensures bitsWritten(from) == 0 ==> |players[c].buffer| < |old(players)[c].buffer|
      ensures players[c].buffer != [] ==> Overflows(bitsWritten(k - 1), |players[c].buffer[0]|)
    {
      assert |tracks| == maxClients + 1;
      hide Overflows, Sendable, ValidBut, OneFlushed;
      k := from;
      Undrained(players[c].serial);
      while players[c].buffer != []
        invariant |players| == maxClients + 1 && players[c].connected && players[c].serial == old(players[c].serial)
        invariant ValidBut(players[c].serial) && OneFlushed(old(Now()), Now(), players[c].serial, true)
        invariant k >= from && (k == from ==> players == old(players))
        invariant k > from ==> |players[c].buffer| < |old(players)[c].buffer|
        decreases |players[c].buffer|
      {
        var full := Overflows(bitsWritten(k), |players[c].buffer[0]|);
        k := k + 1;
        if full {
          HeadSendable(c, players[c].serial);
          break;
        }
        ghost var before := Now();
        SendHead(c);
        OneLess(old(Now()), before, Now(), c);
      }
    }

    static lemma OneLess(a: Snapshot, b: Snapshot, d: Snapshot, c: nat)
      requires c < |b.players| == |b.tracks| && b.players[c].buffer != [] && OneFlushed(a, b, b.players[c].serial, true)
      requires b.players[c].connected && d == Snapshot(
        b.players[c := b.players[c].(buffer := b.players[c].buffer[1..])],
        b.tracks[c := b.tracks[c].(out := b.tracks[c].out + [Outcome(b.players[c].buffer[0], true)])], b.count)
      ensures OneFlushed(a, d, b.players[c].serial, true)
      ensures c < |a.players| && |b.players[c].buffer| <= |a.players[c].buffer|
    {
      hide Flushed;
      FlushedNext(a.players[c], a.tracks[c], b.players[c], b.tracks[c]);
    }

    static lemma FlushedNext(p: Player, t: Track, q: Player, u: Track)
      requires Flushed(p, t, q, u, true) && q.buffer != []
      ensures Flushed(p, t, q.(buffer := q.buffer[1..]), u.(out := u.out + [Outcome(q.buffer[0], true)]), true)
      ensures |q.buffer| <= |p.buffer|
    {
      var all, left := p.buffer, q.buffer;
      var n := |all| - |left|;
      assert all[..n + 1] == all[..n] + [left[0]];
      assert Marked(all[..n + 1], true) == Marked(all[..n], true) + [Outcome(left[0], true)];
    }

    lemma HeadSendable(c: nat, but: nat)
      requires |players| == maxClients + 1 && ValidBut(but) && c <= maxClients && players[c].buffer != []
      ensures !Overflows(0, |players[c].buffer[0]|)
    {
      assert Fits(c, players[c], serialCount);
      HeadFits(players[c].buffer[0]);
    }

    lemma Undrained(serial: nat)
      requires |players| == |tracks|
      ensures OneFlushed(Now(), Now(), serial, true)
    {
      assert forall t: Track :: t.out + Marked([], true) == t.out;
    }

    /** The first buffered message goes out. */
    method SendHead(c: nat)
      requires c <= maxClients && |players| == maxClients + 1 && players[c].connected && players[c].buffer != []
      requires ValidBut(players[c].serial)
      modifies this`players, this`tracks
      ensures |players| == |tracks| == |old(tracks)| == maxClients + 1 && ValidBut(players[c].serial)
      ensures players == old(players)[c := old(players[c]).(buffer := old(players[c].buffer[1..]))]
      ensures tracks == old(tracks)[c := old(tracks[c]).(
                                           out := old(tracks[c].out + [Outcome(players[c].buffer[0], true)]))]
    {
      hide Sendable, Overflows;
      var p := players[c];
      MessagesConcat(tracks[c].out, [Outcome(p.buffer[0], true)]);
      tracks := tracks[c := tracks[c].(out := tracks[c].out + [Outcome(p.buffer[0], true)])];
      players := players[c := p.(buffer := p.buffer[1..])];
      assert p.buffer == [p.buffer[0]] + p.buffer[1..];
    }

    /** Other code runs: it prints, and players come and go, and it may leave work for the next frame. */
    method RunCalls(calls: seq<Call>)
      requires Valid()
      modifies this
      ensures Valid() && ran == old(ran) && frameActions == old(frameActions)
      ensures Grown(old(Now()), Now(), true) && old(asked) <= asked
    {
      GrownStarts();
      hide ValidBut, Grown;
      for i := 0 to |calls|
        invariant Valid() && ran == old(ran) && frameActions == old(frameActions)
        invariant Grown(old(Now()), Now(), true) && old(asked) <= asked
      {
        ghost var before := Now();
        RunCall(calls[i]);
        GrownTransitive(old(Now()), before, Now(), true, true, true);
      }
    }

    lemma GrownStarts()
      requires Valid()
      ensures Grown(Now(), Now(), true) && AllIssuedNow(Now())
    {
    }

    method RunCall(call: Call)
      requires Valid()
      modifies this
      ensures Valid() && ran == old(ran) && frameActions == old(frameActions)
      ensures Grown(old(Now()), Now(), true) && old(asked) <= asked
    {
      GrownStarts();
      hide Sendable, Overflows, Accounted;
      match call {
        case Say(c, msg) =>
          if c <= maxClients {
            var _ := OnClientPrintf(c, msg);
          }
        case Leave(c) =>
          if 1 <= c <= maxClients && players[c].connected {
            Disconnect(c);
          }
        case Join(c) =>
          if 1 <= c <= maxClients && !players[c].connected {
            Connect(c);
          }
        case Defer(calls) =>
          AddFrameAction(Other(calls));
      }
    }

    /** RunFrameHooks, as far as the queues: they are swapped, and everything that was queued runs once, in
        order; what is added meanwhile waits for the next frame. */
    method RunFrameHooks()
      requires Valid() && frameActions == []
      modifies this
      ensures Valid() && frameActions == []
      ensures ran == old(ran) + old(frameQueue)
      ensures Grown(old(Now()), Now(), AllThere(old(asked))) && old(asked) <= asked
      ensures AllEmpty(old(asked)) ==>
                forall c :: 0 <= c <= maxClients && Buffering(old(Now()), Now(), c) ==>
                  |tracks[c].out| > |old(tracks[c].out)|
    {
      GrownStarts();
      OnesPending();
      hide Sendable, Overflows, ValidBut, Grown, AllIssuedNow, Progressed, Buffering;
      if frameQueue == [] {
        return;
      }
      Swap();
      while frameActions != []
        invariant Valid() && ran + frameActions == old(ran) + old(frameQueue)
        invariant Grown(old(Now()), Now(), AllThere(old(asked))) && old(asked) <= asked
        invariant AllEmpty(old(asked)) ==> Progressed(old(Now()), Now(), frameActions)
        decreases |frameActions|
      {
        ghost var before, had := Now(), asked;
        ghost var there := AllThere(old(asked));
        ghost var rest := frameActions[1..];
        assert ran + frameActions == ran + [frameActions[0]] + rest;
        ghost var left := frameActions;
        RunNext();
        if AllEmpty(old(asked)) {
          ProgressedOn(old(Now()), before, Now(), left, there, AllThere(had));
        }
        GrownTransitive(old(Now()), before, Now(), there, AllThere(had), AllThere(old(asked)));
      }
      if AllEmpty(old(asked)) {
        AllMoved(old(Now()), Now());
      }
    }

    /** Whoever has something buffered has its flush queued. */
    lemma OnesPending()
      requires Valid() && frameActions == []
      ensures Progressed(Now(), Now(), frameQueue)
      ensures frameQueue == [] ==> forall c :: 0 <= c < |players| && players[c].connected ==> players[c].buffer == []
    {
      forall c | 0 <= c <= maxClients && players[c].connected && players[c].buffer != []
        ensures Flushes(frameQueue, players[c].serial) > 0
      {
        assert Fits(c, players[c], serialCount);
        assert Pending(players[c].serial) == 1;
      }
    }

    static lemma AllMoved(a: Snapshot, b: Snapshot)
      requires Progressed(a, b, [])
      ensures forall c :: 0 <= c < |a.players| && Buffering(a, b, c) ==> |b.tracks[c].out| > |a.tracks[c].out|
    {
    }

    method Swap()
      requires Valid()
      modifies this`frameQueue, this`frameActions
      ensures Valid() && frameQueue == old(frameActions) && frameActions == old(frameQueue)
    {
      frameQueue, frameActions := frameActions, frameQueue;
    }

    method RunNext()
      requires Valid() && frameActions != []
      modifies this
      ensures Valid() && frameActions == old(frameActions[1..]) && ran == old(ran) + [old(frameActions[0])]
      ensures Grown(old(Now()), Now(), AllThere(old(asked))) && old(asked) <= asked
      ensures old(frameActions[0]).Flush? ==>
                OneFlushed(old(Now()), Now(), old(frameActions[0]).serial, old(hasChannel(asked)))
      ensures AllEmpty(old(asked)) && old(frameActions[0]).Flush? ==>
                MovedOn(old(Now()), Now(), old(frameActions[0]).serial)
    {
      hide Sendable, Overflows, Accounted, OneFlushed, MovedOn;
      var item := frameActions[0];
      ghost var was := players;
      frameActions := frameActions[1..];
      ran := ran + [item];
      match item {
        case Flush(serial) =>
          OnPrintfFrameAction(serial);
        case Other(calls) =>
          RunCalls(calls);
      }
    }

    /** A run in which a message is lost: it is held back by a full channel, and when its flush comes there is none. */
    static method LostWithoutChannel() returns (q: PrintQueue)
      ensures q.Valid() && 1 < |q.players| == |q.tracks| && q.players[1].connected && q.players[1].buffer == []
      ensures q.tracks[1].said == ["a"] && q.tracks[1].missed == 1 && Delivered(q.tracks[1].out) == []
    {
      hide PrintQueue.ValidBut, PrintQueue.AllThere, PrintQueue.AllEmpty, Grown, Overflows, Sendable, OneFlushed,
           MovedOn, Delivered;
      FullChannel();
      q := new PrintQueue(1, k => k == 0, _ => 8 * BUFFER_SIZE);
      q.Connect(1);
      var held := q.OnClientPrintf(1, "a");
      ghost var p, t := q.players[1], q.tracks[1];
      ghost var before := q.Now();
      q.Swap();
      q.RunNext();
      ThrownAway(before, q.Now(), 1, p.serial);
    }

    static lemma FullChannel()
      ensures Overflows(8 * BUFFER_SIZE, 1) && Sendable("a")
    {
    }

    static lemma ThrownAway(a: Snapshot, b: Snapshot, c: nat, serial: nat)
      requires c < |a.players| == |a.tracks| && a.players[c].connected && a.players[c].serial == serial
      requires a.players[c].buffer == ["a"] && a.tracks[c] == Track(["a"], [], 0) && OneFlushed(a, b, serial, false)
      ensures c < |b.players| == |b.tracks| && b.players[c].connected && b.players[c].buffer == []
      ensures b.tracks[c].said == ["a"] && b.tracks[c].missed == 1 && Delivered(b.tracks[c].out) == []
    {
      var out := b.tracks[c].out;
      assert Flushed(a.players[c], a.tracks[c], b.players[c], b.tracks[c], false);
      assert out == [Outcome("a", false)];
      assert out[1..] == [];
    }
  }
}
