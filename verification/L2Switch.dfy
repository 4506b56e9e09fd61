/**
 The learning switch of l2fwd/veth_peer: one lcore polls two ports, learns the source of every frame,
 looks its destination up and transmits or frees it. A frame is named by the position of its reception.
 */
module L2Switch {

  type Mac = m: nat | m < 0x1_0000_0000_0000
  type EthPort = p: nat | p < 2

  /**
   One received frame with what the libraries answer while it is handled: whether the table has room
   should the source be a new key, and whether the output port takes the frame.
   */
  datatype Event = Event(port: EthPort, src: Mac, dst: Mac, room: bool, taken: bool)

  datatype Sent = Sent(port: EthPort, frame: nat)

  datatype State = State(table: map<Mac, EthPort>, received: nat, wire: seq<Sent>, freed: seq<nat>)

  const Empty := State(map[], 0, [], [])

  /** Adding an existing key overwrites its data; adding a new one fails when there is no room. */
  function Learn(table: map<Mac, EthPort>, e: Event): map<Mac, EthPort> {
    if e.src in table || e.room then table[e.src := e.port] else table
  }

  function OutPort(table: map<Mac, EthPort>, e: Event): EthPort {
    if e.dst in table then table[e.dst] else if e.port == 0 then 1 else 0
  }

  function Step(s: State, e: Event): State {
    var table := Learn(s.table, e);
    if e.taken then
      State(table, s.received + 1, s.wire + [Sent(OutPort(table, e), s.received)], s.freed)
    else
      State(table, s.received + 1, s.wire, s.freed + [s.received])
  }

  function Run(s: State, h: seq<Event>): State {
    if h == [] then s else Step(Run(s, h[..|h| - 1]), h[|h| - 1])
  }

  lemma {:induction false} RunAppend(s: State, h: seq<Event>, more: seq<Event>)
    ensures Run(s, h + more) == Run(Run(s, h), more)
  {
    if more == [] {
      assert h + more == h;
    } else {
      var front := more[..|more| - 1];
      RunAppend(s, h, front);
      assert (h + more)[..|h + more| - 1] == h + front;
    }
  }

  // ---------------------------------------------------------------- the history

  /** `mac` was seen as a source at a moment when the table had room for it. */
  ghost predicate Known(h: seq<Event>, mac: Mac) {
    exists i :: 0 <= i < |h| && h[i].src == mac && h[i].room
  }

  /** `i` is the last reception of a frame from `mac`. */
  predicate LastSeen(h: seq<Event>, mac: Mac, i: int) {
    0 <= i < |h| && h[i].src == mac && forall j :: i < j < |h| ==> h[j].src != mac
  }

  /**
   The table is its history: it holds the addresses once seen when there was room, each with the port
   of its latest sighting, even if that sighting found the table full.
   */
  lemma {:induction false} TableIsHistory(h: seq<Event>)
    ensures forall mac :: mac in Run(Empty, h).table <==> Known(h, mac)
    ensures forall mac, i :: mac in Run(Empty, h).table && LastSeen(h, mac, i) ==> Run(Empty, h).table[mac] == h[i].port
  {
    if h != [] {
      var n := |h| - 1;
      var was, t, e := Run(Empty, h[..n]).table, Run(Empty, h).table, h[n];
      TableIsHistory(h[..n]);
      assert t == Learn(was, e);
      forall mac: Mac ensures mac in t <==> Known(h, mac) {
        KnownSnoc(h, mac);
        if mac == e.src && mac in was { assert Known(h[..n], mac); }
      }
      forall mac, i | mac in t && LastSeen(h, mac, i) ensures t[mac] == h[i].port {
        if e.src == mac {
          assert i == n;
        } else {
          assert i < n && LastSeen(h[..n], mac, i);
        }
      }
    }
  }

  lemma KnownSnoc(h: seq<Event>, mac: Mac)
    requires h != []
    ensures Known(h, mac) <==> Known(h[..|h| - 1], mac) || (h[|h| - 1].src == mac && h[|h| - 1].room)
  {
    var n := |h| - 1;
    if Known(h, mac) && !(h[n].src == mac && h[n].room) {
      var i :| 0 <= i < |h| && h[i].src == mac && h[i].room;
      assert h[..n][i] == h[i];
    }
    if Known(h[..n], mac) {
      var i :| 0 <= i < n && h[..n][i].src == mac && h[..n][i].room;
      assert h[i].src == mac && h[i].room;
    }
  }

  /** A known address has a last sighting. */
  lemma {:induction false} Sighting(h: seq<Event>, mac: Mac) returns (i: nat)
    requires exists k :: 0 <= k < |h| && h[k].src == mac
    ensures LastSeen(h, mac, i)
  {
    var n := |h| - 1;
    if h[n].src == mac {
      i := n;
    } else {
      var k :| 0 <= k < |h| && h[k].src == mac;
      assert h[..n][k].src == mac;
      i := Sighting(h[..n], mac);
    }
  }

  /** Where the last frame of `h` goes: its own source is learned before its destination is looked up. */
  function Route(h: seq<Event>): EthPort
    requires h != []
  {
    OutPort(Run(Empty, h).table, h[|h| - 1])
  }

  /** The output port is the history's answer for the destination, otherwise the opposite port. */
  lemma RouteIsHistory(h: seq<Event>)
    requires h != []
    ensures var e := h[|h| - 1];
            && (!Known(h, e.dst) ==> Route(h) == 1 - e.port)
            && (forall i :: Known(h, e.dst) && LastSeen(h, e.dst, i) ==> Route(h) == h[i].port)
  {
    TableIsHistory(h);
  }

  /** A frame goes back out of the port it came in by exactly when its destination was last seen there, itself included. */
  lemma ReflectedIff(h: seq<Event>)
    requires h != []
    ensures var e := h[|h| - 1];
            Route(h) == e.port <==> Known(h, e.dst) && exists i :: LastSeen(h, e.dst, i) && h[i].port == e.port
  {
    var e := h[|h| - 1];
    RouteIsHistory(h);
    if Known(h, e.dst) {
      var i := Sighting(h, e.dst);
    }
  }

  /** Every source seen so far is in the table. */
  ghost predicate Complete(h: seq<Event>) {
    forall i :: 0 <= i < |h| ==> h[i].src in Run(Empty, h).table
  }

  /** The first sighting of every source found room. */
  ghost predicate RoomAtFirst(h: seq<Event>) {
    forall i :: 0 <= i < |h| && (forall j :: 0 <= j < i ==> h[j].src != h[i].src) ==> h[i].room
  }

  /**
   The code ignores whether the addition worked. No source is ever missing, at any moment of the run, exactly
   when every first addition worked; a later sighting may repair a missing entry, but not the moments before.
   */
  lemma CompleteIff(h: seq<Event>)
    ensures (forall n :: 0 <= n <= |h| ==> Complete(h[..n])) <==> RoomAtFirst(h)
  {
    if RoomAtFirst(h) {
      forall n | 0 <= n <= |h| ensures Complete(h[..n]) {
        TableIsHistory(h[..n]);
        forall i | 0 <= i < n ensures Known(h[..n], h[i].src) {
          var j := FirstSighting(h, i);
          assert h[..n][j].src == h[i].src && h[..n][j].room;
        }
      }
    }
    if forall n :: 0 <= n <= |h| ==> Complete(h[..n]) {
      forall i | 0 <= i < |h| && (forall j :: 0 <= j < i ==> h[j].src != h[i].src) ensures h[i].room {
        assert Complete(h[..i + 1]);
        TableIsHistory(h[..i + 1]);
        assert h[..i + 1][i].src in Run(Empty, h[..i + 1]).table;
        assert Known(h[..i + 1], h[i].src);
      }
    }
  }

  lemma {:induction false} FirstSighting(h: seq<Event>, i: nat) returns (j: nat)
    requires i < |h|
    ensures j <= i && h[j].src == h[i].src && forall k :: 0 <= k < j ==> h[k].src != h[j].src
    decreases i
  {
    if k :| 0 <= k < i && h[k].src == h[i].src {
      j := FirstSighting(h, k);
    } else {
      j := i;
    }
  }

  /**
   Two-way delivery: once a source was learned on a port and not seen elsewhere since, every frame
   for it leaves by that port, whatever else was learned or refused in between.
   */
  lemma LearnedIsReached(h: seq<Event>, i: nat)
    requires i < |h| && h[i].room && h[|h| - 1].dst == h[i].src
    requires forall j :: i < j < |h| && h[j].src == h[i].src ==> h[j].port == h[i].port
    ensures Route(h) == h[i].port
  {
    var k := Sighting(h, h[i].src);
    assert Known(h, h[i].src);
    RouteIsHistory(h);
  }

  // ---------------------------------------------------------------- every frame once

  predicate InOrder(s: seq<nat>) {
    forall i, j :: 0 <= i < j < |s| ==> s[i] < s[j]
  }

  function Frames(wire: seq<Sent>): (r: seq<nat>)
    ensures |r| == |wire| && forall k :: 0 <= k < |wire| ==> r[k] == wire[k].frame
  {
    seq(|wire|, k requires 0 <= k < |wire| => wire[k].frame)
  }

  ghost predicate Has(s: seq<nat>, i: nat) {
    exists k :: 0 <= k < |s| && s[k] == i
  }

  lemma HasSnoc(s: seq<nat>, n: nat)
    ensures Has(s + [n], n) && forall i :: Has(s, i) ==> Has(s + [n], i)
  {
    assert (s + [n])[|s|] == n;
    forall i | Has(s, i) ensures Has(s + [n], i) {
      var k :| 0 <= k < |s| && s[k] == i;
      assert (s + [n])[k] == i;
    }
  }

  lemma InOrderSnoc(s: seq<nat>, n: nat)
    requires InOrder(s) && forall k :: 0 <= k < |s| ==> s[k] < n
    ensures InOrder(s + [n])
  {
  }

  /** `frames` are exactly the frames an output port took (or refused), each once, in order of reception. */
  ghost predicate Kept(h: seq<Event>, taken: bool, frames: seq<nat>) {
    && InOrder(frames)
    && (forall k :: 0 <= k < |frames| ==> frames[k] < |h| && h[frames[k]].taken == taken)
    && (forall i :: 0 <= i < |h| && h[i].taken == taken ==> Has(frames, i))
  }

  /** Each transmission uses the port that the history says at the moment of that frame. */
  ghost predicate WirePorts(h: seq<Event>, wire: seq<Sent>) {
    forall k :: 0 <= k < |wire| ==> wire[k].frame < |h| && wire[k].port == Route(h[..wire[k].frame + 1])
  }

  lemma KeptSnoc(h: seq<Event>, taken: bool, frames: seq<nat>)
    requires h != [] && Kept(h[..|h| - 1], taken, frames)
    ensures Kept(h, taken, if h[|h| - 1].taken == taken then frames + [|h| - 1] else frames)
  {
    hide Has, InOrder;
    var n := |h| - 1;
    HasSnoc(frames, n);
    InOrderSnoc(frames, n);
    forall i | 0 <= i < n && h[i].taken == taken ensures Has(frames, i) {
      assert h[..n][i].taken == taken;
    }
  }

  lemma PortsSnoc(h: seq<Event>, wire: seq<Sent>)
    requires h != [] && WirePorts(h[..|h| - 1], wire)
    ensures WirePorts(h, if h[|h| - 1].taken then wire + [Sent(Route(h), |h| - 1)] else wire)
  {
    hide Route;
    var n := |h| - 1;
    assert h[..n + 1] == h;
    forall k | 0 <= k < |wire| ensures wire[k].frame < n && wire[k].port == Route(h[..wire[k].frame + 1]) {
      assert h[..n][..wire[k].frame + 1] == h[..wire[k].frame + 1];
    }
  }

  /** Every frame received is transmitted once, on its port, or freed once; never both and never neither. */
  lemma {:induction false} EveryFrameOnce(h: seq<Event>)
    ensures var s := Run(Empty, h);
            && s.received == |h|
            && Kept(h, true, Frames(s.wire)) && WirePorts(h, s.wire) && Kept(h, false, s.freed)
  {
    hide Kept, WirePorts, Learn, OutPort;
    if h == [] {
      NothingYet();
    } else {
      var s, n := Run(Empty, h[..|h| - 1]), |h| - 1;
      EveryFrameOnce(h[..n]);
      KeptSnoc(h, true, Frames(s.wire));
      KeptSnoc(h, false, s.freed);
      PortsSnoc(h, s.wire);
      assert Frames(s.wire + [Sent(Route(h), n)]) == Frames(s.wire) + [n];
    }
  }

  lemma NothingYet()
    ensures Kept([], true, Frames([])) && WirePorts([], []) && Kept([], false, [])
  {
  }

  // ---------------------------------------------------------------- the program

  class Program {
    var table: map<Mac, EthPort>
    var received: nat
    var wire: seq<Sent>
    var freed: seq<nat>

    constructor ()
      ensures Now() == Empty
    {
      table, received, wire, freed := map[], 0, [], [];
    }

    function Now(): State
      reads this
    {
      State(table, received, wire, freed)
    }

    /** The loop over one received burst; all its frames came in by `port`. */
    method ForwardBurst(port: EthPort, buff: seq<Event>)
      requires forall i :: 0 <= i < |buff| ==> buff[i].port == port
      modifies this
      ensures Now() == Run(old(Now()), buff)
    {
      var i := 0;
      while i < |buff|
        invariant 0 <= i <= |buff|
        invariant Now() == Run(old(Now()), buff[..i])
      {
        var m := buff[i];
        if m.src in table || m.room {
          table := table[m.src := port];
        }
        var outPort: EthPort;
        if m.dst in table {
          outPort := table[m.dst];
        } else {
          outPort := if port == 0 then 1 else 0;
        }
        if m.taken {
          wire := wire + [Sent(outPort, received)];
        } else {
          freed := freed + [received];
        }
        received := received + 1;
        i := i + 1;
        assert buff[..i][..i - 1] == buff[..i - 1];
      }
      assert buff[..i] == buff;
    }

    /** One round over the two ports, in order; an empty burst changes nothing. */
    method PollPorts(bursts: seq<seq<Event>>)
      requires |bursts| == 2
      requires forall p, i :: 0 <= p < 2 && 0 <= i < |bursts[p]| ==> bursts[p][i].port == p
      modifies this
      ensures Now() == Run(old(Now()), bursts[0] + bursts[1])
    {
      ForwardBurst(0, bursts[0]);
      ForwardBurst(1, bursts[1]);
      RunAppend(old(Now()), bursts[0], bursts[1]);
    }
  }
}
