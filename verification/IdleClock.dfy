/**
 The ten-second idle clear of NAT/Nat_with_TIMER/nwt.c and NAT/NWT_actualPkts/main.c: when it fires, what it does, and
 the flag and the stamp after any run, told from the packets and checks alone. No budget is assumed here.
 */
module IdleClock {
  import opened NatTypes
  import opened SingleTableNat
  import B = BurstNat

  // ---------------------------------------------------------------- one check, one packet

  /** The check leaves the flag set exactly when it was set or more than ten seconds have passed since the latest packet. */
  lemma CheckFires(s: State, now: nat)
    requires s.lastPkt <= now < 0x1_0000_0000_0000_0000
    ensures Check(s, now).cleared <==> s.cleared || now - s.lastPkt > 10 * s.hz
    ensures Check(s, now).lastPkt == s.lastPkt && Check(s, now).hz == s.hz
  {
  }

  /**
   When the check newly sets the flag it has emptied the table, whatever was in it, and freed the entries the table led
   to, each once; otherwise it has touched nothing. It never stops a timer.
   */
  lemma CheckClears(s: State, now: nat, id: nat)
    requires NoDangling(s)
    ensures var t := Check(s, now);
            && t.timers == s.timers && t.allocs == s.allocs && t.nextPort == s.nextPort
            && (t.cleared && !s.cleared ==>
                  && t.table == map[]
                  && (id in t.heap <==> id in s.heap && forall k :: k in s.table ==> s.table[k] != id)
                  && t.freed[id] == s.freed[id] + if exists k :: k in s.table && s.table[k] == id then 1 else 0)
            && (t.cleared == s.cleared ==> t.table == s.table && t.heap == s.heap && t.freed == s.freed)
  {
    assert id in s.table.Values <==> exists k :: k in s.table && s.table[k] == id;
  }

  /** Every packet restarts the idle clock, outgoing or incoming, matched or not; a tick never does. */
  lemma PacketRestarts(s: State, e: Event)
    ensures !e.Tick? ==> Step(s, e).lastPkt == e.stamp && !Step(s, e).cleared
    ensures e.Tick? ==> Step(s, e).lastPkt == s.lastPkt
    ensures Step(s, e).hz == s.hz
  {
  }

  // ---------------------------------------------------------------- runs of packets and ticks

  /** When the latest of the first `n` events that is a packet was stamped; the start if there is none. */
  function LastStamp(h: seq<Event>, n: nat, start: nat): nat
    requires n <= |h|
  {
    if n == 0 then start else if h[n - 1].Tick? then LastStamp(h, n - 1, start) else h[n - 1].stamp
  }

  /** No packet came between event `i` and event `n`. */
  predicate Silence(h: seq<Event>, i: nat, n: nat)
    requires n <= |h|
  {
    forall j :: i < j < n ==> h[j].Tick?
  }

  /** The check of tick `i` came more than ten seconds after the packet before it. */
  predicate LateCheck(h: seq<Event>, i: nat, hz: nat, start: nat)
    requires i < |h|
  {
    h[i].Tick? && h[i].c - LastStamp(h, i, start) > 10 * hz
  }

  /** The counter has not passed 64 bits in the first `n` events. */
  predicate InTurn(h: seq<Event>, n: nat)
    requires n <= |h|
  {
    forall i :: 0 <= i < n && h[i].Tick? ==> h[i].c < 0x1_0000_0000_0000_0000
  }

  lemma {:induction false} StampIsLatest(h: seq<Event>, n: nat, hz: nat, start: nat, d: nat, g: nat)
    requires n <= |h| && PossibleRun(h, n, hz, start, d, g)
    ensures var s := Run(h, n, hz, start); s.lastPkt == LastStamp(h, n, start) <= s.clock && s.hz == hz
  {
    hide Step, Possible;
    if n > 0 {
      StampIsLatest(h, n - 1, hz, start, d, g);
      var s, e := Run(h, n - 1, hz, start), h[n - 1];
      assert PossibleAt(h, n - 1, hz, start, d, g);
      PacketRestarts(s, e);
      StampedInTime(s, e, d, g);
    }
  }

  lemma StampedInTime(s: State, e: Event, d: nat, g: nat)
    requires Possible(s, e, d, g)
    ensures s.clock <= Step(s, e).clock && (e.Tick? ==> s.clock <= e.c) && (!e.Tick? ==> e.stamp <= Step(s, e).clock)
  {
  }

  lemma TickFires(s: State, m: nat, c: nat)
    requires s.lastPkt <= c < 0x1_0000_0000_0000_0000
    ensures Step(s, Tick(m, c)).cleared <==> s.cleared || c - s.lastPkt > 10 * s.hz
  {
    CheckFires(Manage(s, m), c);
  }

  /**
   After any run the flag is set exactly when some check came more than ten seconds after the packet before it, and no
   packet has come since.
   */
  lemma {:induction false} FlagIsHistory(h: seq<Event>, n: nat, hz: nat, start: nat, d: nat, g: nat)
    requires n <= |h| && PossibleRun(h, n, hz, start, d, g) && InTurn(h, n)
    ensures Run(h, n, hz, start).cleared <==> exists i :: 0 <= i < n && LateCheck(h, i, hz, start) && Silence(h, i, n)
  {
    hide Step, Possible, LateCheck;
    if n > 0 {
      FlagIsHistory(h, n - 1, hz, start, d, g);
      StampIsLatest(h, n - 1, hz, start, d, g);
      var s, e := Run(h, n - 1, hz, start), h[n - 1];
      assert PossibleAt(h, n - 1, hz, start, d, g);
      StampedInTime(s, e, d, g);
      PacketRestarts(s, e);
      if e.Tick? { TickFires(s, e.m, e.c); }
      LateOrEarlier(h, n, hz, start);
    }
  }

  /** The last event decides, or leaves it to the earlier ones. */
  lemma LateOrEarlier(h: seq<Event>, n: nat, hz: nat, start: nat)
    requires 0 < n <= |h|
    ensures LateCheck(h, n - 1, hz, start) <==> h[n - 1].Tick? && h[n - 1].c - LastStamp(h, n - 1, start) > 10 * hz
    ensures (exists i :: 0 <= i < n && LateCheck(h, i, hz, start) && Silence(h, i, n))
            <==> h[n - 1].Tick? &&
                 (LateCheck(h, n - 1, hz, start)
                  || exists i :: 0 <= i < n - 1 && LateCheck(h, i, hz, start) && Silence(h, i, n - 1))
  {
    hide LastStamp;
    if h[n - 1].Tick? {
      if LateCheck(h, n - 1, hz, start) { assert Silence(h, n - 1, n); }
      forall i | 0 <= i < n - 1 ensures Silence(h, i, n) <==> Silence(h, i, n - 1) {
      }
    } else {
      forall i | 0 <= i < n ensures !(LateCheck(h, i, hz, start) && Silence(h, i, n)) {
      }
    }
  }

  // ---------------------------------------------------------------- runs of passes of the receive loop

  function LastBurst(h: seq<B.Pass>, n: nat, start: nat): nat
    requires n <= |h|
  {
    if n == 0 then start else if h[n - 1].burst == [] then LastBurst(h, n - 1, start) else h[n - 1].stamp
  }

  predicate NoBurst(h: seq<B.Pass>, i: nat, n: nat)
    requires n <= |h|
  {
    forall j :: i < j < n ==> h[j].burst == []
  }

  predicate LatePass(h: seq<B.Pass>, i: nat, hz: nat, start: nat)
    requires i < |h|
  {
    h[i].c - LastBurst(h, i + 1, start) > 10 * hz
  }

  /** Any frame restarts the idle clock, IPv4 or not; the check of the pass then goes by the latest burst. */
  lemma PassMarks(s: State, p: B.Pass, d: nat, g: nat)
    requires B.Possible(s, p, d, g) && s.lastPkt <= s.clock && p.c < 0x1_0000_0000_0000_0000
    ensures var t := B.PassStep(s, p);
            && t.lastPkt == (if p.burst == [] then s.lastPkt else p.stamp) <= t.clock
            && t.hz == s.hz
            && (t.cleared <==> (p.burst == [] && s.cleared) || p.c - t.lastPkt > 10 * s.hz)
  {
    var r := B.Receive(s, p);
    if p.burst != [] {
      var u := Stamp(s, p.stamp);
      B.FoldKeepsStamp(u, p.stamp, p.burst);
      FoldClock(u, p, |p.burst|, d);
      assert p.burst[..|p.burst|] == p.burst;
    }
    hide B.Receive;
    TickFires(r, p.m, p.c);
    PacketRestarts(r, Tick(p.m, p.c));
    StampedInTime(r, Tick(p.m, p.c), d, g);
  }

  /** The members of a burst only move the clock on. */
  lemma {:induction false} FoldClock(s: State, p: B.Pass, n: nat, d: nat)
    requires n <= |p.burst| && s.lastPkt == p.stamp == s.clock && !s.cleared
    requires forall i :: 0 <= i < |p.burst| ==> p.stamp <= p.burst[i].at
    ensures p.stamp <= B.Fold(s, B.Packets(p.stamp, p.burst[..n])).clock
  {
    hide Touch;
    if n == 0 {
      assert p.burst[..0] == [];
    } else {
      FoldClock(s, p, n - 1, d);
      B.FoldNext(s, p.stamp, p.burst, n - 1);
      var t, b := B.Fold(s, B.Packets(p.stamp, p.burst[..n - 1])), p.burst[n - 1];
      if b.ipv4.Some? { B.TouchKeepsStamp(t, b.ipv4.value, b.at, b.room); }
    }
  }

  /**
   After any number of passes the stamp is that of the latest burst, and the flag is set exactly when some check came more
   than ten seconds after the burst before it and no frame has come since.
   */
  lemma {:induction false} LoopFlagIsHistory(h: seq<B.Pass>, n: nat, hz: nat, start: nat, d: nat, g: nat)
    requires n <= |h| && forall i :: 0 <= i < n ==> B.PossibleAt(h, i, hz, start, d, g) && h[i].c < 0x1_0000_0000_0000_0000
    ensures var s := B.Run(h, n, hz, start);
            && s.lastPkt == LastBurst(h, n, start) <= s.clock && s.hz == hz
            && (s.cleared <==> exists i :: 0 <= i < n && LatePass(h, i, hz, start) && NoBurst(h, i, n))
  {
    hide B.PassStep, B.Possible, LatePass;
    if n > 0 {
      LoopFlagIsHistory(h, n - 1, hz, start, d, g);
      assert B.PossibleAt(h, n - 1, hz, start, d, g);
      PassMarks(B.Run(h, n - 1, hz, start), h[n - 1], d, g);
      LateOrEarlierPass(h, n, hz, start);
    }
  }

  lemma LateOrEarlierPass(h: seq<B.Pass>, n: nat, hz: nat, start: nat)
    requires 0 < n <= |h|
    ensures LatePass(h, n - 1, hz, start) <==> h[n - 1].c - LastBurst(h, n, start) > 10 * hz
    ensures (exists i :: 0 <= i < n && LatePass(h, i, hz, start) && NoBurst(h, i, n))
            <==> || LatePass(h, n - 1, hz, start)
                 || (h[n - 1].burst == [] && exists i :: 0 <= i < n - 1 && LatePass(h, i, hz, start) && NoBurst(h, i, n - 1))
  {
    hide LastBurst;
    if LatePass(h, n - 1, hz, start) { assert NoBurst(h, n - 1, n); }
    forall i | 0 <= i < n - 1 ensures NoBurst(h, i, n) <==> NoBurst(h, i, n - 1) && h[n - 1].burst == [] {
    }
  }
}
