/** NAT/NWT_actualPkts/main.c: the table and timers of SingleTableNat driven by bursts of received frames. */
module BurstNat {
  import opened NatTypes
  import opened Rte
  import opened SingleTableNat

  /**
   A received mbuf: the flow key its headers spell when the EtherType is IPv4, the counter reading
   when its timer is reset, and whether the table has room should its flow be new.
   */
  datatype Member = Member(mbuf: nat, ipv4: Option<FlowKey>, at: nat, room: bool)

  /** One pass of the receive loop: a burst (possibly empty), the timer run at `m`, the idle check at `c`. */
  datatype Pass = Pass(stamp: nat, burst: seq<Member>, m: nat, c: nat)

  /** The IPv4 members of a burst as packets of their own, in the order of arrival. */
  function Packets(stamp: nat, burst: seq<Member>): seq<Event> {
    if burst == [] then []
    else
      var b := burst[|burst| - 1];
      Packets(stamp, burst[..|burst| - 1]) +
      if b.ipv4.Some? then [Egress(b.ipv4.value, stamp, b.at, b.room)] else []
  }

  /** The single-packet steps of `es` one after another. */
  function Fold(s: State, es: seq<Event>): State {
    if es == [] then s else Step(Fold(s, es[..|es| - 1]), es[|es| - 1])
  }

  function Mbufs(burst: seq<Member>): (ids: seq<nat>)
    ensures |ids| == |burst| && forall i :: 0 <= i < |burst| ==> ids[i] == burst[i].mbuf
  {
    seq(|burst|, i requires 0 <= i < |burst| => burst[i].mbuf)
  }

  function Receive(s: State, p: Pass): State {
    if p.burst == [] then s else Fold(Stamp(s, p.stamp), Packets(p.stamp, p.burst))
  }

  function PassStep(s: State, p: Pass): State {
    Check(Manage(Receive(s, p), p.m), p.c)
  }

  function Run(h: seq<Pass>, n: nat, hz: nat, start: nat): State
    requires n <= |h|
  {
    if n == 0 then Init(hz, start) else PassStep(Run(h, n - 1, hz, start), h[n - 1])
  }

  lemma CreateIgnoresClock(s: State, key: FlowKey, room: bool, clock: nat)
    ensures Create(s.(clock := clock), key, room) == Create(s, key, room).(clock := clock)
  {
  }

  lemma RefreshIgnoresClock(s: State, id: nat, at: nat, clock: nat)
    ensures Refresh(s.(clock := clock), id, at) == Refresh(s, id, at)
  {
  }

  /** After a stamp the members of a burst need no stamp of their own. */
  lemma StampOnce(s: State, key: FlowKey, at: nat, room: bool)
    requires !s.cleared
    ensures Step(s, Egress(key, s.lastPkt, at, room)) == Touch(s, key, at, room)
  {
    hide Create, Refresh;
    assert Stamp(s, s.lastPkt) == s.(clock := s.lastPkt);
    CreateIgnoresClock(s, key, room, s.lastPkt);
    if key in s.table {
      RefreshIgnoresClock(s, s.table[key], at, s.lastPkt);
    } else {
      RefreshIgnoresClock(Create(s, key, room), s.allocs, at, s.lastPkt);
    }
  }

  lemma TouchKeepsStamp(s: State, key: FlowKey, at: nat, room: bool)
    ensures Touch(s, key, at, room).lastPkt == s.lastPkt
    ensures Touch(s, key, at, room).cleared == s.cleared
    ensures Touch(s, key, at, room).clock == at
    ensures Touch(s, key, at, room).hz == s.hz
  {
  }

  /** One more member: an IPv4 frame touches its flow, any other frame changes nothing. */
  lemma FoldNext(s: State, stamp: nat, burst: seq<Member>, i: nat)
    requires i < |burst| && s.lastPkt == stamp && !s.cleared
    ensures var t, u := Fold(s, Packets(stamp, burst[..i])), Fold(s, Packets(stamp, burst[..i + 1]));
            && t.lastPkt == stamp && !t.cleared
            && u == if burst[i].ipv4.Some? then Touch(t, burst[i].ipv4.value, burst[i].at, burst[i].room) else t
  {
    hide Touch;
    FoldKeepsStamp(s, stamp, burst[..i]);
    var b := burst[i];
    assert burst[..i + 1][..i] == burst[..i];
    if b.ipv4.Some? {
      var es := Packets(stamp, burst[..i + 1]);
      assert es[..|es| - 1] == Packets(stamp, burst[..i]);
      StampOnce(Fold(s, Packets(stamp, burst[..i])), b.ipv4.value, b.at, b.room);
    } else {
      assert Packets(stamp, burst[..i + 1]) == Packets(stamp, burst[..i]);
    }
  }

  lemma {:induction false} FoldKeepsStamp(s: State, stamp: nat, burst: seq<Member>)
    requires s.lastPkt == stamp && !s.cleared
    ensures var t := Fold(s, Packets(stamp, burst)); t.lastPkt == stamp && !t.cleared && t.hz == s.hz
  {
    if burst != [] {
      var rest, b := burst[..|burst| - 1], burst[|burst| - 1];
      FoldKeepsStamp(s, stamp, rest);
      if b.ipv4.Some? {
        var es := Packets(stamp, burst);
        assert es[..|es| - 1] == Packets(stamp, rest);
        TouchKeepsStamp(Stamp(Fold(s, Packets(stamp, rest)), stamp), b.ipv4.value, b.at, b.room);
      } else {
        assert Packets(stamp, burst) == Packets(stamp, rest);
      }
    }
  }

  lemma StampTwice(s: State, stamp: nat)
    ensures Stamp(Stamp(s, stamp), stamp) == Stamp(s, stamp)
  {
  }

  lemma {:induction false} FoldStamped(s: State, stamp: nat, burst: seq<Member>)
    ensures Packets(stamp, burst) != [] ==>
              Fold(Stamp(s, stamp), Packets(stamp, burst)) == Fold(s, Packets(stamp, burst))
  {
    hide Touch, Stamp;
    if burst != [] {
      var front, b, es := burst[..|burst| - 1], burst[|burst| - 1], Packets(stamp, burst);
      FoldStamped(s, stamp, front);
      if b.ipv4.Some? {
        assert es[..|es| - 1] == Packets(stamp, front);
        if Packets(stamp, front) == [] {
          assert es == [Egress(b.ipv4.value, stamp, b.at, b.room)] && es[..0] == [];
          StampTwice(s, stamp);
        }
      } else {
        assert es == Packets(stamp, front);
      }
    }
  }

  /**
   A burst leaves what the packets of its IPv4 members leave one by one; a burst without any leaves the table, the
   timers, the entries and the port counter alone and only restarts the idle clock.
   */
  lemma {:induction false} BurstIsFold(s: State, p: Pass)
    ensures Packets(p.stamp, p.burst) != [] ==> Receive(s, p) == Fold(s, Packets(p.stamp, p.burst))
    ensures (forall i :: 0 <= i < |p.burst| ==> p.burst[i].ipv4.None?) ==>
              Receive(s, p) == if p.burst == [] then s else s.(lastPkt := p.stamp, cleared := false, clock := p.stamp)
  {
    FoldStamped(s, p.stamp, p.burst);
    if forall i :: 0 <= i < |p.burst| ==> p.burst[i].ipv4.None? { NoPackets(p.stamp, p.burst); }
  }

  lemma {:induction false} NoPackets(stamp: nat, burst: seq<Member>)
    requires forall i :: 0 <= i < |burst| ==> burst[i].ipv4.None?
    ensures Packets(stamp, burst) == []
  {
    if burst != [] { NoPackets(stamp, burst[..|burst| - 1]); }
  }

  // ---------------------------------------------------------------- the idle clear in the receive loop

  /** Readings never run backwards, a burst is done within `d` of its stamp, the check follows the timer run within `g`. */
  predicate Possible(s: State, p: Pass, d: nat, g: nat) {
    && s.clock <= p.stamp
    && (forall i, j :: 0 <= i <= j < |p.burst| ==> p.stamp <= p.burst[i].at <= p.burst[j].at <= p.stamp + d)
    && Receive(s, p).clock <= p.m <= p.c <= p.m + g
  }

  ghost predicate PossibleAt(h: seq<Pass>, i: nat, hz: nat, start: nat, d: nat, g: nat)
    requires i < |h|
  {
    Possible(Run(h, i, hz, start), h[i], d, g)
  }

  lemma {:induction false} BurstSafe(s: State, p: Pass, i: nat, d: nat)
    requires i <= |p.burst| && Safe(s, d) && s.clock <= p.stamp
    requires forall i, j :: 0 <= i <= j < |p.burst| ==> p.stamp <= p.burst[i].at <= p.burst[j].at <= p.stamp + d
    ensures var t := Fold(Stamp(s, p.stamp), Packets(p.stamp, p.burst[..i]));
            && Safe(t, d) && t.lastPkt == p.stamp && !t.cleared && t.hz == s.hz
            && forall j :: i <= j < |p.burst| ==> t.clock <= p.burst[j].at
  {
    hide Safe, Touch;
    var s' := Stamp(s, p.stamp);
    StampSafe(s, p.stamp, d);
    if i == 0 {
      assert p.burst[..0] == [];
    } else {
      BurstSafe(s, p, i - 1, d);
      FoldNext(s', p.stamp, p.burst, i - 1);
      var t, b := Fold(s', Packets(p.stamp, p.burst[..i - 1])), p.burst[i - 1];
      if b.ipv4.Some? {
        TouchSafe(t, b.ipv4.value, b.at, b.room, d);
        TouchKeepsStamp(t, b.ipv4.value, b.at, b.room);
      }
    }
  }

  lemma ReceiveSafe(s: State, p: Pass, d: nat, g: nat)
    requires Safe(s, d) && Possible(s, p, d, g)
    ensures Safe(Receive(s, p), d) && Receive(s, p).hz == s.hz
  {
    if p.burst != [] {
      BurstSafe(s, p, |p.burst|, d);
      assert p.burst[..|p.burst|] == p.burst;
    }
  }

  /**
   Over every run of the receive loop in which burst processing takes at most `d` and the idle check
   follows within `g`, with `d + g` at most five seconds and one cycle, no freed entry is used and the
   global clear only ever finds an empty table: every entry has expired by then.
   */
  lemma {:induction false} LoopSafe(h: seq<Pass>, n: nat, hz: nat, start: nat, d: nat, g: nat)
    requires n <= |h| && d + g <= 5 * hz + 1
    requires forall i :: 0 <= i < n ==> PossibleAt(h, i, hz, start, d, g)
    ensures Safe(Run(h, n, hz, start), d) && Run(h, n, hz, start).hz == hz
    ensures n < |h| && PossibleAt(h, n, hz, start, d, g) ==>
            var t := Manage(Receive(Run(h, n, hz, start), h[n]), h[n].m);
            Idle(t, h[n].c) ==> t.table == map[] && t.heap == map[] && t.timers == map[]
  {
    hide PassStep, Receive, Possible;
    if n == 0 {
      assert Safe(Init(hz, start), d);
    } else {
      LoopSafe(h, n - 1, hz, start, d, g);
      assert PossibleAt(h, n - 1, hz, start, d, g);
      PassSafe(Run(h, n - 1, hz, start), h[n - 1], d, g);
    }
    if n < |h| && PossibleAt(h, n, hz, start, d, g) {
      ClearFindsNothing(Run(h, n, hz, start), h[n], d, g);
    }
  }

  lemma ClearFindsNothing(s: State, p: Pass, d: nat, g: nat)
    requires Safe(s, d) && Possible(s, p, d, g) && d + g <= 5 * s.hz + 1
    ensures var t := Manage(Receive(s, p), p.m);
            Idle(t, p.c) ==> t.table == map[] && t.heap == map[] && t.timers == map[]
  {
    hide Safe, Manage, Idle;
    ReceiveSafe(s, p, d, g);
    IdleClearFindsNothing(Receive(s, p), p.m, p.c, d, g);
  }

  lemma PassSafe(s: State, p: Pass, d: nat, g: nat)
    requires Safe(s, d) && Possible(s, p, d, g) && d + g <= 5 * s.hz + 1
    ensures Safe(PassStep(s, p), d) && PassStep(s, p).hz == s.hz
  {
    ReceiveSafe(s, p, d, g);
    hide Safe, Fold, Packets;
    TickSafe(Receive(s, p), p.m, p.c, d, g);
  }

  // ---------------------------------------------------------------- the budget of the loop is exact

  /** No run of the receive loop within the two delays uses a freed entry or frees one twice. */
  ghost predicate LoopBudget(hz: nat, d: nat, g: nat) {
    forall h: seq<Pass>, start: nat :: LoopPossible(h, hz, start, d, g) ==> !Run(h, |h|, hz, start).fault
  }

  ghost predicate LoopPossible(h: seq<Pass>, hz: nat, start: nat, d: nat, g: nat) {
    forall i :: 0 <= i < |h| ==> PossibleAt(h, i, hz, start, d, g)
  }

  /** One frame whose timer is reset `d` after the stamp, an idle clear `g` after the timer run, then an empty pass. */
  function StalePasses(key: FlowKey, hz: nat, d: nat, g: nat): seq<Pass>
    requires 0 < hz && d + g == 5 * hz + 2
  {
    var t := 10 * hz + 1;
    [Pass(0, [Member(0, Some(key), d, true)], t - g, t), Pass(t, [], t + d, t + d)]
  }

  lemma ReceivesOne(key: FlowKey, hz: nat, d: nat, m: nat, c: nat)
    ensures Receive(Init(hz, 0), Pass(0, [Member(0, Some(key), d, true)], m, c)) == OneFlow(key, hz, d, d)
  {
    hide Touch, OneFlow;
    var s, burst := Stamp(Init(hz, 0), 0), [Member(0, Some(key), d, true)];
    assert burst[..0] == [] && burst[..1] == burst;
    assert Packets(0, []) == [] && Fold(s, []) == s;
    FoldNext(s, 0, burst, 0);
    OpensOne(key, hz, d);
  }

  lemma StalePassesFault(key: FlowKey, hz: nat, d: nat, g: nat)
    requires 0 < hz && 10 * hz + 1 < 0x1_0000_0000_0000_0000 && d + g == 5 * hz + 2
    ensures var h := StalePasses(key, hz, d, g);
            LoopPossible(h, hz, 0, d, g) && Run(h, |h|, hz, 0).fault
  {
    hide OneFlow, FreedFlow, Check, Manage, Fold, Packets;
    var h := StalePasses(key, hz, d, g);
    ReceivesOne(key, hz, d, h[0].m, h[0].c);
    TicksTooEarly(key, hz, d, h[0].m);
    FiresOnFreed(hz, d, h[0].c, h[1].m);
    assert Run(h, 1, hz, 0) == PassStep(Run(h, 0, hz, 0), h[0]) == FreedFlow(hz, d, h[0].c);
    assert Run(h, 2, hz, 0) == PassStep(Run(h, 1, hz, 0), h[1]);
    assert PossibleAt(h, 0, hz, 0, d, g);
    assert PossibleAt(h, 1, hz, 0, d, g);
  }

  lemma WiderLoop(h: seq<Pass>, hz: nat, start: nat, d: nat, g: nat, d': nat, g': nat)
    requires LoopPossible(h, hz, start, d', g') && d' <= d && g' <= g
    ensures LoopPossible(h, hz, start, d, g)
  {
    forall i | 0 <= i < |h| ensures PossibleAt(h, i, hz, start, d, g) {
      assert PossibleAt(h, i, hz, start, d', g');
    }
  }

  /** The receive loop never meets a stale timer exactly when the two delays together stay within five seconds and one cycle. */
  lemma LoopBudgetIsExact(key: FlowKey, hz: nat, d: nat, g: nat)
    requires 0 < hz && 10 * hz + 1 < 0x1_0000_0000_0000_0000
    ensures LoopBudget(hz, d, g) <==> d + g <= 5 * hz + 1
  {
    if d + g <= 5 * hz + 1 {
      forall h: seq<Pass>, start: nat | LoopPossible(h, hz, start, d, g) ensures !Run(h, |h|, hz, start).fault {
        LoopSafe(h, |h|, hz, start, d, g);
      }
    } else {
      var d' := if d <= 5 * hz + 2 then d else 5 * hz + 2;
      var g' := 5 * hz + 2 - d';
      var h := StalePasses(key, hz, d', g');
      StalePassesFault(key, hz, d', g');
      WiderLoop(h, hz, 0, d, g, d', g');
      assert LoopPossible(h, hz, 0, d, g);
    }
  }
}
