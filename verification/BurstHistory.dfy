/** The receive loop of NAT/NWT_actualPkts/main.c against the flow map: its table after any passes, told from the packets. */
module BurstHistory {
  import opened NatTypes
  import opened SingleTableNat
  import B = BurstNat
  import F = FlowSpec

  /** What the flow map sees of the first `n` passes: the IPv4 members in order of arrival, and each timer run. */
  function FlowEvents(h: seq<B.Pass>, n: nat): seq<F.Event<FlowKey>>
    requires n <= |h|
  {
    if n == 0 then []
    else FlowEvents(h, n - 1) + AbsAll(B.Packets(h[n - 1].stamp, h[n - 1].burst)) + [F.Expire(h[n - 1].m)]
  }

  /** The state after the stamp of a pass and the first `i` members of its burst. */
  function After(s: State, p: B.Pass, i: nat): State
    requires i <= |p.burst|
  {
    B.Fold(Stamp(s, p.stamp), B.Packets(p.stamp, p.burst[..i]))
  }

  /** Every flow the burst opens finds room in the table and an unused port. */
  ghost predicate RegularBurst(s: State, p: B.Pass) {
    forall i :: 0 <= i < |p.burst| ==> RegularMember(After(s, p, i), p.burst[i])
  }

  predicate RegularMember(s: State, b: B.Member) {
    b.ipv4.Some? && NoDangling(s) ==> Regular(s, Egress(b.ipv4.value, s.lastPkt, b.at, b.room))
  }

  ghost predicate RegularAt(h: seq<B.Pass>, i: nat, hz: nat, start: nat, d: nat, g: nat)
    requires i < |h|
  {
    B.PossibleAt(h, i, hz, start, d, g) && RegularBurst(B.Run(h, i, hz, start), h[i])
  }

  /** The state holds what the flow map holds after `es`, and `es` is a run to which the laws of the flow map apply. */
  ghost predicate Tracks(s: State, es: seq<F.Event<FlowKey>>, d: nat, life: nat) {
    && life == 5 * s.hz
    && Refined(s, F.Run(es, |es|, life), d)
    && F.GuardedRun(es, |es|, life)
    && F.Monotone(es, |es|) && (forall i :: 0 <= i < |es| ==> es[i].at <= s.clock)
  }

  lemma RefinedStamp(s: State, t: F.Table<FlowKey>, stamp: nat, d: nat)
    requires Refined(s, t, d) && s.clock <= stamp
    ensures Refined(Stamp(s, stamp), t, d)
  {
    hide F.Numbered, F.UniquePorts;
    StampSafe(s, stamp, d);
  }

  lemma LinkedTouch(s: State, key: FlowKey, at: nat, room: bool)
    requires HeapSafe(s) && Linked(s) && (key !in s.table ==> room)
    ensures Linked(Touch(s, key, at, room))
  {
    if key !in s.table { LinkedCreate(s, key, room); }
  }

  lemma TouchShows(s: State, t: F.Table<FlowKey>, key: FlowKey, at: nat, room: bool)
    requires HeapSafe(s) && NoDangling(s) && ShowsFlows(s, t) && !s.cleared && (key !in s.table ==> room)
    ensures ShowsFlows(Touch(s, key, at, room), F.Step(t, F.Egress(key, key.src, at), 5 * s.hz))
  {
    hide HeapSafe, NoDangling, ShowsFlows, Touch, F.Step;
    B.StampOnce(s, key, at, room);
    B.StampOnce(s, key, at, true);
    RefinesEgress(s, t, key, s.lastPkt, at);
    if key in s.table { RoomOnlyOnMiss(s, Egress(key, s.lastPkt, at, room)); }
  }

  /** An IPv4 member takes the step of the flow map. */
  lemma RefinedTouch(s: State, t: F.Table<FlowKey>, b: B.Member, d: nat)
    requires Refined(s, t, d) && b.ipv4.Some? && RegularMember(s, b) && !s.cleared
    requires s.clock <= b.at <= s.lastPkt + d
    requires var e := F.Egress(b.ipv4.value, b.ipv4.value.src, b.at); F.Numbered(F.Step(t, e, 5 * s.hz))
    ensures var e := F.Egress(b.ipv4.value, b.ipv4.value.src, b.at);
            && Refined(Touch(s, b.ipv4.value, b.at, b.room), F.Step(t, e, 5 * s.hz), d) && F.Guarded(t, e)
  {
    var key, e := b.ipv4.value, Egress(b.ipv4.value, s.lastPkt, b.at, b.room);
    SafeParts(s, d);
    RegularIsGuarded(s, t, e, d);
    hide Touch, F.Step, F.Numbered, F.UniquePorts, F.Guarded, Linked, HeapSafe, NoDangling, Timely, PortFree, ShowsFlows;
    TouchSafe(s, key, b.at, b.room, d);
    LinkedTouch(s, key, b.at, b.room);
    TouchShows(s, t, key, b.at, b.room);
    F.UniqueStep(t, Abs(e), 5 * s.hz);
  }

  lemma TracksTouch(s: State, es: seq<F.Event<FlowKey>>, b: B.Member, d: nat, life: nat)
    requires Tracks(s, es, d, life) && b.ipv4.Some? && RegularMember(s, b) && !s.cleared
    requires s.clock <= b.at <= s.lastPkt + d
    ensures Tracks(Touch(s, b.ipv4.value, b.at, b.room), es + [F.Egress(b.ipv4.value, b.ipv4.value.src, b.at)], d, life)
  {
    hide Refined, RegularMember, Touch, F.Step, F.Run, F.Guarded, F.GuardedRun;
    var e := F.Egress(b.ipv4.value, b.ipv4.value.src, b.at);
    F.RunSnoc(es, e, life);
    F.RunNumbered(es + [e], |es| + 1, life);
    RefinedTouch(s, F.Run(es, |es|, life), b, d);
    B.TouchKeepsStamp(s, b.ipv4.value, b.at, b.room);
  }

  lemma EventsNext(stamp: nat, burst: seq<B.Member>, i: nat)
    requires i < |burst|
    ensures var b := burst[i];
            AbsAll(B.Packets(stamp, burst[..i + 1])) == AbsAll(B.Packets(stamp, burst[..i])) +
            if b.ipv4.Some? then [F.Egress(b.ipv4.value, b.ipv4.value.src, b.at)] else []
  {
    var more := burst[..i + 1];
    assert more[..|more| - 1] == burst[..i] && more[|more| - 1] == burst[i];
  }

  lemma AfterNext(s: State, p: B.Pass, i: nat)
    requires i < |p.burst|
    ensures var t, b := After(s, p, i), p.burst[i];
            After(s, p, i + 1) == if b.ipv4.Some? then Touch(t, b.ipv4.value, b.at, b.room) else t
  {
    hide Touch, Stamp, B.Fold, B.Packets;
    StampMarks(s, p.stamp);
    B.FoldNext(Stamp(s, p.stamp), p.stamp, p.burst, i);
  }

  lemma StampMarks(s: State, stamp: nat)
    ensures var t := Stamp(s, stamp); t.lastPkt == stamp && !t.cleared && t.hz == s.hz && t.clock == stamp
  {
  }

  predicate Timed(s: State, p: B.Pass, d: nat) {
    && s.clock <= p.stamp
    && forall i, j :: 0 <= i <= j < |p.burst| ==> p.stamp <= p.burst[i].at <= p.burst[j].at <= p.stamp + d
  }

  lemma TracksStamp(s: State, p: B.Pass, es: seq<F.Event<FlowKey>>, d: nat, life: nat)
    requires Tracks(s, es, d, life) && s.clock <= p.stamp
    ensures Tracks(After(s, p, 0), es + AbsAll(B.Packets(p.stamp, p.burst[..0])), d, life)
  {
    hide Refined, F.Run, F.GuardedRun;
    RefinedStamp(s, F.Run(es, |es|, life), p.stamp, d);
    assert B.Packets(p.stamp, p.burst[..0]) == [];
    assert es + AbsAll([]) == es;
  }

  /** The members of a burst take, one after another, the steps of the flow map. */
  lemma {:induction false} TracksMembers(s: State, p: B.Pass, i: nat, es: seq<F.Event<FlowKey>>, d: nat, life: nat)
    requires i <= |p.burst| && Tracks(s, es, d, life) && Timed(s, p, d) && RegularBurst(s, p)
    ensures Tracks(After(s, p, i), es + AbsAll(B.Packets(p.stamp, p.burst[..i])), d, life)
  {
    hide Tracks, RegularMember, Touch, After, AbsAll, B.Packets;
    if i == 0 {
      TracksStamp(s, p, es, d, life);
    } else {
      TracksMembers(s, p, i - 1, es, d, life);
      AfterIsTimed(s, p, i - 1, es, d, life);
      AfterNext(s, p, i - 1);
      EventsNext(p.stamp, p.burst, i - 1);
      var b, before := p.burst[i - 1], es + AbsAll(B.Packets(p.stamp, p.burst[..i - 1]));
      if b.ipv4.Some? {
        TracksTouch(After(s, p, i - 1), before, b, d, life);
        assert before + [F.Egress(b.ipv4.value, b.ipv4.value.src, b.at)] == es + AbsAll(B.Packets(p.stamp, p.burst[..i]));
      } else {
        assert before == es + AbsAll(B.Packets(p.stamp, p.burst[..i]));
      }
    }
  }

  lemma AfterIsTimed(s: State, p: B.Pass, i: nat, es: seq<F.Event<FlowKey>>, d: nat, life: nat)
    requires i < |p.burst| && Tracks(s, es, d, life) && Timed(s, p, d)
    ensures var t := After(s, p, i); !t.cleared && t.lastPkt == p.stamp && t.clock <= p.burst[i].at
  {
    hide B.Fold, Safe;
    B.BurstSafe(s, p, i, d);
  }

  lemma TracksReceive(s: State, p: B.Pass, es: seq<F.Event<FlowKey>>, d: nat, g: nat, life: nat)
    requires Tracks(s, es, d, life) && B.Possible(s, p, d, g) && RegularBurst(s, p)
    ensures Tracks(B.Receive(s, p), es + AbsAll(B.Packets(p.stamp, p.burst)), d, life)
  {
    hide Tracks, B.Fold;
    if p.burst == [] {
      assert es + AbsAll(B.Packets(p.stamp, p.burst)) == es;
    } else {
      assert p.burst[..|p.burst|] == p.burst;
      TracksMembers(s, p, |p.burst|, es, d, life);
    }
  }

  lemma RefinedTick(s: State, t: F.Table<FlowKey>, m: nat, c: nat, d: nat, g: nat)
    requires Refined(s, t, d) && Possible(s, Tick(m, c), d, g) && d + g <= 5 * s.hz + 1
    requires F.Numbered(F.Step(t, F.Expire(m), 5 * s.hz))
    ensures Refined(Step(s, Tick(m, c)), F.Step(t, F.Expire(m), 5 * s.hz), d)
    ensures Step(s, Tick(m, c)).hz == s.hz && Step(s, Tick(m, c)).clock == c
  {
    hide Check, Manage, F.Step, F.Numbered, F.UniquePorts, HeapSafe, NoDangling, Timely, ShowsFlows, Linked;
    RefinesTick(s, t, m, c, d, g);
    StepSafe(s, Tick(m, c), d, g);
    LinkedStep(s, Tick(m, c), d, g);
    F.UniqueStep(t, F.Expire(m), 5 * s.hz);
    CheckReads(Manage(s, m), c);
  }

  lemma CheckReads(s: State, c: nat)
    ensures Check(s, c).clock == c
  {
  }

  lemma TracksTick(s: State, es: seq<F.Event<FlowKey>>, m: nat, c: nat, d: nat, g: nat, life: nat)
    requires Tracks(s, es, d, life) && s.clock <= m <= c <= m + g && d + g <= life + 1
    ensures Tracks(Step(s, Tick(m, c)), es + [F.Expire(m)], d, life)
  {
    hide Refined, Step, F.Step, F.Run, F.GuardedRun;
    F.RunSnoc(es, F.Expire(m), life);
    F.RunNumbered(es + [F.Expire(m)], |es| + 1, life);
    RefinedTick(s, F.Run(es, |es|, life), m, c, d, g);
  }

  lemma TracksPass(s: State, p: B.Pass, es: seq<F.Event<FlowKey>>, d: nat, g: nat, life: nat)
    requires Tracks(s, es, d, life) && B.Possible(s, p, d, g) && RegularBurst(s, p) && d + g <= life + 1
    ensures Tracks(B.PassStep(s, p), es + AbsAll(B.Packets(p.stamp, p.burst)) + [F.Expire(p.m)], d, life)
  {
    hide Tracks, B.Receive, Check, Manage, RegularBurst;
    TracksReceive(s, p, es, d, g, life);
    TracksTick(B.Receive(s, p), es + AbsAll(B.Packets(p.stamp, p.burst)), p.m, p.c, d, g, life);
  }

  lemma TracksStart(hz: nat, start: nat, d: nat)
    ensures Tracks(Init(hz, start), [], d, 5 * hz)
  {
  }

  /** After any number of regular passes within the budget the program holds what the flow map holds after their packets and timer runs. */
  lemma {:induction false} PassesTrack(h: seq<B.Pass>, n: nat, hz: nat, start: nat, d: nat, g: nat)
    requires n <= |h| && d + g <= 5 * hz + 1 && forall i :: 0 <= i < n ==> RegularAt(h, i, hz, start, d, g)
    ensures Tracks(B.Run(h, n, hz, start), FlowEvents(h, n), d, 5 * hz)
  {
    hide Tracks, RegularBurst, B.Possible, B.PassStep;
    if n == 0 {
      TracksStart(hz, start, d);
    } else {
      PassesTrack(h, n - 1, hz, start, d, g);
      assert RegularAt(h, n - 1, hz, start, d, g);
      TracksPass(B.Run(h, n - 1, hz, start), h[n - 1], FlowEvents(h, n - 1), d, g, 5 * hz);
    }
  }

  lemma TrackedIsShown(s: State, es: seq<F.Event<FlowKey>>, k: FlowKey, d: nat, life: nat)
    requires Tracks(s, es, d, life)
    ensures ShownByHistory(s, es, |es|, k, life)
  {
    hide F.Run, F.Recorded, ShownByHistory, Safe, Linked;
    F.StateIsHistory(es, |es|, life);
    RecordedIsShown(s, F.Run(es, |es|, life), es, |es|, k, life);
  }

  /**
   After any number of regular passes a key is in the table exactly when an IPv4 frame used it and no timer run since
   came as late as that use plus five seconds; port and deadline are those the history says.
   */
  lemma TableIsHistory(h: seq<B.Pass>, n: nat, k: FlowKey, hz: nat, start: nat, d: nat, g: nat)
    requires n <= |h| && d + g <= 5 * hz + 1 && forall i :: 0 <= i < n ==> RegularAt(h, i, hz, start, d, g)
    ensures ShownByHistory(B.Run(h, n, hz, start), FlowEvents(h, n), |FlowEvents(h, n)|, k, 5 * hz)
  {
    hide Tracks, ShownByHistory, RegularAt;
    PassesTrack(h, n, hz, start, d, g);
    TrackedIsShown(B.Run(h, n, hz, start), FlowEvents(h, n), k, d, 5 * hz);
  }

  // ---------------------------------------------------------------- ports over passes, whatever additions fail

  lemma {:induction false} FoldKeepsEntry(s: State, stamp: nat, burst: seq<B.Member>, k: FlowKey)
    requires k in s.table
    ensures var t := B.Fold(s, B.Packets(stamp, burst)); k in t.table && t.table[k] == s.table[k]
  {
    if burst != [] {
      var front, b, es := burst[..|burst| - 1], burst[|burst| - 1], B.Packets(stamp, burst);
      FoldKeepsEntry(s, stamp, front, k);
      if b.ipv4.Some? {
        assert es[..|es| - 1] == B.Packets(stamp, front);
      } else {
        assert es == B.Packets(stamp, front);
      }
    }
  }

  /** A flow in the table before and after a pass has the same entry. */
  lemma PassKeepsEntry(s: State, p: B.Pass, k: FlowKey)
    requires k in s.table && k in B.PassStep(s, p).table
    ensures B.PassStep(s, p).table[k] == s.table[k]
  {
    if p.burst != [] { FoldKeepsEntry(Stamp(s, p.stamp), p.stamp, p.burst, k); }
    hide B.Fold;
  }

  ghost predicate LiveThroughout(h: seq<B.Pass>, i: nat, n: nat, k: FlowKey, hz: nat, start: nat)
    requires n <= |h|
  {
    forall j :: i <= j <= n ==> k in B.Run(h, j, hz, start).table
  }

  lemma {:induction false} EntryStable(h: seq<B.Pass>, i: nat, n: nat, k: FlowKey, hz: nat, start: nat)
    requires i <= n <= |h| && LiveThroughout(h, i, n, k, hz, start)
    ensures B.Run(h, n, hz, start).table[k] == B.Run(h, i, hz, start).table[k]
  {
    hide B.PassStep;
    if i < n {
      EntryStable(h, i, n - 1, k, hz, start);
      assert k in B.Run(h, n, hz, start).table;
      PassKeepsEntry(B.Run(h, n - 1, hz, start), h[n - 1], k);
    }
  }

  /** Over every run within the budget a flow keeps its entry and public endpoint while it stays in the table. */
  lemma {:induction false} PortStable(h: seq<B.Pass>, i: nat, n: nat, k: FlowKey, hz: nat, start: nat, d: nat, g: nat)
    requires i <= n <= |h| && LiveThroughout(h, i, n, k, hz, start) && d + g <= 5 * hz + 1
    requires forall j :: 0 <= j < n ==> B.PossibleAt(h, j, hz, start, d, g)
    ensures var s, t := B.Run(h, i, hz, start), B.Run(h, n, hz, start);
            && NoDangling(s) && NoDangling(t)
            && t.table[k] == s.table[k]
            && s.heap[s.table[k]].public == Public(s.table[k]) == t.heap[t.table[k]].public
  {
    hide B.Run, B.PossibleAt;
    B.LoopSafe(h, i, hz, start, d, g);
    B.LoopSafe(h, n, hz, start, d, g);
    EntryStable(h, i, n, k, hz, start);
  }
}
