/** The two-table NAT and the scan NAT, fed the same packets and timer runs, cannot be told apart. */
module Bisimulation {
  import opened NatTypes
  import F = FlowSpec
  import FlowMaps
  import One = SingleTableNat
  import Two = TwoTableNat

  /** What the two-table program sees of an event: no stamp, no iteration order, no idle check. */
  function TwoOf(e: One.Event): Two.Event {
    match e
    case Egress(key, _, at, _) => Two.Egress(key, at, true, true)
    case Ingress(to, _, at, _) => Two.Ingress(to, at)
    case Tick(m, _) => Two.Manage(m)
  }

  function TwoAll(h: seq<One.Event>): (g: seq<Two.Event>)
    ensures |g| == |h| && forall i :: 0 <= i < |h| ==> g[i] == TwoOf(h[i])
  {
    seq(|h|, i requires 0 <= i < |h| => TwoOf(h[i]))
  }

  lemma SameFlowEvents(h: seq<One.Event>)
    ensures Two.AbsAll(TwoAll(h)) == One.AbsAll(h)
  {
    var a, b := Two.AbsAll(TwoAll(h)), One.AbsAll(h);
    forall i | 0 <= i < |h| ensures a[i] == b[i] {
      assert a[i] == Two.Abs(TwoOf(h[i]));
    }
  }

  lemma GuardedIsAdmitted(s: Two.State, t: F.Table<FlowKey>, e: One.Event)
    requires Two.Safe(s) && Two.ShowsFlows(s, t) && Two.Linked(s) && F.Guarded(t, One.Abs(e))
    ensures Two.Admitted(s, TwoOf(e))
  {
    var public := Endpoint(PUBLIC_IP, s.nextPort);
    if Two.Creates(s, TwoOf(e)) {
      forall r | r in s.rev ensures r != public {
        var k := s.heap[s.rev[r]].fwd;
        assert t.flows[k].serial == s.rev[r];
      }
    }
  }

  lemma TwoAdmitted(h: seq<One.Event>, n: nat, hz: nat)
    requires 0 < n <= |h| && Two.LinkedAt(TwoAll(h), n - 1, hz) && Two.RefinedAt(TwoAll(h), n - 1, hz)
    requires F.GuardedAt(One.AbsAll(h), n - 1, 5 * hz)
    ensures Two.AdmittedAt(TwoAll(h), n - 1, hz)
  {
    hide Two.Safe, Two.Linked, F.Guarded, Two.Admitted, Two.ShowsFlows, Two.Run, F.Run, Two.AbsAll, One.AbsAll, TwoAll;
    SameFlowEvents(h);
    Two.RunSafe(TwoAll(h), n - 1, hz);
    GuardedIsAdmitted(Two.Run(TwoAll(h), n - 1, hz), F.Run(One.AbsAll(h), n - 1, 5 * hz), h[n - 1]);
  }

  lemma {:induction false} TwoAdmittedRun(h: seq<One.Event>, n: nat, hz: nat)
    requires n <= |h| && F.GuardedRun(One.AbsAll(h), n, 5 * hz)
    ensures Two.AdmittedRun(TwoAll(h), n, hz)
  {
    hide Two.LinkedAt, Two.RefinedAt, Two.AdmittedAt, F.GuardedAt, One.AbsAll, TwoAll;
    if n > 0 {
      TwoAdmittedRun(h, n - 1, hz);
      Two.LinkedPrefix(TwoAll(h), n - 1, n - 1, hz);
      Two.RefinesRun(TwoAll(h), n - 1, hz);
      TwoAdmitted(h, n, hz);
    }
  }

  /** Everything a table, a timer set and the entries say about the live flows. */
  ghost predicate SameFlows(one: One.State, two: Two.State) {
    && one.table == two.fwd && one.allocs == two.allocs && one.nextPort == two.nextPort
    && one.timers == two.timers
    && one.heap.Keys == two.heap.Keys
    && forall id :: id in one.heap ==>
         && one.heap[id].key == two.heap[id].fwd
         && one.heap[id].private_ == two.heap[id].private_
         && one.heap[id].public == two.heap[id].public == two.heap[id].rev
  }

  lemma ShownIsSame(one: One.State, two: Two.State, t: F.Table<FlowKey>)
    requires One.HeapSafe(one) && One.NoDangling(one) && One.Linked(one) && One.ShowsFlows(one, t)
    requires Two.Safe(two) && Two.Linked(two) && Two.ShowsFlows(two, t)
    ensures SameFlows(one, two)
  {
    FlowMaps.ShowsSame(one.table, one.timers, one.allocs, two.fwd, two.timers, two.allocs, t);
    assert forall id :: id in one.heap ==> one.table[one.heap[id].key] == id;
    assert forall id :: id in two.heap ==> two.fwd[two.heap[id].fwd] == id;
    assert one.heap.Keys == two.heap.Keys;
    assert one.timers == two.timers;
  }

  /**
   After every prefix of a regular run within the idle budget the two programs hold the same live
   flows with the same ports and deadlines, and they rewrite every packet alike: the reverse table
   agrees with the scan it replaces, and the idle clear of the scan program shows nowhere.
   */
  lemma {:induction false} SameAfterEveryPrefix(h: seq<One.Event>, n: nat, hz: nat, start: nat, d: nat, g: nat)
    requires n <= |h| && One.RegularRun(h, n, hz, start, d, g) && d + g <= 5 * hz + 1
    ensures SameFlows(One.Run(h, n, hz, start), Two.Run(TwoAll(h), n, hz))
    ensures Two.AdmittedRun(TwoAll(h), n, hz)
  {
    One.RefinesRun(h, n, hz, start, d, g);
    TwoAdmittedRun(h, n, hz);
    Two.RefinesRun(TwoAll(h), n, hz);
    Two.LinkedPrefix(TwoAll(h), n, n, hz);
    Two.RunSafe(TwoAll(h), n, hz);
    SameFlowEvents(h);
    hide Two.Safe, Two.Linked, One.Linked, Two.ShowsFlows, One.ShowsFlows, SameFlows, F.Run, Two.Run, One.Run;
    ShownIsSame(One.Run(h, n, hz, start), Two.Run(TwoAll(h), n, hz), F.Run(One.AbsAll(h), n, 5 * hz));
  }

  lemma SameReplies(h: seq<One.Event>, n: nat, hz: nat, start: nat, d: nat, g: nat)
    requires n < |h| && One.RegularRun(h, n + 1, hz, start, d, g) && d + g <= 5 * hz + 1
    ensures One.NoDangling(One.Run(h, n, hz, start)) && Two.Safe(Two.Run(TwoAll(h), n, hz))
    ensures One.Reply(One.Run(h, n, hz, start), h[n]) == Two.Reply(Two.Run(TwoAll(h), n, hz), TwoOf(h[n]))
  {
    One.RefinesRun(h, n, hz, start, d, g);
    TwoAdmittedRun(h, n, hz);
    Two.RefinesRun(TwoAll(h), n, hz);
    Two.LinkedPrefix(TwoAll(h), n, n, hz);
    Two.RunSafe(TwoAll(h), n, hz);
    SameFlowEvents(h);
    assert One.RegularAt(h, n, hz, start, d, g);
    var one, two, t := One.Run(h, n, hz, start), Two.Run(TwoAll(h), n, hz), F.Run(One.AbsAll(h), n, 5 * hz);
    One.SafeParts(one, d);
    hide Two.Linked, Two.Safe, F.Run, Two.Run, One.Run, One.Step, F.Step, One.Regular, One.Reply, Two.Reply;
    One.RefinesStep(one, t, h[n], d, g);
    Two.RepliesAlike(two, t, TwoOf(h[n]));
    assert One.Abs(h[n]) == Two.Abs(TwoOf(h[n]));
  }
}
