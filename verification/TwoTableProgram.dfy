/** The code of NAT/NAT_twoTables/main.c, each routine proved against the transition it stands for. */
module TwoTableProgram {
  import opened NatTypes
  import opened Rte
  import opened TwoTableNat

  class Program {
    const hz: nat
    var fwdTable: map<FlowKey, nat>
    var revTable: map<Endpoint, nat>
    var nextPort: Port
    var heap: map<nat, Entry>
    var timers: map<nat, nat>
    var allocs: nat
    ghost var freed: multiset<nat>
    ghost var fault: bool

    ghost function Now(): State
      reads this
    {
      State(fwdTable, revTable, nextPort, hz, heap, timers, allocs, freed, fault)
    }

    constructor (hz: nat)
      ensures Now() == Init(hz) && Safe(Now())
    {
      this.hz := hz;
      fwdTable, revTable, nextPort := map[], map[], 10000;
      heap, timers, allocs := map[], map[], 0;
      freed, fault := multiset{}, false;
    }

    /** The callback, and the mark the timer library leaves: a timer that has run is no longer armed. */
    method FlowTimeoutCb(e: nat)
      requires e in heap
      modifies this
      ensures Now() == Fire(old(Now()), {e}) && heap == old(heap) - {e}
    {
      ghost var s := Now();
      fwdTable := fwdTable - {heap[e].fwd};
      revTable := revTable - {heap[e].rev};
      assert FwdKeys(s.heap, {e}) == {heap[e].fwd} && RevKeys(s.heap, {e}) == {heap[e].rev};
      heap := heap - {e};
      freed := freed + multiset{e};
      assert multiset{e} == multiset({e});
      timers := timers - {e};
    }

    method RefreshTimer(e: nat, now: nat)
      requires e in heap
      modifies this`timers
      ensures Now() == Refresh(old(Now()), e, now)
    {
      timers := timers[e := now + 5 * hz];
    }

    method ProcessEgress(pkt: Packet, now: nat, fwdRoom: bool, revRoom: bool)
      requires Safe(Now())
      modifies this, pkt
      ensures Safe(Now())
      ensures var was := old(pkt.Fields());
              var e := Egress(FlowKey(was.src, was.dst), now, fwdRoom, revRoom);
              && Now() == Step(old(Now()), e)
              && Some(pkt.Fields().src) == Reply(old(Now()), e)
              && pkt.Fields().dst == was.dst
    {
      StepSafe(Now(), Egress(FlowKey(pkt.Fields().src, pkt.Fields().dst), now, fwdRoom, revRoom));
      var key := FlowKey(Endpoint(pkt.srcIp, pkt.srcPort), Endpoint(pkt.dstIp, pkt.dstPort));
      var entry;
      if key in fwdTable {
        entry := fwdTable[key];
      } else {
        entry := NewMapping(key, fwdRoom, revRoom);
      }
      RefreshTimer(entry, now);
      pkt.srcIp := heap[entry].public.ip;
      pkt.srcPort := heap[entry].public.port;
    }

    /** The miss branch of `process_egress`. */
    method NewMapping(key: FlowKey, fwdRoom: bool, revRoom: bool) returns (entry: nat)
      modifies this`heap, this`allocs, this`nextPort, this`fwdTable, this`revTable
      ensures entry == old(allocs) && Now() == Create(old(Now()), key, fwdRoom, revRoom)
    {
      entry := allocs;
      var publicPort := nextPort;
      nextPort := NextPort(nextPort);
      var e := Entry(key, Endpoint(PUBLIC_IP, publicPort), key.src, Endpoint(PUBLIC_IP, publicPort));
      heap, allocs := heap[entry := e], allocs + 1;
      fwdTable := HashAdd(fwdTable, e.fwd, entry, fwdRoom);
      revTable := HashAdd(revTable, e.rev, entry, revRoom);
    }

    method ProcessIngress(pkt: Packet, now: nat)
      requires Safe(Now())
      modifies this, pkt
      ensures Safe(Now())
      ensures var was := old(pkt.Fields());
              var e := Ingress(was.dst, now);
              && Now() == Step(old(Now()), e)
              && pkt.Fields().src == was.src
              && pkt.Fields().dst == (if Reply(old(Now()), e).Some? then Reply(old(Now()), e).value else was.dst)
    {
      StepSafe(Now(), Ingress(pkt.Fields().dst, now));
      var key := Endpoint(pkt.dstIp, pkt.dstPort);
      if key !in revTable {
        return;
      }
      var entry := revTable[key];
      RefreshTimer(entry, now);
      pkt.dstIp := heap[entry].private_.ip;
      pkt.dstPort := heap[entry].private_.port;
    }

    /** `rte_timer_manage`: runs the callback of every due timer once, in an order of its own. */
    method TimerManage(now: nat)
      requires Safe(Now())
      modifies this
      ensures Safe(Now()) && Now() == Step(old(Now()), Manage(now))
    {
      StepSafe(Now(), Manage(now));
      FireDue(set id | id in timers && timers[id] <= now);
    }

    method FireDue(ids: set<nat>)
      requires ids <= heap.Keys
      modifies this
      ensures Now() == Fire(old(Now()), ids)
    {
      hide Fire, FwdKeys, RevKeys;
      ghost var s := Now();
      ghost var done: set<nat> := {};
      var due := ids;
      FireNothing(s);
      while due != {}
        invariant done !! due && done + due == ids
        invariant Now() == Fire(s, done) && due <= heap.Keys
        decreases due
      {
        var e :| e in due;
        FireCompose(s, done, {e});
        FlowTimeoutCb(e);
        done, due := done + {e}, due - {e};
      }
    }
  }
}
