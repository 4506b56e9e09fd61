/**
 The code of NAT/Nat_with_TIMER/nwt.c and, for the receive loop, of NAT/NWT_actualPkts/main.c, each
 routine proved against the transition it stands for.
 */
module SingleTableProgram {
  import opened NatTypes
  import opened Rte
  import opened SingleTableNat
  import B = BurstNat

  class Program {
    const hz: nat
    var natTable: map<FlowKey, nat>
    var nextPort: Port
    var globalLastPkt: nat
    var tableCleared: bool
    var heap: map<nat, Entry>
    var timers: map<nat, nat>
    var allocs: nat
    ghost var freed: multiset<nat>
    ghost var fault: bool
    ghost var clock: nat

    ghost function Now(): State
      reads this
    {
      State(natTable, nextPort, hz, globalLastPkt, tableCleared, heap, timers, allocs, freed, fault, clock)
    }

    constructor (hz: nat, now: nat)
      ensures Now() == Init(hz, now)
    {
      this.hz := hz;
      natTable, nextPort, globalLastPkt, tableCleared := map[], 10000, now, false;
      heap, timers, allocs := map[], map[], 0;
      freed, fault, clock := multiset{}, false, now;
    }

    /** The callback, and the mark the timer library leaves: a timer that has run is no longer armed. */
    method FlowTimeoutCb(e: nat)
      requires e in heap
      modifies this
      ensures Now() == Fire(old(Now()), {e}) && heap == old(heap) - {e}
    {
      ghost var s := Now();
      natTable := natTable - {heap[e].key};
      assert Keys(s.heap, {e}) == {heap[e].key};
      heap := heap - {e};
      freed := freed + multiset{e};
      assert multiset{e} == multiset({e});
      timers := timers - {e};
    }

    method RefreshTimer(e: nat, now: nat)
      requires e in heap
      modifies this`timers, this`clock
      ensures Now() == Refresh(old(Now()), e, now)
    {
      timers := timers[e := now + 5 * hz];
      clock := now;
    }

    /** Look the flow up, open it on a miss, and reset its timer. */
    method TouchFlow(key: FlowKey, now: nat, room: bool) returns (entry: nat)
      requires NoDangling(Now())
      modifies this
      ensures Now() == Touch(old(Now()), key, now, room)
      ensures entry in heap && entry == (if key in old(natTable) then old(natTable)[key] else old(allocs))
    {
      if key in natTable {
        entry := natTable[key];
      } else {
        entry := allocs;
        var publicPort := nextPort;
        nextPort := NextPort(nextPort);
        heap := heap[entry := Entry(key, key.src, Endpoint(PUBLIC_IP, publicPort))];
        allocs := allocs + 1;
        natTable := HashAdd(natTable, key, entry, room);
      }
      RefreshTimer(entry, now);
    }

    method ProcessEgress(pkt: Packet, stamp: nat, now: nat, room: bool)
      requires NoDangling(Now())
      modifies this, pkt
      ensures globalLastPkt == stamp && !tableCleared
      ensures var was := old(pkt.Fields());
              var e := Egress(FlowKey(was.src, was.dst), stamp, now, room);
              && Now() == Step(old(Now()), e)
              && Some(pkt.Fields().src) == Reply(old(Now()), e)
              && pkt.Fields().dst == was.dst
    {
      globalLastPkt, tableCleared, clock := stamp, false, stamp;
      var key := FlowKey(Endpoint(pkt.srcIp, pkt.srcPort), Endpoint(pkt.dstIp, pkt.dstPort));
      var entry := TouchFlow(key, now, room);
      pkt.srcIp := heap[entry].public.ip;
      pkt.srcPort := heap[entry].public.port;
    }

    /** The loop over the table that stands in for a reverse index: the first entry on the endpoint `to`. */
    method ScanTable(to: Endpoint) returns (found: Option<FlowKey>, ghost order: seq<FlowKey>)
      requires NoDangling(Now())
      ensures Enumerates(order, natTable)
      ensures found == FirstMatch(Now(), to, order)
    {
      ghost var s := Now();
      var keys := IterationOrder(natTable);
      order := keys;
      var i := 0;
      while i < |keys|
        invariant 0 <= i <= |keys|
        invariant FirstMatch(s, to, order) == FirstMatch(s, to, order[i..])
      {
        var entry := natTable[keys[i]];
        if heap[entry].public == to {
          return Some(keys[i]), order;
        }
        i := i + 1;
      }
      return None, order;
    }

    /** A miss leaves the packet as it is. */
    method ProcessIngress(pkt: Packet, stamp: nat, now: nat) returns (ghost order: seq<FlowKey>)
      requires NoDangling(Now())
      modifies this, pkt
      ensures Enumerates(order, old(natTable))
      ensures globalLastPkt == stamp && !tableCleared
      ensures var was := old(pkt.Fields());
              var e := Ingress(was.dst, stamp, now, order);
              && Now() == Step(old(Now()), e)
              && pkt.Fields().src == was.src
              && pkt.Fields().dst == (if Reply(old(Now()), e).Some? then Reply(old(Now()), e).value else was.dst)
    {
      ghost var s := Now();
      globalLastPkt, tableCleared, clock := stamp, false, stamp;
      var found;
      found, order := ScanTable(Endpoint(pkt.dstIp, pkt.dstPort));
      StampScan(s, stamp, pkt.Fields().dst, order);
      if found.None? {
        clock := now;
        return;
      }
      var entry := natTable[found.value];
      pkt.dstIp := heap[entry].private_.ip;
      pkt.dstPort := heap[entry].private_.port;
      RefreshTimer(entry, now);
    }

    /** `rte_timer_manage`: runs the callback of every due timer once, in an order of its own. */
    method TimerManage(now: nat)
      requires HeapSafe(Now())
      modifies this
      ensures Now() == Manage(old(Now()), now)
    {
      FireDue(set id | id in timers && timers[id] <= now);
      clock := now;
    }

    method FireDue(ids: set<nat>)
      requires ids <= heap.Keys
      modifies this
      ensures Now() == Fire(old(Now()), ids)
    {
      hide Fire, Keys;
      ghost var s := Now();
      ghost var done: set<nat> := {};
      var due := ids;
      FireNothing(s);
      while due != {}
        invariant done !! due && done + due == ids
        invariant Now() == Fire(s, done) && due <= heap.Keys
        decreases due
      {
        var e :| e in due;
        FireCompose(s, done, {e});
        FlowTimeoutCb(e);
        done, due := done + {e}, due - {e};
      }
    }

    /** The idle check: it frees what the table holds and resets the table, and stops no timer. */
    method CheckGlobalIdle(now: nat)
      requires NoDangling(Now())
      modifies this
      ensures Now() == Check(old(Now()), now)
      ensures old(globalLastPkt) <= now < 0x1_0000_0000_0000_0000 ==>
                (tableCleared <==> old(tableCleared) || now - old(globalLastPkt) > 10 * hz)
      ensures tableCleared && !old(tableCleared) ==> natTable == map[] && heap == old(heap) - old(natTable).Values
      ensures tableCleared == old(tableCleared) ==> natTable == old(natTable) && heap == old(heap)
      ensures timers == old(timers) && globalLastPkt == old(globalLastPkt)
    {
      if !tableCleared && Since(now, globalLastPkt) > 10 * hz {
        FreeEntries();
        natTable := map[];
        tableCleared := true;
      }
      clock := now;
    }

    method FreeEntries()
      requires NoDangling(Now())
      modifies this`heap, this`freed
      ensures heap == old(heap) - natTable.Values && freed == old(freed) + multiset(natTable.Values)
    {
      hide NoDangling, Enumerates, Own, FreedFirst;
      ghost var s := Now();
      var keys := IterationOrder(natTable);
      OwnEntries(s, keys);
      FreedNone(s, keys);
      var i := 0;
      while i < |keys|
        invariant 0 <= i <= |keys| && FreedFirst(s, keys, i, heap, freed)
      {
        FreedNext(s, keys, i, heap, freed);
        var e := natTable[keys[i]];
        heap := heap - {e};
        freed := freed + multiset{e};
        i := i + 1;
      }
      FreedAll(s, keys, heap, freed);
    }

    /**
     One pass of the receive loop over the first `nbRx` frames in `bufs`. The frames released, in
     order, are those received, whatever their type; the flows are touched as if each IPv4 frame had
     come alone.
     */
    method ReceiveBurst(bufs: array<B.Member>, nbRx: nat, stamp: nat) returns (ghost released: seq<nat>)
      requires nbRx <= bufs.Length
      requires HeapSafe(Now()) && NoDangling(Now())
      modifies this
      ensures released == B.Mbufs(bufs[..nbRx])
      ensures forall m, c :: Now() == B.Receive(old(Now()), B.Pass(stamp, bufs[..nbRx], m, c))
      ensures HeapSafe(Now()) && NoDangling(Now())
    {
      hide Touch, HeapSafe, NoDangling;
      released := [];
      if nbRx > 0 {
        StampLinks(Now(), stamp);
        globalLastPkt, tableCleared, clock := stamp, false, stamp;
        ghost var s := Now();
        var i := 0;
        assert bufs[..0] == [];
        while i < nbRx
          invariant 0 <= i <= nbRx && released == B.Mbufs(bufs[..i])
          invariant Now() == B.Fold(s, B.Packets(stamp, bufs[..i]))
          invariant HeapSafe(Now()) && NoDangling(Now())
        {
          var m := bufs[i];
          assert bufs[..nbRx][..i] == bufs[..i] && bufs[..nbRx][..i + 1] == bufs[..i + 1];
          B.FoldNext(s, stamp, bufs[..nbRx], i);
          i := i + 1;
          if m.ipv4.None? {
            released := released + [m.mbuf];
            continue;
          }
          TouchLinks(Now(), m.ipv4.value, m.at, m.room);
          var entry := TouchFlow(m.ipv4.value, m.at, m.room);
          released := released + [m.mbuf];
        }
      }
    }
  }

  /** The keys met by an iteration lead to different entries. */
  ghost predicate Own(s: State, keys: seq<FlowKey>) {
    && (forall i :: 0 <= i < |keys| ==> keys[i] in s.table)
    && (forall k :: k in s.table ==> k in keys)
    && (forall i, j :: 0 <= i < |keys| && 0 <= j < |keys| && s.table[keys[i]] == s.table[keys[j]] ==> i == j)
  }

  lemma OwnEntries(s: State, keys: seq<FlowKey>)
    requires NoDangling(s) && Enumerates(keys, s.table)
    ensures Own(s, keys)
  {
    forall i, j | 0 <= i < j < |keys| ensures s.table[keys[i]] != s.table[keys[j]] {
      assert s.heap[s.table[keys[i]]].key != s.heap[s.table[keys[j]]].key;
    }
  }

  /** The entries of the first `n` keys are gone from `heap` and recorded in `freed`, each once. */
  ghost predicate FreedFirst(s: State, keys: seq<FlowKey>, n: nat, heap: map<nat, Entry>, freed: multiset<nat>)
    requires Own(s, keys) && n <= |keys|
  {
    var ids := set i | 0 <= i < n :: s.table[keys[i]];
    heap == s.heap - ids && freed == s.freed + multiset(ids)
  }

  lemma FreedNone(s: State, keys: seq<FlowKey>)
    requires Own(s, keys)
    ensures FreedFirst(s, keys, 0, s.heap, s.freed)
  {
    assert s.heap - {} == s.heap;
  }

  lemma FreedNext(s: State, keys: seq<FlowKey>, n: nat, heap: map<nat, Entry>, freed: multiset<nat>)
    requires Own(s, keys) && n < |keys| && FreedFirst(s, keys, n, heap, freed)
    ensures keys[n] in s.table
    ensures FreedFirst(s, keys, n + 1, heap - {s.table[keys[n]]}, freed + multiset{s.table[keys[n]]})
  {
    var e := s.table[keys[n]];
    var done := set i | 0 <= i < n :: s.table[keys[i]];
    assert (set i | 0 <= i < n + 1 :: s.table[keys[i]]) == done + {e};
    assert e !in done && multiset(done + {e}) == multiset(done) + multiset{e};
    RemoveTwice(s.heap, done, {e});
  }

  lemma FreedAll(s: State, keys: seq<FlowKey>, heap: map<nat, Entry>, freed: multiset<nat>)
    requires Own(s, keys) && FreedFirst(s, keys, |keys|, heap, freed)
    ensures heap == s.heap - s.table.Values && freed == s.freed + multiset(s.table.Values)
  {
    var ids := set i | 0 <= i < |keys| :: s.table[keys[i]];
    forall e | e in s.table.Values ensures e in ids {
      var k :| k in s.table && s.table[k] == e;
      assert k in keys;
    }
    assert ids == s.table.Values;
  }

  lemma TouchLinks(s: State, key: FlowKey, at: nat, room: bool)
    requires HeapSafe(s) && NoDangling(s)
    ensures HeapSafe(Touch(s, key, at, room)) && NoDangling(Touch(s, key, at, room))
  {
    if key !in s.table {
      CreateHeapSafe(s, key, at, room);
      CreateNoDangling(s, key, at, room);
    }
  }
}
