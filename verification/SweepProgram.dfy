/** The code of NAT/main.c, each routine proved against the transition it stands for. */
module SweepProgram {
  import opened NatTypes
  import opened SweepNat

  class Program {
    const timeoutCycles: nat
    var slots: seq<Option<Slot>>
    var nextPort: Port
    var heap: map<nat, Entry>
    var allocs: nat
    ghost var freed: multiset<nat>
    ghost var clock: nat

    ghost function Now(): State
      reads this
    {
      State(slots, nextPort, timeoutCycles, heap, allocs, freed, clock)
    }

    constructor (capacity: nat, timeout: nat)
      ensures Now() == Init(capacity, timeout) && |slots| == capacity
    {
      slots, nextPort, timeoutCycles := seq(capacity, i => None), 10000, timeout;
      heap, allocs := map[], 0;
      freed, clock := multiset{}, 0;
    }

    method AllocatePort() returns (port: Port)
      modifies this`nextPort
      ensures port == old(nextPort) && nextPort == NextPort(port)
    {
      port := nextPort;
      nextPort := NextPort(nextPort);
    }

    /** `rte_hash_iterate`: the next occupied slot from `iter` on, or the number of slots. */
    method HashIterate(iter: nat) returns (pos: nat)
      requires iter <= |slots|
      ensures iter <= pos <= |slots| && (pos < |slots| ==> slots[pos].Some?)
      ensures forall j :: iter <= j < pos ==> slots[j].None?
    {
      pos := iter;
      while pos < |slots| && slots[pos].None?
        invariant iter <= pos <= |slots| && forall j :: iter <= j < pos ==> slots[j].None?
      {
        pos := pos + 1;
      }
    }

    method Egress(pkt: Packet, proto: nat, now: nat, place: Option<Placement>)
      requires Neat(Now())
      modifies this, pkt
      ensures var was := old(pkt.Fields());
              var e := Event.Egress(NatKey(was.src, was.dst, proto), now, place);
              && Now() == Step(old(Now()), e)
              && Some(pkt.Fields().src) == Reply(old(Now()), e)
              && pkt.Fields().dst == was.dst
    {
      var key := NatKey(Endpoint(pkt.srcIp, pkt.srcPort), Endpoint(pkt.dstIp, pkt.dstPort), proto);
      var i := Find(slots, key, 0);
      var entry;
      clock := now;
      if i < |slots| {
        entry := slots[i].value.id;
        heap := heap[entry := heap[entry].(lastSeen := now)];
      } else {
        entry := allocs;
        allocs := allocs + 1;
        var port := AllocatePort();
        heap := heap[entry := Entry(key.src, Endpoint(PUBLIC_IP, port), key.dst, now)];
        slots := Add(slots, Slot(key, entry), place);
      }
      pkt.srcIp := heap[entry].public.ip;
      pkt.srcPort := heap[entry].public.port;
    }

    /** The reverse scan stops at the first match; without one the packet is left as it is. */
    method Ingress(pkt: Packet, now: nat) returns (found: bool)
      requires Neat(Now())
      modifies this, pkt
      ensures var was := old(pkt.Fields());
              var e := Event.Ingress(was.dst, now);
              && Now() == Step(old(Now()), e)
              && found == Reply(old(Now()), e).Some?
              && pkt.Fields().src == was.src
              && pkt.Fields().dst == (if found then Reply(old(Now()), e).value else was.dst)
    {
      ghost var s := Now();
      var to := Endpoint(pkt.dstIp, pkt.dstPort);
      var iter := 0;
      while true
        invariant 0 <= iter <= |slots| && Now() == s && pkt.Fields() == old(pkt.Fields())
        invariant FindPublic(s, to, 0) == FindPublic(s, to, iter)
        decreases |slots| - iter
      {
        var pos := HashIterate(iter);
        SkipsEmpty(s, to, iter, pos);
        if pos == |slots| {
          break;
        }
        var entry := slots[pos].value.id;
        if heap[entry].public == to {
          pkt.dstIp := heap[entry].private_.ip;
          pkt.dstPort := heap[entry].private_.port;
          heap := heap[entry := heap[entry].(lastSeen := now)];
          clock := now;
          return true;
        }
        iter := pos + 1;
      }
      clock := now;
      return false;
    }

    /**
     The sweep deletes while it iterates. It still visits every slot that was occupied when it began,
     once and in order, and its effect is that of deciding all slots on the table it began with.
     */
    method NatCleanup(now: nat) returns (ghost visited: seq<nat>)
      requires Neat(Now()) && clock <= now
      modifies this
      ensures Now() == Step(old(Now()), Cleanup(now))
      ensures visited == Occupied(old(slots), |old(slots)|)
    {
      hide Neat, Sweep, Since, Delete, Find;
      ghost var s := Now();
      clock := now;
      visited := [];
      var iter := 0;
      SweepNothing(s, now);
      while true
        invariant 0 <= iter <= |slots| == |s.slots|
        invariant Now() == Sweep(s, iter, now) && visited == Occupied(s.slots, iter)
        decreases |slots| - iter
      {
        var pos := HashIterate(iter);
        SweepSkips(s, iter, pos, now);
        if pos == |slots| {
          break;
        }
        SweepKeepsSlot(s, pos, now);
        visited := visited + [pos];
        var slot := slots[pos].value;
        SweepOne(s, pos, now);
        if Since(now, heap[slot.id].lastSeen) > timeoutCycles {
          slots := Delete(slots, slot.key);
          heap := heap - {slot.id};
          freed := freed + multiset{slot.id};
        }
        iter := pos + 1;
      }
    }
  }

  lemma {:induction false} SkipsEmpty(s: State, to: Endpoint, i: nat, j: nat)
    requires i <= j <= |s.slots| && forall k :: i <= k < j ==> s.slots[k].None?
    ensures FindPublic(s, to, i) == FindPublic(s, to, j)
    decreases j - i
  {
    if i < j { SkipsEmpty(s, to, i + 1, j); }
  }

  lemma SweepNothing(s: State, now: nat)
    ensures Sweep(s, 0, now) == s.(clock := now)
  {
    assert StaleIds(s, 0, now) == {};
    assert SweptSlots(s, 0, now) == s.slots;
    assert s.heap - {} == s.heap;
  }

  /** Slots the iteration passes over are empty in the table the sweep began with. */
  lemma SweepSkips(s: State, i: nat, j: nat, now: nat)
    requires i <= j <= |s.slots| && forall k :: i <= k < j ==> Sweep(s, i, now).slots[k].None?
    ensures Sweep(s, i, now) == Sweep(s, j, now) && Occupied(s.slots, i) == Occupied(s.slots, j)
  {
    forall k | i <= k < j ensures s.slots[k].None? {
      assert Sweep(s, i, now).slots[k] == s.slots[k];
    }
    assert SweptSlots(s, i, now) == SweptSlots(s, j, now);
    assert StaleIds(s, i, now) == StaleIds(s, j, now);
    OccupiedSkips(s.slots, i, j);
  }

  lemma {:induction false} OccupiedSkips(slots: seq<Option<Slot>>, i: nat, j: nat)
    requires i <= j <= |slots| && forall k :: i <= k < j ==> slots[k].None?
    ensures Occupied(slots, i) == Occupied(slots, j)
  {
    if i < j { OccupiedSkips(slots, i, j - 1); }
  }

  lemma SweptDistinct(s: State, n: nat, now: nat)
    requires Neat(s) && n <= |s.slots|
    ensures Distinct(SweptSlots(s, n, now))
  {
    var r := SweptSlots(s, n, now);
    forall i | 0 <= i < |r| ensures r[i].Some? ==> r[i] == s.slots[i] {
    }
  }

  lemma SweepKeepsSlot(s: State, pos: nat, now: nat)
    requires pos < |s.slots|
    ensures Sweep(s, pos, now).slots[pos] == s.slots[pos]
  {
  }

  lemma StaleNext(s: State, pos: nat, now: nat)
    requires pos < |s.slots|
    ensures StaleIds(s, pos + 1, now) == StaleIds(s, pos, now) + if Stale(s, pos, now) then {s.slots[pos].value.id} else {}
  {
  }

  lemma SweptNext(s: State, pos: nat, now: nat)
    requires pos < |s.slots|
    ensures var r := SweptSlots(s, pos, now);
            && |r| == |s.slots| && r[pos] == s.slots[pos]
            && SweptSlots(s, pos + 1, now) == if Stale(s, pos, now) then r[pos := None] else r
  {
  }

  lemma NotYetStale(s: State, pos: nat, now: nat)
    requires Neat(s) && pos < |s.slots| && s.slots[pos].Some?
    ensures s.slots[pos].value.id !in StaleIds(s, pos, now) && s.slots[pos].value.id in s.heap
  {
    assert forall j :: 0 <= j < pos && Stale(s, j, now) ==> s.slots[j].value.id != s.slots[pos].value.id;
  }

  lemma DeletesAt(s: State, pos: nat, now: nat)
    requires Neat(s) && pos < |s.slots| && s.slots[pos].Some?
    ensures var r := SweptSlots(s, pos, now); Delete(r, s.slots[pos].value.key) == r[pos := None]
  {
    SweptDistinct(s, pos, now);
    SweptNext(s, pos, now);
    FindsHolder(SweptSlots(s, pos, now), pos);
  }

  /** One more occupied slot: its entry goes exactly when it is stale, and no other entry is affected. */
  lemma SweepOne(s: State, pos: nat, now: nat)
    requires Neat(s) && pos < |s.slots| && s.slots[pos].Some?
    ensures var t, p := Sweep(s, pos, now), s.slots[pos].value;
            && |t.slots| == |s.slots| && t.slots[pos] == s.slots[pos]
            && p.id in t.heap && t.heap[p.id] == s.heap[p.id] && t.timeout == s.timeout
            && Sweep(s, pos + 1, now) ==
               (if Since(now, s.heap[p.id].lastSeen) > s.timeout
                then t.(slots := Delete(t.slots, p.key), heap := t.heap - {p.id}, freed := t.freed + multiset{p.id})
                else t)
  {
    hide Neat, StaleIds, SweptSlots, Delete, Since;
    var p, ids := s.slots[pos].value, StaleIds(s, pos, now);
    SweptNext(s, pos, now);
    StaleNext(s, pos, now);
    NotYetStale(s, pos, now);
    DeletesAt(s, pos, now);
    assert multiset(ids + {p.id}) == multiset(ids) + multiset{p.id};
    assert s.heap - (ids + {p.id}) == s.heap - ids - {p.id};
  }
}
