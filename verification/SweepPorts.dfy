/**
 Which public port each packet of the sweep NAT gets, and where replies to it go, on every run: additions may find no
 place, keys may move between slots, and ports may come round again.
 */
module SweepPorts {
  import opened NatTypes
  import opened SweepNat

  // ---------------------------------------------------------------- the source of outgoing packets

  /** The allocation that a packet of `k` is rewritten to. */
  function Serial(s: State, k: NatKey): nat {
    if Holds(s, k) then s.slots[Find(s.slots, k, 0)].value.id else s.allocs
  }

  lemma SourceIsSerial(s: State, e: Event)
    requires Neat(s) && e.Egress?
    ensures Reply(s, e) == Some(Public(Serial(s, e.key)))
  {
  }

  /** An outgoing packet gets the address 10.0.0.1 and the port of its flow's allocation, or of the next one. */
  lemma SourceAddress(s: State, e: Event)
    requires Neat(s) && e.Egress?
    ensures Reply(s, e) == Some(Endpoint(0x0A000001, (10000 + Serial(s, e.key)) % 65536))
  {
    SourceIsSerial(s, e);
    PublicIs(Serial(s, e.key));
  }

  /** A packet stamps the one entry it uses and leaves every other entry as it was, whether or not an addition finds a place. */
  lemma StampsOne(s: State, e: Event, x: nat)
    requires Neat(s) && !e.Cleanup?
    ensures !Creates(s, e) ==> Step(s, e).(heap := s.heap, clock := s.clock) == s
    ensures var t, i := Step(s, e), if e.Ingress? then FindPublic(s, e.to, 0) else |s.slots|;
            var used := if e.Egress? then Some(Serial(s, e.key)) else if i < |s.slots| then Some(s.slots[i].value.id) else None;
            && (x in t.heap <==> x in s.heap || used == Some(x))
            && (x in t.heap && used == Some(x) ==> t.heap[x].lastSeen == e.at)
            && (x in s.heap && used == Some(x) ==> t.heap[x] == s.heap[x].(lastSeen := e.at))
            && (x in s.heap && used != Some(x) ==> t.heap[x] == s.heap[x])
  {
  }

  lemma SerialOfPair(s: State, p: Slot)
    requires Neat(s)
    ensures Some(p) in s.slots ==> Holds(s, p.key) && Serial(s, p.key) == p.id
    ensures Holds(s, p.key) && Serial(s, p.key) == p.id ==> Some(p) in s.slots
  {
    var i := Find(s.slots, p.key, 0);
    if Some(p) in s.slots {
      var j :| 0 <= j < |s.slots| && s.slots[j] == Some(p);
      FindsHolder(s.slots, j);
    }
    if Holds(s, p.key) && Serial(s, p.key) == p.id { assert s.slots[i] == Some(p); }
  }

  /** After an opening the new key is in the table exactly when its pair found a place, and other keys as before. */
  lemma HoldsAfterCreate(s: State, e: Event, k: NatKey)
    requires Neat(s) && Creates(s, e) && Possible(s, e)
    ensures Neat(Step(s, e))
    ensures Holds(Step(s, e), k) <==> if k == e.key then Fits(s.slots, e.place) else Holds(s, k)
    ensures Holds(Step(s, e), k) ==> Serial(Step(s, e), k) == Serial(s, k)
  {
    hide Neat, Fits, Add, Find;
    StepNeat(s, e);
    var t := Step(s, e);
    FreshPair(s, e);
    AddKeeps(s.slots, Slot(e.key, s.allocs), e.place);
    if Holds(s, k) {
      SerialOfPair(s, Slot(k, Serial(s, k)));
      SerialOfPair(t, Slot(k, Serial(s, k)));
    }
    if Holds(t, k) {
      SerialOfPair(t, Slot(k, Serial(t, k)));
      SerialOfPair(s, Slot(k, Serial(t, k)));
    }
    SerialOfPair(t, Slot(e.key, s.allocs));
  }

  lemma FreshPair(s: State, e: Event)
    requires Neat(s) && Creates(s, e)
    ensures Distinct(s.slots)
    ensures forall i :: 0 <= i < |s.slots| && s.slots[i].Some? ==> s.slots[i].value.key != e.key && s.slots[i].value.id != s.allocs
  {
  }

  lemma SerialAfterSweep(s: State, now: nat, k: NatKey)
    requires Neat(s) && s.clock <= now && Holds(Sweep(s, |s.slots|, now), k)
    ensures Holds(s, k) && Serial(Sweep(s, |s.slots|, now), k) == Serial(s, k)
  {
    var t := Sweep(s, |s.slots|, now);
    var i := Find(t.slots, k, 0);
    assert t.slots[i] == s.slots[i];
    FindsHolder(s.slots, i);
  }

  lemma SerialStays(s: State, e: Event, k: NatKey)
    requires Neat(s) && Possible(s, e) && Holds(Step(s, e), k)
    ensures Serial(Step(s, e), k) == Serial(s, k)
  {
    if Creates(s, e) {
      HoldsAfterCreate(s, e, k);
    } else if e.Cleanup? {
      SerialAfterSweep(s, e.at, k);
    }
  }

  /** An addition stores the flow exactly when the slot it is to take is empty once the keys have moved. */
  lemma StoredIff(s: State, key: NatKey, at: nat, p: Placement)
    requires Neat(s) && s.clock <= at && !Holds(s, key)
    ensures Holds(Step(s, Egress(key, at, Some(p))), key) <==> p.at < |s.slots| && Swaps(s.slots, p.swaps)[p.at].None?
    ensures !Holds(Step(s, Egress(key, at, None)), key)
  {
    HoldsAfterCreate(s, Egress(key, at, Some(p)), key);
    HoldsAfterCreate(s, Egress(key, at, None), key);
  }

  /** An opened flow keeps its port for its next packet exactly when the table had a place for it. */
  lemma PortKeptIff(s: State, e: Event, next: Event)
    requires Neat(s) && Possible(s, e) && Creates(s, e) && next.Egress? && next.key == e.key
    ensures Neat(Step(s, e))
    ensures Reply(Step(s, e), next) == Reply(s, e) <==> Fits(s.slots, e.place)
  {
    hide Neat, Fits, Reply, Find;
    HoldsAfterCreate(s, e, e.key);
    SourceIsSerial(s, e);
    SourceIsSerial(Step(s, e), next);
    NearPorts(s.allocs, s.allocs + 1);
  }

  ghost predicate LiveThroughout(h: seq<Event>, i: nat, n: nat, k: NatKey, capacity: nat, timeout: nat)
    requires n <= |h|
  {
    forall j :: i <= j <= n ==> Holds(Run(h, j, capacity, timeout), k)
  }

  lemma {:induction false} EntryStable(h: seq<Event>, i: nat, n: nat, k: NatKey, capacity: nat, timeout: nat)
    requires i < n <= |h| && PossibleRun(h, n, capacity, timeout) && LiveThroughout(h, i + 1, n, k, capacity, timeout)
    ensures Holds(Run(h, n, capacity, timeout), k)
    ensures Serial(Run(h, n, capacity, timeout), k) == Serial(Run(h, i, capacity, timeout), k)
  {
    hide Step, Neat, Holds, Serial, PossibleAt;
    RunNeat(h, n - 1, capacity, timeout);
    StepsPossible(h, n - 1, n, capacity, timeout);
    if i + 1 < n { EntryStable(h, i, n - 1, k, capacity, timeout); }
    assert Holds(Run(h, n, capacity, timeout), k);
    SerialStays(Run(h, n - 1, capacity, timeout), h[n - 1], k);
  }

  /** Any two packets that leave, anywhere in any run, get one source exactly when their allocations are a multiple of 65536 apart. */
  lemma {:induction false} SameSourceIff(h: seq<Event>, i: nat, n: nat, e: Event, e': Event, capacity: nat, timeout: nat)
    requires i <= n <= |h| && PossibleRun(h, n, capacity, timeout) && e.Egress? && e'.Egress?
    ensures Neat(Run(h, i, capacity, timeout)) && Neat(Run(h, n, capacity, timeout))
    ensures var a, b := Serial(Run(h, i, capacity, timeout), e.key), Serial(Run(h, n, capacity, timeout), e'.key);
            Reply(Run(h, i, capacity, timeout), e) == Reply(Run(h, n, capacity, timeout), e')
            <==> (if a <= b then b - a else a - b) % 65536 == 0
  {
    hide Run, Neat, Reply, Serial, PossibleAt;
    var s, t := Run(h, i, capacity, timeout), Run(h, n, capacity, timeout);
    RunNeat(h, i, capacity, timeout);
    RunNeat(h, n, capacity, timeout);
    SourceIsSerial(s, e);
    SourceIsSerial(t, e');
    var a, b := Serial(s, e.key), Serial(t, e'.key);
    SamePort(if a <= b then a else b, if a <= b then b else a);
  }

  lemma YoungAreUnique(s: State)
    requires Neat(s) && forall id :: id in s.heap ==> s.allocs - id <= 65536
    ensures forall i, j :: i in s.heap && j in s.heap && s.heap[i].public == s.heap[j].public ==> i == j
  {
    forall i, j | i in s.heap && j in s.heap && s.heap[i].public == s.heap[j].public ensures i == j {
      assert PortOf(i) == PortOf(j) && i < s.allocs && j < s.allocs;
      NearPorts(i, j);
    }
  }

  /** In every run entries in memory at most 65536 allocations old have different ports, lost entries included. */
  lemma UniqueByAge(h: seq<Event>, n: nat, capacity: nat, timeout: nat)
    requires n <= |h| && PossibleRun(h, n, capacity, timeout)
    requires forall id :: id in Run(h, n, capacity, timeout).heap ==> Run(h, n, capacity, timeout).allocs - id <= 65536
    ensures var heap := Run(h, n, capacity, timeout).heap;
            forall i, j :: i in heap && j in heap && heap[i].public == heap[j].public ==> i == j
  {
    hide Run, Neat, PossibleAt;
    RunNeat(h, n, capacity, timeout);
    YoungAreUnique(Run(h, n, capacity, timeout));
  }

  // ---------------------------------------------------------------- who gets the replies

  /** No flow in the table is `age` allocations old or older; lost entries do not count. */
  predicate Younger(s: State, age: nat) {
    forall i :: 0 <= i < |s.slots| && s.slots[i].Some? ==> s.allocs - s.slots[i].value.id < age
  }

  /** A packet goes to the host of the first slot whose flow has the endpoint it is sent to, and is left alone exactly when there is none. */
  lemma DeliveredIff(s: State, to: Endpoint, at: nat, inside: Endpoint)
    requires Neat(s)
    ensures Reply(s, Ingress(to, at)) == Some(inside) <==>
            exists i :: 0 <= i < |s.slots| && HasEndpoint(s, i, to) && s.slots[i].value.key.src == inside
                        && forall j :: 0 <= j < i ==> !HasEndpoint(s, j, to)
    ensures Reply(s, Ingress(to, at)) == None <==> forall i :: 0 <= i < |s.slots| ==> !HasEndpoint(s, i, to)
  {
    forall i | 0 <= i < |s.slots| ensures HasEndpoint(s, i, to) <==> Serves(s, i, to) {
    }
  }

  predicate HasEndpoint(s: State, i: nat, to: Endpoint)
    requires i < |s.slots|
  {
    s.slots[i].Some? && Public(s.slots[i].value.id) == to
  }

  lemma YoungReplyReturns(s: State, k: NatKey, e: Event)
    requires Neat(s) && Holds(s, k) && Younger(s, 65536 + 1)
    requires e.Ingress? && e.to == Public(Serial(s, k))
    ensures Reply(s, e) == Some(k.src)
  {
    var i := Find(s.slots, k, 0);
    forall j: nat | Serves(s, j, e.to) ensures j == i {
      NearPorts(s.slots[j].value.id, s.slots[i].value.id);
    }
    assert Serves(s, i, e.to);
  }

  lemma OtherKeyOtherEntry(s: State, j: NatKey, k: NatKey)
    requires Neat(s) && Holds(s, j) && j != k && Younger(s, 65536)
    ensures PortOf(Serial(s, k)) != PortOf(Serial(s, j))
  {
    NearPorts(Serial(s, k), Serial(s, j));
  }

  /**
   Packet `i` of a flow was rewritten and the flow has been in the table since. Another packet of the flow is rewritten
   alike, on every run. While the flows in the table are fewer than 65536 allocations old, no packet of another flow is,
   and what is sent to the rewritten source is restored to the private endpoint.
   */
  lemma MappingLaws(h: seq<Event>, i: nat, n: nat, e: Event, capacity: nat, timeout: nat)
    requires i < n <= |h| && h[i].Egress? && PossibleRun(h, n, capacity, timeout)
    requires LiveThroughout(h, i + 1, n, h[i].key, capacity, timeout)
    ensures Neat(Run(h, i, capacity, timeout)) && Neat(Run(h, n, capacity, timeout))
    ensures var s, sent := Run(h, n, capacity, timeout), Reply(Run(h, i, capacity, timeout), h[i]);
            && (e.Egress? && e.key == h[i].key ==> Reply(s, e) == sent)
            && (Younger(s, 65536) ==>
                  && (e.Egress? && e.key != h[i].key ==> Reply(s, e) != sent)
                  && (e.Ingress? && Some(e.to) == sent ==> Reply(s, e) == Some(h[i].key.src)))
  {
    hide Run, Neat, Reply, Serial, Holds, PossibleAt;
    var k, s := h[i].key, Run(h, n, capacity, timeout);
    RunNeat(h, i, capacity, timeout);
    RunNeat(h, n, capacity, timeout);
    EntryStable(h, i, n, k, capacity, timeout);
    SourceIsSerial(Run(h, i, capacity, timeout), h[i]);
    if e.Egress? { SourceIsSerial(s, e); }
    if Younger(s, 65536) {
      if e.Egress? && e.key != k { OtherKeyOtherEntry(s, k, e.key); }
      if e.Ingress? && e.to == Public(Serial(s, k)) { YoungReplyReturns(s, k, e); }
    }
  }
}
