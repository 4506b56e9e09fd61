/**
 Which public port each packet of the scan NAT gets, and where replies to it go, on every run: additions may fail,
 ports may come round again, and the delays may exceed the budget of the idle clear.
 */
module SingleTablePorts {
  import opened NatTypes
  import opened Rte
  import opened SingleTableNat

  // ---------------------------------------------------------------- what the idle clear does not endanger

  /** Every entry is as it was made, and the table leads only to live entries of its keys. */
  predicate Sound(s: State) {
    && s.nextPort == PortOf(s.allocs)
    && (forall id :: id in s.heap ==>
          id < s.allocs && s.heap[id] == Entry(s.heap[id].key, s.heap[id].key.src, Public(id)))
    && NoDangling(s)
  }

  lemma SoundCreate(s: State, key: FlowKey, room: bool)
    requires Sound(s) && key !in s.table
    ensures Sound(Create(s, key, room))
  {
    var t, e := Create(s, key, room), Entry(key, key.src, Endpoint(PUBLIC_IP, s.nextPort));
    assert t.heap == s.heap[s.allocs := e] && s.allocs !in s.heap;
  }

  lemma SoundRefresh(s: State, id: nat, at: nat)
    requires Sound(s)
    ensures Sound(Refresh(s, id, at))
  {
  }

  lemma SoundManage(s: State, m: nat)
    requires Sound(s)
    ensures Sound(Manage(s, m))
  {
    var due, t := Due(s, m), Manage(s, m);
    forall k | k in t.table ensures t.table[k] in t.heap {
      assert s.heap[s.table[k]].key == k && k !in Keys(s.heap, due);
    }
  }

  lemma SoundCheck(s: State, c: nat)
    requires Sound(s)
    ensures Sound(Check(s, c))
  {
  }

  lemma SoundStamp(s: State, stamp: nat)
    requires Sound(s)
    ensures Sound(Stamp(s, stamp))
  {
  }

  lemma SoundStep(s: State, e: Event)
    requires Sound(s)
    ensures Sound(Step(s, e))
  {
    hide Sound, Stamp, Create, Refresh, Manage, Check;
    match e
    case Egress(key, stamp, at, room) =>
      var t := Stamp(s, stamp);
      SoundStamp(s, stamp);
      if key in t.table {
        SoundRefresh(t, t.table[key], at);
      } else {
        SoundCreate(t, key, room);
        SoundRefresh(Create(t, key, room), t.allocs, at);
      }
    case Ingress(to, stamp, at, order) =>
      var t := Stamp(s, stamp);
      SoundStamp(s, stamp);
      SoundClock(t, at);
      var o := FirstMatch(t, to, order);
      if o.Some? { SoundRefresh(t, t.table[o.value], at); }
    case Tick(m, c) =>
      SoundManage(s, m);
      SoundCheck(Manage(s, m), c);
  }

  lemma SoundClock(s: State, at: nat)
    requires Sound(s)
    ensures Sound(s.(clock := at))
  {
  }

  lemma {:induction false} RunSound(h: seq<Event>, n: nat, hz: nat, start: nat)
    requires n <= |h|
    ensures Sound(Run(h, n, hz, start))
  {
    hide Step;
    if n > 0 {
      hide Sound;
      RunSound(h, n - 1, hz, start);
      SoundStep(Run(h, n - 1, hz, start), h[n - 1]);
    }
  }

  // ---------------------------------------------------------------- the source of outgoing packets

  /** The allocation that a packet of `k` is rewritten to. */
  function Serial(s: State, k: FlowKey): nat {
    if k in s.table then s.table[k] else s.allocs
  }

  lemma SourceIsSerial(s: State, e: Event)
    requires Sound(s) && e.Egress?
    ensures Reply(s, e) == Some(Public(Serial(s, e.key)))
  {
  }

  /** An outgoing packet gets the address 10.0.0.1 and the port of its flow's allocation, or of the next one. */
  lemma SourceAddress(s: State, e: Event)
    requires Sound(s) && e.Egress?
    ensures Reply(s, e) == Some(Endpoint(0x0A000001, (10000 + if e.key in s.table then s.table[e.key] else s.allocs) % 65536))
  {
    SourceIsSerial(s, e);
    PublicIs(Serial(s, e.key));
  }

  /** The entry a packet uses: an outgoing one that of its key, an incoming one the first with its endpoint that the iteration meets. */
  ghost predicate Uses(s: State, e: Event, id: nat) {
    match e
    case Egress(key, _, _, _) => id == if key in s.table then s.table[key] else s.allocs
    case Ingress(to, _, _, order) =>
      exists i :: 0 <= i < |order| && Matches(s, order[i], to) && s.table[order[i]] == id && forall j :: 0 <= j < i ==> !Matches(s, order[j], to)
    case Tick(_, _) => false
  }

  lemma {:induction false} FirstMatchIsFirst(s: State, to: Endpoint, order: seq<FlowKey>) returns (i: nat)
    requires FirstMatch(s, to, order).Some?
    ensures i < |order| && order[i] == FirstMatch(s, to, order).value && forall j :: 0 <= j < i ==> !Matches(s, order[j], to)
  {
    if Matches(s, order[0], to) {
      i := 0;
    } else {
      i := FirstMatchIsFirst(s, to, order[1..]);
      i := i + 1;
    }
  }

  lemma RenewsFound(s: State, e: Event, x: nat)
    requires e.Ingress?
    ensures Uses(s, e, x) <==> FirstMatch(s, e.to, e.order).Some? && s.table[FirstMatch(s, e.to, e.order).value] == x
  {
    if FirstMatch(s, e.to, e.order).Some? { var i := FirstMatchIsFirst(s, e.to, e.order); }
  }

  /**
   A packet sets the deadline of the entry it uses to five seconds from now and leaves every other timer alone,
   whether or not the addition works and however the scan goes.
   */
  lemma RenewsOne(s: State, e: Event, x: nat)
    requires !e.Tick?
    ensures !Creates(s, e) ==>
              Step(s, e).(timers := s.timers, fault := s.fault, lastPkt := s.lastPkt, cleared := s.cleared, clock := s.clock) == s
    ensures var t := Step(s, e);
            && (x in t.timers <==> x in s.timers || Uses(s, e, x))
            && (x in t.timers ==> t.timers[x] == if Uses(s, e, x) then e.at + 5 * s.hz else s.timers[x])
  {
    hide Uses;
    if e.Ingress? {
      RenewsFound(s, e, x);
      StampScan(s, e.stamp, e.to, e.order);
    } else {
      assert Uses(s, e, x) <==> x == if e.key in s.table then s.table[e.key] else s.allocs by { UsesOut(s, e, x); }
    }
  }

  lemma UsesOut(s: State, e: Event, x: nat)
    requires e.Egress?
    ensures Uses(s, e, x) <==> x == if e.key in s.table then s.table[e.key] else s.allocs
  {
  }

  /** A timer run frees exactly the entries whose deadline has come, each once, and touches no other entry or deadline. */
  lemma ExpiryExact(s: State, m: nat, id: nat)
    requires HeapSafe(s)
    ensures var t := Manage(s, m);
            && (id in t.heap <==> id in s.heap && m < s.timers[id])
            && (id in t.heap ==> t.heap[id] == s.heap[id] && id in t.timers && t.timers[id] == s.timers[id])
            && t.freed[id] == s.freed[id] + if id in s.heap && s.timers[id] <= m then 1 else 0
  {
  }

  /** It deletes from the table the keys of the entries it frees, whichever entry they lead to, and no other key. */
  lemma ExpiryDeletes(s: State, m: nat, k: FlowKey)
    requires HeapSafe(s)
    ensures var t := Manage(s, m);
            && (k in t.table <==> k in s.table && forall x :: x in s.heap && s.timers[x] <= m ==> s.heap[x].key != k)
            && (k in t.table ==> t.table[k] == s.table[k])
  {
    assert k in Keys(s.heap, Due(s, m)) <==> exists x :: x in s.heap && s.timers[x] <= m && s.heap[x].key == k;
  }

  /** An opening adds one entry, and its key to the table if there is room. */
  lemma OpensOne(s: State, e: Event, id: nat, k: FlowKey)
    requires Sound(s) && Creates(s, e)
    ensures var t := Step(s, e);
            && t.allocs == s.allocs + 1 && t.freed == s.freed
            && (id in t.heap <==> id in s.heap || id == s.allocs)
            && (id in s.heap ==> t.heap[id] == s.heap[id])
            && t.heap[s.allocs] == Entry(e.key, e.key.src, Public(s.allocs))
            && (k in t.table <==> k in s.table || (k == e.key && e.room))
            && (k in t.table ==> t.table[k] == if k == e.key then s.allocs else s.table[k])
  {
  }

  /** An opened flow keeps its port for its next packet exactly when the addition worked. */
  lemma PortKeptIff(s: State, e: Event, next: Event)
    requires Sound(s) && Creates(s, e) && next.Egress? && next.key == e.key
    ensures Sound(Step(s, e))
    ensures Reply(Step(s, e), next) == Reply(s, e) <==> e.room
  {
    SoundStep(s, e);
    NearPorts(s.allocs, s.allocs + 1);
  }

  lemma SerialStays(s: State, e: Event, k: FlowKey)
    requires Sound(s) && k in Step(s, e).table
    requires k in s.table || (e.Egress? && e.key == k)
    ensures Step(s, e).table[k] == Serial(s, k)
  {
  }

  ghost predicate LiveThroughout(h: seq<Event>, i: nat, n: nat, k: FlowKey, hz: nat, start: nat)
    requires n <= |h|
  {
    forall j :: i <= j <= n ==> k in Run(h, j, hz, start).table
  }

  lemma {:induction false} EntryStable(h: seq<Event>, i: nat, n: nat, k: FlowKey, hz: nat, start: nat)
    requires i < n <= |h| && h[i].Egress? && h[i].key == k && LiveThroughout(h, i + 1, n, k, hz, start)
    ensures Serial(Run(h, n, hz, start), k) == Run(h, n, hz, start).table[k] == Serial(Run(h, i, hz, start), k)
  {
    hide Step, Sound;
    RunSound(h, n - 1, hz, start);
    if i + 1 < n { EntryStable(h, i, n - 1, k, hz, start); }
    assert k in Run(h, n, hz, start).table;
    SerialStays(Run(h, n - 1, hz, start), h[n - 1], k);
  }

  /** Any two packets that leave, anywhere in any run, get one source exactly when their allocations are a multiple of 65536 apart. */
  lemma {:induction false} SameSourceIff(h: seq<Event>, i: nat, n: nat, e: Event, e': Event, hz: nat, start: nat)
    requires i <= |h| && n <= |h| && e.Egress? && e'.Egress?
    ensures Sound(Run(h, i, hz, start)) && Sound(Run(h, n, hz, start))
    ensures var a, b := Serial(Run(h, i, hz, start), e.key), Serial(Run(h, n, hz, start), e'.key);
            Reply(Run(h, i, hz, start), e) == Reply(Run(h, n, hz, start), e') <==> (if a <= b then b - a else a - b) % 65536 == 0
  {
    hide Run, HeapSafe, Reply;
    RunSound(h, i, hz, start);
    RunSound(h, n, hz, start);
    SourceIsSerial(Run(h, i, hz, start), e);
    SourceIsSerial(Run(h, n, hz, start), e');
    var a, b := Serial(Run(h, i, hz, start), e.key), Serial(Run(h, n, hz, start), e'.key);
    SamePort(if a <= b then a else b, if a <= b then b else a);
  }

  lemma YoungAreUnique(s: State)
    requires Sound(s) && forall id :: id in s.heap ==> s.allocs - id <= 65536
    ensures forall i, j :: i in s.heap && j in s.heap && s.heap[i].public == s.heap[j].public ==> i == j
  {
    forall i, j | i in s.heap && j in s.heap && s.heap[i].public == s.heap[j].public ensures i == j {
      assert PortOf(i) == PortOf(j) && i < s.allocs && j < s.allocs;
      NearPorts(i, j);
    }
  }

  /** In every run live entries at most 65536 allocations old have different ports, whatever additions failed. */
  lemma UniqueByAge(h: seq<Event>, n: nat, hz: nat, start: nat)
    requires n <= |h| && forall id :: id in Run(h, n, hz, start).heap ==> Run(h, n, hz, start).allocs - id <= 65536
    ensures var heap := Run(h, n, hz, start).heap;
            forall i, j :: i in heap && j in heap && heap[i].public == heap[j].public ==> i == j
  {
    hide Run, Sound;
    RunSound(h, n, hz, start);
    YoungAreUnique(Run(h, n, hz, start));
  }

  // ---------------------------------------------------------------- who gets the replies

  /** Some iteration of a table starts with `k`. */
  lemma {:induction false} OrderFrom(m: map<FlowKey, nat>, k: FlowKey) returns (order: seq<FlowKey>)
    requires k in m
    ensures Enumerates(order, m) && order != [] && order[0] == k
    decreases m
  {
    var rest := m - {k};
    if rest == map[] {
      order := [k];
      assert m.Keys == rest.Keys + {k};
    } else {
      var j :| j in rest;
      var tail := OrderFrom(rest, j);
      order := [k] + tail;
    }
  }

  /** However the scan goes, it finds an entry with the endpoint if there is one. */
  lemma FindsSome(s: State, to: Endpoint, order: seq<FlowKey>, k: FlowKey)
    requires Matches(s, k, to) && Enumerates(order, s.table)
    ensures FirstMatch(s, to, order).Some?
  {
  }

  /**
   A reply to the endpoint of `k` reaches the host of `k` in every iteration order exactly when all keys of the table with
   that port belong to this host.
   */
  lemma ReplyReturnsIff(s: State, k: FlowKey, stamp: nat, at: nat)
    requires Sound(s) && k in s.table
    ensures (forall order :: Enumerates(order, s.table) ==>
               Reply(s, Ingress(Public(s.table[k]), stamp, at, order)) == Some(k.src))
            <==> forall j :: j in s.table && PortOf(s.table[j]) == PortOf(s.table[k]) ==> j.src == k.src
  {
    var to := Public(s.table[k]);
    assert forall j :: Matches(s, j, to) <==> j in s.table && PortOf(s.table[j]) == PortOf(s.table[k]);
    if forall j :: j in s.table && PortOf(s.table[j]) == PortOf(s.table[k]) ==> j.src == k.src {
      forall order | Enumerates(order, s.table) ensures Reply(s, Ingress(to, stamp, at, order)) == Some(k.src) {
        FindsSome(s, to, order, k);
      }
    } else {
      var j :| j in s.table && PortOf(s.table[j]) == PortOf(s.table[k]) && j.src != k.src;
      var order := OrderFrom(s.table, j);
      assert Reply(s, Ingress(to, stamp, at, order)) == Some(j.src);
    }
  }

  /** On every run a packet is left alone exactly when no flow in the table has the endpoint it is sent to, in whatever order the scan goes. */
  lemma LeftAloneIff(s: State, e: Event)
    requires Sound(s) && e.Ingress? && Enumerates(e.order, s.table)
    ensures Reply(s, e) == None <==> forall k :: k in s.table ==> Public(s.table[k]) != e.to
  {
    if k :| k in s.table && Public(s.table[k]) == e.to {
      assert Matches(s, k, e.to);
      FindsSome(s, e.to, e.order, k);
    }
  }

  lemma YoungReplyReturns(s: State, k: FlowKey, e: Event)
    requires Sound(s) && k in s.table && forall id :: id in s.heap ==> s.allocs - id <= 65536
    requires e.Ingress? && e.to == Public(s.table[k]) && Enumerates(e.order, s.table)
    ensures Reply(s, e) == Some(k.src)
  {
    forall j | j in s.table && PortOf(s.table[j]) == PortOf(s.table[k]) ensures j == k {
      NearPorts(s.table[j], s.table[k]);
    }
    FindsSome(s, e.to, e.order, k);
  }

  lemma OtherKeyOtherEntry(s: State, j: FlowKey, k: FlowKey)
    requires Sound(s) && j in s.table && j != k && forall id :: id in s.heap ==> s.allocs - id < 65536
    ensures PortOf(Serial(s, k)) != PortOf(s.table[j])
  {
    NearPorts(Serial(s, k), s.table[j]);
  }

  /**
   Packet `i` of a flow was rewritten and the flow has been in the table since. Another packet of the flow is rewritten
   alike, on every run. While live entries are fewer than 65536 allocations old, no packet of another flow is, and
   what is sent to the rewritten source is restored to the private endpoint, in whatever order the scan goes.
   */
  lemma {:induction false} MappingLaws(h: seq<Event>, i: nat, n: nat, e: Event, hz: nat, start: nat)
    requires i < n <= |h| && h[i].Egress? && LiveThroughout(h, i + 1, n, h[i].key, hz, start)
    ensures NoDangling(Run(h, i, hz, start)) && NoDangling(Run(h, n, hz, start))
    ensures var s, sent := Run(h, n, hz, start), Reply(Run(h, i, hz, start), h[i]);
            && (e.Egress? && e.key == h[i].key ==> Reply(s, e) == sent)
            && ((forall id :: id in s.heap ==> s.allocs - id < 65536) ==>
                  && (e.Egress? && e.key != h[i].key ==> Reply(s, e) != sent)
                  && (e.Ingress? && Some(e.to) == sent && Enumerates(e.order, s.table) ==> Reply(s, e) == Some(h[i].key.src)))
  {
    hide Run, Reply, Serial, Enumerates;
    var k, s := h[i].key, Run(h, n, hz, start);
    RunSound(h, i, hz, start);
    RunSound(h, n, hz, start);
    hide Sound, NoDangling;
    EntryStable(h, i, n, k, hz, start);
    SourceIsSerial(Run(h, i, hz, start), h[i]);
    if e.Egress? { SourceIsSerial(s, e); }
    if forall id :: id in s.heap ==> s.allocs - id < 65536 {
      if e.Egress? && e.key != k { OtherKeyOtherEntry(s, k, e.key); }
      if e.Ingress? && Some(e.to) == Reply(Run(h, i, hz, start), h[i]) && Enumerates(e.order, s.table) {
        YoungReplyReturns(s, k, e);
      }
    }
  }
}
