/**
 Which public port each packet of the two-table NAT gets, and where replies to it go, on every run: additions
 may fail and ports may come round again.
 */
module TwoTablePorts {
  import opened NatTypes
  import opened Rte
  import opened TwoTableNat

  // ---------------------------------------------------------------- the source of outgoing packets

  /** The allocation that a packet of `k` is rewritten to. */
  function Serial(s: State, k: FlowKey): nat {
    if k in s.fwd then s.fwd[k] else s.allocs
  }

  lemma SourceIsSerial(s: State, e: Event)
    requires Safe(s) && e.Egress?
    ensures Reply(s, e) == Some(Public(Serial(s, e.key)))
  {
  }

  /** An outgoing packet gets the address 10.0.0.1 and the port of its flow's allocation, or of the next one. */
  lemma SourceAddress(s: State, e: Event)
    requires Safe(s) && e.Egress?
    ensures Reply(s, e) == Some(Endpoint(0x0A000001, (10000 + if e.key in s.fwd then s.fwd[e.key] else s.allocs) % 65536))
  {
    SourceIsSerial(s, e);
    PublicIs(Serial(s, e.key));
  }

  /**
   A packet sets the deadline of the one entry it uses to five seconds from now and leaves every other timer alone,
   whether or not the additions work; an unmatched one changes nothing.
   */
  lemma RenewsOne(s: State, e: Event, x: nat)
    requires Safe(s) && !e.Manage?
    ensures e.Ingress? && e.to !in s.rev ==> Step(s, e) == s
    ensures !Creates(s, e) ==> Step(s, e).(timers := s.timers) == s
    ensures var used := if e.Egress? then Some(Serial(s, e.key)) else if e.to in s.rev then Some(s.rev[e.to]) else None;
            && (x in Step(s, e).timers <==> x in s.timers || used == Some(x))
            && (x in Step(s, e).timers ==> Step(s, e).timers[x] == if used == Some(x) then e.at + 5 * s.hz else s.timers[x])
  {
  }

  /** A timer run frees exactly the entries whose deadline has come, each once, and touches no other entry or deadline. */
  lemma ExpiryExact(s: State, at: nat, id: nat)
    requires Safe(s)
    ensures var t := Step(s, Manage(at));
            && (id in t.heap <==> id in s.heap && at < s.timers[id])
            && (id in t.heap ==> t.heap[id] == s.heap[id] && id in t.timers && t.timers[id] == s.timers[id])
            && t.freed[id] == s.freed[id] + if id in s.heap && s.timers[id] <= at then 1 else 0
  {
  }

  /** It deletes from each table the keys of the entries it frees, whichever entry they lead to, and no other key. */
  lemma ExpiryDeletes(s: State, at: nat, k: FlowKey, r: Endpoint)
    requires Safe(s)
    ensures var t := Step(s, Manage(at));
            && (k in t.fwd <==> k in s.fwd && forall x :: x in s.heap && s.timers[x] <= at ==> s.heap[x].fwd != k)
            && (k in t.fwd ==> t.fwd[k] == s.fwd[k])
            && (r in t.rev <==> r in s.rev && forall x :: x in s.heap && s.timers[x] <= at ==> s.heap[x].rev != r)
            && (r in t.rev ==> t.rev[r] == s.rev[r])
  {
    assert k in FwdKeys(s.heap, Due(s, at)) <==> exists x :: x in s.heap && s.timers[x] <= at && s.heap[x].fwd == k;
    assert r in RevKeys(s.heap, Due(s, at)) <==> exists x :: x in s.heap && s.timers[x] <= at && s.heap[x].rev == r;
  }

  /** An opening adds one entry, and to each table one key if there is room; the reverse one may overwrite another's. */
  lemma OpensOne(s: State, e: Event, id: nat, k: FlowKey, r: Endpoint)
    requires Safe(s) && Creates(s, e)
    ensures var t, made := Step(s, e), Public(s.allocs);
            && t.allocs == s.allocs + 1 && t.freed == s.freed
            && (id in t.heap <==> id in s.heap || id == s.allocs)
            && (id in s.heap ==> t.heap[id] == s.heap[id])
            && t.heap[s.allocs] == Entry(e.key, made, e.key.src, made)
            && (k in t.fwd <==> k in s.fwd || (k == e.key && e.fwdRoom))
            && (k in t.fwd ==> t.fwd[k] == if k == e.key then s.allocs else s.fwd[k])
            && (r in t.rev <==> r in s.rev || (r == made && e.revRoom))
            && (r in t.rev ==> t.rev[r] == if r == made then s.allocs else s.rev[r])
  {
  }

  /** An opened flow keeps its port for its next packet exactly when the forward addition worked; the reverse table has no part in it. */
  lemma PortKeptIff(s: State, e: Event, next: Event)
    requires Safe(s) && Creates(s, e) && next.Egress? && next.key == e.key
    ensures Safe(Step(s, e))
    ensures Reply(Step(s, e), next) == Reply(s, e) <==> e.fwdRoom
  {
    StepSafe(s, e);
    NearPorts(s.allocs, s.allocs + 1);
  }

  lemma SerialStays(s: State, e: Event, k: FlowKey)
    requires Safe(s) && k in Step(s, e).fwd
    requires k in s.fwd || (e.Egress? && e.key == k)
    ensures Step(s, e).fwd[k] == Serial(s, k)
  {
  }

  ghost predicate LiveThroughout(h: seq<Event>, i: nat, n: nat, k: FlowKey, hz: nat)
    requires n <= |h|
  {
    forall j :: i <= j <= n ==> k in Run(h, j, hz).fwd
  }

  lemma {:induction false} EntryStable(h: seq<Event>, i: nat, n: nat, k: FlowKey, hz: nat)
    requires i < n <= |h| && h[i].Egress? && h[i].key == k && LiveThroughout(h, i + 1, n, k, hz)
    ensures Serial(Run(h, n, hz), k) == Run(h, n, hz).fwd[k] == Serial(Run(h, i, hz), k)
  {
    hide Step, Safe;
    RunSafe(h, n - 1, hz);
    if i + 1 < n { EntryStable(h, i, n - 1, k, hz); }
    assert k in Run(h, n, hz).fwd;
    SerialStays(Run(h, n - 1, hz), h[n - 1], k);
  }

  /** Any two packets that leave, anywhere in any run, get one source exactly when their allocations are a multiple of 65536 apart. */
  lemma {:induction false} SameSourceIff(h: seq<Event>, i: nat, n: nat, e: Event, e': Event, hz: nat)
    requires i <= |h| && n <= |h| && e.Egress? && e'.Egress?
    ensures Safe(Run(h, i, hz)) && Safe(Run(h, n, hz))
    ensures var a, b := Serial(Run(h, i, hz), e.key), Serial(Run(h, n, hz), e'.key);
            Reply(Run(h, i, hz), e) == Reply(Run(h, n, hz), e') <==> (if a <= b then b - a else a - b) % 65536 == 0
  {
    hide Run, Safe, Reply;
    RunSafe(h, i, hz);
    RunSafe(h, n, hz);
    SourceIsSerial(Run(h, i, hz), e);
    SourceIsSerial(Run(h, n, hz), e');
    var a, b := Serial(Run(h, i, hz), e.key), Serial(Run(h, n, hz), e'.key);
    SamePort(if a <= b then a else b, if a <= b then b else a);
  }

  /** On every run a flow keeps its public endpoint for as long as it stays in the forward table. */
  lemma PortStable(h: seq<Event>, i: nat, n: nat, e: Event, hz: nat)
    requires i < n <= |h| && h[i].Egress? && e.Egress? && e.key == h[i].key
    requires LiveThroughout(h, i + 1, n, e.key, hz)
    ensures Safe(Run(h, i, hz)) && Safe(Run(h, n, hz))
    ensures Reply(Run(h, n, hz), e) == Reply(Run(h, i, hz), h[i])
  {
    hide Run, Safe, Reply, Serial;
    RunSafe(h, i, hz);
    RunSafe(h, n, hz);
    EntryStable(h, i, n, e.key, hz);
    SourceIsSerial(Run(h, i, hz), h[i]);
    SourceIsSerial(Run(h, n, hz), e);
  }

  // ---------------------------------------------------------------- who gets the replies

  /** The reverse table leads from the public endpoint of `id` to `id`. */
  predicate Owns(s: State, id: nat) {
    id in s.heap && s.heap[id].rev in s.rev && s.rev[s.heap[id].rev] == id
  }

  lemma OwnerGetsReply(s: State, id: nat, at: nat)
    requires Safe(s) && Owns(s, id)
    ensures Reply(s, Ingress(Public(id), at)) == Some(s.heap[id].private_)
  {
  }

  /** On every run a packet reaches a private endpoint exactly when the owner of its destination has it, and is left alone when there is no owner. */
  lemma DeliveredIff(s: State, to: Endpoint, at: nat, inside: Endpoint)
    requires Safe(s)
    ensures Reply(s, Ingress(to, at)) == Some(inside) <==> exists id :: Owns(s, id) && Public(id) == to && s.heap[id].fwd.src == inside
    ensures Reply(s, Ingress(to, at)) == None <==> forall id :: Owns(s, id) ==> Public(id) != to
  {
    if to in s.rev { assert Owns(s, s.rev[to]) && Public(s.rev[to]) == to; }
  }

  /** A new entry owns its endpoint unless the reverse addition failed; the entry it may have taken it from does not matter. */
  lemma OwnsFromStartIff(s: State, e: Event)
    requires Safe(s) && Creates(s, e)
    ensures Owns(Step(s, e), s.allocs) <==> e.revRoom || Endpoint(PUBLIC_IP, s.nextPort) in s.rev
  {
    CreateSafe(s, e.key, e.fwdRoom, e.revRoom, e.at);
  }

  /** What takes an endpoint from its owner: an opening at the same port, or an expiry of an entry with it. */
  predicate LeavesEndpoint(s: State, e: Event, id: nat)
    requires Safe(s) && id in s.heap
  {
    && (Creates(s, e) ==> Endpoint(PUBLIC_IP, s.nextPort) != s.heap[id].rev)
    && (e.Manage? ==> forall x :: x in Due(s, e.at) ==> s.heap[x].rev != s.heap[id].rev)
  }

  lemma OwnsOverExpiry(s: State, at: nat, id: nat)
    requires Safe(s) && Owns(s, id)
    ensures Owns(Step(s, Manage(at)), id) <==> LeavesEndpoint(s, Manage(at), id)
  {
    var due, r := Due(s, at), s.heap[id].rev;
    assert r in RevKeys(s.heap, due) <==> exists x :: x in due && s.heap[x].rev == r;
  }

  /** A step leaves an owner its endpoint exactly when it is none of these. */
  lemma OwnsStep(s: State, e: Event, id: nat)
    requires Safe(s) && Owns(s, id)
    ensures Owns(Step(s, e), id) <==> LeavesEndpoint(s, e, id)
  {
    match e
    case Egress(_, _, _, _) =>
    case Ingress(_, _) =>
    case Manage(at) => OwnsOverExpiry(s, at, id);
  }

  ghost predicate OwnsAt(h: seq<Event>, i: nat, id: nat, hz: nat)
    requires i <= |h|
  {
    Owns(Run(h, i, hz), id)
  }

  /** No live entry is more than one turn of the counter old. */
  predicate Young(s: State) {
    forall id :: id in s.heap ==> s.allocs - id <= 65536
  }

  /** Entries are either as old as the state at `i`, or were allocated after it. */
  lemma {:induction false} OldOrNew(h: seq<Event>, i: nat, n: nat, hz: nat)
    requires i <= n <= |h|
    ensures var s, t := Run(h, i, hz), Run(h, n, hz);
            s.allocs <= t.allocs && forall x :: x in t.heap ==> x in s.heap || s.allocs <= x < t.allocs
  {
    hide Step;
    if i < n {
      OldOrNew(h, i, n - 1, hz);
      HeapGrows(Run(h, n - 1, hz), h[n - 1]);
    }
  }

  lemma HeapGrows(s: State, e: Event)
    ensures s.allocs <= Step(s, e).allocs <= s.allocs + 1
    ensures forall x :: x in Step(s, e).heap ==> x in s.heap || s.allocs <= x < Step(s, e).allocs
    ensures forall x :: x in Step(s, e).heap && x in s.heap && x < s.allocs ==> Step(s, e).heap[x] == s.heap[x]
  {
  }

  /** Near allocations cannot take an endpoint from each other. */
  lemma NearLeavesEndpoint(s: State, e: Event, id: nat)
    requires Safe(s) && id in s.heap && id in Step(s, e).heap
    requires forall x :: x in s.heap ==> -65536 < x - id < 65536
    requires Step(s, e).allocs - id <= 65536
    ensures LeavesEndpoint(s, e, id)
  {
    if Creates(s, e) { NearPorts(s.allocs, id); }
    if e.Manage? {
      forall x | x in Due(s, e.at) ensures s.heap[x].rev != s.heap[id].rev {
        NearPorts(x, id);
      }
    }
  }

  lemma {:induction false} OwnsByAge(h: seq<Event>, i: nat, n: nat, id: nat, hz: nat)
    requires i <= n <= |h| && OwnsAt(h, i, id, hz) && Young(Run(h, i, hz))
    requires id in Run(h, n, hz).heap && Run(h, n, hz).allocs - id <= 65536
    ensures OwnsAt(h, n, id, hz) && Run(h, n, hz).heap[id] == Run(h, i, hz).heap[id]
  {
    hide Step, Safe, LeavesEndpoint, Owns;
    if i < n {
      var s := Run(h, n - 1, hz);
      RunSafe(h, i, hz);
      RunSafe(h, n - 1, hz);
      OldOrNew(h, i, n - 1, hz);
      HeapGrows(s, h[n - 1]);
      IsOlder(Run(h, i, hz), id);
      OwnsByAge(h, i, n - 1, id, hz);
      NearLeavesEndpoint(s, h[n - 1], id);
      OwnsStep(s, h[n - 1], id);
    }
  }

  lemma IsOlder(s: State, id: nat)
    requires Safe(s) && Owns(s, id)
    ensures id in s.heap && forall x :: x in s.heap ==> x < s.allocs
  {
  }

  /**
   Whatever additions fail: an entry that owns its endpoint while no live entry is older than a turn of the counter
   gets the replies to it for as long as it lives and is no older than a turn itself.
   */
  lemma RepliesReturn(h: seq<Event>, i: nat, n: nat, id: nat, at: nat, hz: nat)
    requires i <= n <= |h| && OwnsAt(h, i, id, hz) && Young(Run(h, i, hz))
    requires id in Run(h, n, hz).heap && Run(h, n, hz).allocs - id <= 65536
    ensures Safe(Run(h, n, hz)) && id in Run(h, i, hz).heap
    ensures Reply(Run(h, n, hz), Ingress(Public(id), at)) == Some(Run(h, i, hz).heap[id].private_)
  {
    hide Run, Safe, Reply, Young;
    RunSafe(h, n, hz);
    OwnsByAge(h, i, n, id, hz);
    OwnerGetsReply(Run(h, n, hz), id, at);
  }

  lemma LinkedOwns(s: State, k: FlowKey)
    requires Safe(s) && Linked(s) && k in s.fwd
    ensures Owns(s, s.fwd[k]) && s.heap[s.fwd[k]].private_ == k.src
  {
  }

  lemma OtherKeyOtherEntry(s: State, j: FlowKey, k: FlowKey)
    requires Safe(s) && j in s.fwd && j != k && forall id :: id in s.heap ==> s.allocs - id < 65536
    ensures PortOf(Serial(s, k)) != PortOf(s.fwd[j])
  {
    NearPorts(Serial(s, k), s.fwd[j]);
  }

  /**
   A packet of `k` was rewritten at event `i`, and `k` has been in the forward table ever since. Another packet of `k` is
   rewritten alike, on every run. A packet of another key is not, while all live entries are fewer than 65536 allocations
   old. A reply to the rewritten source is delivered to the private endpoint if every step of the run was admitted;
   `RepliesReturn` says when it is on other runs.
   */
  lemma RoundTrip(h: seq<Event>, i: nat, n: nat, e: Event, at: nat, hz: nat)
    requires i < n <= |h| && h[i].Egress? && e.Egress?
    requires LiveThroughout(h, i + 1, n, h[i].key, hz)
    ensures Safe(Run(h, i, hz)) && Safe(Run(h, n, hz))
    ensures var s, sent := Run(h, n, hz), Reply(Run(h, i, hz), h[i]);
            && (e.key == h[i].key ==> Reply(s, e) == sent)
            && (e.key != h[i].key && (forall id :: id in s.heap ==> s.allocs - id < 65536) ==> Reply(s, e) != sent)
            && (AdmittedRun(h, n, hz) ==> Reply(s, Ingress(sent.value, at)) == Some(h[i].key.src))
  {
    hide Run, Safe, Reply, Serial, Linked, AdmittedRun, LinkedAt;
    var k, s := h[i].key, Run(h, n, hz);
    RunSafe(h, i, hz);
    RunSafe(h, n, hz);
    EntryStable(h, i, n, k, hz);
    SourceIsSerial(Run(h, i, hz), h[i]);
    SourceIsSerial(s, e);
    if e.key != k && forall id :: id in s.heap ==> s.allocs - id < 65536 { OtherKeyOtherEntry(s, k, e.key); }
    if AdmittedRun(h, n, hz) {
      LinkedPrefix(h, n, n, hz);
      LinkedHere(h, n, hz);
      LinkedOwns(s, k);
      OwnerGetsReply(s, s.fwd[k], at);
    }
  }

  lemma LinkedHere(h: seq<Event>, n: nat, hz: nat)
    requires n <= |h| && LinkedAt(h, n, hz)
    ensures Linked(Run(h, n, hz))
  {
  }

  // ---------------------------------------------------------------- the two tables as inverses

  /** The tables pair the same keys and endpoints, whether or not they reach every live entry. */
  predicate Inverse(s: State)
    requires NoDangling(s)
  {
    && (forall k :: k in s.fwd ==> var r := s.heap[s.fwd[k]].rev; r in s.rev && s.rev[r] == s.fwd[k])
    && (forall r :: r in s.rev ==> var k := s.heap[s.rev[r]].fwd; k in s.fwd && s.fwd[k] == s.rev[r])
  }

  /** Both additions work or both fail, the port is not in use, and an expiry deletes the two sides of a pair together. */
  predicate KeepsPairs(s: State, e: Event)
    requires NoDangling(s)
  {
    && (Creates(s, e) ==> Endpoint(PUBLIC_IP, s.nextPort) !in s.rev && e.fwdRoom == e.revRoom)
    && (e.Manage? ==>
          forall k :: k in s.fwd ==>
            (k in FwdKeys(s.heap, Due(s, e.at)) <==> s.heap[s.fwd[k]].rev in RevKeys(s.heap, Due(s, e.at))))
  }

  lemma OpeningFields(s: State, e: Event)
    requires Safe(s) && Creates(s, e)
    ensures var t, r := Step(s, e), Endpoint(PUBLIC_IP, s.nextPort);
            && t.heap == s.heap[s.allocs := Entry(e.key, r, e.key.src, r)] && s.allocs !in s.heap
            && t.fwd == HashAdd(s.fwd, e.key, s.allocs, e.fwdRoom) && t.rev == HashAdd(s.rev, r, s.allocs, e.revRoom)
            && NoDangling(s) && NoDangling(t)
  {
    StepSafe(s, e);
  }

  /** Opening a flow on a port in use takes the endpoint away from the pair that had it. */
  lemma StealsPair(s: State, e: Event)
    requires Safe(s) && Inverse(s) && Creates(s, e) && Endpoint(PUBLIC_IP, s.nextPort) in s.rev
    ensures NoDangling(Step(s, e)) && !Inverse(Step(s, e))
  {
    OpeningFields(s, e);
    var t, r := Step(s, e), Endpoint(PUBLIC_IP, s.nextPort);
    var k := s.heap[s.rev[r]].fwd;
    assert k in t.fwd && t.fwd[k] == s.rev[r] && t.heap[t.fwd[k]].rev == r;
    hide Step, HeapSafe;
  }

  lemma OpensPair(s: State, e: Event)
    requires Safe(s) && Inverse(s) && Creates(s, e) && Endpoint(PUBLIC_IP, s.nextPort) !in s.rev
    ensures NoDangling(Step(s, e))
    ensures Inverse(Step(s, e)) <==> e.fwdRoom == e.revRoom
  {
    hide HeapSafe, Step;
    OpeningFields(s, e);
    var t, r := Step(s, e), Endpoint(PUBLIC_IP, s.nextPort);
    forall k | k in s.fwd ensures k in t.fwd && t.fwd[k] == s.fwd[k] && t.heap[s.fwd[k]] == s.heap[s.fwd[k]] {
    }
    forall q | q in s.rev ensures q in t.rev && t.rev[q] == s.rev[q] && t.heap[s.rev[q]] == s.heap[s.rev[q]] {
    }
    assert e.key in t.fwd <==> e.fwdRoom;
    assert r in t.rev <==> e.revRoom;
  }

  lemma InverseExpiry(s: State, at: nat)
    requires Safe(s) && Inverse(s)
    ensures NoDangling(Step(s, Manage(at)))
    ensures Inverse(Step(s, Manage(at))) <==> KeepsPairs(s, Manage(at))
  {
    hide HeapSafe, FwdKeys, RevKeys, Due;
    StepSafe(s, Manage(at));
    var t, fk, rk := Step(s, Manage(at)), FwdKeys(s.heap, Due(s, at)), RevKeys(s.heap, Due(s, at));
    assert t.fwd == s.fwd - fk && t.rev == s.rev - rk && t.heap == s.heap - Due(s, at);
    if Inverse(t) {
      forall q | q in t.rev ensures s.heap[s.rev[q]].fwd !in fk {
        assert t.rev[q] == s.rev[q] && t.heap[t.rev[q]] == s.heap[s.rev[q]];
      }
      forall k | k in t.fwd ensures s.heap[s.fwd[k]].rev !in rk {
        assert t.fwd[k] == s.fwd[k] && t.heap[t.fwd[k]] == s.heap[s.fwd[k]];
      }
      forall k | k in s.fwd ensures k in fk <==> s.heap[s.fwd[k]].rev in rk {
        var r := s.heap[s.fwd[k]].rev;
        assert s.heap[s.rev[r]].fwd == k;
        assert r in rk || r in t.rev;
      }
    }
  }

  /** From inverse tables a step leads to inverse tables exactly when it keeps the pairs. */
  lemma InverseStep(s: State, e: Event)
    requires Safe(s) && Inverse(s)
    ensures Safe(Step(s, e))
    ensures Inverse(Step(s, e)) <==> KeepsPairs(s, e)
  {
    hide HeapSafe, FwdKeys, RevKeys, Due, NoDangling;
    StepSafe(s, e);
    if Creates(s, e) {
      if Endpoint(PUBLIC_IP, s.nextPort) in s.rev { StealsPair(s, e); } else { OpensPair(s, e); }
    } else if e.Manage? {
      InverseExpiry(s, e.at);
    }
  }

  ghost predicate InverseAt(h: seq<Event>, i: nat, hz: nat)
    requires i <= |h|
  {
    Safe(Run(h, i, hz)) && Inverse(Run(h, i, hz))
  }

  ghost predicate KeepsPairsAt(h: seq<Event>, i: nat, hz: nat)
    requires i < |h|
  {
    Safe(Run(h, i, hz)) && KeepsPairs(Run(h, i, hz), h[i])
  }

  lemma InverseNext(h: seq<Event>, n: nat, hz: nat)
    requires 0 < n <= |h| && InverseAt(h, n - 1, hz)
    ensures InverseAt(h, n, hz) <==> KeepsPairsAt(h, n - 1, hz)
  {
    hide Inverse, KeepsPairs, Step, Safe;
    InverseStep(Run(h, n - 1, hz), h[n - 1]);
  }

  lemma InverseStart(h: seq<Event>, hz: nat)
    ensures InverseAt(h, 0, hz)
  {
  }

  /** The tables are inverse to each other throughout a run exactly when every step of it keeps the pairs. */
  lemma {:induction false} InverseRun(h: seq<Event>, n: nat, hz: nat)
    requires n <= |h|
    ensures (forall i :: 0 <= i <= n ==> InverseAt(h, i, hz)) <==> forall i :: 0 <= i < n ==> KeepsPairsAt(h, i, hz)
  {
    hide InverseAt, KeepsPairsAt;
    if n == 0 {
      InverseStart(h, hz);
    } else {
      InverseRun(h, n - 1, hz);
      if InverseAt(h, n - 1, hz) { InverseNext(h, n, hz); }
    }
  }

  /** Inverse tables need not reach every live entry: an entry that neither addition took is in none. */
  lemma InverseNotLinked(key: FlowKey, hz: nat)
    ensures var h := [Egress(key, 0, false, false)];
            InverseAt(h, 1, hz) && !LinkedAt(h, 1, hz)
  {
    var h := [Egress(key, 0, false, false)];
    InverseStart(h, hz);
    InverseNext(h, 1, hz);
    LinkedRun(h, 1, hz);
    assert LinkedAt(h, 0, hz) && !AdmittedAt(h, 0, hz);
  }
}
