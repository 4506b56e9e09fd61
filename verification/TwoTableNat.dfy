/** NAT/NAT_twoTables/main.c: a forward and a reverse hash over shared entries with one timer each. */
module TwoTableNat {
  import opened NatTypes
  import opened Rte
  import opened FlowMaps
  import F = FlowSpec

  /** `struct nat_entry` without its timer, which `State.timers` holds. */
  datatype Entry = Entry(fwd: FlowKey, rev: Endpoint, private_: Endpoint, public: Endpoint)

  /**
   The globals, the heap and the timer set. A pointer to an entry is the serial number of its
   allocation, so a pointer can outlive the entry: `heap` holds the entries allocated and not freed,
   `freed` counts the frees of each, and `fault` records a use of a freed entry.
   */
  datatype State = State(
    fwd: map<FlowKey, nat>, rev: map<Endpoint, nat>, nextPort: Port, hz: nat,
    heap: map<nat, Entry>, timers: map<nat, nat>, allocs: nat,
    freed: multiset<nat>, fault: bool)

  datatype Event =
    | Egress(key: FlowKey, at: nat, fwdRoom: bool, revRoom: bool)
    | Ingress(to: Endpoint, at: nat)
    | Manage(at: nat)

  function Init(hz: nat): State {
    State(map[], map[], 10000, hz, map[], map[], 0, multiset{}, false)
  }

  function Refresh(s: State, id: nat, at: nat): State {
    s.(timers := s.timers[id := at + 5 * s.hz], fault := s.fault || id !in s.heap)
  }

  function Create(s: State, key: FlowKey, fwdRoom: bool, revRoom: bool): State {
    var public := Endpoint(PUBLIC_IP, s.nextPort);
    s.(heap := s.heap[s.allocs := Entry(key, public, key.src, public)],
       nextPort := NextPort(s.nextPort),
       allocs := s.allocs + 1,
       fwd := HashAdd(s.fwd, key, s.allocs, fwdRoom),
       rev := HashAdd(s.rev, public, s.allocs, revRoom))
  }

  function FwdKeys(heap: map<nat, Entry>, ids: set<nat>): set<FlowKey> {
    set id | id in ids && id in heap :: heap[id].fwd
  }

  function RevKeys(heap: map<nat, Entry>, ids: set<nat>): set<Endpoint> {
    set id | id in ids && id in heap :: heap[id].rev
  }

  /** The effect of the expiry callbacks of `ids`, in whatever order the timer library runs them. */
  function Fire(s: State, ids: set<nat>): State {
    s.(fwd := s.fwd - FwdKeys(s.heap, ids),
       rev := s.rev - RevKeys(s.heap, ids),
       heap := s.heap - ids,
       timers := s.timers - ids,
       freed := s.freed + multiset(ids),
       fault := s.fault || !(ids <= s.heap.Keys))
  }

  function Due(s: State, at: nat): set<nat> {
    set id | id in s.timers && s.timers[id] <= at
  }

  function Step(s: State, e: Event): State {
    match e
    case Egress(key, at, fwdRoom, revRoom) =>
      if key in s.fwd then Refresh(s, s.fwd[key], at)
      else Refresh(Create(s, key, fwdRoom, revRoom), s.allocs, at)
    case Ingress(to, at) => if to in s.rev then Refresh(s, s.rev[to], at) else s
    case Manage(at) => Fire(s, Due(s, at))
  }

  /** The endpoint written into the packet: the source on egress, the destination on ingress. */
  function Reply(s: State, e: Event): Option<Endpoint>
    requires Safe(s)
  {
    match e
    case Egress(key, _, _, _) =>
      Some(if key in s.fwd then s.heap[s.fwd[key]].public else Endpoint(PUBLIC_IP, s.nextPort))
    case Ingress(to, _) => if to in s.rev then Some(s.heap[s.rev[to]].private_) else None
    case Manage(_) => None
  }

  function Run(h: seq<Event>, n: nat, hz: nat): State
    requires n <= |h|
  {
    if n == 0 then Init(hz) else Step(Run(h, n - 1, hz), h[n - 1])
  }

  // ---------------------------------------------------------------- what holds over every run

  /** The armed timers are the live entries; nothing is freed twice, used after its free, or lost. */
  predicate HeapSafe(s: State) {
    && !s.fault
    && s.timers.Keys == s.heap.Keys
    && s.nextPort == PortOf(s.allocs)
    && (forall id :: id in s.heap ==>
          id < s.allocs && s.heap[id] == Entry(s.heap[id].fwd, Public(id), s.heap[id].fwd.src, Public(id)))
    && (forall id :: 0 <= id < s.allocs ==> s.freed[id] == if id in s.heap then 0 else 1)
    && (forall id :: id in s.freed ==> id < s.allocs)
  }

  /** Neither table leads to a freed entry or to an entry of another key. */
  predicate NoDangling(s: State) {
    && (forall k :: k in s.fwd ==> s.fwd[k] in s.heap && s.heap[s.fwd[k]].fwd == k)
    && (forall r :: r in s.rev ==> s.rev[r] in s.heap && s.heap[s.rev[r]].rev == r)
  }

  predicate Safe(s: State) {
    HeapSafe(s) && NoDangling(s)
  }

  lemma FireSafe(s: State, ids: set<nat>)
    requires Safe(s) && ids <= s.heap.Keys
    ensures Safe(Fire(s, ids))
  {
  }

  lemma CreateSafe(s: State, key: FlowKey, fwdRoom: bool, revRoom: bool, at: nat)
    requires Safe(s) && key !in s.fwd
    ensures Safe(Refresh(Create(s, key, fwdRoom, revRoom), s.allocs, at))
  {
    CreateHeapSafe(s, key, fwdRoom, revRoom, at);
    CreateNoDangling(s, key, fwdRoom, revRoom, at);
  }

  lemma CreateHeapSafe(s: State, key: FlowKey, fwdRoom: bool, revRoom: bool, at: nat)
    requires HeapSafe(s)
    ensures HeapSafe(Refresh(Create(s, key, fwdRoom, revRoom), s.allocs, at))
    ensures s.allocs !in s.heap
  {
  }

  lemma CreateNoDangling(s: State, key: FlowKey, fwdRoom: bool, revRoom: bool, at: nat)
    requires NoDangling(s) && key !in s.fwd && s.allocs !in s.heap
    ensures NoDangling(Refresh(Create(s, key, fwdRoom, revRoom), s.allocs, at))
  {
  }

  lemma StepSafe(s: State, e: Event)
    requires Safe(s)
    ensures Safe(Step(s, e)) && Step(s, e).hz == s.hz
  {
    match e
    case Egress(key, at, fwdRoom, revRoom) =>
      if key !in s.fwd { CreateSafe(s, key, fwdRoom, revRoom, at); }
    case Ingress(_, _) =>
    case Manage(at) => FireSafe(s, Due(s, at));
  }

  /** Over every run, with adds failing at will and the port counter wrapping, the state stays safe. */
  lemma {:induction false} RunSafe(h: seq<Event>, n: nat, hz: nat)
    requires n <= |h|
    ensures Safe(Run(h, n, hz)) && Run(h, n, hz).hz == hz
  {
    hide Step;
    if n > 0 {
      hide Safe;
      RunSafe(h, n - 1, hz);
      StepSafe(Run(h, n - 1, hz), h[n - 1]);
    }
  }

  lemma KeysOfUnion(heap: map<nat, Entry>, a: set<nat>, b: set<nat>)
    requires a !! b
    ensures FwdKeys(heap, a + b) == FwdKeys(heap, a) + FwdKeys(heap - a, b)
    ensures RevKeys(heap, a + b) == RevKeys(heap, a) + RevKeys(heap - a, b)
  {
    forall id | id in b && id in heap
      ensures heap[id].fwd in FwdKeys(heap - a, b) && heap[id].rev in RevKeys(heap - a, b)
    {
      assert id in heap - a && (heap - a)[id] == heap[id];
    }
  }

  /** Callbacks of different entries commute, so the order in which due timers fire does not matter. */
  lemma FireCompose(s: State, a: set<nat>, b: set<nat>)
    requires a !! b && a <= s.heap.Keys && b <= s.heap.Keys
    ensures Fire(Fire(s, a), b) == Fire(s, a + b)
  {
    KeysOfUnion(s.heap, a, b);
    RemoveTwice(s.fwd, FwdKeys(s.heap, a), FwdKeys(s.heap - a, b));
    RemoveTwice(s.rev, RevKeys(s.heap, a), RevKeys(s.heap - a, b));
    RemoveTwice(s.heap, a, b);
    RemoveTwice(s.timers, a, b);
    assert multiset(a + b) == multiset(a) + multiset(b);
  }

  lemma FireNothing(s: State)
    ensures Fire(s, {}) == s
  {

  }

  // ---------------------------------------------------------------- the two tables as one index

  /** Every live entry can be reached from both sides. */
  predicate Linked(s: State) {
    forall id :: id in s.heap ==>
      && s.heap[id].fwd in s.fwd && s.fwd[s.heap[id].fwd] == id
      && s.heap[id].rev in s.rev && s.rev[s.heap[id].rev] == id
  }

  predicate Creates(s: State, e: Event) {
    e.Egress? && e.key !in s.fwd
  }

  /** What the code leaves unchecked when it opens a flow: both adds succeed and the port is not in use. */
  predicate Admitted(s: State, e: Event) {
    Creates(s, e) ==> e.fwdRoom && e.revRoom && Endpoint(PUBLIC_IP, s.nextPort) !in s.rev
  }

  /** In a linked state the tables are inverse to each other through the shared entries and of one size. */
  lemma LinkedBijection(s: State)
    requires Safe(s) && Linked(s)
    ensures |s.fwd| == |s.rev| == |s.heap| == |s.timers|
    ensures forall k :: k in s.fwd ==> var r := s.heap[s.fwd[k]].rev; r in s.rev && s.rev[r] == s.fwd[k]
    ensures forall r :: r in s.rev ==> var k := s.heap[s.rev[r]].fwd; k in s.fwd && s.fwd[k] == s.rev[r]
  {
    InjectiveSize(s.fwd);
    InjectiveSize(s.rev);
    assert s.fwd.Values == s.heap.Keys;
    assert s.rev.Values == s.heap.Keys;
    assert |s.timers| == |s.timers.Keys| && |s.heap| == |s.heap.Keys|;
  }

  lemma LinkedCreate(s: State, e: Event)
    requires Safe(s) && Linked(s) && Creates(s, e)
    ensures Linked(Step(s, e)) <==> Admitted(s, e)
  {
    var t := Step(s, e);
    var public := Endpoint(PUBLIC_IP, s.nextPort);
    assert t.heap == s.heap[s.allocs := Entry(e.key, public, e.key.src, public)];
    assert t.heap[s.allocs].fwd == e.key && t.heap[s.allocs].rev == public;
    if public in s.rev {
      var older := s.rev[public];
      assert older in t.heap && t.heap[older].rev == public && older != s.allocs;
    } else {
      forall id | id in s.heap ensures s.heap[id].fwd != e.key && s.heap[id].rev != public {
      }
    }
  }

  lemma LinkedFire(s: State, ids: set<nat>)
    requires Safe(s) && Linked(s)
    ensures Linked(Fire(s, ids))
  {
  }

  /** From a linked state a step leads to a linked state exactly when it is admitted. */
  lemma LinkedStep(s: State, e: Event)
    requires Safe(s) && Linked(s)
    ensures Linked(Step(s, e)) <==> Admitted(s, e)
  {
    if Creates(s, e) {
      LinkedCreate(s, e);
    } else if e.Manage? {
      LinkedFire(s, Due(s, e.at));
    }
  }

  /** The port the next flow gets is free exactly when no live entry is a multiple of 65536 allocations old. */
  lemma PortFreeByAge(s: State)
    requires Safe(s) && Linked(s)
    ensures Endpoint(PUBLIC_IP, s.nextPort) !in s.rev <==> forall id :: id in s.heap ==> (s.allocs - id) % 65536 != 0
  {
    var next := Endpoint(PUBLIC_IP, s.nextPort);
    forall id | id in s.heap
      ensures s.heap[id].rev == next <==> (s.allocs - id) % 65536 == 0
      ensures s.heap[id].rev in s.rev && s.rev[s.heap[id].rev] == id
    {
      SamePort(id, s.allocs);
    }
    if next in s.rev { assert s.rev[next] in s.heap; }
  }

  lemma YoungAreUnique(s: State)
    requires Safe(s) && forall id :: id in s.heap ==> s.allocs - id <= 65536
    ensures forall i, j :: i in s.heap && j in s.heap && s.heap[i].public == s.heap[j].public ==> i == j
  {
    forall i, j | i in s.heap && j in s.heap && s.heap[i].public == s.heap[j].public ensures i == j {
      assert PortOf(i) == PortOf(j) && i < s.allocs && j < s.allocs;
      NearPorts(i, j);
    }
  }

  /**
   In every run, whatever adds failed, live entries at most 65536 allocations old have different ports,
   wherever in its cycle the counter stands.
   */
  lemma UniqueByAge(h: seq<Event>, n: nat, hz: nat)
    requires n <= |h| && forall id :: id in Run(h, n, hz).heap ==> Run(h, n, hz).allocs - id <= 65536
    ensures var heap := Run(h, n, hz).heap;
            forall i, j :: i in heap && j in heap && heap[i].public == heap[j].public ==> i == j
  {
    hide Run, Safe;
    RunSafe(h, n, hz);
    YoungAreUnique(Run(h, n, hz));
  }

  ghost predicate LinkedAt(h: seq<Event>, i: nat, hz: nat)
    requires i <= |h|
  {
    Linked(Run(h, i, hz))
  }

  ghost predicate AdmittedAt(h: seq<Event>, i: nat, hz: nat)
    requires i < |h|
  {
    Admitted(Run(h, i, hz), h[i])
  }

  ghost predicate AdmittedRun(h: seq<Event>, n: nat, hz: nat)
    requires n <= |h|
  {
    forall i :: 0 <= i < n ==> AdmittedAt(h, i, hz)
  }

  lemma LinkedNext(h: seq<Event>, n: nat, hz: nat)
    requires 0 < n <= |h| && LinkedAt(h, n - 1, hz)
    ensures LinkedAt(h, n, hz) <==> AdmittedAt(h, n - 1, hz)
  {
    RunSafe(h, n - 1, hz);
    LinkedStep(Run(h, n - 1, hz), h[n - 1]);
  }

  /** Both tables reach every live entry throughout a run exactly when every step of it was admitted. */
  lemma {:induction false} LinkedRun(h: seq<Event>, n: nat, hz: nat)
    requires n <= |h|
    ensures (forall i :: 0 <= i <= n ==> LinkedAt(h, i, hz)) <==> AdmittedRun(h, n, hz)
  {
    if n == 0 {
      assert LinkedAt(h, 0, hz);
    } else {
      hide LinkedAt, AdmittedAt;
      LinkedRun(h, n - 1, hz);
      if LinkedAt(h, n - 1, hz) { LinkedNext(h, n, hz); }
    }
  }

  // ---------------------------------------------------------------- refinement of the flow map

  ghost predicate ShowsFlows(s: State, t: F.Table<FlowKey>) {
    Shows(s.fwd, s.timers, s.allocs, t)
  }

  function Abs(e: Event): F.Event<FlowKey> {
    match e
    case Egress(key, at, _, _) => F.Egress(key, key.src, at)
    case Ingress(to, at) => F.Ingress(to, at)
    case Manage(at) => F.Expire(at)
  }

  function AbsAll(h: seq<Event>): (a: seq<F.Event<FlowKey>>)
    ensures |a| == |h| && forall i :: 0 <= i < |h| ==> a[i] == Abs(h[i])
  {
    seq(|h|, i requires 0 <= i < |h| => Abs(h[i]))
  }

  lemma LinkedUnique(s: State, t: F.Table<FlowKey>)
    requires Safe(s) && Linked(s) && ShowsFlows(s, t)
    ensures F.UniquePorts(t)
  {
    forall j, k | j in s.fwd && k in s.fwd && PortOf(s.fwd[j]) == PortOf(s.fwd[k])
      ensures j == k
    {
      assert s.heap[s.fwd[j]].rev == s.heap[s.fwd[k]].rev;
    }
  }

  /** The reverse table is the index of the flow map by public endpoint. */
  lemma RevIsOwner(s: State, t: F.Table<FlowKey>, to: Endpoint)
    requires Safe(s) && Linked(s) && ShowsFlows(s, t)
    ensures F.Owner(t, to) == if to in s.rev then Some(s.heap[s.rev[to]].fwd) else None
  {
    LinkedUnique(s, t);
    var o := F.Owner(t, to);
    if to in s.rev { assert F.Owns(t, s.heap[s.rev[to]].fwd, to); }
    if o.Some? { assert s.heap[s.fwd[o.value]].rev == to; }
  }

  lemma CreateFields(s: State, key: FlowKey, at: nat)
    requires key !in s.fwd
    ensures var u := Refresh(Create(s, key, true, true), s.allocs, at);
            && u.fwd == s.fwd[key := s.allocs]
            && u.timers == s.timers[s.allocs := at + 5 * s.hz]
            && u.allocs == s.allocs + 1
  {
  }

  lemma RefinesOpen(s: State, t: F.Table<FlowKey>, key: FlowKey, at: nat)
    requires Safe(s) && ShowsFlows(s, t) && key !in s.fwd
    ensures ShowsFlows(Refresh(Create(s, key, true, true), s.allocs, at),
                       F.Table(t.flows[key := F.Flow(key.src, s.allocs, at + 5 * s.hz)], s.allocs + 1))
  {
    assert forall k :: k in s.fwd ==> s.fwd[k] < s.allocs;
    hide Refresh, Create, Safe;
    CreateFields(s, key, at);
    ShowsOpen(s.fwd, s.timers, s.allocs, t, key, at + 5 * s.hz);
  }

  lemma RefinesTouch(s: State, t: F.Table<FlowKey>, key: FlowKey, at: nat)
    requires Safe(s) && ShowsFlows(s, t) && key in s.fwd
    ensures ShowsFlows(Refresh(s, s.fwd[key], at), F.Touched(t, key, at + 5 * s.hz))
  {
    ShowsTouch(s.fwd, s.timers, s.allocs, t, key, at + 5 * s.hz);
  }

  lemma RefinesEgress(s: State, t: F.Table<FlowKey>, key: FlowKey, at: nat)
    requires Safe(s) && ShowsFlows(s, t)
    ensures ShowsFlows(Step(s, Egress(key, at, true, true)), F.Step(t, F.Egress(key, key.src, at), 5 * s.hz))
  {
    hide Refresh, Create, F.Touched;
    if key in s.fwd {
      RefinesTouch(s, t, key, at);
    } else {
      RefinesOpen(s, t, key, at);
    }
  }

  lemma RefinesIngress(s: State, t: F.Table<FlowKey>, to: Endpoint, at: nat)
    requires Safe(s) && Linked(s) && ShowsFlows(s, t)
    ensures ShowsFlows(Step(s, Ingress(to, at)), F.Step(t, F.Ingress(to, at), 5 * s.hz))
  {
    hide Refresh, F.Touched;
    RevIsOwner(s, t, to);
    if to in s.rev { RefinesTouch(s, t, s.heap[s.rev[to]].fwd, at); }
  }

  lemma RefinesManage(s: State, t: F.Table<FlowKey>, at: nat)
    requires Safe(s) && Linked(s) && ShowsFlows(s, t)
    ensures ShowsFlows(Step(s, Manage(at)), F.Step(t, F.Expire(at), 5 * s.hz))
  {
    var gone := FwdKeys(s.heap, Due(s, at));
    forall k | k in s.fwd ensures k in gone <==> s.timers[s.fwd[k]] <= at {
      assert s.fwd[k] in Due(s, at) ==> s.heap[s.fwd[k]].fwd in gone;
    }
    ShowsExpire(s.fwd, s.timers, s.allocs, t, gone, Due(s, at), at, 5 * s.hz);
  }

  lemma RepliesAlike(s: State, t: F.Table<FlowKey>, e: Event)
    requires Safe(s) && Linked(s) && ShowsFlows(s, t)
    ensures Reply(s, e) == F.Reply(t, Abs(e))
  {
    if e.Ingress? { RevIsOwner(s, t, e.to); }
  }

  /** In a linked state an admitted step is the step of the flow map, and the packet is rewritten alike. */
  lemma RefinesStep(s: State, t: F.Table<FlowKey>, e: Event)
    requires Safe(s) && Linked(s) && Admitted(s, e) && ShowsFlows(s, t)
    ensures ShowsFlows(Step(s, e), F.Step(t, Abs(e), 5 * s.hz))
    ensures Reply(s, e) == F.Reply(t, Abs(e))
  {
    RepliesAlike(s, t, e);
    match e
    case Egress(key, at, _, _) =>
      RefinesEgress(s, t, key, at);
      assert key !in s.fwd ==> e == Egress(key, at, true, true);
    case Ingress(to, at) => RefinesIngress(s, t, to, at);
    case Manage(at) => RefinesManage(s, t, at);
  }

  /** After `i` events the two tables hold what the flow map holds. */
  ghost predicate RefinedAt(h: seq<Event>, i: nat, hz: nat)
    requires i <= |h|
  {
    ShowsFlows(Run(h, i, hz), F.Run(AbsAll(h), i, 5 * hz))
  }

  lemma RefinesNext(h: seq<Event>, n: nat, hz: nat)
    requires 0 < n <= |h| && LinkedAt(h, n - 1, hz) && AdmittedAt(h, n - 1, hz) && RefinedAt(h, n - 1, hz)
    ensures RefinedAt(h, n, hz)
  {
    RunSafe(h, n - 1, hz);
    RefinesStep(Run(h, n - 1, hz), F.Run(AbsAll(h), n - 1, 5 * hz), h[n - 1]);
  }

  lemma RefinesStart(h: seq<Event>, hz: nat)
    ensures RefinedAt(h, 0, hz)
  {
  }

  lemma LinkedPrefix(h: seq<Event>, i: nat, n: nat, hz: nat)
    requires i <= n <= |h| && AdmittedRun(h, n, hz)
    ensures LinkedAt(h, i, hz)
  {
    LinkedRun(h, n, hz);
  }

  /** Along an admitted run the two tables hold what the flow map holds. */
  lemma {:induction false} RefinesRun(h: seq<Event>, n: nat, hz: nat)
    requires n <= |h| && AdmittedRun(h, n, hz)
    ensures RefinedAt(h, n, hz)
  {
    hide RefinedAt, LinkedAt, AdmittedAt;
    if n == 0 {
      RefinesStart(h, hz);
    } else {
      RefinesRun(h, n - 1, hz);
      LinkedPrefix(h, n - 1, n, hz);
      RefinesNext(h, n, hz);
    }
  }

  lemma UniqueHere(h: seq<Event>, n: nat, hz: nat)
    requires n <= |h| && LinkedAt(h, n, hz) && RefinedAt(h, n, hz)
    ensures F.UniqueAt(AbsAll(h), n, 5 * hz)
  {
    RunSafe(h, n, hz);
    LinkedUnique(Run(h, n, hz), F.Run(AbsAll(h), n, 5 * hz));
  }

  lemma AdmittedIsGuarded(h: seq<Event>, n: nat, hz: nat)
    requires n <= |h| && AdmittedRun(h, n, hz)
    ensures F.GuardedRun(AbsAll(h), n, 5 * hz)
  {
    forall i | 0 <= i <= n ensures F.UniqueAt(AbsAll(h), i, 5 * hz) {
      LinkedPrefix(h, i, n, hz);
      RefinesRun(h, i, hz);
      UniqueHere(h, i, hz);
    }
    F.UniqueRun(AbsAll(h), n, 5 * hz);
  }

  /**
   After any admitted run the whole mutable state is recomputed from the history alone: which keys
   are in the tables, under which public port, until when, and where the counter stands.
   */
  lemma {:induction false} TablesAreHistory(h: seq<Event>, n: nat, hz: nat)
    requires n <= |h| && AdmittedRun(h, n, hz) && F.Monotone(AbsAll(h), n)
    ensures var s, a, life := Run(h, n, hz), AbsAll(h), 5 * hz;
            && s.allocs == F.Opened(a, n, life)
            && s.nextPort == PortOf(F.Opened(a, n, life))
            && (forall k :: k in s.fwd <==> F.Live(a, n, k, life))
            && (forall k :: k in s.fwd ==>
                  var o, l := F.OpenedAt(a, n, k, life), F.LastTouch(a, n, k, life);
                  && o.Some? && s.fwd[k] == F.Opened(a, o.value, life)
                  && l.Some? && s.fwd[k] in s.timers && s.timers[s.fwd[k]] == a[l.value].at + life
                  && Public(s.fwd[k]) in s.rev && s.rev[Public(s.fwd[k])] == s.fwd[k])
            && |s.rev| == |s.fwd| == |s.timers| == |s.heap|
  {
    var s, a, life := Run(h, n, hz), AbsAll(h), 5 * hz;
    AdmittedIsGuarded(h, n, hz);
    RefinesRun(h, n, hz);
    LinkedPrefix(h, n, n, hz);
    RunSafe(h, n, hz);
    LinkedBijection(s);
    F.StateIsHistory(a, n, life);
    hide F.Run, F.Live, F.Opened, F.OpenedAt, Linked, Run;
    forall k
      ensures k in s.fwd <==> F.Live(a, n, k, life)
      ensures k in s.fwd ==> F.Recorded(F.Run(a, n, life), a, n, k, life)
    {
      assert F.Recorded(F.Run(a, n, life), a, n, k, life);
    }
  }
}
