/**
 NAT/Nat_with_TIMER/nwt.c, whose table, timers and idle clear NAT/NWT_actualPkts/main.c repeats: one
 hash of entries, found by scan on ingress, a timer per entry, and a clear of everything when idle.
 */
module SingleTableNat {
  import opened NatTypes
  import opened Rte
  import opened FlowMaps
  import F = FlowSpec

  /** `struct nat_entry` without its timer, which `State.timers` holds. */
  datatype Entry = Entry(key: FlowKey, private_: Endpoint, public: Endpoint)

  /**
   The globals, the heap and the timer set, with pointers as allocation serials as in TwoTableNat.
   `clock` is the latest reading of the cycle counter.
   */
  datatype State = State(
    table: map<FlowKey, nat>, nextPort: Port, hz: nat, lastPkt: nat, cleared: bool,
    heap: map<nat, Entry>, timers: map<nat, nat>, allocs: nat,
    freed: multiset<nat>, fault: bool, clock: nat)

  /**
   A packet reads the counter once for `global_last_pkt` (`stamp`) and once when its timer is reset
   (`at`). A tick is one round of the main loop: `rte_timer_manage()` at `m`, the idle check at `c`.
   */
  datatype Event =
    | Egress(key: FlowKey, stamp: nat, at: nat, room: bool)
    | Ingress(to: Endpoint, stamp: nat, at: nat, order: seq<FlowKey>)
    | Tick(m: nat, c: nat)

  function Init(hz: nat, start: nat): State {
    State(map[], 10000, hz, start, false, map[], map[], 0, multiset{}, false, start)
  }

  function Stamp(s: State, stamp: nat): State {
    s.(lastPkt := stamp, cleared := false, clock := stamp)
  }

  function Refresh(s: State, id: nat, at: nat): State {
    s.(timers := s.timers[id := at + 5 * s.hz], fault := s.fault || id !in s.heap, clock := at)
  }

  function Create(s: State, key: FlowKey, room: bool): State {
    s.(heap := s.heap[s.allocs := Entry(key, key.src, Endpoint(PUBLIC_IP, s.nextPort))],
       nextPort := NextPort(s.nextPort),
       allocs := s.allocs + 1,
       table := HashAdd(s.table, key, s.allocs, room))
  }

  /** Look the key up, allocate on a miss, and reset the timer. */
  function Touch(s: State, key: FlowKey, at: nat, room: bool): State {
    if key in s.table then Refresh(s, s.table[key], at)
    else Refresh(Create(s, key, room), s.allocs, at)
  }

  predicate Matches(s: State, k: FlowKey, to: Endpoint) {
    k in s.table && s.table[k] in s.heap && s.heap[s.table[k]].public == to
  }

  function FirstMatch(s: State, to: Endpoint, order: seq<FlowKey>): (o: Option<FlowKey>)
    ensures o.Some? ==> o.value in order && Matches(s, o.value, to)
    ensures o.None? ==> forall k :: k in order ==> !Matches(s, k, to)
  {
    if order == [] then None
    else if Matches(s, order[0], to) then Some(order[0])
    else FirstMatch(s, to, order[1..])
  }

  function Scan(s: State, to: Endpoint, at: nat, order: seq<FlowKey>): State {
    var o := FirstMatch(s, to, order);
    if o.Some? then Refresh(s, s.table[o.value], at) else s.(clock := at)
  }

  function Keys(heap: map<nat, Entry>, ids: set<nat>): set<FlowKey> {
    set id | id in ids && id in heap :: heap[id].key
  }

  /** The effect of the expiry callbacks of `ids`, in whatever order the timer library runs them. */
  function Fire(s: State, ids: set<nat>): State {
    s.(table := s.table - Keys(s.heap, ids),
       heap := s.heap - ids,
       timers := s.timers - ids,
       freed := s.freed + multiset(ids),
       fault := s.fault || !(ids <= s.heap.Keys))
  }

  function Due(s: State, at: nat): set<nat> {
    set id | id in s.timers && s.timers[id] <= at
  }

  function Manage(s: State, at: nat): State {
    Fire(s, Due(s, at)).(clock := at)
  }

  /** Every entry in the table is freed; the timers of the entries are left as they are. */
  function Clear(s: State): State {
    s.(table := map[],
       heap := s.heap - s.table.Values,
       freed := s.freed + multiset(s.table.Values),
       fault := s.fault || !(s.table.Values <= s.heap.Keys),
       cleared := true)
  }

  predicate Idle(s: State, now: nat) {
    !s.cleared && Since(now, s.lastPkt) > 10 * s.hz
  }

  function Check(s: State, now: nat): State {
    (if Idle(s, now) then Clear(s) else s).(clock := now)
  }

  function Step(s: State, e: Event): State {
    match e
    case Egress(key, stamp, at, room) => Touch(Stamp(s, stamp), key, at, room)
    case Ingress(to, stamp, at, order) => Scan(Stamp(s, stamp), to, at, order)
    case Tick(m, c) => Check(Manage(s, m), c)
  }

  function Reply(s: State, e: Event): Option<Endpoint>
    requires NoDangling(s)
  {
    match e
    case Egress(key, _, _, _) =>
      Some(if key in s.table then s.heap[s.table[key]].public else Endpoint(PUBLIC_IP, s.nextPort))
    case Ingress(to, _, _, order) =>
      var o := FirstMatch(s, to, order);
      if o.Some? then Some(s.heap[s.table[o.value]].private_) else None
    case Tick(_, _) => None
  }

  function Run(h: seq<Event>, n: nat, hz: nat, start: nat): State
    requires n <= |h|
  {
    if n == 0 then Init(hz, start) else Step(Run(h, n - 1, hz, start), h[n - 1])
  }

  // ---------------------------------------------------------------- safety and the idle clear

  /** The armed timers are the live entries; nothing is freed twice, used after its free, or lost. */
  predicate HeapSafe(s: State) {
    && !s.fault
    && s.timers.Keys == s.heap.Keys
    && s.nextPort == PortOf(s.allocs)
    && (forall id :: id in s.heap ==>
          id < s.allocs && s.heap[id] == Entry(s.heap[id].key, s.heap[id].key.src, Public(id)))
    && (forall id :: 0 <= id < s.allocs ==> s.freed[id] == if id in s.heap then 0 else 1)
    && (forall id :: id in s.freed ==> id < s.allocs)
  }

  predicate NoDangling(s: State) {
    forall k :: k in s.table ==> s.table[k] in s.heap && s.heap[s.table[k]].key == k
  }

  /** No timer is armed beyond the reach of the latest stamp: a packet takes at most `d` to reset its timer. */
  predicate Timely(s: State, d: nat) {
    && s.lastPkt <= s.clock
    && (forall id :: id in s.timers ==> s.timers[id] <= s.lastPkt + d + 5 * s.hz)
  }

  predicate Safe(s: State, d: nat) {
    HeapSafe(s) && NoDangling(s) && Timely(s, d)
  }

  /**
   What the clock allows next: readings never run backwards, a packet resets its timer within `d` of
   its stamp, and the idle check reads the counter within `g` of the timer run before it.
   */
  predicate Possible(s: State, e: Event, d: nat, g: nat) {
    match e
    case Egress(_, stamp, at, _) => s.clock <= stamp <= at <= stamp + d
    case Ingress(_, stamp, at, _) => s.clock <= stamp <= at <= stamp + d
    case Tick(m, c) => s.clock <= m <= c <= m + g
  }

  ghost predicate PossibleAt(h: seq<Event>, i: nat, hz: nat, start: nat, d: nat, g: nat)
    requires i < |h|
  {
    Possible(Run(h, i, hz, start), h[i], d, g)
  }

  ghost predicate PossibleRun(h: seq<Event>, n: nat, hz: nat, start: nat, d: nat, g: nat)
    requires n <= |h|
  {
    forall i :: 0 <= i < n ==> PossibleAt(h, i, hz, start, d, g)
  }

  lemma StampLinks(s: State, stamp: nat)
    requires HeapSafe(s) && NoDangling(s)
    ensures HeapSafe(Stamp(s, stamp)) && NoDangling(Stamp(s, stamp))
  {
  }

  lemma StampSafe(s: State, stamp: nat, d: nat)
    requires Safe(s, d) && s.clock <= stamp
    ensures Safe(Stamp(s, stamp), d)
  {
  }

  lemma RefreshSafe(s: State, id: nat, at: nat, d: nat)
    requires Safe(s, d) && id in s.heap && s.clock <= at <= s.lastPkt + d
    ensures Safe(Refresh(s, id, at), d)
  {
  }

  lemma CreateSafe(s: State, key: FlowKey, at: nat, room: bool, d: nat)
    requires Safe(s, d) && key !in s.table && s.clock <= at <= s.lastPkt + d
    ensures Safe(Refresh(Create(s, key, room), s.allocs, at), d)
  {
    CreateHeapSafe(s, key, at, room);
    CreateNoDangling(s, key, at, room);
  }

  lemma CreateHeapSafe(s: State, key: FlowKey, at: nat, room: bool)
    requires HeapSafe(s)
    ensures HeapSafe(Refresh(Create(s, key, room), s.allocs, at))
    ensures s.allocs !in s.heap
  {
  }

  lemma CreateNoDangling(s: State, key: FlowKey, at: nat, room: bool)
    requires NoDangling(s) && key !in s.table && s.allocs !in s.heap
    ensures NoDangling(Refresh(Create(s, key, room), s.allocs, at))
  {
  }

  lemma TouchSafe(s: State, key: FlowKey, at: nat, room: bool, d: nat)
    requires Safe(s, d) && s.clock <= at <= s.lastPkt + d
    ensures Safe(Touch(s, key, at, room), d)
  {
    if key in s.table { RefreshSafe(s, s.table[key], at, d); } else { CreateSafe(s, key, at, room, d); }
  }

  lemma ScanSafe(s: State, to: Endpoint, at: nat, order: seq<FlowKey>, d: nat)
    requires Safe(s, d) && s.clock <= at <= s.lastPkt + d
    ensures Safe(Scan(s, to, at, order), d)
  {
    var o := FirstMatch(s, to, order);
    if o.Some? { RefreshSafe(s, s.table[o.value], at, d); }
  }

  lemma ManageSafe(s: State, at: nat, d: nat)
    requires Safe(s, d) && s.clock <= at
    ensures Safe(Manage(s, at), d)
  {
  }

  /** With `d + g` at most five seconds (and one cycle), an idle check that clears finds nothing left. */
  lemma IdleClearFindsNothing(s: State, m: nat, c: nat, d: nat, g: nat)
    requires Safe(s, d) && s.clock <= m <= c <= m + g && d + g <= 5 * s.hz + 1
    ensures Idle(Manage(s, m), c) ==> Manage(s, m).heap == map[] && Manage(s, m).timers == map[] && Manage(s, m).table == map[]
  {
    var t := Manage(s, m);
    ManageSafe(s, m, d);
    if t.timers != map[] {
      var id :| id in t.timers;
      assert m < t.timers[id] <= s.lastPkt + d + 5 * s.hz;
      assert c - s.lastPkt <= 10 * s.hz;
    }
  }

  /** The idle check then changes nothing but its own flag. */
  lemma IdleCheckStutters(s: State, m: nat, c: nat, d: nat, g: nat)
    requires Safe(s, d) && s.clock <= m <= c <= m + g && d + g <= 5 * s.hz + 1
    ensures Check(Manage(s, m), c) == Manage(s, m).(clock := c, cleared := s.cleared || Idle(Manage(s, m), c))
  {
    IdleClearFindsNothing(s, m, c, d, g);
    var t := Manage(s, m);
    if Idle(t, c) {
      assert t.table.Values == {};
      assert t.heap - {} == t.heap;
    }
  }

  lemma TickSafe(s: State, m: nat, c: nat, d: nat, g: nat)
    requires Safe(s, d) && s.clock <= m <= c <= m + g && d + g <= 5 * s.hz + 1
    ensures Safe(Check(Manage(s, m), c), d)
  {
    IdleCheckStutters(s, m, c, d, g);
    ManageSafe(s, m, d);
  }

  lemma StepSafe(s: State, e: Event, d: nat, g: nat)
    requires Safe(s, d) && Possible(s, e, d, g) && d + g <= 5 * s.hz + 1
    ensures Safe(Step(s, e), d) && Step(s, e).hz == s.hz
  {
    hide Safe;
    match e
    case Egress(key, stamp, at, room) =>
      StampSafe(s, stamp, d);
      TouchSafe(Stamp(s, stamp), key, at, room, d);
    case Ingress(to, stamp, at, order) =>
      StampSafe(s, stamp, d);
      ScanSafe(Stamp(s, stamp), to, at, order, d);
    case Tick(m, c) => TickSafe(s, m, c, d, g);
  }

  lemma StartSafe(hz: nat, start: nat, d: nat)
    ensures Safe(Init(hz, start), d)
  {
  }

  lemma {:induction false} RunSafe(h: seq<Event>, n: nat, hz: nat, start: nat, d: nat, g: nat)
    requires n <= |h| && PossibleRun(h, n, hz, start, d, g) && d + g <= 5 * hz + 1
    ensures Safe(Run(h, n, hz, start), d) && Run(h, n, hz, start).hz == hz
  {
    hide Step, Safe, Possible;
    if n == 0 {
      StartSafe(hz, start, d);
    } else {
      RunSafe(h, n - 1, hz, start, d, g);
      assert PossibleAt(h, n - 1, hz, start, d, g);
      StepSafe(Run(h, n - 1, hz, start), h[n - 1], d, g);
    }
  }

  // ---------------------------------------------------------------- the budget is exact

  /** No run that keeps the budget uses a freed entry or frees one twice. */
  ghost predicate SafeBudget(hz: nat, d: nat, g: nat) {
    forall h: seq<Event>, start: nat :: PossibleRun(h, |h|, hz, start, d, g) ==> !Run(h, |h|, hz, start).fault
  }

  /** A flow is opened `d` after its stamp, cleared `g` after the timer run, and its timer fires on freed memory. */
  function StaleTimer(key: FlowKey, hz: nat, d: nat, g: nat): seq<Event>
    requires 0 < hz && d + g == 5 * hz + 2
  {
    [Egress(key, 0, d, true), Tick(10 * hz + 1 - g, 10 * hz + 1), Tick(10 * hz + 1 + d, 10 * hz + 1 + d)]
  }

  /** One live entry, opened by `StaleTimer`. */
  function OneFlow(key: FlowKey, hz: nat, d: nat, clock: nat): State {
    State(map[key := 0], 10001, hz, 0, false, map[0 := Entry(key, key.src, Endpoint(PUBLIC_IP, 10000))],
          map[0 := d + 5 * hz], 1, multiset{}, false, clock)
  }

  /** The entry is freed, and its timer is still armed. */
  function FreedFlow(hz: nat, d: nat, clock: nat): State {
    State(map[], 10001, hz, 0, true, map[], map[0 := d + 5 * hz], 1, multiset{0}, false, clock)
  }

  lemma OpensOne(key: FlowKey, hz: nat, d: nat)
    ensures Step(Init(hz, 0), Egress(key, 0, d, true)) == OneFlow(key, hz, d, d)
  {
  }

  lemma ManagesTooEarly(key: FlowKey, hz: nat, d: nat, m: nat)
    requires m < d + 5 * hz
    ensures Manage(OneFlow(key, hz, d, d), m) == OneFlow(key, hz, d, m)
  {
    var s := OneFlow(key, hz, d, d);
    assert Due(s, m) == {};
    FireNothing(s);
  }

  lemma ClearsArmed(key: FlowKey, hz: nat, d: nat, m: nat)
    requires 10 * hz + 1 < 0x1_0000_0000_0000_0000
    ensures Check(OneFlow(key, hz, d, m), 10 * hz + 1) == FreedFlow(hz, d, 10 * hz + 1)
  {
    var t := OneFlow(key, hz, d, m);
    assert t.table.Values == {0} by { assert t.table[key] == 0; }
    assert t.heap - {0} == map[];
    assert multiset({0}) == multiset{0};
  }

  lemma TicksTooEarly(key: FlowKey, hz: nat, d: nat, m: nat)
    requires m < d + 5 * hz && 10 * hz + 1 < 0x1_0000_0000_0000_0000
    ensures Step(OneFlow(key, hz, d, d), Tick(m, 10 * hz + 1)) == FreedFlow(hz, d, 10 * hz + 1)
    ensures OneFlow(key, hz, d, d).clock == d && FreedFlow(hz, d, 10 * hz + 1).clock == 10 * hz + 1
  {
    ManagesTooEarly(key, hz, d, m);
    ClearsArmed(key, hz, d, m);
    hide Check, Manage;
  }

  lemma FiresOnFreed(hz: nat, d: nat, clock: nat, m: nat)
    requires d + 5 * hz <= m
    ensures Step(FreedFlow(hz, d, clock), Tick(m, m)).fault
  {
    assert 0 in Due(FreedFlow(hz, d, clock), m);
  }

  lemma StaleTimerFaults(key: FlowKey, hz: nat, d: nat, g: nat)
    requires 0 < hz && 10 * hz + 1 < 0x1_0000_0000_0000_0000 && d + g == 5 * hz + 2
    ensures var h := StaleTimer(key, hz, d, g);
            PossibleRun(h, |h|, hz, 0, d, g) && Run(h, |h|, hz, 0).fault
  {
    hide Step, OneFlow, FreedFlow;
    var h := StaleTimer(key, hz, d, g);
    OpensOne(key, hz, d);
    TicksTooEarly(key, hz, d, h[1].m);
    FiresOnFreed(hz, d, h[1].c, h[2].m);
    assert Run(h, 1, hz, 0) == Step(Run(h, 0, hz, 0), h[0]) == OneFlow(key, hz, d, d);
    assert Run(h, 2, hz, 0) == Step(Run(h, 1, hz, 0), h[1]);
    assert Run(h, 3, hz, 0) == Step(Run(h, 2, hz, 0), h[2]);
    assert PossibleAt(h, 0, hz, 0, d, g);
    assert PossibleAt(h, 1, hz, 0, d, g);
    assert PossibleAt(h, 2, hz, 0, d, g);
  }

  lemma KeysOfUnion(heap: map<nat, Entry>, a: set<nat>, b: set<nat>)
    requires a !! b
    ensures Keys(heap, a + b) == Keys(heap, a) + Keys(heap - a, b)
  {
    forall id | id in b && id in heap ensures heap[id].key in Keys(heap - a, b) {
      assert id in heap - a && (heap - a)[id] == heap[id];
    }
  }

  /** Callbacks of different entries commute, so the order in which due timers fire does not matter. */
  lemma FireCompose(s: State, a: set<nat>, b: set<nat>)
    requires a !! b && a <= s.heap.Keys && b <= s.heap.Keys
    ensures Fire(Fire(s, a), b) == Fire(s, a + b)
  {
    KeysOfUnion(s.heap, a, b);
    RemoveTwice(s.table, Keys(s.heap, a), Keys(s.heap - a, b));
    RemoveTwice(s.heap, a, b);
    RemoveTwice(s.timers, a, b);
    assert multiset(a + b) == multiset(a) + multiset(b);
  }

  lemma FireNothing(s: State)
    ensures Fire(s, {}) == s
  {
  }

  lemma WiderBudget(h: seq<Event>, hz: nat, start: nat, d: nat, g: nat, d': nat, g': nat)
    requires PossibleRun(h, |h|, hz, start, d', g') && d' <= d && g' <= g
    ensures PossibleRun(h, |h|, hz, start, d, g)
  {
    forall i | 0 <= i < |h| ensures PossibleAt(h, i, hz, start, d, g) {
      assert PossibleAt(h, i, hz, start, d', g');
    }
  }

  /**
   The clear frees entries without stopping their timers. Every run is free of stale timers exactly
   when the two delays together stay within five seconds and one cycle.
   */
  lemma BudgetIsExact(key: FlowKey, hz: nat, d: nat, g: nat)
    requires 0 < hz && 10 * hz + 1 < 0x1_0000_0000_0000_0000
    ensures SafeBudget(hz, d, g) <==> d + g <= 5 * hz + 1
  {
    if d + g <= 5 * hz + 1 {
      forall h: seq<Event>, start: nat | PossibleRun(h, |h|, hz, start, d, g)
        ensures !Run(h, |h|, hz, start).fault
      {
        RunSafe(h, |h|, hz, start, d, g);
      }
    } else {
      var d' := if d <= 5 * hz + 2 then d else 5 * hz + 2;
      var g' := 5 * hz + 2 - d';
      var h := StaleTimer(key, hz, d', g');
      StaleTimerFaults(key, hz, d', g');
      WiderBudget(h, hz, 0, d, g, d', g');
    }
  }

  // ---------------------------------------------------------------- refinement of the flow map

  /** Every live entry is in the table. */
  predicate Linked(s: State) {
    forall id :: id in s.heap ==> s.heap[id].key in s.table && s.table[s.heap[id].key] == id
  }

  predicate Creates(s: State, e: Event) {
    e.Egress? && e.key !in s.table
  }

  /** The counter's port is on no entry of the table. */
  predicate PortFree(s: State)
    requires NoDangling(s)
  {
    forall k :: k in s.table ==> s.heap[s.table[k]].public != Endpoint(PUBLIC_IP, s.nextPort)
  }

  /** From a linked state a step leads to a linked state exactly when an entry it makes finds room. */
  lemma LinkedStep(s: State, e: Event, d: nat, g: nat)
    requires Safe(s, d) && Linked(s) && Possible(s, e, d, g) && d + g <= 5 * s.hz + 1
    ensures Linked(Step(s, e)) <==> (Creates(s, e) ==> e.room)
  {
    match e
    case Egress(key, stamp, at, room) =>
      if key !in s.table { LinkedCreate(s, key, room); }
    case Ingress(_, _, _, _) =>
    case Tick(m, c) =>
      IdleCheckStutters(s, m, c, d, g);
      LinkedFire(s, Due(s, m));
  }

  lemma LinkedCreate(s: State, key: FlowKey, room: bool)
    requires HeapSafe(s) && Linked(s) && key !in s.table
    ensures Linked(Create(s, key, room)) <==> room
  {
    var t := Create(s, key, room);
    assert s.allocs in t.heap && t.heap[s.allocs].key == key;
    assert forall id :: id in s.heap ==> s.heap[id].key != key && t.heap[id] == s.heap[id];
  }

  lemma LinkedFire(s: State, ids: set<nat>)
    requires Linked(s)
    ensures Linked(Fire(s, ids))
  {
  }

  ghost predicate ShowsFlows(s: State, t: F.Table<FlowKey>) {
    Shows(s.table, s.timers, s.allocs, t)
  }

  function Abs(e: Event): F.Event<FlowKey> {
    match e
    case Egress(key, _, at, _) => F.Egress(key, key.src, at)
    case Ingress(to, _, at, _) => F.Ingress(to, at)
    case Tick(m, _) => F.Expire(m)
  }

  function AbsAll(h: seq<Event>): (a: seq<F.Event<FlowKey>>)
    ensures |a| == |h| && forall i :: 0 <= i < |h| ==> a[i] == Abs(h[i])
  {
    seq(|h|, i requires 0 <= i < |h| => Abs(h[i]))
  }

  /** With unique ports the first match of a scan is the only one, in whatever order the scan goes. */
  lemma ScanIsOwner(s: State, t: F.Table<FlowKey>, to: Endpoint, order: seq<FlowKey>)
    requires HeapSafe(s) && NoDangling(s) && ShowsFlows(s, t) && F.UniquePorts(t) && Enumerates(order, s.table)
    ensures FirstMatch(s, to, order) == F.Owner(t, to)
    ensures forall j, k :: Matches(s, j, to) && Matches(s, k, to) ==> j == k
  {
    forall k ensures Matches(s, k, to) <==> F.Owns(t, k, to) {
      if k in s.table { assert s.heap[s.table[k]].public == Public(s.table[k]); }
    }
    var o := FirstMatch(s, to, order);
    if o.Some? { assert F.Owns(t, o.value, to); }
  }

  lemma RefinesTouch(s: State, t: F.Table<FlowKey>, key: FlowKey, at: nat)
    requires NoDangling(s) && ShowsFlows(s, t) && key in s.table
    ensures ShowsFlows(Refresh(s, s.table[key], at), F.Touched(t, key, at + 5 * s.hz))
  {
    ShowsTouch(s.table, s.timers, s.allocs, t, key, at + 5 * s.hz);
  }

  lemma CreateFields(s: State, key: FlowKey, at: nat)
    requires key !in s.table
    ensures var u := Refresh(Create(s, key, true), s.allocs, at);
            && u.table == s.table[key := s.allocs]
            && u.timers == s.timers[s.allocs := at + 5 * s.hz]
            && u.allocs == s.allocs + 1
  {
  }

  lemma RefinesOpen(s: State, t: F.Table<FlowKey>, key: FlowKey, at: nat)
    requires HeapSafe(s) && NoDangling(s) && ShowsFlows(s, t) && key !in s.table
    ensures ShowsFlows(Refresh(Create(s, key, true), s.allocs, at),
                       F.Table(t.flows[key := F.Flow(key.src, s.allocs, at + 5 * s.hz)], s.allocs + 1))
  {
    assert forall k :: k in s.table ==> s.table[k] < s.allocs;
    hide Refresh, Create, HeapSafe;
    CreateFields(s, key, at);
    ShowsOpen(s.table, s.timers, s.allocs, t, key, at + 5 * s.hz);
  }

  lemma RefinesEgress(s: State, t: F.Table<FlowKey>, key: FlowKey, stamp: nat, at: nat)
    requires HeapSafe(s) && NoDangling(s) && ShowsFlows(s, t)
    ensures ShowsFlows(Step(s, Egress(key, stamp, at, true)), F.Step(t, F.Egress(key, key.src, at), 5 * s.hz))
  {
    hide Refresh, Create, F.Touched, HeapSafe, NoDangling;
    var u := Stamp(s, stamp);
    StampLinks(s, stamp);
    if key in s.table {
      RefinesTouch(u, t, key, at);
    } else {
      RefinesOpen(u, t, key, at);
    }
  }

  lemma RefinesIngress(s: State, t: F.Table<FlowKey>, e: Event)
    requires HeapSafe(s) && NoDangling(s) && ShowsFlows(s, t) && F.UniquePorts(t)
    requires e.Ingress? && Enumerates(e.order, s.table)
    ensures ShowsFlows(Step(s, e), F.Step(t, Abs(e), 5 * s.hz))
    ensures Reply(s, e) == F.Reply(t, Abs(e))
  {
    hide Refresh, F.Touched, F.UniquePorts, Enumerates;
    var u := Stamp(s, e.stamp);
    assert HeapSafe(u);
    StampScan(s, e.stamp, e.to, e.order);
    ScanIsOwner(s, t, e.to, e.order);
    var o := FirstMatch(s, e.to, e.order);
    if o.Some? { RefinesTouch(u, t, o.value, e.at); }
  }

  lemma {:induction false} StampScan(s: State, stamp: nat, to: Endpoint, order: seq<FlowKey>)
    ensures FirstMatch(Stamp(s, stamp), to, order) == FirstMatch(s, to, order)
  {
    if order != [] { StampScan(s, stamp, to, order[1..]); }
  }

  lemma RefinesTick(s: State, t: F.Table<FlowKey>, m: nat, c: nat, d: nat, g: nat)
    requires Safe(s, d) && Linked(s) && ShowsFlows(s, t)
    requires Possible(s, Tick(m, c), d, g) && d + g <= 5 * s.hz + 1
    ensures ShowsFlows(Step(s, Tick(m, c)), F.Step(t, F.Expire(m), 5 * s.hz))
  {
    var gone := Keys(s.heap, Due(s, m));
    forall k | k in s.table ensures k in gone <==> s.timers[s.table[k]] <= m {
      assert s.table[k] in Due(s, m) ==> s.heap[s.table[k]].key in gone;
    }
    ShowsExpire(s.table, s.timers, s.allocs, t, gone, Due(s, m), m, 5 * s.hz);
    IdleCheckStutters(s, m, c, d, g);
  }

  /**
   What a run needs for the scan NAT to be the flow map: readings as the clock allows, iteration
   that meets every key, and for each new entry room in the table and a port that is not in use.
   */
  predicate Regular(s: State, e: Event)
    requires NoDangling(s)
  {
    Creates(s, e) ==> e.room && PortFree(s)
  }

  ghost predicate RegularAt(h: seq<Event>, i: nat, hz: nat, start: nat, d: nat, g: nat)
    requires i < |h|
  {
    var s := Run(h, i, hz, start);
    && Possible(s, h[i], d, g)
    && (h[i].Ingress? ==> Enumerates(h[i].order, s.table))
    && (NoDangling(s) ==> Regular(s, h[i]))
  }

  ghost predicate RegularRun(h: seq<Event>, n: nat, hz: nat, start: nat, d: nat, g: nat)
    requires n <= |h|
  {
    forall i :: 0 <= i < n ==> RegularAt(h, i, hz, start, d, g)
  }

  /** The state `s` shows the flow map `t`, and everything needed to go on doing so. */
  ghost predicate Refined(s: State, t: F.Table<FlowKey>, d: nat) {
    Safe(s, d) && Linked(s) && ShowsFlows(s, t) && F.Numbered(t) && F.UniquePorts(t)
  }

  lemma RefinesStep(s: State, t: F.Table<FlowKey>, e: Event, d: nat, g: nat)
    requires Refined(s, t, d) && Possible(s, e, d, g) && d + g <= 5 * s.hz + 1
    requires e.Ingress? ==> Enumerates(e.order, s.table)
    requires Regular(s, e)
    ensures ShowsFlows(Step(s, e), F.Step(t, Abs(e), 5 * s.hz))
    ensures Reply(s, e) == F.Reply(t, Abs(e))
  {
    hide Step, F.Step, Enumerates, F.UniquePorts;
    match e
    case Egress(key, stamp, at, _) =>
      RefinesEgress(s, t, key, stamp, at);
      if key in s.table { RoomOnlyOnMiss(s, e); }
    case Ingress(_, _, _, _) => RefinesIngress(s, t, e);
    case Tick(m, c) => RefinesTick(s, t, m, c, d, g);
  }

  lemma RoomOnlyOnMiss(s: State, e: Event)
    requires e.Egress? && !Creates(s, e)
    ensures Step(s, e) == Step(s, e.(room := true))
  {
  }

  lemma RegularIsGuarded(s: State, t: F.Table<FlowKey>, e: Event, d: nat)
    requires Refined(s, t, d) && Regular(s, e)
    ensures F.Guarded(t, Abs(e))
  {
    if Creates(s, e) {
      forall k | k in t.flows ensures PortOf(t.flows[k].serial) != PortOf(t.created) {
        assert s.heap[s.table[k]].public == Public(s.table[k]);
      }
    }
  }

  ghost predicate RefinedAt(h: seq<Event>, i: nat, hz: nat, start: nat, d: nat)
    requires i <= |h|
  {
    Refined(Run(h, i, hz, start), F.Run(AbsAll(h), i, 5 * hz), d) && Run(h, i, hz, start).hz == hz
  }

  lemma RefinesNext(h: seq<Event>, n: nat, hz: nat, start: nat, d: nat, g: nat)
    requires 0 < n <= |h| && d + g <= 5 * hz + 1
    requires RefinedAt(h, n - 1, hz, start, d) && RegularAt(h, n - 1, hz, start, d, g)
    ensures RefinedAt(h, n, hz, start, d)
    ensures F.GuardedAt(AbsAll(h), n - 1, 5 * hz)
  {
    hide Step, F.Step, Safe, Linked, Possible, Regular, Enumerates, Shows, F.Numbered, F.UniquePorts, F.Guarded;
    var s, t, e := Run(h, n - 1, hz, start), F.Run(AbsAll(h), n - 1, 5 * hz), h[n - 1];
    SafeParts(s, d);
    RegularIsGuarded(s, t, e, d);
    RefinesStep(s, t, e, d, g);
    StepSafe(s, e, d, g);
    RegularIsLinked(s, e, d, g);
    F.UniqueStep(t, Abs(e), 5 * hz);
    F.RunNumbered(AbsAll(h), n, 5 * hz);
  }

  lemma RefinesStart(h: seq<Event>, hz: nat, start: nat, d: nat)
    ensures RefinedAt(h, 0, hz, start, d)
  {
  }

  lemma SafeParts(s: State, d: nat)
    requires Safe(s, d)
    ensures NoDangling(s)
  {
  }

  lemma RegularIsLinked(s: State, e: Event, d: nat, g: nat)
    requires Safe(s, d) && Linked(s) && Possible(s, e, d, g) && d + g <= 5 * s.hz + 1 && Regular(s, e)
    ensures Linked(Step(s, e))
  {
    LinkedStep(s, e, d, g);
  }

  /** Along a regular run within the budget the scan NAT holds what the flow map holds. */
  lemma {:induction false} RefinesRun(h: seq<Event>, n: nat, hz: nat, start: nat, d: nat, g: nat)
    requires n <= |h| && RegularRun(h, n, hz, start, d, g) && d + g <= 5 * hz + 1
    ensures RefinedAt(h, n, hz, start, d)
    ensures F.GuardedRun(AbsAll(h), n, 5 * hz)
  {
    hide RefinedAt, RegularAt, F.GuardedAt;
    if n == 0 {
      RefinesStart(h, hz, start, d);
    } else {
      RefinesRun(h, n - 1, hz, start, d, g);
      RefinesNext(h, n, hz, start, d, g);
    }
  }

  lemma ClockAdvances(s: State, e: Event, d: nat, g: nat)
    requires Possible(s, e, d, g)
    ensures s.clock <= Abs(e).at <= Step(s, e).clock
  {
  }

  /** The clock of a possible run does not run backwards. */
  lemma {:induction false} PossibleIsMonotone(h: seq<Event>, n: nat, hz: nat, start: nat, d: nat, g: nat)
    requires n <= |h| && PossibleRun(h, n, hz, start, d, g)
    ensures F.Monotone(AbsAll(h), n)
    ensures forall i :: 0 <= i < n ==> AbsAll(h)[i].at <= Run(h, n, hz, start).clock
  {
    hide Step, Possible;
    if n > 0 {
      PossibleIsMonotone(h, n - 1, hz, start, d, g);
      assert PossibleAt(h, n - 1, hz, start, d, g);
      ClockAdvances(Run(h, n - 1, hz, start), h[n - 1], d, g);
      assert AbsAll(h)[n - 1] == Abs(h[n - 1]);
    }
  }

  lemma RegularIsPossible(h: seq<Event>, n: nat, hz: nat, start: nat, d: nat, g: nat)
    requires n <= |h| && RegularRun(h, n, hz, start, d, g)
    ensures PossibleRun(h, n, hz, start, d, g)
  {
    forall i | 0 <= i < n ensures PossibleAt(h, i, hz, start, d, g) {
      assert RegularAt(h, i, hz, start, d, g);
    }
  }

  /**
   After a regular run within the budget a key is in the table exactly when it was used and no timer run since came as
   late as that use plus five seconds; its port is that of its opening and its deadline that of its latest use.
   */
  lemma TableIsHistory(h: seq<Event>, n: nat, k: FlowKey, hz: nat, start: nat, d: nat, g: nat)
    requires n <= |h| && RegularRun(h, n, hz, start, d, g) && d + g <= 5 * hz + 1
    ensures ShownByHistory(Run(h, n, hz, start), AbsAll(h), n, k, 5 * hz)
  {
    hide Run, F.Run, RegularAt, Safe, Linked, F.Numbered, F.UniquePorts, F.GuardedAt, F.Recorded;
    var s, a, life := Run(h, n, hz, start), AbsAll(h), 5 * hz;
    RefinesRun(h, n, hz, start, d, g);
    RegularIsPossible(h, n, hz, start, d, g);
    PossibleIsMonotone(h, n, hz, start, d, g);
    F.StateIsHistory(a, n, life);
    RecordedIsShown(s, F.Run(a, n, life), a, n, k, life);
  }

  /** What the table, the timers and the counter must hold for `k` after `n` events, told from the history alone. */
  ghost predicate ShownByHistory(s: State, a: seq<F.Event<FlowKey>>, n: nat, k: FlowKey, life: nat)
    requires n <= |a|
  {
    && s.allocs == F.Opened(a, n, life)
    && (k in s.table <==> F.Live(a, n, k, life))
    && (k in s.table ==>
          var o, l := F.OpenedAt(a, n, k, life), F.LastTouch(a, n, k, life);
          && o.Some? && s.table[k] == F.Opened(a, o.value, life)
          && l.Some? && s.table[k] in s.timers && s.timers[s.table[k]] == a[l.value].at + life)
  }

  lemma RecordedIsShown(s: State, t: F.Table<FlowKey>, a: seq<F.Event<FlowKey>>, n: nat, k: FlowKey, life: nat)
    requires n <= |a| && ShowsFlows(s, t) && t.created == F.Opened(a, n, life) && F.Recorded(t, a, n, k, life)
    ensures ShownByHistory(s, a, n, k, life)
  {
    hide F.Live, F.Opened;
  }
}
