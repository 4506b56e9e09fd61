/**
 NAT/main.c: one hash, time stamps in the entries, and a sweep that deletes while it iterates.

 The table is modelled down to its slots, because the sweep depends on them: `rte_hash_iterate` goes
 through the slots in order, deleting a key empties its slot and moves no other, and only adding a
 new key may move keys between slots.
 */
module SweepNat {
  import opened NatTypes
  import F = FlowSpec

  datatype NatKey = NatKey(src: Endpoint, dst: Endpoint, proto: nat)

  datatype Entry = Entry(private_: Endpoint, public: Endpoint, dest: Endpoint, lastSeen: nat)

  /** An occupied slot: a key and the pointer to its entry (the serial number of its allocation). */
  datatype Slot = Slot(key: NatKey, id: nat)

  datatype State = State(
    slots: seq<Option<Slot>>, nextPort: Port, timeout: nat,
    heap: map<nat, Entry>, allocs: nat, freed: multiset<nat>, clock: nat)

  /** Where a new key goes: first some keys swap slots, then the new key takes the empty slot `at`. */
  datatype Placement = Placement(swaps: seq<(nat, nat)>, at: nat)

  datatype Event =
    | Egress(key: NatKey, at: nat, place: Option<Placement>)
    | Ingress(to: Endpoint, at: nat)
    | Cleanup(at: nat)

  function Init(capacity: nat, timeout: nat): State {
    State(seq(capacity, i => None), 10000, timeout, map[], 0, multiset{}, 0)
  }

  // ---------------------------------------------------------------- the table

  /** The slot of a key, or the number of slots. */
  function Find(slots: seq<Option<Slot>>, key: NatKey, from: nat): (i: nat)
    requires from <= |slots|
    ensures from <= i <= |slots|
    ensures i < |slots| ==> slots[i].Some? && slots[i].value.key == key
    ensures forall j :: from <= j < i ==> slots[j].Some? ==> slots[j].value.key != key
    decreases |slots| - from
  {
    if from == |slots| then from
    else if slots[from].Some? && slots[from].value.key == key then from
    else Find(slots, key, from + 1)
  }

  function Swap(slots: seq<Option<Slot>>, i: nat, j: nat): (r: seq<Option<Slot>>)
    ensures |r| == |slots|
  {
    if i < |slots| && j < |slots| then slots[i := slots[j]][j := slots[i]] else slots
  }

  function Swaps(slots: seq<Option<Slot>>, swaps: seq<(nat, nat)>): (r: seq<Option<Slot>>)
    ensures |r| == |slots|
    decreases |swaps|
  {
    if swaps == [] then slots else Swaps(Swap(slots, swaps[0].0, swaps[0].1), swaps[1..])
  }

  /** An add finds its place, or fails and changes nothing. */
  predicate Fits(slots: seq<Option<Slot>>, place: Option<Placement>) {
    place.Some? && place.value.at < |slots| && Swaps(slots, place.value.swaps)[place.value.at].None?
  }

  function Add(slots: seq<Option<Slot>>, slot: Slot, place: Option<Placement>): (r: seq<Option<Slot>>)
    ensures |r| == |slots|
  {
    if Fits(slots, place) then Swaps(slots, place.value.swaps)[place.value.at := Some(slot)] else slots
  }

  function Delete(slots: seq<Option<Slot>>, key: NatKey): (r: seq<Option<Slot>>)
    ensures |r| == |slots|
  {
    var i := Find(slots, key, 0);
    if i < |slots| then slots[i := None] else slots
  }

  /** The slots an iteration visits, in order. */
  function Occupied(slots: seq<Option<Slot>>, n: nat): seq<nat>
    requires n <= |slots|
  {
    if n == 0 then [] else Occupied(slots, n - 1) + if slots[n - 1].Some? then [n - 1] else []
  }

  // ---------------------------------------------------------------- the transitions

  function Seen(s: State, id: nat, at: nat): State {
    s.(heap := if id in s.heap then s.heap[id := s.heap[id].(lastSeen := at)] else s.heap, clock := at)
  }

  predicate Serves(s: State, i: nat, to: Endpoint) {
    i < |s.slots| && s.slots[i].Some? && s.slots[i].value.id in s.heap && s.heap[s.slots[i].value.id].public == to
  }

  /** The first slot whose entry has the public endpoint `to`, or the number of slots. */
  function FindPublic(s: State, to: Endpoint, from: nat): (i: nat)
    requires from <= |s.slots|
    ensures from <= i <= |s.slots|
    ensures i < |s.slots| ==> Serves(s, i, to)
    ensures forall j :: from <= j < i ==> !Serves(s, j, to)
    decreases |s.slots| - from
  {
    if from == |s.slots| || Serves(s, from, to) then from else FindPublic(s, to, from + 1)
  }

  predicate Stale(s: State, i: nat, now: nat)
    requires i < |s.slots|
  {
    && s.slots[i].Some?
    && s.slots[i].value.id in s.heap
    && Since(now, s.heap[s.slots[i].value.id].lastSeen) > s.timeout
  }

  function StaleIds(s: State, n: nat, now: nat): set<nat>
    requires n <= |s.slots|
  {
    set i | 0 <= i < n && Stale(s, i, now) :: s.slots[i].value.id
  }

  /** The table after a sweep at `now` has dealt with its first `n` slots. */
  function SweptSlots(s: State, n: nat, now: nat): seq<Option<Slot>> {
    seq(|s.slots|, i requires 0 <= i < |s.slots| => if i < n && Stale(s, i, now) then None else s.slots[i])
  }

  function Sweep(s: State, n: nat, now: nat): State
    requires n <= |s.slots|
  {
    s.(slots := SweptSlots(s, n, now),
       heap := s.heap - StaleIds(s, n, now),
       freed := s.freed + multiset(StaleIds(s, n, now)),
       clock := now)
  }

  function Create(s: State, key: NatKey, at: nat, place: Option<Placement>): State {
    s.(heap := s.heap[s.allocs := Entry(key.src, Endpoint(PUBLIC_IP, s.nextPort), key.dst, at)],
       nextPort := NextPort(s.nextPort),
       allocs := s.allocs + 1,
       slots := Add(s.slots, Slot(key, s.allocs), place),
       clock := at)
  }

  function Step(s: State, e: Event): State {
    match e
    case Egress(key, at, place) =>
      var i := Find(s.slots, key, 0);
      if i < |s.slots| then Seen(s, s.slots[i].value.id, at) else Create(s, key, at, place)
    case Ingress(to, at) =>
      var i := FindPublic(s, to, 0);
      if i < |s.slots| then Seen(s, s.slots[i].value.id, at) else s.(clock := at)
    case Cleanup(at) => Sweep(s, |s.slots|, at)
  }

  function Reply(s: State, e: Event): Option<Endpoint>
    requires Neat(s)
  {
    match e
    case Egress(key, _, _) =>
      var i := Find(s.slots, key, 0);
      Some(if i < |s.slots| then s.heap[s.slots[i].value.id].public else Endpoint(PUBLIC_IP, s.nextPort))
    case Ingress(to, _) =>
      var i := FindPublic(s, to, 0);
      if i < |s.slots| then Some(s.heap[s.slots[i].value.id].private_) else None
    case Cleanup(_) => None
  }

  function Run(h: seq<Event>, n: nat, capacity: nat, timeout: nat): State
    requires n <= |h|
  {
    if n == 0 then Init(capacity, timeout) else Step(Run(h, n - 1, capacity, timeout), h[n - 1])
  }

  // ---------------------------------------------------------------- what holds over every run

  /** No key and no entry is in two slots. */
  predicate Distinct(slots: seq<Option<Slot>>) {
    forall i, j :: 0 <= i < |slots| && 0 <= j < |slots| && i != j && slots[i].Some? && slots[j].Some? ==>
      slots[i].value.key != slots[j].value.key && slots[i].value.id != slots[j].value.id
  }

  /** No slot leads to a freed entry or to an entry of another flow; nothing is freed twice. */
  predicate Neat(s: State) {
    && Distinct(s.slots)
    && (forall i :: 0 <= i < |s.slots| && s.slots[i].Some? ==>
          var p := s.slots[i].value;
          p.id in s.heap && s.heap[p.id].private_ == p.key.src && s.heap[p.id].dest == p.key.dst)
    && s.nextPort == PortOf(s.allocs)
    && (forall id :: id in s.heap ==> id < s.allocs && s.heap[id].public == Public(id) && s.heap[id].lastSeen <= s.clock)
    && (forall id :: 0 <= id < s.allocs ==> s.freed[id] == if id in s.heap then 0 else 1)
    && (forall id :: id in s.freed ==> id < s.allocs)
  }

  /** An entry that no slot leads to can never be found, refreshed or freed again. */
  predicate Lost(s: State, id: nat) {
    id in s.heap && forall i :: 0 <= i < |s.slots| && s.slots[i].Some? ==> s.slots[i].value.id != id
  }

  predicate Possible(s: State, e: Event) {
    s.clock <= e.at
  }

  predicate Creates(s: State, e: Event) {
    e.Egress? && Find(s.slots, e.key, 0) == |s.slots|
  }

  /** The slots hold the same pairs, in whatever order. */
  predicate SamePairs(a: seq<Option<Slot>>, b: seq<Option<Slot>>) {
    && (forall i :: 0 <= i < |a| && a[i].Some? ==> a[i] in b)
    && (forall i :: 0 <= i < |b| && b[i].Some? ==> b[i] in a)
  }

  function Partner(i: nat, j: nat, k: nat): nat {
    if k == i then j else if k == j then i else k
  }

  lemma SwapAt(slots: seq<Option<Slot>>, i: nat, j: nat, k: nat)
    requires i < |slots| && j < |slots| && k < |slots|
    ensures Swap(slots, i, j)[k] == slots[Partner(i, j, k)]
    ensures Partner(i, j, Partner(i, j, k)) == k
  {
  }

  lemma SwapKeeps(slots: seq<Option<Slot>>, i: nat, j: nat)
    requires Distinct(slots)
    ensures Distinct(Swap(slots, i, j)) && SamePairs(slots, Swap(slots, i, j))
  {
    if i < |slots| && j < |slots| {
      var r := Swap(slots, i, j);
      forall k | 0 <= k < |slots|
        ensures r[k] == slots[Partner(i, j, k)] && slots[k] == r[Partner(i, j, k)]
        ensures Partner(i, j, Partner(i, j, k)) == k
      {
        SwapAt(slots, i, j, k);
        SwapAt(slots, i, j, Partner(i, j, k));
      }
      hide Swap;
    }
  }

  lemma {:induction false} SwapsKeep(slots: seq<Option<Slot>>, swaps: seq<(nat, nat)>)
    requires Distinct(slots)
    ensures Distinct(Swaps(slots, swaps)) && SamePairs(slots, Swaps(slots, swaps))
    decreases |swaps|
  {
    if swaps != [] {
      SwapKeeps(slots, swaps[0].0, swaps[0].1);
      SwapsKeep(Swap(slots, swaps[0].0, swaps[0].1), swaps[1..]);
    }
  }

  /** Whatever keys the hash moves to make place, an add that fits adds its pair and loses none. */
  lemma AddKeeps(slots: seq<Option<Slot>>, slot: Slot, place: Option<Placement>)
    requires Distinct(slots)
    requires forall i :: 0 <= i < |slots| && slots[i].Some? ==> slots[i].value.key != slot.key && slots[i].value.id != slot.id
    ensures Distinct(Add(slots, slot, place))
    ensures forall p :: Some(p) in Add(slots, slot, place) <==> Some(p) in slots || (p == slot && Fits(slots, place))
  {
    if Fits(slots, place) {
      SwapsKeep(slots, place.value.swaps);
      var m := Swaps(slots, place.value.swaps);
      var r := Add(slots, slot, place);
      forall i | 0 <= i < |m| && m[i].Some? ensures m[i] in r && m[i] in slots {
        assert r[i] == m[i];
      }
      assert r[place.value.at] == Some(slot);
      forall p ensures Some(p) in r <==> Some(p) in slots || p == slot {
      }
    }
  }

  lemma CreateNeat(s: State, key: NatKey, at: nat, place: Option<Placement>)
    requires Neat(s) && s.clock <= at && Find(s.slots, key, 0) == |s.slots|
    ensures Neat(Create(s, key, at, place))
  {
    hide Add, Fits;
    AddKeeps(s.slots, Slot(key, s.allocs), place);
    var t := Create(s, key, at, place);
    forall i | 0 <= i < |t.slots| && t.slots[i].Some?
      ensures var p := t.slots[i].value;
              p.id in t.heap && t.heap[p.id].private_ == p.key.src && t.heap[p.id].dest == p.key.dst
    {
      assert Some(t.slots[i].value) in t.slots;
    }
  }

  lemma SeenNeat(s: State, id: nat, at: nat)
    requires Neat(s) && s.clock <= at
    ensures Neat(Seen(s, id, at))
  {
  }

  lemma SweepNeat(s: State, n: nat, now: nat)
    requires Neat(s) && s.clock <= now && n <= |s.slots|
    ensures Neat(Sweep(s, n, now))
  {
    var t := Sweep(s, n, now);
    forall i | 0 <= i < |t.slots| && t.slots[i].Some? ensures t.slots[i].value.id in t.heap {
      assert t.slots[i] == s.slots[i];
      forall j | 0 <= j < n && Stale(s, j, now) ensures s.slots[j].value.id != s.slots[i].value.id {
        assert i != j;
      }
    }
  }

  /** The table has as many slots after a run as it was made with. */
  lemma {:induction false} SlotCount(h: seq<Event>, n: nat, capacity: nat, timeout: nat)
    requires n <= |h|
    ensures |Run(h, n, capacity, timeout).slots| == capacity
  {
    hide Find, FindPublic, Add;
    if n > 0 { SlotCount(h, n - 1, capacity, timeout); }
  }

  /** An iteration visits exactly the occupied slots, each once, in order. */
  lemma {:induction false} OccupiedIs(slots: seq<Option<Slot>>, n: nat)
    requires n <= |slots|
    ensures forall i, j :: 0 <= i < j < |Occupied(slots, n)| ==> Occupied(slots, n)[i] < Occupied(slots, n)[j]
    ensures forall k :: k in Occupied(slots, n) <==> 0 <= k < n && slots[k].Some?
  {
    if n > 0 {
      OccupiedIs(slots, n - 1);
      var front := Occupied(slots, n - 1);
      assert forall i :: 0 <= i < |front| ==> front[i] in front;
      assert slots[n - 1].Some? ==> Occupied(slots, n)[|front|] == n - 1;
    }
  }

  lemma StepNeat(s: State, e: Event)
    requires Neat(s) && Possible(s, e)
    ensures Neat(Step(s, e))
  {
    hide Neat;
    match e
    case Egress(key, at, place) =>
      var i := Find(s.slots, key, 0);
      if i < |s.slots| { SeenNeat(s, s.slots[i].value.id, at); } else { CreateNeat(s, key, at, place); }
    case Ingress(to, at) =>
      var i := FindPublic(s, to, 0);
      if i < |s.slots| { SeenNeat(s, s.slots[i].value.id, at); } else { ClockNeat(s, at); }
    case Cleanup(at) => SweepNeat(s, |s.slots|, at);
  }

  lemma ClockNeat(s: State, at: nat)
    requires Neat(s) && s.clock <= at
    ensures Neat(s.(clock := at))
  {
  }

  ghost predicate PossibleAt(h: seq<Event>, i: nat, capacity: nat, timeout: nat)
    requires i < |h|
  {
    Possible(Run(h, i, capacity, timeout), h[i])
  }

  ghost predicate PossibleRun(h: seq<Event>, n: nat, capacity: nat, timeout: nat)
    requires n <= |h|
  {
    forall i :: 0 <= i < n ==> PossibleAt(h, i, capacity, timeout)
  }

  lemma {:induction false} RunNeat(h: seq<Event>, n: nat, capacity: nat, timeout: nat)
    requires n <= |h| && PossibleRun(h, n, capacity, timeout)
    ensures Neat(Run(h, n, capacity, timeout))
  {
    hide Step;
    if n > 0 {
      hide Neat, Possible;
      RunNeat(h, n - 1, capacity, timeout);
      assert PossibleAt(h, n - 1, capacity, timeout);
      StepNeat(Run(h, n - 1, capacity, timeout), h[n - 1]);
    }
  }

  // ---------------------------------------------------------------- the sweep

  /** While the counter has not passed 64 bits, the sweep empties exactly the slots idle for longer than the timeout. */
  lemma SweepExact(s: State, now: nat)
    requires Neat(s) && s.clock <= now < 0x1_0000_0000_0000_0000
    ensures var t := Sweep(s, |s.slots|, now);
            && (forall i :: 0 <= i < |s.slots| ==>
                  var expired := s.slots[i].Some? && now - s.heap[s.slots[i].value.id].lastSeen > s.timeout;
                  t.slots[i] == if expired then None else s.slots[i])
            && (forall i :: 0 <= i < |s.slots| && t.slots[i].Some? ==>
                  t.slots[i].value.id in t.heap && t.heap[t.slots[i].value.id] == s.heap[s.slots[i].value.id])
  {
    SweepNeat(s, |s.slots|, now);
  }

  lemma StaleEither(s: State, i: nat, a: nat, b: nat)
    requires Neat(s) && s.clock <= a <= b < 0x1_0000_0000_0000_0000 && i < |s.slots|
    ensures var t := Sweep(s, |s.slots|, a);
            && (Stale(s, i, b) <==> Stale(s, i, a) || Stale(t, i, b))
            && !(Stale(s, i, a) && Stale(t, i, b))
            && (t.slots[i].Some? ==> t.slots[i] == s.slots[i])
  {
    SweepNeat(s, |s.slots|, a);
    var t := Sweep(s, |s.slots|, a);
    if t.slots[i].Some? {
      assert t.slots[i] == s.slots[i] && t.slots[i].value.id in t.heap;
    }
  }

  lemma StaleOverTime(s: State, a: nat, b: nat)
    requires Neat(s) && s.clock <= a <= b < 0x1_0000_0000_0000_0000
    ensures var n, t := |s.slots|, Sweep(s, |s.slots|, a);
            && StaleIds(s, n, a) !! StaleIds(t, n, b)
            && StaleIds(s, n, a) + StaleIds(t, n, b) == StaleIds(s, n, b)
  {
    var n, t := |s.slots|, Sweep(s, |s.slots|, a);
    forall i | 0 <= i < n
      ensures Stale(s, i, b) <==> Stale(s, i, a) || Stale(t, i, b)
      ensures !(Stale(s, i, a) && Stale(t, i, b))
      ensures Stale(t, i, b) ==> t.slots[i] == s.slots[i]
    {
      StaleEither(s, i, a, b);
    }
    assert Distinct(s.slots);
    hide Neat, Sweep, Stale;
    forall i, j | 0 <= i < n && 0 <= j < n && Stale(s, i, a) && Stale(t, j, b)
      ensures s.slots[i].value.id != t.slots[j].value.id
    {
      assert i != j;
    }
  }

  /** A sweep and a later one leave what the later alone would leave; at one time, the second does nothing. */
  lemma SweepTwice(s: State, a: nat, b: nat)
    requires Neat(s) && s.clock <= a <= b < 0x1_0000_0000_0000_0000
    ensures Sweep(Sweep(s, |s.slots|, a), |s.slots|, b) == Sweep(s, |s.slots|, b)
  {
    hide Neat, StaleIds;
    var n, t := |s.slots|, Sweep(s, |s.slots|, a);
    var x, y, z := StaleIds(s, n, a), StaleIds(t, n, b), StaleIds(s, n, b);
    StaleOverTime(s, a, b);
    SweptAlike(s, a, b);
    assert multiset(z) == multiset(x) + multiset(y);
    assert s.heap - x - y == s.heap - z;
  }

  lemma SweptAlike(s: State, a: nat, b: nat)
    requires Neat(s) && s.clock <= a <= b < 0x1_0000_0000_0000_0000
    ensures SweptSlots(Sweep(s, |s.slots|, a), |s.slots|, b) == SweptSlots(s, |s.slots|, b)
  {
    var n, t := |s.slots|, Sweep(s, |s.slots|, a);
    forall i | 0 <= i < n ensures SweptSlots(t, n, b)[i] == SweptSlots(s, n, b)[i] {
      StaleEither(s, i, a, b);
    }
  }

  // ---------------------------------------------------------------- lost entries

  predicate NothingLost(s: State) {
    forall id :: id in s.heap ==> !Lost(s, id)
  }

  lemma KeptUnlessStale(s: State, id: nat, now: nat)
    requires Neat(s) && s.clock <= now && id in s.heap && id !in StaleIds(s, |s.slots|, now)
    ensures Lost(Sweep(s, |s.slots|, now), id) <==> Lost(s, id)
  {
    var t := Sweep(s, |s.slots|, now);
    if !Lost(s, id) {
      var i :| 0 <= i < |s.slots| && s.slots[i].Some? && s.slots[i].value.id == id;
      assert t.slots[i] == s.slots[i];
    } else {
      forall i | 0 <= i < |t.slots| && t.slots[i].Some? ensures t.slots[i].value.id != id {
        assert t.slots[i] == s.slots[i];
      }
    }
  }

  lemma LostAfterCreate(s: State, key: NatKey, at: nat, place: Option<Placement>, id: nat)
    requires Neat(s) && Find(s.slots, key, 0) == |s.slots|
    ensures Lost(Create(s, key, at, place), id) <==> if id == s.allocs then !Fits(s.slots, place) else Lost(s, id)
  {
    hide Add, Fits;
    var t := Create(s, key, at, place);
    AddKeeps(s.slots, Slot(key, s.allocs), place);
    if id == s.allocs {
      if Fits(s.slots, place) { assert Some(Slot(key, id)) in t.slots; }
      forall i | 0 <= i < |t.slots| && t.slots[i].Some? && t.slots[i].value.id == id ensures Fits(s.slots, place) {
        assert Some(t.slots[i].value) in t.slots;
      }
    } else {
      forall i | 0 <= i < |s.slots| && s.slots[i].Some? && s.slots[i].value.id == id ensures !Lost(t, id) {
        assert Some(s.slots[i].value) in s.slots;
        assert Some(s.slots[i].value) in t.slots;
      }
      forall i | 0 <= i < |t.slots| && t.slots[i].Some? && t.slots[i].value.id == id ensures !Lost(s, id) {
        assert Some(t.slots[i].value) in t.slots;
      }
    }
  }

  lemma LostStays(s: State, e: Event, id: nat)
    requires Neat(s) && Possible(s, e) && Lost(s, id)
    ensures Lost(Step(s, e), id)
  {
    match e
    case Egress(key, at, place) =>
      if Find(s.slots, key, 0) == |s.slots| { LostAfterCreate(s, key, at, place, id); }
    case Ingress(_, _) =>
    case Cleanup(at) => KeptUnlessStale(s, id, at);
  }

  /** An entry that gets no slot is lost for good: whatever follows, it is in no slot and never freed. */
  lemma {:induction false} LostForever(h: seq<Event>, i: nat, n: nat, id: nat, capacity: nat, timeout: nat)
    requires i <= n <= |h| && PossibleRun(h, n, capacity, timeout) && Lost(Run(h, i, capacity, timeout), id)
    ensures Lost(Run(h, n, capacity, timeout), id) && Run(h, n, capacity, timeout).freed[id] == 0
  {
    hide Step, Lost, Neat, PossibleAt;
    RunNeat(h, n, capacity, timeout);
    if i < n {
      LostForever(h, i, n - 1, id, capacity, timeout);
      RunNeat(h, n - 1, capacity, timeout);
      StepsPossible(h, n - 1, n, capacity, timeout);
      LostStays(Run(h, n - 1, capacity, timeout), h[n - 1], id);
    }
    LostIsKept(Run(h, n, capacity, timeout), id);
  }

  lemma LostIsKept(s: State, id: nat)
    requires Neat(s) && Lost(s, id)
    ensures s.freed[id] == 0
  {
  }

  lemma StepsPossible(h: seq<Event>, i: nat, n: nat, capacity: nat, timeout: nat)
    requires i < n <= |h| && PossibleRun(h, n, capacity, timeout)
    ensures Possible(Run(h, i, capacity, timeout), h[i])
  {
    assert PossibleAt(h, i, capacity, timeout);
  }

  /** A step loses an entry exactly when it makes one for which the table has no place. */
  lemma NothingLostStep(s: State, e: Event)
    requires Neat(s) && Possible(s, e) && NothingLost(s)
    ensures NothingLost(Step(s, e)) <==> (Creates(s, e) ==> Fits(s.slots, e.place))
  {
    var t := Step(s, e);
    match e
    case Egress(key, at, place) =>
      if Find(s.slots, key, 0) == |s.slots| {
        forall id { LostAfterCreate(s, key, at, place, id); }
        assert s.allocs in t.heap;
      }
    case Ingress(_, _) =>
    case Cleanup(at) =>
      forall id | id in t.heap ensures !Lost(t, id) { KeptUnlessStale(s, id, at); }
  }

  ghost predicate FitsAt(h: seq<Event>, i: nat, capacity: nat, timeout: nat)
    requires i < |h|
  {
    var s := Run(h, i, capacity, timeout);
    Creates(s, h[i]) ==> Fits(s.slots, h[i].place)
  }

  ghost predicate NothingLostAt(h: seq<Event>, i: nat, capacity: nat, timeout: nat)
    requires i <= |h|
  {
    NothingLost(Run(h, i, capacity, timeout))
  }

  lemma NothingLostNext(h: seq<Event>, n: nat, capacity: nat, timeout: nat)
    requires 0 < n <= |h| && PossibleRun(h, n, capacity, timeout)
    ensures NothingLostAt(h, n, capacity, timeout) <==>
            NothingLostAt(h, n - 1, capacity, timeout) && FitsAt(h, n - 1, capacity, timeout)
  {
    hide Step, Neat, Fits, Creates;
    var s := Run(h, n - 1, capacity, timeout);
    assert PossibleAt(h, n - 1, capacity, timeout);
    RunNeat(h, n - 1, capacity, timeout);
    if NothingLost(s) {
      NothingLostStep(s, h[n - 1]);
    } else {
      var id :| id in s.heap && Lost(s, id);
      LostStays(s, h[n - 1], id);
    }
  }

  /** After a run every entry in memory is in the table exactly when every entry made on the way found a place. */
  lemma {:induction false} NothingLostRun(h: seq<Event>, n: nat, capacity: nat, timeout: nat)
    requires n <= |h| && PossibleRun(h, n, capacity, timeout)
    ensures NothingLostAt(h, n, capacity, timeout) <==> forall i :: 0 <= i < n ==> FitsAt(h, i, capacity, timeout)
  {
    hide FitsAt, PossibleAt;
    if n > 0 {
      hide NothingLostAt;
      NothingLostRun(h, n - 1, capacity, timeout);
      NothingLostNext(h, n, capacity, timeout);
    }
  }

  // ---------------------------------------------------------------- refinement of the flow map

  /** The flow map `t` is what the slots hold; an entry expires once idle for more than the timeout. */
  ghost predicate ShowsFlows(s: State, t: F.Table<NatKey>) {
    && t.created == s.allocs
    && (forall i :: 0 <= i < |s.slots| && s.slots[i].Some? ==>
          var p := s.slots[i].value;
          p.id in s.heap && p.key in t.flows
          && t.flows[p.key] == F.Flow(p.key.src, p.id, s.heap[p.id].lastSeen + s.timeout + 1))
    && (forall k :: k in t.flows ==> Find(s.slots, k, 0) < |s.slots|)
  }

  function Abs(e: Event): F.Event<NatKey> {
    match e
    case Egress(key, at, _) => F.Egress(key, key.src, at)
    case Ingress(to, at) => F.Ingress(to, at)
    case Cleanup(at) => F.Expire(at)
  }

  function AbsAll(h: seq<Event>): (a: seq<F.Event<NatKey>>)
    ensures |a| == |h| && forall i :: 0 <= i < |h| ==> a[i] == Abs(h[i])
  {
    seq(|h|, i requires 0 <= i < |h| => Abs(h[i]))
  }

  lemma FindsHolder(slots: seq<Option<Slot>>, i: nat)
    requires Distinct(slots) && i < |slots| && slots[i].Some?
    ensures Find(slots, slots[i].value.key, 0) == i
  {
  }

  /** What the code leaves unchecked when it opens a flow: the add finds a place and the port is not in use. */
  predicate Regular(s: State, e: Event) {
    Creates(s, e) ==>
      Fits(s.slots, e.place) && forall i :: 0 <= i < |s.slots| ==> !Serves(s, i, Endpoint(PUBLIC_IP, s.nextPort))
  }

  lemma RefinesSeen(s: State, t: F.Table<NatKey>, i: nat, at: nat)
    requires Neat(s) && ShowsFlows(s, t) && i < |s.slots| && s.slots[i].Some?
    ensures ShowsFlows(Seen(s, s.slots[i].value.id, at), F.Touched(t, s.slots[i].value.key, at + s.timeout + 1))
  {
    assert forall j :: 0 <= j < |s.slots| && s.slots[j].Some? && j != i ==>
             s.slots[j].value.key != s.slots[i].value.key && s.slots[j].value.id != s.slots[i].value.id;
  }

  /** `slots'` holds the pairs of `slots` and, for a new key, one more. */
  predicate OneMore(slots: seq<Option<Slot>>, slots': seq<Option<Slot>>, slot: Slot) {
    && Distinct(slots')
    && (forall i :: 0 <= i < |slots'| && slots'[i].Some? ==> slots'[i] in slots || slots'[i].value == slot)
    && (forall i :: 0 <= i < |slots| && slots[i].Some? ==> Find(slots', slots[i].value.key, 0) < |slots'|)
    && Find(slots', slot.key, 0) < |slots'|
  }

  lemma AddIsOneMore(s: State, slot: Slot, place: Option<Placement>)
    requires Neat(s) && slot.id == s.allocs && Find(s.slots, slot.key, 0) == |s.slots| && Fits(s.slots, place)
    ensures OneMore(s.slots, Add(s.slots, slot, place), slot)
  {
    hide Add, Fits;
    AddKeeps(s.slots, slot, place);
    var r := Add(s.slots, slot, place);
    forall i | 0 <= i < |r| && r[i].Some? ensures r[i] in s.slots || r[i].value == slot {
      assert Some(r[i].value) in r;
    }
    forall i | 0 <= i < |s.slots| && s.slots[i].Some? ensures Find(r, s.slots[i].value.key, 0) < |r| {
      assert Some(s.slots[i].value) in s.slots;
      assert Some(s.slots[i].value) in r;
    }
    assert Some(slot) in r;
  }

  lemma OneMoreShown(s: State, u: State, t: F.Table<NatKey>, key: NatKey, at: nat)
    requires ShowsFlows(s, t) && OneMore(s.slots, u.slots, Slot(key, s.allocs)) && s.allocs !in s.heap
    requires u.allocs == s.allocs + 1 && u.timeout == s.timeout && s.heap.Keys <= u.heap.Keys
    requires s.allocs in u.heap && u.heap[s.allocs].lastSeen == at
    requires forall id :: id in s.heap ==> u.heap[id] == s.heap[id]
    requires key !in t.flows
    ensures ShowsFlows(u, F.Table(t.flows[key := F.Flow(key.src, s.allocs, at + s.timeout + 1)], s.allocs + 1))
  {
    forall k | k in t.flows ensures Find(u.slots, k, 0) < |u.slots| {
      var i := Find(s.slots, k, 0);
      assert s.slots[i].Some? && s.slots[i].value.key == k;
    }
    forall i | 0 <= i < |s.slots| && s.slots[i].Some? ensures s.slots[i].value.key != key {
    }
  }

  lemma RefinesCreate(s: State, t: F.Table<NatKey>, key: NatKey, at: nat, place: Option<Placement>)
    requires Neat(s) && ShowsFlows(s, t) && Find(s.slots, key, 0) == |s.slots| && Fits(s.slots, place)
    ensures ShowsFlows(Create(s, key, at, place),
                       F.Table(t.flows[key := F.Flow(key.src, s.allocs, at + s.timeout + 1)], s.allocs + 1))
  {
    hide Add, Fits, OneMore;
    AddIsOneMore(s, Slot(key, s.allocs), place);
    OneMoreShown(s, Create(s, key, at, place), t, key, at);
  }

  lemma RefinesCleanup(s: State, t: F.Table<NatKey>, now: nat)
    requires Neat(s) && ShowsFlows(s, t) && s.clock <= now < 0x1_0000_0000_0000_0000
    ensures ShowsFlows(Sweep(s, |s.slots|, now), F.Step(t, F.Expire(now), s.timeout + 1))
  {
    var u := Sweep(s, |s.slots|, now);
    assert u.allocs == s.allocs && u.timeout == s.timeout && |u.slots| == |s.slots|;
    SweepExact(s, now);
    hide Sweep, Neat;
    var w := F.Step(t, F.Expire(now), s.timeout + 1);
    forall k | k in w.flows ensures Find(u.slots, k, 0) < |u.slots| {
      var i := Find(s.slots, k, 0);
      assert u.slots[i] == s.slots[i];
    }
    forall i | 0 <= i < |u.slots| && u.slots[i].Some? ensures u.slots[i] == s.slots[i] {
    }
  }

  /** With unique ports the scan meets only the flow that owns the port. */
  lemma ScanIsOwner(s: State, t: F.Table<NatKey>, to: Endpoint)
    requires Neat(s) && ShowsFlows(s, t) && F.UniquePorts(t)
    ensures var i := FindPublic(s, to, 0);
            F.Owner(t, to) == if i < |s.slots| then Some(s.slots[i].value.key) else None
    ensures forall i, j :: Serves(s, i, to) && Serves(s, j, to) ==> i == j
  {
    forall i: nat | Serves(s, i, to) ensures F.Owns(t, s.slots[i].value.key, to) {
    }
    var o, i := F.Owner(t, to), FindPublic(s, to, 0);
    if o.Some? {
      var j := Find(s.slots, o.value, 0);
      assert Serves(s, j, to);
    }
    if i < |s.slots| {
      assert F.Owns(t, s.slots[i].value.key, to);
    }
  }

  /** The state `s` shows the flow map `t`, and everything needed to go on doing so. */
  ghost predicate Refined(s: State, t: F.Table<NatKey>) {
    Neat(s) && ShowsFlows(s, t) && F.Numbered(t) && F.UniquePorts(t)
  }

  lemma RefinesEgress(s: State, t: F.Table<NatKey>, e: Event)
    requires Neat(s) && ShowsFlows(s, t) && Regular(s, e) && e.Egress?
    ensures ShowsFlows(Step(s, e), F.Step(t, Abs(e), s.timeout + 1))
    ensures Reply(s, e) == F.Reply(t, Abs(e))
  {
    hide Seen, Create, F.Touched, Fits;
    var i := Find(s.slots, e.key, 0);
    if i < |s.slots| {
      RefinesSeen(s, t, i, e.at);
    } else {
      RefinesCreate(s, t, e.key, e.at, e.place);
    }
  }

  lemma RefinesStep(s: State, t: F.Table<NatKey>, e: Event)
    requires Refined(s, t) && Possible(s, e) && Regular(s, e) && e.at < 0x1_0000_0000_0000_0000
    ensures ShowsFlows(Step(s, e), F.Step(t, Abs(e), s.timeout + 1))
    ensures Reply(s, e) == F.Reply(t, Abs(e))
  {
    hide Seen, Create, F.Touched, Sweep, Fits, F.UniquePorts, Find;
    match e
    case Egress(_, _, _) => RefinesEgress(s, t, e);
    case Ingress(to, at) =>
      ScanIsOwner(s, t, to);
      var i := FindPublic(s, to, 0);
      if i < |s.slots| { RefinesSeen(s, t, i, at); }
    case Cleanup(at) => RefinesCleanup(s, t, at);
  }

  lemma RegularIsGuarded(s: State, t: F.Table<NatKey>, e: Event)
    requires Refined(s, t) && Regular(s, e)
    ensures F.Guarded(t, Abs(e))
  {
    if Creates(s, e) {
      forall k | k in t.flows ensures PortOf(t.flows[k].serial) != PortOf(t.created) {
        var i := Find(s.slots, k, 0);
        assert !Serves(s, i, Endpoint(PUBLIC_IP, s.nextPort));
      }
    }
  }

  ghost predicate RegularAt(h: seq<Event>, i: nat, capacity: nat, timeout: nat)
    requires i < |h|
  {
    var s := Run(h, i, capacity, timeout);
    Possible(s, h[i]) && Regular(s, h[i]) && h[i].at < 0x1_0000_0000_0000_0000
  }

  ghost predicate RegularRun(h: seq<Event>, n: nat, capacity: nat, timeout: nat)
    requires n <= |h|
  {
    forall i :: 0 <= i < n ==> RegularAt(h, i, capacity, timeout)
  }

  ghost predicate RefinedAt(h: seq<Event>, i: nat, capacity: nat, timeout: nat)
    requires i <= |h|
  {
    && Refined(Run(h, i, capacity, timeout), F.Run(AbsAll(h), i, timeout + 1))
    && Run(h, i, capacity, timeout).timeout == timeout
  }

  lemma TimeoutFixed(s: State, e: Event)
    ensures Step(s, e).timeout == s.timeout
  {
  }

  lemma StaysRefined(s: State, t: F.Table<NatKey>, e: Event)
    requires Refined(s, t) && Possible(s, e) && Regular(s, e) && e.at < 0x1_0000_0000_0000_0000
    requires F.Numbered(F.Step(t, Abs(e), s.timeout + 1))
    ensures Refined(Step(s, e), F.Step(t, Abs(e), s.timeout + 1)) && Step(s, e).timeout == s.timeout
    ensures F.Guarded(t, Abs(e))
  {
    hide Step, F.Step, Neat, ShowsFlows, Possible, Regular, F.Numbered, F.UniquePorts, F.Guarded;
    RegularIsGuarded(s, t, e);
    RefinesStep(s, t, e);
    StepNeat(s, e);
    TimeoutFixed(s, e);
    F.UniqueStep(t, Abs(e), s.timeout + 1);
  }

  lemma RefinesNext(h: seq<Event>, n: nat, capacity: nat, timeout: nat)
    requires 0 < n <= |h| && RefinedAt(h, n - 1, capacity, timeout) && RegularAt(h, n - 1, capacity, timeout)
    ensures RefinedAt(h, n, capacity, timeout)
    ensures F.GuardedAt(AbsAll(h), n - 1, timeout + 1)
  {
    hide Step, F.Step, Refined, F.Guarded, F.Numbered;
    F.RunNumbered(AbsAll(h), n, timeout + 1);
    StaysRefined(Run(h, n - 1, capacity, timeout), F.Run(AbsAll(h), n - 1, timeout + 1), h[n - 1]);
  }

  lemma RefinesStart(h: seq<Event>, capacity: nat, timeout: nat)
    ensures RefinedAt(h, 0, capacity, timeout)
  {
  }

  /** Along a regular run the slots hold what the flow map holds, and with it every law of the flow map. */
  lemma {:induction false} RefinesRun(h: seq<Event>, n: nat, capacity: nat, timeout: nat)
    requires n <= |h| && RegularRun(h, n, capacity, timeout)
    ensures RefinedAt(h, n, capacity, timeout)
    ensures F.GuardedRun(AbsAll(h), n, timeout + 1)
  {
    hide RefinedAt, RegularAt, F.GuardedAt;
    if n == 0 {
      RefinesStart(h, capacity, timeout);
    } else {
      RefinesRun(h, n - 1, capacity, timeout);
      RefinesNext(h, n, capacity, timeout);
    }
  }

  predicate Holds(s: State, k: NatKey) {
    Find(s.slots, k, 0) < |s.slots|
  }

  lemma HoldsFlows(s: State, t: F.Table<NatKey>)
    requires ShowsFlows(s, t)
    ensures forall k :: Holds(s, k) <==> k in t.flows
  {
  }

  lemma ClockIsLatest(s: State, e: Event)
    ensures Step(s, e).clock == e.at
  {
  }

  /** A regular run's clock does not run backwards: each step leaves it where its event read it. */
  lemma {:induction false} RegularIsMonotone(h: seq<Event>, n: nat, capacity: nat, timeout: nat)
    requires n <= |h| && RegularRun(h, n, capacity, timeout)
    ensures F.Monotone(AbsAll(h), n)
    ensures forall i :: 0 <= i < n ==> AbsAll(h)[i].at <= Run(h, n, capacity, timeout).clock
  {
    hide Step, Regular;
    if n > 0 {
      RegularIsMonotone(h, n - 1, capacity, timeout);
      assert RegularAt(h, n - 1, capacity, timeout);
      ClockIsLatest(Run(h, n - 1, capacity, timeout), h[n - 1]);
      assert AbsAll(h)[n - 1].at == h[n - 1].at;
    }
  }

  /**
   After a regular run a key is in the table exactly when it was used and no cleanup since came more than the timeout
   later; its port is that of its opening and its stamp that of its latest use.
   */
  lemma SlotsAreHistory(h: seq<Event>, n: nat, k: NatKey, capacity: nat, timeout: nat)
    requires n <= |h| && RegularRun(h, n, capacity, timeout)
    ensures var s, a, life := Run(h, n, capacity, timeout), AbsAll(h), timeout + 1;
            && s.allocs == F.Opened(a, n, life)
            && (Holds(s, k) <==> F.Live(a, n, k, life))
            && (Holds(s, k) ==>
                  var p, o, l := s.slots[Find(s.slots, k, 0)].value, F.OpenedAt(a, n, k, life), F.LastTouch(a, n, k, life);
                  && o.Some? && p.id == F.Opened(a, o.value, life)
                  && l.Some? && p.id in s.heap && s.heap[p.id].lastSeen == a[l.value].at)
  {
    hide Run, F.Run, RegularAt, F.GuardedAt, F.Live, F.Opened, F.OpenedAt, Neat, F.Numbered, F.UniquePorts;
    var s, a, life := Run(h, n, capacity, timeout), AbsAll(h), timeout + 1;
    RefinesRun(h, n, capacity, timeout);
    RegularIsMonotone(h, n, capacity, timeout);
    F.StateIsHistory(a, n, life);
    assert F.Recorded(F.Run(a, n, life), a, n, k, life);
    HoldsFlows(s, F.Run(a, n, life));
  }
}
