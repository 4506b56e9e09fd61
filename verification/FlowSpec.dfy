/**
 The simple form that every NAT program here refines: one finite map from flow keys to flows,
 in which a flow is known by the serial number of its allocation. Nothing in it is an index, a
 timer wheel, a pointer or a slot. The laws of the translator are proved here once, over every run.
 */
module FlowSpec {
  import opened NatTypes

  /** `inside` is the private endpoint; the public port follows from `serial`. */
  datatype Flow = Flow(inside: Endpoint, serial: nat, deadline: nat)

  datatype Table<!K> = Table(flows: map<K, Flow>, created: nat)

  datatype Event<K> =
    | Egress(key: K, inside: Endpoint, at: nat)
    | Ingress(to: Endpoint, at: nat)
    | Expire(at: nat)

  ghost predicate Owns<K>(t: Table<K>, k: K, to: Endpoint) {
    k in t.flows && Public(t.flows[k].serial) == to
  }

  ghost function Owner<K(!new)>(t: Table<K>, to: Endpoint): (o: Option<K>)
    ensures o.Some? ==> Owns(t, o.value, to)
    ensures o.None? ==> forall k :: !Owns(t, k, to)
  {
    if exists k :: Owns(t, k, to) then
      var k :| Owns(t, k, to);
      Some(k)
    else None
  }

  function Touched<K>(t: Table<K>, k: K, deadline: nat): Table<K>
    requires k in t.flows
  {
    t.(flows := t.flows[k := t.flows[k].(deadline := deadline)])
  }

  ghost function Step<K(!new)>(t: Table<K>, e: Event<K>, life: nat): Table<K> {
    match e
    case Egress(k, inside, at) =>
      if k in t.flows then Touched(t, k, at + life)
      else Table(t.flows[k := Flow(inside, t.created, at + life)], t.created + 1)
    case Ingress(to, at) =>
      var o := Owner(t, to);
      if o.Some? then Touched(t, o.value, at + life) else t
    case Expire(at) =>
      t.(flows := map k | k in t.flows && at < t.flows[k].deadline :: t.flows[k])
  }

  /** The endpoint an event's packet is rewritten to; None when the packet is left alone. */
  ghost function Reply<K(!new)>(t: Table<K>, e: Event<K>): Option<Endpoint> {
    match e
    case Egress(k, _, _) => Some(Public(if k in t.flows then t.flows[k].serial else t.created))
    case Ingress(to, _) =>
      var o := Owner(t, to);
      if o.Some? then Some(t.flows[o.value].inside) else None
    case Expire(_) => None
  }

  /** The state after the first `n` events of `h`. */
  ghost function Run<K(!new)>(h: seq<Event<K>>, n: nat, life: nat): Table<K>
    requires n <= |h|
  {
    if n == 0 then Table(map[], 0) else Step(Run(h, n - 1, life), h[n - 1], life)
  }

  /** The first events decide the first states. */
  lemma {:induction false} RunPrefix<K(!new)>(g: seq<Event<K>>, h: seq<Event<K>>, n: nat, life: nat)
    requires n <= |g| && g <= h
    ensures Run(g, n, life) == Run(h, n, life)
  {
    if n > 0 { RunPrefix(g, h, n - 1, life); }
  }

  // ---------------------------------------------------------------- port uniqueness

  ghost predicate Numbered<K>(t: Table<K>) {
    && (forall k :: k in t.flows ==> t.flows[k].serial < t.created)
    && (forall j, k :: j in t.flows && k in t.flows && t.flows[j].serial == t.flows[k].serial ==> j == k)
  }

  ghost predicate UniquePorts<K>(t: Table<K>) {
    forall j, k :: j in t.flows && k in t.flows && PortOf(t.flows[j].serial) == PortOf(t.flows[k].serial) ==> j == k
  }

  /** The port the counter stands at belongs to no live flow. */
  ghost predicate PortFree<K>(t: Table<K>) {
    forall k :: k in t.flows ==> PortOf(t.flows[k].serial) != PortOf(t.created)
  }

  predicate Creates<K(==)>(t: Table<K>, e: Event<K>) {
    e.Egress? && e.key !in t.flows
  }

  ghost predicate Guarded<K>(t: Table<K>, e: Event<K>) {
    Creates(t, e) ==> PortFree(t)
  }

  ghost predicate GuardedRun<K(!new)>(h: seq<Event<K>>, n: nat, life: nat)
    requires n <= |h|
  {
    forall i :: 0 <= i < n ==> GuardedAt(h, i, life)
  }

  lemma {:induction false} RunNumbered<K(!new)>(h: seq<Event<K>>, n: nat, life: nat)
    requires n <= |h|
    ensures Numbered(Run(h, n, life))
  {
    if n > 0 { RunNumbered(h, n - 1, life); }
  }

  /** The counter's port is taken exactly when some live flow is a multiple of 65536 allocations old. */
  lemma PortFreeByAge<K>(t: Table<K>)
    requires Numbered(t)
    ensures PortFree(t) <==> forall k :: k in t.flows ==> (t.created - t.flows[k].serial) % 65536 != 0
  {
    forall k | k in t.flows
      ensures PortOf(t.flows[k].serial) == PortOf(t.created) <==> (t.created - t.flows[k].serial) % 65536 == 0
    {
      SamePort(t.flows[k].serial, t.created);
    }
  }

  /** While no live flow is more than 65536 allocations old, ports are unique, wherever the counter stands. */
  lemma YoungFlowsUnique<K>(t: Table<K>)
    requires Numbered(t)
    requires forall k :: k in t.flows ==> t.created - t.flows[k].serial <= 65536
    ensures UniquePorts(t)
  {
    forall j, k | j in t.flows && k in t.flows && PortOf(t.flows[j].serial) == PortOf(t.flows[k].serial)
      ensures j == k
    {
      NearPorts(t.flows[j].serial, t.flows[k].serial);
    }
  }

  /** One step keeps ports unique exactly when it opens no flow on a taken port. */
  lemma UniqueStep<K(!new)>(t: Table<K>, e: Event<K>, life: nat)
    requires Numbered(t) && UniquePorts(t)
    ensures UniquePorts(Step(t, e, life)) <==> Guarded(t, e)
  {
    if Creates(t, e) && !PortFree(t) {
      var k :| k in t.flows && PortOf(t.flows[k].serial) == PortOf(t.created);
      var u := Step(t, e, life);
      assert k in u.flows && e.key in u.flows && k != e.key;
    }
  }

  ghost predicate UniqueAt<K(!new)>(h: seq<Event<K>>, i: nat, life: nat)
    requires i <= |h|
  {
    UniquePorts(Run(h, i, life))
  }

  ghost predicate GuardedAt<K(!new)>(h: seq<Event<K>>, i: nat, life: nat)
    requires i < |h|
  {
    Guarded(Run(h, i, life), h[i])
  }

  lemma UniqueNext<K(!new)>(h: seq<Event<K>>, i: nat, life: nat)
    requires i < |h| && UniqueAt(h, i, life)
    ensures UniqueAt(h, i + 1, life) <==> GuardedAt(h, i, life)
  {
    RunNumbered(h, i, life);
    UniqueStep(Run(h, i, life), h[i], life);
  }

  /** A run has unique ports throughout exactly when every flow it opened found the counter's port free. */
  lemma {:induction false} UniqueRun<K(!new)>(h: seq<Event<K>>, n: nat, life: nat)
    requires n <= |h|
    ensures (forall i :: 0 <= i <= n ==> UniqueAt(h, i, life)) <==> GuardedRun(h, n, life)
  {
    if n == 0 {
      assert UniqueAt(h, 0, life);
    } else {
      UniqueRun(h, n - 1, life);
      if UniqueAt(h, n - 1, life) { UniqueNext(h, n - 1, life); }
    }
  }

  lemma GuardedPrefix<K(!new)>(h: seq<Event<K>>, i: nat, n: nat, life: nat)
    requires i <= n <= |h| && GuardedRun(h, n, life)
    ensures GuardedRun(h, i, life) && UniquePorts(Run(h, i, life))
  {
    UniqueRun(h, n, life);
    assert UniqueAt(h, i, life);
  }

  /** One more event: its step, and a guarded run stays guarded if the event is. */
  lemma RunSnoc<K(!new)>(h: seq<Event<K>>, e: Event<K>, life: nat)
    ensures Run(h + [e], |h| + 1, life) == Step(Run(h, |h|, life), e, life)
    ensures GuardedRun(h, |h|, life) && Guarded(Run(h, |h|, life), e) ==> GuardedRun(h + [e], |h| + 1, life)
  {
    hide Step, Guarded;
    RunPrefix(h, h + [e], |h|, life);
    if GuardedRun(h, |h|, life) && Guarded(Run(h, |h|, life), e) {
      forall i | 0 <= i < |h| + 1 ensures GuardedAt(h + [e], i, life) {
        if i < |h| {
          RunPrefix(h, h + [e], i, life);
          assert GuardedAt(h, i, life);
        }
      }
    }
  }

  // ---------------------------------------------------------------- stability and round trip

  /** `k` is live in every state from `i` to `n`. */
  ghost predicate LiveThroughout<K(!new)>(h: seq<Event<K>>, i: nat, n: nat, k: K, life: nat)
    requires n <= |h|
  {
    forall j :: i <= j <= n ==> k in Run(h, j, life).flows
  }

  /** As long as a flow stays live it keeps its public port and its private endpoint. */
  lemma {:induction false} MappingStable<K(!new)>(h: seq<Event<K>>, i: nat, n: nat, k: K, life: nat)
    requires i <= n <= |h| && LiveThroughout(h, i, n, k, life)
    ensures var a, b := Run(h, i, life).flows[k], Run(h, n, life).flows[k];
            a.serial == b.serial && a.inside == b.inside
  {
    if i < n {
      MappingStable(h, i, n - 1, k, life);
      assert k in Run(h, n - 1, life).flows;
    }
  }

  /**
   A packet of `k` left at event `i` from some public endpoint. If the flow has been live ever
   since, then whatever else happened, a reply sent to that endpoint goes to the flow's private
   endpoint, and another packet of `k` leaves from the same public endpoint.
   */
  lemma RoundTrip<K(!new)>(h: seq<Event<K>>, i: nat, n: nat, k: K, at: nat, life: nat)
    requires i < n <= |h| && h[i].Egress? && h[i].key == k
    requires GuardedRun(h, n, life) && LiveThroughout(h, i + 1, n, k, life)
    ensures var sent := Reply(Run(h, i, life), h[i]);
            && sent.Some?
            && Reply(Run(h, n, life), Ingress(sent.value, at)) == Some(Run(h, i + 1, life).flows[k].inside)
            && Reply(Run(h, n, life), Egress(k, h[i].inside, at)) == sent
  {
    MappingStable(h, i + 1, n, k, life);
    GuardedPrefix(h, n, n, life);
    var t := Run(h, n, life);
    var sent := Reply(Run(h, i, life), h[i]);
    assert Run(h, i + 1, life) == Step(Run(h, i, life), h[i], life);
    assert Owns(t, k, sent.value);
    var o := Owner(t, sent.value);
    assert Owns(t, o.value, sent.value);
  }

  /** While `k` is live no packet of another key is given the endpoint of `k`, unless it opens a flow on a taken port. */
  lemma OwnEndpoint<K(!new)>(t: Table<K>, k: K, e: Event<K>)
    requires UniquePorts(t) && k in t.flows && e.Egress? && e.key != k
    ensures Guarded(t, e) ==> Reply(t, e) != Some(Public(t.flows[k].serial))
  {
  }

  lemma SentAndRecorded<K(!new)>(t: Table<K>, e: Event<K>, life: nat)
    requires e.Egress?
    ensures e.key in Step(t, e, life).flows && Reply(t, e) == Some(Public(Step(t, e, life).flows[e.key].serial))
  {
  }

  /** A live flow's endpoint is the one its packet was given at event `i`. */
  lemma SentPort<K(!new)>(h: seq<Event<K>>, i: nat, n: nat, life: nat)
    requires i < n <= |h| && h[i].Egress? && LiveThroughout(h, i + 1, n, h[i].key, life)
    ensures h[i].key in Run(h, n, life).flows
    ensures Reply(Run(h, i, life), h[i]) == Some(Public(Run(h, n, life).flows[h[i].key].serial))
  {
    hide Step, Reply;
    MappingStable(h, i + 1, n, h[i].key, life);
    SentAndRecorded(Run(h, i, life), h[i], life);
    assert h[i].key in Run(h, n, life).flows;
  }

  /**
   The three laws of the address and port-dependent mapping, about one packet `h[i]` of flow `k` and a later
   packet `h[n]`: the reply comes back, the flow keeps its endpoint, and no other flow gets it.
   */
  lemma MappingLaws<K(!new)>(h: seq<Event<K>>, i: nat, n: nat, life: nat)
    requires i < n < |h| && h[i].Egress?
    requires GuardedRun(h, n + 1, life) && LiveThroughout(h, i + 1, n, h[i].key, life)
    ensures var sent, was, now := Reply(Run(h, i, life), h[i]), Run(h, i + 1, life), Reply(Run(h, n, life), h[n]);
            && (h[n].Ingress? && sent == Some(h[n].to) ==> now == Some(was.flows[h[i].key].inside))
            && (h[n].Egress? ==> (now == sent <==> h[n].key == h[i].key))
  {
    var k, t := h[i].key, Run(h, n, life);
    assert GuardedAt(h, n, life);
    GuardedPrefix(h, n, n + 1, life);
    RoundTrip(h, i, n, k, h[n].at, life);
    SentPort(h, i, n, life);
    if h[n].Egress? && h[n].key != k { OwnEndpoint(t, k, h[n]); }
  }

  /** No reply reaches a host that owns no live flow on the addressed port, and none is dropped that should not be. */
  lemma DeliveredExactlyToOwner<K(!new)>(t: Table<K>, to: Endpoint, at: nat, inside: Endpoint)
    requires UniquePorts(t)
    ensures Reply(t, Ingress(to, at)) == Some(inside) <==> exists k :: Owns(t, k, to) && t.flows[k].inside == inside
    ensures Reply(t, Ingress(to, at)) == None <==> forall k :: !Owns(t, k, to)
  {
    var o := Owner(t, to);
    if k :| Owns(t, k, to) && t.flows[k].inside == inside {
      assert o.value == k;
    }
  }

  // ---------------------------------------------------------------- the state as a function of the history

  /** The clock does not run backwards in the first `n` events. */
  ghost predicate Monotone<K>(h: seq<Event<K>>, n: nat)
    requires n <= |h|
  {
    forall i, j :: 0 <= i <= j < n ==> h[i].at <= h[j].at
  }

  /** Event `i` uses flow `k`: it leaves with that key, or it arrives at the endpoint `k` then had. */
  ghost predicate Touch<K(!new)>(h: seq<Event<K>>, i: nat, k: K, life: nat)
    requires i < |h|
    decreases i, 1
  {
    match h[i]
    case Egress(key, _, _) => key == k
    case Ingress(to, _) =>
      && Live(h, i, k, life)
      && var o := OpenedAt(h, i, k, life);
         o.Some? && to == Public(Opened(h, o.value, life))
    case Expire(_) => false
  }

  /** Some event used `k`, and no expiry since came as late as that use plus the lifetime. */
  ghost predicate Live<K(!new)>(h: seq<Event<K>>, n: nat, k: K, life: nat)
    requires n <= |h|
    decreases n, 0
  {
    exists i :: 0 <= i < n && Touch(h, i, k, life) && Unexpired(h, i, n, life)
  }

  ghost predicate Unexpired<K>(h: seq<Event<K>>, i: nat, n: nat, life: nat)
    requires i < n <= |h|
  {
    forall j :: i < j < n && h[j].Expire? ==> h[j].at < h[i].at + life
  }

  ghost predicate Opens<K(!new)>(h: seq<Event<K>>, i: nat, life: nat)
    requires i < |h|
    decreases i, 1
  {
    h[i].Egress? && !Live(h, i, h[i].key, life)
  }

  /** How many of the first `n` events opened a flow. */
  ghost function Opened<K(!new)>(h: seq<Event<K>>, n: nat, life: nat): nat
    requires n <= |h|
    decreases n, 0
  {
    if n == 0 then 0 else Opened(h, n - 1, life) + if Opens(h, n - 1, life) then 1 else 0
  }

  /** The latest of the first `n` events that opened a flow for `k`. */
  ghost function OpenedAt<K(!new)>(h: seq<Event<K>>, n: nat, k: K, life: nat): (o: Option<nat>)
    requires n <= |h|
    ensures o.Some? ==> o.value < n
    decreases n, 0
  {
    if n == 0 then None
    else if Opens(h, n - 1, life) && h[n - 1].key == k then Some(n - 1)
    else OpenedAt(h, n - 1, k, life)
  }

  /** The latest of the first `n` events that used `k`. */
  ghost function LastTouch<K(!new)>(h: seq<Event<K>>, n: nat, k: K, life: nat): (o: Option<nat>)
    requires n <= |h|
    ensures o.Some? ==> o.value < n && Touch(h, o.value, k, life)
    ensures forall i :: (if o.Some? then o.value + 1 else 0) <= i < n ==> !Touch(h, i, k, life)
  {
    if n == 0 then None
    else if Touch(h, n - 1, k, life) then Some(n - 1)
    else LastTouch(h, n - 1, k, life)
  }

  /** With a clock that never runs backwards only the latest use matters. */
  lemma LiveByLastTouch<K(!new)>(h: seq<Event<K>>, n: nat, k: K, life: nat)
    requires n <= |h| && Monotone(h, n)
    ensures Live(h, n, k, life) <==>
            LastTouch(h, n, k, life).Some? && Unexpired(h, LastTouch(h, n, k, life).value, n, life)
  {
    if Live(h, n, k, life) {
      var i :| 0 <= i < n && Touch(h, i, k, life) && Unexpired(h, i, n, life);
      assert i <= LastTouch(h, n, k, life).value;
    }
  }

  /** What the table must hold for `k` after `n` events, told from the history alone. */
  ghost predicate Recorded<K(!new)>(t: Table<K>, h: seq<Event<K>>, n: nat, k: K, life: nat)
    requires n <= |h|
  {
    && (k in t.flows <==> Live(h, n, k, life))
    && (k in t.flows ==>
          var o, l := OpenedAt(h, n, k, life), LastTouch(h, n, k, life);
          && o.Some? && l.Some? && h[o.value].Egress?
          && t.flows[k] == Flow(h[o.value].inside, Opened(h, o.value, life), h[l.value].at + life))
  }

  /** Whether event `n` uses `k` is the same question asked of the table. */
  lemma TouchByTable<K(!new)>(t: Table<K>, h: seq<Event<K>>, n: nat, k: K, life: nat)
    requires n < |h| && UniquePorts(t) && Recorded(t, h, n, k, life)
    ensures Touch(h, n, k, life) <==>
            match h[n]
            case Egress(key, _, _) => key == k
            case Ingress(to, _) => Owner(t, to) == Some(k)
            case Expire(_) => false
  {
    if h[n].Ingress? {
      var o := Owner(t, h[n].to);
      if Owns(t, k, h[n].to) {
        assert o == Some(k);
      }
    }
  }

  /** A flow is live after an event if the event used it, or it was live and the event did not expire it. */
  lemma LiveNext<K(!new)>(h: seq<Event<K>>, n: nat, k: K, life: nat)
    requires n < |h| && Monotone(h, n + 1)
    ensures Live(h, n, k, life) ==> LastTouch(h, n, k, life).Some?
    ensures Live(h, n + 1, k, life) <==>
            || Touch(h, n, k, life)
            || (Live(h, n, k, life) && (h[n].Expire? ==> h[n].at < h[LastTouch(h, n, k, life).value].at + life))
  {
    LiveByLastTouch(h, n, k, life);
    LiveByLastTouch(h, n + 1, k, life);
    if Touch(h, n, k, life) {
      assert Unexpired(h, n, n + 1, life);
    } else {
      var l := LastTouch(h, n, k, life);
      assert LastTouch(h, n + 1, k, life) == l;
      if l.Some? {
        assert Unexpired(h, l.value, n + 1, life) <==>
               Unexpired(h, l.value, n, life) && (h[n].Expire? ==> h[n].at < h[l.value].at + life);
      }
    }
  }

  lemma RecordedStep<K(!new)>(t: Table<K>, h: seq<Event<K>>, n: nat, k: K, life: nat)
    requires n < |h| && Monotone(h, n + 1) && UniquePorts(t) && t.created == Opened(h, n, life)
    requires Recorded(t, h, n, k, life)
    requires h[n].Egress? ==> Recorded(t, h, n, h[n].key, life)
    ensures Recorded(Step(t, h[n], life), h, n + 1, k, life)
  {
    TouchByTable(t, h, n, k, life);
    LiveNext(h, n, k, life);
    var u := Step(t, h[n], life);
    match h[n]
    case Egress(key, inside, at) =>
      assert Opens(h, n, life) <==> key !in t.flows;
      assert key != k ==> (k in u.flows <==> k in t.flows);
    case Ingress(to, at) =>
      assert k in u.flows <==> k in t.flows;
    case Expire(at) =>
      assert k in u.flows <==> k in t.flows && at < t.flows[k].deadline;
  }

  /**
   After any run the whole table is the one recomputed from the history: a key is present exactly
   when it was used and no later expiry reached that use plus the lifetime, its port is the one
   counted from the openings, and its deadline comes from its latest use in either direction.
   */
  lemma {:induction false} StateIsHistory<K(!new)>(h: seq<Event<K>>, n: nat, life: nat)
    requires n <= |h| && Monotone(h, n) && GuardedRun(h, n, life)
    ensures Run(h, n, life).created == Opened(h, n, life)
    ensures forall k :: Recorded(Run(h, n, life), h, n, k, life)
  {
    if n > 0 {
      StateIsHistory(h, n - 1, life);
      GuardedPrefix(h, n - 1, n, life);
      var t := Run(h, n - 1, life);
      forall k ensures Recorded(Run(h, n, life), h, n, k, life) {
        assert Recorded(t, h, n - 1, k, life);
        RecordedStep(t, h, n - 1, k, life);
      }
      if h[n - 1].Egress? {
        assert Recorded(t, h, n - 1, h[n - 1].key, life);
      }
    }
  }
}
