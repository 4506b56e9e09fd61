/** Reachable states in which the two-table NAT misbehaves: what the conditions of `Admitted` are for. */
module TwoTableScenarios {
  import opened NatTypes
  import opened Rte
  import opened TwoTableNat
  import F = FlowSpec

  /** A run on which the condition of `TwoTablePorts.PortKeptIff` fails, from the empty program. */
  lemma FailedAddRemaps(key: FlowKey, revRoom: bool, hz: nat)
    ensures var h := [Egress(key, 0, false, revRoom), Egress(key, 0, true, true)];
            && Safe(Run(h, 0, hz)) && Reply(Run(h, 0, hz), h[0]) == Some(Endpoint(PUBLIC_IP, 10000))
            && Safe(Run(h, 1, hz)) && Reply(Run(h, 1, hz), h[1]) == Some(Endpoint(PUBLIC_IP, 10001))
  {
    var h := [Egress(key, 0, false, revRoom), Egress(key, 0, true, true)];
    RunSafe(h, 0, hz);
    RunSafe(h, 1, hz);
    assert Run(h, 1, hz) == Step(Init(hz), h[0]);
    assert PortOf(1) == 10001;
  }

  function Time(round: nat, life: nat): nat {
    if round <= 1 then 0 else Time(round - 1, life) + life
  }

  /** In each round `a` is used again and `b`, just expired, is opened anew. */
  function Rounds(n: nat, a: FlowKey, b: FlowKey, life: nat): (h: seq<Event>)
    ensures |h| == 3 * n
  {
    if n == 0 then []
    else
      var t := Time(n, life);
      Rounds(n - 1, a, b, life) + [Egress(a, t, true, true), Manage(t), Egress(b, t, true, true)]
  }

  function Made(id: nat, key: FlowKey): Entry {
    Entry(key, Public(id), key.src, Public(id))
  }

  /** Only `a`, as allocation 0, after `n` allocations. */
  function Alone(n: nat, a: FlowKey, hz: nat, deadline: nat, freed: multiset<nat>): State {
    State(map[a := 0], map[Public(0) := 0], PortOf(n), hz, map[0 := Made(0, a)], map[0 := deadline], n, freed, false)
  }

  /** `a` as allocation 0 and `b` as allocation `n`, on different ports. */
  function Both(n: nat, a: FlowKey, b: FlowKey, hz: nat, ta: nat, tb: nat, freed: multiset<nat>): State {
    State(map[a := 0, b := n], map[Public(0) := 0, Public(n) := n], PortOf(n + 1), hz,
          map[0 := Made(0, a), n := Made(n, b)], map[0 := ta, n := tb], n + 1, freed, false)
  }

  function Freed(n: nat): multiset<nat> {
    if n <= 1 then multiset{} else Freed(n - 1) + multiset{n - 1}
  }

  lemma Opening(n: nat, a: FlowKey, b: FlowKey, hz: nat, ta: nat, t: nat, freed: multiset<nat>)
    requires 0 < n && a != b
    ensures var u := Step(Alone(n, a, hz, ta, freed), Egress(b, t, true, true));
            if n % 65536 != 0 then u == Both(n, a, b, hz, ta, t + 5 * hz, freed)
            else u.fwd == map[a := 0, b := n] && u.rev == map[Public(0) := n] && u.heap == map[0 := Made(0, a), n := Made(n, b)]
  {
    SamePort(0, n);
  }

  lemma DropSecond<K, V>(a: K, b: K, x: V, y: V)
    requires a != b
    ensures map[a := x, b := y] - {b} == map[a := x]
  {
  }

  lemma Expiring(n: nat, a: FlowKey, b: FlowKey, hz: nat, ta: nat, tb: nat, t: nat, freed: multiset<nat>)
    requires 0 < n && a != b && tb <= t < ta && Public(n) != Public(0)
    ensures Step(Both(n, a, b, hz, ta, tb, freed), Manage(t)) == Alone(n + 1, a, hz, ta, freed + multiset{n})
  {
    hide PortOf;
    var s := Both(n, a, b, hz, ta, tb, freed);
    assert Due(s, t) == {n};
    assert FwdKeys(s.heap, {n}) == {b} && RevKeys(s.heap, {n}) == {Public(n)};
    assert multiset({n}) == multiset{n};
    DropSecond(a, b, 0, n);
    DropSecond(Public(0), Public(n), 0, n);
    DropSecond(0, n, Made(0, a), Made(n, b));
    DropSecond(0, n, ta, tb);
  }

  lemma Using(n: nat, a: FlowKey, b: FlowKey, hz: nat, deadline: nat, t: nat, freed: multiset<nat>)
    requires 0 < n && a != b
    ensures Step(Both(n, a, b, hz, deadline, deadline, freed), Egress(a, t, true, true)) ==
            Both(n, a, b, hz, t + 5 * hz, deadline, freed)
  {
    assert map[0 := deadline, n := deadline][0 := t + 5 * hz] == map[0 := t + 5 * hz, n := deadline];
  }

  /** `a` is used at time `t`, and then the timer run at `t` expires `b`. */
  lemma Renewing(n: nat, a: FlowKey, b: FlowKey, hz: nat, deadline: nat, t: nat, freed: multiset<nat>)
    requires 0 < n < 65536 && a != b && 0 < hz && deadline <= t
    ensures Step(Step(Both(n, a, b, hz, deadline, deadline, freed), Egress(a, t, true, true)), Manage(t)) ==
            Alone(n + 1, a, hz, t + 5 * hz, freed + multiset{n})
  {
    hide Step, Both, Alone, PortOf;
    assert Public(n) != Public(0) by { SamePort(0, n); }
    Using(n, a, b, hz, deadline, t, freed);
    Expiring(n, a, b, hz, t + 5 * hz, deadline, t, freed);
  }

  lemma FirstUse(a: FlowKey, hz: nat)
    requires 0 < hz
    ensures Step(Step(Init(hz), Egress(a, 0, true, true)), Manage(0)) == Alone(1, a, hz, 5 * hz, multiset{})
  {
    var s := Alone(1, a, hz, 5 * hz, multiset{});
    assert Step(Init(hz), Egress(a, 0, true, true)) == s;
    assert Due(s, 0) == {};
    FireNothing(s);
  }

  lemma LastRound(n: nat, a: FlowKey, b: FlowKey, hz: nat)
    requires 0 < n
    ensures var h, g := Rounds(n, a, b, 5 * hz), Rounds(n - 1, a, b, 5 * hz);
            var t, s := Time(n, 5 * hz), Run(g, |g|, hz);
            && Run(h, 3 * n - 1, hz) == Step(Step(s, Egress(a, t, true, true)), Manage(t))
            && Run(h, 3 * n, hz) == Step(Run(h, 3 * n - 1, hz), Egress(b, t, true, true))
  {
    hide Step;
    var h, g := Rounds(n, a, b, 5 * hz), Rounds(n - 1, a, b, 5 * hz);
    RunPrefix(g, h, |g|, hz);
    assert Run(h, 3 * n - 2, hz) == Step(Run(h, |g|, hz), h[3 * n - 3]);
    assert Run(h, 3 * n - 1, hz) == Step(Run(h, 3 * n - 2, hz), h[3 * n - 2]);
  }

  lemma {:induction false} RunPrefix(g: seq<Event>, h: seq<Event>, n: nat, hz: nat)
    requires n <= |g| && g <= h
    ensures Run(g, n, hz) == Run(h, n, hz)
  {
    hide Step;
    if n > 0 { RunPrefix(g, h, n - 1, hz); }
  }

  lemma {:induction false} BeforeOpening(n: nat, a: FlowKey, b: FlowKey, hz: nat)
    requires 0 < n <= 65536 && a != b && 0 < hz
    ensures Run(Rounds(n, a, b, 5 * hz), 3 * n - 1, hz) == Alone(n, a, hz, Time(n, 5 * hz) + 5 * hz, Freed(n))
    ensures Run(Rounds(n, a, b, 5 * hz), 3 * n, hz) ==
            Step(Alone(n, a, hz, Time(n, 5 * hz) + 5 * hz, Freed(n)), Egress(b, Time(n, 5 * hz), true, true))
  {
    hide Step, Alone, Both, Init;
    LastRound(n, a, b, hz);
    if n == 1 {
      FirstUse(a, hz);
    } else {
      BeforeOpening(n - 1, a, b, hz);
      var u := Time(n - 1, 5 * hz);
      Opening(n - 1, a, b, hz, u + 5 * hz, u, Freed(n - 1));
      Renewing(n - 1, a, b, hz, u + 5 * hz, Time(n, 5 * hz), Freed(n - 1));
    }
  }

  /**
   With every add succeeding, a flow kept alive while 65536 others come and go loses its reverse
   entry to the newest flow: both leave from the same public endpoint, and what is sent back to it
   reaches only the newer one's host.
   */
  lemma WrapStealsPort(n: nat, a: FlowKey, b: FlowKey, hz: nat)
    requires n == 65536 && a != b && 0 < hz
    ensures var s := Run(Rounds(n, a, b, 5 * hz), 3 * n, hz);
            && Safe(s) && a in s.fwd && b in s.fwd && s.fwd[a] != s.fwd[b]
            && Reply(s, Egress(a, 0, true, true)) == Some(Public(0)) == Reply(s, Egress(b, 0, true, true))
            && Reply(s, Ingress(Public(0), 0)) == Some(b.src)
  {
    hide Step, Run, Safe, Rounds, PortOf, Alone, Freed, Time;
    var t := Time(n, 5 * hz);
    var s := Run(Rounds(n, a, b, 5 * hz), 3 * n, hz);
    BeforeOpening(n, a, b, hz);
    RunSafe(Rounds(n, a, b, 5 * hz), 3 * n, hz);
    Opening(n, a, b, hz, t + 5 * hz, t, Freed(n));
    assert s.heap[0] == Made(0, a) && s.heap[n] == Made(n, b);
    assert Public(n) == Public(0) by { SamePort(0, n); }
  }
}
