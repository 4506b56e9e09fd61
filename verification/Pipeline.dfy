/**
 ThreadedParsing: three lcores, rx -> rx_ring -> parser -> tx_ring -> tx, as a transition system whose
 steps are the ring, NIC and free operations of any handler in any interleaving. An mbuf is named by
 the position of its reception, so order is the order of the names.
 */
module Pipeline {

  const BURST_SIZE: nat := 32
  /** A ring created with 1024 slots and no exact-size flag holds 1023. */
  const RING_SIZE: nat := 1023

  /** A handler between operations: its buffer is empty, filled, or the suffix still to be freed. */
  datatype Handler = Idle | Full(buf: seq<nat>) | Dropping(rest: seq<nat>)

  datatype State = State(
    received: nat, rx: Handler, rxRing: seq<nat>, parser: Handler, txRing: seq<nat>, tx: Handler,
    sent: seq<nat>, freed: seq<nat>)

  datatype Action =
    | RxReceive(n: nat) | RxEnqueue(k: nat) | RxFree
    | ParserDequeue(n: nat) | ParserEnqueue(k: nat) | ParserFree
    | TxDequeue(n: nat) | TxSend(k: nat) | TxFree

  function Range(a: nat, b: nat): (r: seq<nat>)
    requires a <= b
    ensures |r| == b - a && forall i :: 0 <= i < b - a ==> r[i] == a + i
  {
    seq(b - a, i requires 0 <= i => a + i)
  }

  function Init(): State {
    State(0, Idle, [], Idle, [], Idle, [], [])
  }

  /** What is left of a buffer of which `k` mbufs were taken: the suffix to free, if any. */
  function Unsent(buf: seq<nat>, k: nat): Handler
    requires k <= |buf|
  {
    if k < |buf| then Dropping(buf[k..]) else Idle
  }

  /** The suffix after one free. */
  function AfterFree(rest: seq<nat>): Handler
    requires |rest| > 0
  {
    if |rest| > 1 then Dropping(rest[1..]) else Idle
  }

  /**
   The rings and the NIC may take any prefix they have room for, so partial bursts are arbitrary.
   A dequeue or a reception of nothing makes the handler spin and is no step.
   */
  predicate Enabled(s: State, a: Action) {
    match a
    case RxReceive(n) => s.rx.Idle? && 0 < n <= BURST_SIZE
    case RxEnqueue(k) => s.rx.Full? && k <= |s.rx.buf| && |s.rxRing| + k <= RING_SIZE
    case RxFree => s.rx.Dropping? && |s.rx.rest| > 0
    case ParserDequeue(n) => s.parser.Idle? && 0 < n <= BURST_SIZE && n <= |s.rxRing|
    case ParserEnqueue(k) => s.parser.Full? && k <= |s.parser.buf| && |s.txRing| + k <= RING_SIZE
    case ParserFree => s.parser.Dropping? && |s.parser.rest| > 0
    case TxDequeue(n) => s.tx.Idle? && 0 < n <= BURST_SIZE && n <= |s.txRing|
    case TxSend(k) => s.tx.Full? && k <= |s.tx.buf|
    case TxFree => s.tx.Dropping? && |s.tx.rest| > 0
  }

  function Step(s: State, a: Action): State
    requires Enabled(s, a)
  {
    match a
    case RxReceive(n) => s.(rx := Full(Range(s.received, s.received + n)), received := s.received + n)
    case RxEnqueue(k) => s.(rxRing := s.rxRing + s.rx.buf[..k], rx := Unsent(s.rx.buf, k))
    case RxFree => s.(freed := s.freed + [s.rx.rest[0]], rx := AfterFree(s.rx.rest))
    case ParserDequeue(n) => s.(parser := Full(s.rxRing[..n]), rxRing := s.rxRing[n..])
    case ParserEnqueue(k) => s.(txRing := s.txRing + s.parser.buf[..k], parser := Unsent(s.parser.buf, k))
    case ParserFree => s.(freed := s.freed + [s.parser.rest[0]], parser := AfterFree(s.parser.rest))
    case TxDequeue(n) => s.(tx := Full(s.txRing[..n]), txRing := s.txRing[n..])
    case TxSend(k) => s.(sent := s.sent + s.tx.buf[..k], tx := Unsent(s.tx.buf, k))
    case TxFree => s.(freed := s.freed + [s.tx.rest[0]], tx := AfterFree(s.tx.rest))
  }

  /** `acts` is a schedule from `s`: each action is enabled where it is taken. */
  predicate Schedule(s: State, acts: seq<Action>)
    decreases |acts|
  {
    acts == [] || (Enabled(s, acts[0]) && Schedule(Step(s, acts[0]), acts[1..]))
  }

  function Run(s: State, acts: seq<Action>): State
    requires Schedule(s, acts)
    decreases |acts|
  {
    if acts == [] then s else Run(Step(s, acts[0]), acts[1..])
  }

  ghost predicate Reachable(s: State) {
    exists acts :: Schedule(Init(), acts) && Run(Init(), acts) == s
  }

  function Min(a: int, b: int): (m: int)
    ensures m <= a && m <= b && (m == a || m == b)
  {
    if a < b then a else b
  }

  /** A ring operation that takes as much as there is and fits, as it does when the other side stands still. */
  predicate Greedy(s: State, a: Action)
    requires Enabled(s, a)
  {
    match a
    case RxEnqueue(k) => k == Min(|s.rx.buf|, RING_SIZE - |s.rxRing|)
    case ParserDequeue(n) => n == Min(BURST_SIZE, |s.rxRing|)
    case ParserEnqueue(k) => k == Min(|s.parser.buf|, RING_SIZE - |s.txRing|)
    case TxDequeue(n) => n == Min(BURST_SIZE, |s.txRing|)
    case _ => true
  }

  /** A greedy enqueue leaves something over only if it fills the ring, a greedy dequeue takes fewer than 32 only if it empties it. */
  lemma GreedyIs(s: State, a: Action)
    requires Capacity(s) && Enabled(s, a)
    ensures a.RxEnqueue? ==> (Greedy(s, a) <==> a.k == |s.rx.buf| || |Step(s, a).rxRing| == 1023)
    ensures a.ParserEnqueue? ==> (Greedy(s, a) <==> a.k == |s.parser.buf| || |Step(s, a).txRing| == 1023)
    ensures a.ParserDequeue? ==> (Greedy(s, a) <==> a.n == 32 || Step(s, a).rxRing == [])
    ensures a.TxDequeue? ==> (Greedy(s, a) <==> a.n == 32 || Step(s, a).txRing == [])
  {
  }

  predicate GreedySchedule(s: State, acts: seq<Action>)
    requires Schedule(s, acts)
    decreases |acts|
  {
    acts == [] || (Greedy(s, acts[0]) && GreedySchedule(Step(s, acts[0]), acts[1..]))
  }

  // ---------------------------------------------------------------- order, ownership, capacity

  function Held(h: Handler): seq<nat> {
    match h
    case Idle => []
    case Full(buf) => buf
    case Dropping(rest) => rest
  }

  /** Everything not yet freed, from the NIC's output back to the latest reception. */
  function Chain(s: State): seq<nat> {
    s.sent + (Held(s.tx) + (s.txRing + (Held(s.parser) + (s.rxRing + Held(s.rx)))))
  }

  predicate Increasing(c: seq<nat>) {
    forall i, j :: 0 <= i < j < |c| ==> c[i] < c[j]
  }

  predicate BufferOk(h: Handler) {
    match h
    case Idle => true
    case Full(buf) => 0 < |buf| <= BURST_SIZE
    case Dropping(rest) => 0 < |rest| <= BURST_SIZE
  }

  predicate Capacity(s: State) {
    && |s.rxRing| <= RING_SIZE && |s.txRing| <= RING_SIZE
    && BufferOk(s.rx) && BufferOk(s.parser) && BufferOk(s.tx)
  }

  /**
   Along the chain the order is that of reception, so nothing is reordered or duplicated; every
   received mbuf is in the chain or freed, once; rings and buffers keep their bounds.
   */
  predicate Inv(s: State) {
    && Increasing(Chain(s))
    && (forall m :: m in Chain(s) ==> m < s.received)
    && multiset(Chain(s)) + multiset(s.freed) == multiset(Range(0, s.received))
    && Capacity(s)
  }

  lemma Append(a: seq<nat>, b: seq<nat>, c: seq<nat>)
    ensures a + (b + c) == (a + b) + c
  {
  }

  lemma Cut(buf: seq<nat>, k: nat, rest: seq<nat>)
    requires k <= |buf|
    ensures buf[..k] + (buf[k..] + rest) == buf + rest
  {
    assert buf[..k] + (buf[k..] + rest) == (buf[..k] + buf[k..]) + rest;
  }

  lemma UnsentHeld(buf: seq<nat>, k: nat)
    requires k <= |buf|
    ensures Held(Unsent(buf, k)) == buf[k..]
  {
  }

  lemma FreeHeld(rest: seq<nat>)
    requires |rest| > 0
    ensures Held(AfterFree(rest)) == rest[1..]
  {
  }

  /** Moving mbufs between buffers and rings, or to the NIC, leaves the chain as it is. */
  lemma MoveKeepsChain(s: State, a: Action)
    requires Enabled(s, a) && !a.RxReceive? && !a.RxFree? && !a.ParserFree? && !a.TxFree?
    ensures Chain(Step(s, a)) == Chain(s)
  {
    match a
    case RxEnqueue(k) =>
      UnsentHeld(s.rx.buf, k);
      assert (s.rxRing + s.rx.buf[..k]) + s.rx.buf[k..] == s.rxRing + s.rx.buf;
    case ParserDequeue(n) =>
      Cut(s.rxRing, n, Held(s.rx));
    case ParserEnqueue(k) =>
      var back := s.rxRing + Held(s.rx);
      UnsentHeld(s.parser.buf, k);
      Cut(s.parser.buf, k, back);
      Append(s.txRing, s.parser.buf[..k], s.parser.buf[k..] + back);
    case TxDequeue(n) =>
      Cut(s.txRing, n, Held(s.parser) + (s.rxRing + Held(s.rx)));
    case TxSend(k) =>
      var back := s.txRing + (Held(s.parser) + (s.rxRing + Held(s.rx)));
      UnsentHeld(s.tx.buf, k);
      Cut(s.tx.buf, k, back);
      Append(s.sent, s.tx.buf[..k], s.tx.buf[k..] + back);
  }

  /** The chain without its element at `i`. */
  function Without(c: seq<nat>, i: nat): seq<nat>
    requires i < |c|
  {
    c[..i] + c[i + 1..]
  }

  lemma CutOut(front: seq<nat>, rest: seq<nat>, back: seq<nat>)
    requires |rest| > 0
    ensures Without(front + (rest + back), |front|) == front + (rest[1..] + back)
    ensures (front + (rest + back))[|front|] == rest[0]
  {
  }

  /** A free takes one mbuf out of the chain and records it; `i` is where it was. */
  lemma FreeFromChain(s: State, a: Action) returns (i: nat)
    requires Enabled(s, a) && (a.RxFree? || a.ParserFree? || a.TxFree?)
    ensures i < |Chain(s)| && Chain(Step(s, a)) == Without(Chain(s), i)
    ensures Step(s, a).freed == s.freed + [Chain(s)[i]] && Step(s, a).received == s.received
  {
    var front, rest, back := FreedPart(s, a);
    i := |front|;
    CutOut(front, rest, back);
  }

  lemma FreedPart(s: State, a: Action) returns (front: seq<nat>, rest: seq<nat>, back: seq<nat>)
    requires Enabled(s, a) && (a.RxFree? || a.ParserFree? || a.TxFree?)
    ensures |rest| > 0 && Chain(s) == front + (rest + back) && Chain(Step(s, a)) == front + (rest[1..] + back)
    ensures Step(s, a).freed == s.freed + [rest[0]] && Step(s, a).received == s.received
  {
    match a {
      case RxFree =>
        front, rest, back := s.sent + (Held(s.tx) + (s.txRing + (Held(s.parser) + s.rxRing))), s.rx.rest, [];
        FreeHeld(rest);
        FlattenRx(s.sent, Held(s.tx), s.txRing, Held(s.parser), s.rxRing, rest);
        FlattenRx(s.sent, Held(s.tx), s.txRing, Held(s.parser), s.rxRing, rest[1..]);
      case ParserFree =>
        front, rest, back := s.sent + (Held(s.tx) + s.txRing), s.parser.rest, s.rxRing + Held(s.rx);
        FreeHeld(rest);
        FlattenParser(s.sent, Held(s.tx), s.txRing, rest + back);
        FlattenParser(s.sent, Held(s.tx), s.txRing, rest[1..] + back);
      case TxFree =>
        front, rest, back := s.sent, s.tx.rest, s.txRing + (Held(s.parser) + (s.rxRing + Held(s.rx)));
        FreeHeld(rest);
    }
  }

  lemma FlattenParser(a: seq<nat>, b: seq<nat>, c: seq<nat>, d: seq<nat>)
    ensures (a + (b + c)) + d == a + (b + (c + d))
  {
  }

  lemma FlattenRx(a: seq<nat>, b: seq<nat>, c: seq<nat>, d: seq<nat>, e: seq<nat>, f: seq<nat>)
    ensures (a + (b + (c + (d + e)))) + (f + []) == a + (b + (c + (d + (e + f))))
  {
    FlattenParser(c, d, e, f);
    FlattenParser(a, b, c + (d + e), f);
    assert f + [] == f;
  }

  lemma WithoutKeeps(c: seq<nat>, i: nat)
    requires i < |c| && Increasing(c)
    ensures Increasing(Without(c, i)) && (forall m :: m in Without(c, i) ==> m in c)
    ensures multiset(Without(c, i)) + multiset{c[i]} == multiset(c)
  {
    var w := Without(c, i);
    forall j | 0 <= j < |w| ensures w[j] == c[if j < i then j else j + 1] {
    }
    assert c == c[..i] + [c[i]] + c[i + 1..];
    assert multiset(c[..i] + [c[i]] + c[i + 1..]) == multiset(c[..i]) + multiset{c[i]} + multiset(c[i + 1..]);
  }

  lemma RangeExtends(a: nat, b: nat)
    requires a <= b
    ensures Range(0, b) == Range(0, a) + Range(a, b)
  {
  }

  lemma IncreasingAppend(c: seq<nat>, a: nat, b: nat)
    requires Increasing(c) && a <= b && forall m :: m in c ==> m < a
    ensures Increasing(c + Range(a, b)) && forall m :: m in c + Range(a, b) ==> m < b
  {
    forall i, j | 0 <= i < j < |c + Range(a, b)| ensures (c + Range(a, b))[i] < (c + Range(a, b))[j] {
      if i < |c| <= j { assert c[i] in c; }
    }
  }

  lemma ReceiveChain(s: State, n: nat)
    requires Enabled(s, RxReceive(n))
    ensures Chain(Step(s, RxReceive(n))) == Chain(s) + Range(s.received, s.received + n)
  {
  }

  lemma ReceiveExtends(s: State, n: nat)
    requires Inv(s) && Enabled(s, RxReceive(n))
    ensures Inv(Step(s, RxReceive(n)))
  {
    hide Chain, Range, Increasing;
    var more := Range(s.received, s.received + n);
    ReceiveChain(s, n);
    RangeExtends(s.received, s.received + n);
    IncreasingAppend(Chain(s), s.received, s.received + n);
    assert multiset(Chain(s) + more) == multiset(Chain(s)) + multiset(more);
    StepCapacity(s, RxReceive(n));
  }

  lemma StepCapacity(s: State, a: Action)
    requires Capacity(s) && Enabled(s, a)
    ensures Capacity(Step(s, a))
  {
  }

  lemma StepInv(s: State, a: Action)
    requires Inv(s) && Enabled(s, a)
    ensures Inv(Step(s, a))
  {
    StepCapacity(s, a);
    if a.RxReceive? {
      ReceiveExtends(s, a.n);
    } else if a.RxFree? || a.ParserFree? || a.TxFree? {
      var i := FreeFromChain(s, a);
      var c := Chain(s);
      WithoutKeeps(c, i);
      hide Step, Chain, Without;
      assert multiset(s.freed + [c[i]]) == multiset(s.freed) + multiset{c[i]};
    } else {
      MoveKeepsChain(s, a);
      hide Chain;
    }
  }

  lemma {:induction false} RunInv(s: State, acts: seq<Action>)
    requires Inv(s) && Schedule(s, acts)
    ensures Inv(Run(s, acts))
    decreases |acts|
  {
    hide Inv;
    if acts != [] {
      StepInv(s, acts[0]);
      RunInv(Step(s, acts[0]), acts[1..]);
    }
  }

  lemma ReachableInv(s: State)
    requires Reachable(s)
    ensures Inv(s)
  {
    var acts :| Schedule(Init(), acts) && Run(Init(), acts) == s;
    assert Inv(Init());
    RunInv(Init(), acts);
  }

  /** Mbufs in the application: in a handler's buffer or in a ring. */
  function InFlight(s: State): nat {
    |Held(s.tx)| + |s.txRing| + |Held(s.parser)| + |s.rxRing| + |Held(s.rx)|
  }

  /**
   In every reachable state: what went out went out in the order of reception; every received mbuf is
   sent, freed or in flight; nobody freed twice, nor freed what is still held or sent.
   */
  lemma OrderAndOwnership(s: State)
    requires Reachable(s)
    ensures Increasing(Chain(s)) && Increasing(s.sent)
    ensures |s.sent| + |s.freed| + InFlight(s) == s.received
    ensures forall i, j :: 0 <= i < j < |s.freed| ==> s.freed[i] != s.freed[j]
    ensures forall m: nat :: 0 <= m < s.received ==> (m in s.freed <==> m !in Chain(s))
  {
    ReachableInv(s);
    var c, all := Chain(s), Range(0, s.received);
    assert |multiset(c)| == |c| && |multiset(s.freed)| == |s.freed| && |multiset(all)| == |all|;
    assert forall i :: 0 <= i < |s.sent| ==> c[i] == s.sent[i];
    RangeOnce(s.received);
    forall m: nat ensures Count(s.freed, m) <= 1 {
      assert Count(all, m) == Count(c, m) + Count(s.freed, m);
    }
    forall i, j | 0 <= i < j < |s.freed| ensures s.freed[i] != s.freed[j] {
      if s.freed[i] == s.freed[j] { TwiceCounted(s.freed, i, j); }
    }
    forall m: nat | 0 <= m < s.received ensures m in s.freed <==> m !in c {
      assert Count(all, m) == Count(c, m) + Count(s.freed, m) && Count(all, m) == 1;
    }
  }

  function Count(s: seq<nat>, m: nat): nat {
    multiset(s)[m]
  }

  lemma {:induction false} RangeOnce(n: nat)
    ensures forall m: nat :: Count(Range(0, n), m) == if m < n then 1 else 0
  {
    if n == 0 {
      assert Range(0, 0) == [];
    } else {
      RangeOnce(n - 1);
      var r := Range(0, n - 1);
      assert Range(0, n) == r + [n - 1];
      forall m: nat ensures Count(Range(0, n), m) == if m < n then 1 else 0 {
        assert Count(r, m) == if m < n - 1 then 1 else 0;
        assert Count(r + [n - 1], m) == Count(r, m) + Count([n - 1], m);
      }
    }
  }

  lemma TwiceCounted(f: seq<nat>, i: nat, j: nat)
    requires i < j < |f| && f[i] == f[j]
    ensures Count(f, f[i]) >= 2
  {
    assert f == f[..i] + [f[i]] + f[i + 1..j] + [f[j]] + f[j + 1..];
  }

  /** The application never holds more than two rings and three buffers; with both NIC queues full the pool of 8192 is not exhausted. */
  lemma InFlightBound(s: State)
    requires Reachable(s)
    ensures InFlight(s) <= 2 * 1023 + 3 * 32 == 2142
    ensures |s.rxRing| <= 1023 && |s.txRing| <= 1023
    ensures |Held(s.rx)| <= 32 && |Held(s.parser)| <= 32 && |Held(s.tx)| <= 32
    ensures InFlight(s) + 1024 + 1024 < 8192
  {
    ReachableInv(s);
  }

  // ---------------------------------------------------------------- the bound is reached

  lemma {:induction false} ScheduleAppend(s: State, acts: seq<Action>, a: Action)
    requires Schedule(s, acts) && Enabled(Run(s, acts), a)
    requires GreedySchedule(s, acts) && Greedy(Run(s, acts), a)
    ensures Schedule(s, acts + [a]) && Run(s, acts + [a]) == Step(Run(s, acts), a) && GreedySchedule(s, acts + [a])
    decreases |acts|
  {
    hide Step, Enabled, Greedy;
    var more := acts + [a];
    if acts == [] {
      assert more[1..] == [];
    } else {
      ScheduleAppend(Step(s, acts[0]), acts[1..], a);
      assert more[1..] == acts[1..] + [a];
    }
  }

  /** Reachable by operations that take all they can. */
  ghost predicate ReachableGreedily(s: State) {
    exists acts :: Schedule(Init(), acts) && GreedySchedule(Init(), acts) && Run(Init(), acts) == s
  }

  lemma ReachNext(s: State, a: Action)
    requires ReachableGreedily(s) && Enabled(s, a) && Greedy(s, a)
    ensures ReachableGreedily(Step(s, a))
  {
    var acts :| Schedule(Init(), acts) && GreedySchedule(Init(), acts) && Run(Init(), acts) == s;
    ScheduleAppend(Init(), acts, a);
  }

  predicate Holds(h: Handler, n: nat) {
    if n == 0 then h.Idle? else h.Full? && |h.buf| == n
  }

  /** Some such state has `r` mbufs in rx_ring, `p` in the parser, `t` in tx_ring and `x` in tx, with rx idle. */
  ghost predicate CanHold(r: nat, p: nat, t: nat, x: nat) {
    exists s :: ReachableGreedily(s) && s.rx.Idle? && |s.rxRing| == r && Holds(s.parser, p) && |s.txRing| == t && Holds(s.tx, x)
  }

  lemma CanReceive(r: nat, p: nat, t: nat, x: nat, k: nat)
    requires CanHold(r, p, t, x) && 0 < k <= BURST_SIZE && r + k <= RING_SIZE
    ensures CanHold(r + k, p, t, x)
  {
    var s :| ReachableGreedily(s) && s.rx.Idle? && |s.rxRing| == r && Holds(s.parser, p) && |s.txRing| == t && Holds(s.tx, x);
    ReachNext(s, RxReceive(k));
    var u := Step(s, RxReceive(k));
    ReachNext(u, RxEnqueue(k));
    var v := Step(u, RxEnqueue(k));
    assert ReachableGreedily(v);
  }

  lemma CanParse(t: nat, x: nat, k: nat)
    requires CanHold(k, 0, t, x) && 0 < k <= BURST_SIZE
    ensures CanHold(0, k, t, x)
  {
    var s :| ReachableGreedily(s) && s.rx.Idle? && |s.rxRing| == k && Holds(s.parser, 0) && |s.txRing| == t && Holds(s.tx, x);
    ReachNext(s, ParserDequeue(k));
    var u := Step(s, ParserDequeue(k));
    assert ReachableGreedily(u);
  }

  lemma CanForward(r: nat, t: nat, x: nat, k: nat)
    requires CanHold(r, k, t, x) && 0 < k && t + k <= RING_SIZE
    ensures CanHold(r, 0, t + k, x)
  {
    var s :| ReachableGreedily(s) && s.rx.Idle? && |s.rxRing| == r && Holds(s.parser, k) && |s.txRing| == t && Holds(s.tx, x);
    ReachNext(s, ParserEnqueue(k));
    var u := Step(s, ParserEnqueue(k));
    assert ReachableGreedily(u);
  }

  lemma CanTake(r: nat, p: nat, k: nat)
    requires CanHold(r, p, k, 0) && 0 < k <= BURST_SIZE
    ensures CanHold(r, p, 0, k)
  {
    var s :| ReachableGreedily(s) && s.rx.Idle? && |s.rxRing| == r && Holds(s.parser, p) && |s.txRing| == k && Holds(s.tx, 0);
    ReachNext(s, TxDequeue(k));
    var u := Step(s, TxDequeue(k));
    assert ReachableGreedily(u);
  }

  lemma {:induction false} CanFillTxRing(t: nat)
    requires t <= RING_SIZE
    ensures CanHold(0, 0, t, BURST_SIZE)
  {
    hide CanHold;
    if t == 0 {
      CanStart();
      CanReceive(0, 0, 0, 0, BURST_SIZE);
      CanParse(0, 0, BURST_SIZE);
      CanForward(0, 0, 0, BURST_SIZE);
      CanTake(0, 0, BURST_SIZE);
    } else {
      CanFillTxRing(t - 1);
      CanReceive(0, 0, t - 1, BURST_SIZE, 1);
      CanParse(t - 1, BURST_SIZE, 1);
      CanForward(0, t - 1, BURST_SIZE, 1);
    }
  }

  lemma CanStart()
    ensures CanHold(0, 0, 0, 0)
  {
    assert Schedule(Init(), []) && GreedySchedule(Init(), []) && Run(Init(), []) == Init();
    assert ReachableGreedily(Init());
  }

  lemma {:induction false} CanFillRxRing(r: nat)
    requires r <= RING_SIZE
    ensures CanHold(r, BURST_SIZE, RING_SIZE, BURST_SIZE)
  {
    hide CanHold;
    if r == 0 {
      CanFillTxRing(RING_SIZE);
      CanReceive(0, 0, RING_SIZE, BURST_SIZE, BURST_SIZE);
      CanParse(RING_SIZE, BURST_SIZE, BURST_SIZE);
    } else {
      CanFillRxRing(r - 1);
      CanReceive(r - 1, BURST_SIZE, RING_SIZE, BURST_SIZE, 1);
    }
  }

  /** The in-flight bound is the best possible: some schedule of operations that take all they can fills every buffer and both rings. */
  lemma InFlightBoundReached()
    ensures exists s :: ReachableGreedily(s) && InFlight(s) == 2142
  {
    var r, p, t, x := RING_SIZE, BURST_SIZE, RING_SIZE, BURST_SIZE;
    CanFillRxRing(r);
    var s :| ReachableGreedily(s) && s.rx.Idle? && |s.rxRing| == r && Holds(s.parser, p) && |s.txRing| == t && Holds(s.tx, x);
    ReachNext(s, RxReceive(BURST_SIZE));
    var u := Step(s, RxReceive(BURST_SIZE));
    assert ReachableGreedily(u) && InFlight(u) == 2142;
  }

  // ---------------------------------------------------------------- draining

  function Weight(h: Handler, w: nat): nat {
    match h
    case Idle => 0
    case Full(buf) => w * |buf|
    case Dropping(rest) => |rest|
  }

  /** How many operations the mbufs in flight can still take part in, counted generously. */
  function Measure(s: State): nat {
    Weight(s.rx, 7) + 6 * |s.rxRing| + Weight(s.parser, 5) + 4 * |s.txRing| + Weight(s.tx, 3)
  }

  predicate NoReception(acts: seq<Action>) {
    forall i :: 0 <= i < |acts| ==> !acts[i].RxReceive?
  }

  lemma StepDrains(s: State, a: Action)
    requires Capacity(s) && Enabled(s, a) && !a.RxReceive?
    ensures Measure(Step(s, a)) < Measure(s)
  {
  }

  /** Once reception stops, every schedule is finite: however partial the bursts, it is no longer than the measure. */
  lemma {:induction false} DrainEnds(s: State, acts: seq<Action>)
    requires Capacity(s) && Schedule(s, acts) && NoReception(acts)
    ensures |acts| + Measure(Run(s, acts)) <= Measure(s)
    ensures Capacity(Run(s, acts))
    decreases |acts|
  {
    hide Capacity, Measure, Step, Enabled;
    if acts != [] {
      StepCapacity(s, acts[0]);
      StepDrains(s, acts[0]);
      DrainEnds(Step(s, acts[0]), acts[1..]);
    }
  }

  /** While an mbuf is in flight some handler can go on, so nothing is ever stuck between the lcores. */
  lemma SomethingCanGoOn(s: State)
    requires Capacity(s) && InFlight(s) > 0
    ensures exists a: Action :: !a.RxReceive? && Enabled(s, a) && Greedy(s, a)
  {
    var a :=
      if s.tx.Full? then TxSend(0) else if s.tx.Dropping? then TxFree
      else if s.txRing != [] then TxDequeue(Min(BURST_SIZE, |s.txRing|))
      else if s.parser.Full? then ParserEnqueue(Min(|s.parser.buf|, RING_SIZE - |s.txRing|))
      else if s.parser.Dropping? then ParserFree
      else if s.rxRing != [] then ParserDequeue(Min(BURST_SIZE, |s.rxRing|))
      else if s.rx.Full? then RxEnqueue(Min(|s.rx.buf|, RING_SIZE - |s.rxRing|)) else RxFree;
    assert !a.RxReceive? && Enabled(s, a) && Greedy(s, a);
  }

  /** A schedule without reception that cannot be continued has emptied both rings and all buffers. */
  lemma DrainedIsEmpty(s: State, acts: seq<Action>)
    requires Reachable(s) && Schedule(s, acts) && NoReception(acts)
    requires forall a: Action :: Enabled(Run(s, acts), a) && Greedy(Run(s, acts), a) ==> a.RxReceive?
    ensures var t := Run(s, acts);
            && t.rxRing == t.txRing == [] && t.rx == t.parser == t.tx == Idle
            && |t.sent| + |t.freed| == t.received
            && |acts| <= Measure(s)
  {
    ReachableInv(s);
    DrainEnds(s, acts);
    RunInv(s, acts);
    var t := Run(s, acts);
    if InFlight(t) > 0 { SomethingCanGoOn(t); }
    assert |multiset(Chain(t)) + multiset(t.freed)| == |multiset(Range(0, t.received))|;
  }
}
