/**
 The three handlers of ThreadedParsing as loops over a local buffer, each pass proved to be a schedule of
 the transition system in `Pipeline`, whatever the other two handlers are in the middle of.
 */
module PipelineProgram {
  import opened Pipeline

  // ---------------------------------------------------------------- a pass as a schedule

  predicate IsFree(a: Action) {
    a.RxFree? || a.ParserFree? || a.TxFree?
  }

  function Frees(a: Action, n: nat): (r: seq<Action>)
    ensures |r| == n && forall i :: 0 <= i < n ==> r[i] == a
  {
    seq(n, i => a)
  }

  function RxPass(n: nat, k: nat): seq<Action>
    requires k <= n
  {
    [RxReceive(n), RxEnqueue(k)] + Frees(RxFree, n - k)
  }

  function ParserPass(n: nat, k: nat): seq<Action>
    requires k <= n
  {
    [ParserDequeue(n), ParserEnqueue(k)] + Frees(ParserFree, n - k)
  }

  function TxPass(n: nat, k: nat): seq<Action>
    requires k <= n
  {
    [TxDequeue(n), TxSend(k)] + Frees(TxFree, n - k)
  }

  /** The handler that `a`, a free, belongs to. */
  function Freeing(s: State, a: Action): Handler
    requires IsFree(a)
  {
    match a
    case RxFree => s.rx
    case ParserFree => s.parser
    case TxFree => s.tx
  }

  /** `s` with that handler's suffix freed in order. */
  function Freed(s: State, a: Action, rest: seq<nat>): State
    requires IsFree(a)
  {
    match a
    case RxFree => s.(rx := Idle, freed := s.freed + rest)
    case ParserFree => s.(parser := Idle, freed := s.freed + rest)
    case TxFree => s.(tx := Idle, freed := s.freed + rest)
  }

  lemma {:induction false} FreesRun(s: State, a: Action, rest: seq<nat>)
    requires IsFree(a) && Freeing(s, a) == (if rest == [] then Idle else Dropping(rest))
    ensures Schedule(s, Frees(a, |rest|)) && Run(s, Frees(a, |rest|)) == Freed(s, a, rest)
    decreases |rest|
  {
    var acts := Frees(a, |rest|);
    if rest == [] {
      assert s.freed + rest == s.freed;
    } else {
      var t := Step(s, a);
      FreesRun(t, a, rest[1..]);
      assert acts[1..] == Frees(a, |rest| - 1);
      assert s.freed + rest == (s.freed + [rest[0]]) + rest[1..];
    }
  }

  lemma TwoThenFrees(s: State, a: Action, b: Action, f: Action, rest: seq<nat>)
    requires Enabled(s, a) && Enabled(Step(s, a), b) && IsFree(f)
    requires var t := Step(Step(s, a), b); Freeing(t, f) == (if rest == [] then Idle else Dropping(rest))
    ensures var acts := [a, b] + Frees(f, |rest|);
            Schedule(s, acts) && Run(s, acts) == Freed(Step(Step(s, a), b), f, rest)
  {
    hide Step, Enabled, Freeing, Freed;
    var acts := [a, b] + Frees(f, |rest|);
    assert acts[1..] == [b] + Frees(f, |rest|) && acts[1..][1..] == Frees(f, |rest|);
    FreesRun(Step(Step(s, a), b), f, rest);
  }

  /** One pass of rx receives `n` mbufs, appends the first `k` to the ring and frees the others. */
  lemma RxPassRuns(s: State, n: nat, k: nat)
    requires s.rx.Idle? && 0 < n <= BURST_SIZE && k <= n && |s.rxRing| + k <= RING_SIZE
    ensures Schedule(s, RxPass(n, k))
    ensures var got := Range(s.received, s.received + n);
            Run(s, RxPass(n, k)) == s.(received := s.received + n, rxRing := s.rxRing + got[..k], freed := s.freed + got[k..])
  {
    TwoThenFrees(s, RxReceive(n), RxEnqueue(k), RxFree, Range(s.received, s.received + n)[k..]);
  }

  /** One pass of the parser moves the first `k` of the `n` mbufs it took to the other ring and frees the others. */
  lemma ParserPassRuns(s: State, n: nat, k: nat)
    requires s.parser.Idle? && 0 < n <= BURST_SIZE && n <= |s.rxRing| && k <= n && |s.txRing| + k <= RING_SIZE
    ensures Schedule(s, ParserPass(n, k))
    ensures Run(s, ParserPass(n, k)) ==
            s.(rxRing := s.rxRing[n..], txRing := s.txRing + s.rxRing[..k], freed := s.freed + s.rxRing[k..n])
  {
    TwoThenFrees(s, ParserDequeue(n), ParserEnqueue(k), ParserFree, s.rxRing[..n][k..]);
    assert s.rxRing[..n][..k] == s.rxRing[..k] && s.rxRing[..n][k..] == s.rxRing[k..n];
  }

  /** One pass of tx hands the first `k` of the `n` mbufs it took to the NIC and frees the others. */
  lemma TxPassRuns(s: State, n: nat, k: nat)
    requires s.tx.Idle? && 0 < n <= BURST_SIZE && n <= |s.txRing| && k <= n
    ensures Schedule(s, TxPass(n, k))
    ensures Run(s, TxPass(n, k)) ==
            s.(txRing := s.txRing[n..], sent := s.sent + s.txRing[..k], freed := s.freed + s.txRing[k..n])
  {
    TwoThenFrees(s, TxDequeue(n), TxSend(k), TxFree, s.txRing[..n][k..]);
    assert s.txRing[..n][..k] == s.txRing[..k] && s.txRing[..n][k..] == s.txRing[k..n];
  }

  // ---------------------------------------------------------------- the program

  /** Of `n` mbufs received from `first` on, the first `k` are in the ring and the others freed; some are freed only if the ring is full. */
  predicate RxOutcome(first: nat, n: nat, k: nat, ring: seq<nat>, ring': seq<nat>, freed: seq<nat>, freed': seq<nat>) {
    && k <= n
    && ring' == ring + Range(first, first + k)
    && freed' == freed + Range(first + k, first + n)
    && (k < n ==> |ring'| == 1023)
  }

  lemma RangeCut(first: nat, n: nat, k: nat)
    requires k <= n
    ensures Range(first, first + n)[..k] == Range(first, first + k)
    ensures Range(first, first + n)[k..] == Range(first + k, first + n)
    ensures forall s: seq<nat> :: s + Range(first, first) == s
  {
  }

  /** The `n` oldest elements are gone from the ring: 32, or fewer and then all. */
  predicate Taken(ring: seq<nat>, ring': seq<nat>, n: nat) {
    n <= 32 && n <= |ring| && ring' == ring[n..] && (n < 32 ==> ring' == [])
  }

  /** A bounded FIFO with DPDK's burst operations: as many as fit, as many as there are. */
  class Ring {
    var items: seq<nat>

    constructor ()
      ensures items == []
    {
      items := [];
    }

    method EnqueueBurst(buff: array<nat>, n: nat) returns (k: nat)
      requires n <= buff.Length && |items| <= RING_SIZE
      modifies this
      ensures k == Min(n, RING_SIZE - |old(items)|)
      ensures k <= n && items == old(items) + buff[..k]
      ensures |items| <= 1023 && (k < n ==> |items| == 1023)
    {
      k := Min(n, RING_SIZE - |items|);
      items := items + buff[..k];
    }

    method DequeueBurst(buff: array<nat>) returns (n: nat)
      modifies this, buff
      ensures n == Min(buff.Length, |old(items)|)
      ensures n <= buff.Length && (n < buff.Length ==> items == [])
      ensures buff[..n] == old(items)[..n] && items == old(items)[n..]
    {
      n := Min(buff.Length, |items|);
      for i := 0 to n
        invariant buff[..i] == items[..i]
        modifies buff
      {
        buff[i] := items[i];
      }
      items := items[n..];
    }
  }

  class Program {
    const rxRing: Ring
    const txRing: Ring
    var received: nat
    var sent: seq<nat>
    var freed: seq<nat>

    constructor ()
      ensures fresh(rxRing) && fresh(txRing) && Valid() && Shows(Init())
    {
      rxRing := new Ring();
      txRing := new Ring();
      received, sent, freed := 0, [], [];
    }

    ghost predicate Valid()
      reads this, rxRing, txRing
    {
      rxRing != txRing && |rxRing.items| <= RING_SIZE && |txRing.items| <= RING_SIZE
    }

    /** The shared part of `s`; the handlers' own buffers are not in the heap while this is read. */
    ghost predicate Shows(s: State)
      reads this, rxRing, txRing
    {
      && s.rxRing == rxRing.items && s.txRing == txRing.items
      && s.received == received && s.sent == sent && s.freed == freed
    }

    /** The loop over the unsent suffix, shared by the three handlers. */
    method FreeSuffix(buff: array<nat>, k: nat, n: nat)
      requires k <= n <= buff.Length
      modifies this`freed
      ensures freed == old(freed) + buff[k..n]
    {
      var i := k;
      while i < n
        invariant k <= i <= n && freed == old(freed) + buff[k..i]
      {
        freed := freed + [buff[i]];
        i := i + 1;
      }
    }

    method EthRxBurst(buff: array<nat>, n: nat)
      requires n <= buff.Length
      modifies this`received, buff
      ensures buff[..n] == Range(old(received), old(received) + n) && received == old(received) + n
    {
      for i := 0 to n
        invariant buff[..i] == Range(received, received + i)
        modifies buff
      {
        buff[i] := received + i;
      }
      received := received + n;
    }

    /** One pass of rx_handler; `nbRx` is what the NIC delivers. */
    method RxHandler(nbRx: nat, ghost s: State)
      requires Valid() && Shows(s) && s.rx.Idle? && nbRx <= BURST_SIZE
      modifies this`received, this`freed, rxRing
      ensures Valid()
      ensures nbRx == 0 ==> Shows(s)
      ensures received == old(received) + nbRx
      ensures exists k :: RxOutcome(old(received), nbRx, k, old(rxRing.items), rxRing.items, old(freed), freed)
      ensures nbRx > 0 ==>
                var acts := RxPass(nbRx, Min(nbRx, RING_SIZE - |s.rxRing|));
                Schedule(s, acts) && Shows(Run(s, acts))
    {
      hide Run, Schedule, RxPass, Range;
      var buff := new nat[BURST_SIZE];
      EthRxBurst(buff, nbRx);
      if nbRx == 0 {
        RangeCut(s.received, 0, 0);
        assert RxOutcome(s.received, 0, 0, s.rxRing, rxRing.items, s.freed, freed);
        return;
      }
      var enq := rxRing.EnqueueBurst(buff, nbRx);
      assert buff[..enq] == buff[..nbRx][..enq] && buff[enq..nbRx] == buff[..nbRx][enq..];
      if enq < nbRx {
        FreeSuffix(buff, enq, nbRx);
      }
      RangeCut(s.received, nbRx, enq);
      assert RxOutcome(s.received, nbRx, enq, s.rxRing, rxRing.items, s.freed, freed);
      RxPassRuns(s, nbRx, enq);
    }

    /** One pass of parser; `__parser` only reads the packet and is no step. */
    method Parser(ghost s: State)
      requires Valid() && Shows(s) && s.parser.Idle?
      modifies this`freed, rxRing, txRing
      ensures Valid()
      ensures s.rxRing == [] ==> Shows(s)
      ensures exists n: nat, k: nat ::
                && k <= n && Taken(old(rxRing.items), rxRing.items, n)
                && txRing.items == old(txRing.items) + old(rxRing.items)[..k]
                && freed == old(freed) + old(rxRing.items)[k..n]
                && (k < n ==> |txRing.items| == 1023)
      ensures s.rxRing != [] ==>
                var n := Min(BURST_SIZE, |s.rxRing|);
                var acts := ParserPass(n, Min(n, RING_SIZE - |s.txRing|));
                Schedule(s, acts) && Shows(Run(s, acts))
    {
      var buff := new nat[BURST_SIZE];
      var dq := rxRing.DequeueBurst(buff);
      assert Taken(s.rxRing, rxRing.items, dq);
      if dq == 0 {
        assert s.txRing + s.rxRing[..0] == txRing.items && s.freed + s.rxRing[0..0] == freed;
        return;
      }
      var enq := txRing.EnqueueBurst(buff, dq);
      assert buff[..enq] == buff[..dq][..enq] && buff[enq..dq] == buff[..dq][enq..];
      if enq < dq {
        FreeSuffix(buff, enq, dq);
      }
      ParserPassRuns(s, dq, enq);
      assert txRing.items == s.txRing + s.rxRing[..enq] && freed == s.freed + s.rxRing[enq..dq];
    }

    /** One pass of tx_handler; `accepted` bounds what the NIC takes. */
    method TxHandler(accepted: nat, ghost s: State)
      requires Valid() && Shows(s) && s.tx.Idle?
      modifies this`sent, this`freed, txRing
      ensures Valid()
      ensures s.txRing == [] ==> Shows(s)
      ensures exists n: nat, k: nat ::
                && k <= n && Taken(old(txRing.items), txRing.items, n)
                && sent == old(sent) + old(txRing.items)[..k]
                && freed == old(freed) + old(txRing.items)[k..n]
                && k <= accepted && (k < n ==> k == accepted)
      ensures s.txRing != [] ==>
                var n := Min(BURST_SIZE, |s.txRing|);
                var acts := TxPass(n, Min(n, accepted));
                Schedule(s, acts) && Shows(Run(s, acts))
    {
      var buff := new nat[BURST_SIZE];
      var dq := txRing.DequeueBurst(buff);
      assert Taken(s.txRing, txRing.items, dq);
      if dq == 0 {
        assert s.sent + s.txRing[..0] == sent && s.freed + s.txRing[0..0] == freed;
        return;
      }
      var k := Min(dq, accepted);
      sent := sent + buff[..k];
      assert buff[..k] == buff[..dq][..k] && buff[k..dq] == buff[..dq][k..];
      if k < dq {
        FreeSuffix(buff, k, dq);
      }
      TxPassRuns(s, dq, k);
      assert sent == s.sent + s.txRing[..k] && freed == s.freed + s.txRing[k..dq];
    }
  }
}
