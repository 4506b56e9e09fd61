/**
 Graphs/rx_packets: a graph of an RX source, a classifier and two print nodes. RX delivers one burst
 in its life; the classifier splits it into fixed 32-slot buffers; every frame is freed downstream.
 */
module GraphWalk {
  import opened NatTypes

  const RX_BURST_SIZE: nat := 32
  const ETHER_TYPE_IPV4: nat := 0x0800
  const ETHER_TYPE_IPV6: nat := 0x86DD

  datatype Frame = Frame(id: nat, etherType: nat)
  datatype Kind = Ipv4 | Ipv6 | Other

  function KindOf(f: Frame): Kind {
    if f.etherType == ETHER_TYPE_IPV4 then Ipv4 else if f.etherType == ETHER_TYPE_IPV6 then Ipv6 else Other
  }

  function Kinds(s: seq<Frame>): (r: seq<Kind>)
    ensures |r| == |s| && forall i :: 0 <= i < |s| ==> r[i] == KindOf(s[i])
  {
    seq(|s|, i requires 0 <= i < |s| => KindOf(s[i]))
  }

  /** The frames of one kind, in order. */
  function Filter(s: seq<Frame>, k: Kind): seq<Frame> {
    if s == [] then []
    else Filter(s[..|s| - 1], k) + if KindOf(s[|s| - 1]) == k then [s[|s| - 1]] else []
  }

  // ---------------------------------------------------------------- the partition

  /** Deals frames back in the order of `kinds`, each from the end of its kind's stream, if the streams are as long as that needs. */
  function Merge(kinds: seq<Kind>, v4: seq<Frame>, v6: seq<Frame>, other: seq<Frame>): Option<seq<Frame>> {
    if kinds == [] then
      if v4 == v6 == other == [] then Some([]) else None
    else
      var front, k := kinds[..|kinds| - 1], kinds[|kinds| - 1];
      var from := match k case Ipv4 => v4 case Ipv6 => v6 case Other => other;
      if from == [] then None
      else
        var less := from[..|from| - 1];
        var rest := match k
          case Ipv4 => Merge(front, less, v6, other)
          case Ipv6 => Merge(front, v4, less, other)
          case Other => Merge(front, v4, v6, less);
        if rest.None? then None else Some(rest.value + [from[|from| - 1]])
  }

  /** One more frame is appended to the stream of its kind and to no other. */
  lemma StreamsGrow(s: seq<Frame>)
    requires s != []
    ensures var front, x := s[..|s| - 1], s[|s| - 1];
            forall k :: Filter(s, k) == Filter(front, k) + if k == KindOf(x) then [x] else []
  {
  }

  lemma FilterNone()
    ensures Kinds([]) == [] && forall k :: Filter([], k) == []
  {
  }

  lemma KindsGrow(s: seq<Frame>)
    requires s != []
    ensures Kinds(s) == Kinds(s[..|s| - 1]) + [KindOf(s[|s| - 1])]
  {
  }

  lemma MergeNone()
    ensures Merge([], [], [], []) == Some([])
  {
  }

  /** One more frame at the end of the stream of its kind comes out last. */
  lemma MergeGrows(kinds: seq<Kind>, v4: seq<Frame>, v6: seq<Frame>, other: seq<Frame>, k: Kind, x: Frame)
    requires Merge(kinds, v4, v6, other).Some?
    ensures Merge(kinds + [k], v4 + (if Ipv4 == k then [x] else []), v6 + (if Ipv6 == k then [x] else []),
                  other + (if Other == k then [x] else [])) == Some(Merge(kinds, v4, v6, other).value + [x])
  {
    var more := kinds + [k];
    assert more[..|more| - 1] == kinds;
    assert v4 + [] == v4 && v6 + [] == v6 && other + [] == other;
    match k
    case Ipv4 => assert (v4 + [x])[..|v4|] == v4;
    case Ipv6 => assert (v6 + [x])[..|v6|] == v6;
    case Other => assert (other + [x])[..|other|] == other;
  }

  /** Classification loses nothing and keeps the order: from the three streams and the kinds the burst comes back. */
  lemma {:induction false} PartitionRoundTrip(s: seq<Frame>)
    ensures Merge(Kinds(s), Filter(s, Ipv4), Filter(s, Ipv6), Filter(s, Other)) == Some(s)
  {
    hide Filter, KindOf, Kinds, Merge;
    FilterNone();
    if s == [] {
      MergeNone();
    } else {
      var front, x := s[..|s| - 1], s[|s| - 1];
      PartitionRoundTrip(front);
      StreamsGrow(s);
      KindsGrow(s);
      MergeGrows(Kinds(front), Filter(front, Ipv4), Filter(front, Ipv6), Filter(front, Other), KindOf(x), x);
      assert s == front + [x];
    }
  }

  /** A frame is in the stream for IPv4 exactly when it came with EtherType 0x0800, for IPv6 with 0x86DD, else in the third. */
  lemma {:induction false} StreamByEtherType(s: seq<Frame>, f: Frame)
    ensures f in Filter(s, Ipv4) <==> f in s && f.etherType == 0x0800
    ensures f in Filter(s, Ipv6) <==> f in s && f.etherType == 0x86DD
    ensures f in Filter(s, Other) <==> f in s && f.etherType != 0x0800 && f.etherType != 0x86DD
  {
    if s != [] {
      StreamByEtherType(s[..|s| - 1], f);
      assert s == s[..|s| - 1] + [s[|s| - 1]];
    }
  }

  /** Each stream holds its own kind only. */
  lemma {:induction false} FilterIsPure(s: seq<Frame>, k: Kind)
    ensures forall i :: 0 <= i < |Filter(s, k)| ==> KindOf(Filter(s, k)[i]) == k
  {
    if s != [] { FilterIsPure(s[..|s| - 1], k); }
  }

  /** The burst is its three streams together. */
  lemma {:induction false} FilterConserves(s: seq<Frame>)
    ensures multiset(Filter(s, Other)) + multiset(Filter(s, Ipv4)) + multiset(Filter(s, Ipv6)) == multiset(s)
  {
    hide Filter, KindOf;
    FilterNone();
    if s != [] {
      FilterConserves(s[..|s| - 1]);
      CountSnoc(s, Other);
      CountSnoc(s, Ipv4);
      CountSnoc(s, Ipv6);
      assert s == s[..|s| - 1] + [s[|s| - 1]];
      assert multiset(s) == multiset(s[..|s| - 1]) + multiset{s[|s| - 1]};
    }
  }

  lemma CountSnoc(s: seq<Frame>, k: Kind)
    requires s != []
    ensures var x := s[|s| - 1];
            multiset(Filter(s, k)) == multiset(Filter(s[..|s| - 1], k)) + if KindOf(x) == k then multiset{x} else multiset{}
  {
  }

  /** The writes the classifier makes while it reads `s` all fall within the slots of its two local buffers. */
  ghost predicate WritesInBounds(s: seq<Frame>) {
    forall n :: 0 <= n < |s| ==>
      && (KindOf(s[n]) == Ipv4 ==> |Filter(s[..n], Ipv4)| < RX_BURST_SIZE)
      && (KindOf(s[n]) == Ipv6 ==> |Filter(s[..n], Ipv6)| < RX_BURST_SIZE)
  }

  predicate Fits(s: seq<Frame>) {
    |Filter(s, Ipv4)| <= RX_BURST_SIZE && |Filter(s, Ipv6)| <= RX_BURST_SIZE
  }

  /**
   The 32-slot buffers are never overrun exactly when neither kind has more than 32 frames. The node itself does
   not check; the library may hand a node more objects than that.
   */
  lemma {:induction false} NoOverrunIff(s: seq<Frame>)
    ensures WritesInBounds(s) <==> Fits(s)
    ensures Fits(s) <==> |Filter(s, Ipv4)| <= 32 && |Filter(s, Ipv6)| <= 32
  {
    if s != [] {
      var n := |s| - 1;
      NoOverrunIff(s[..n]);
      assert WritesInBounds(s) ==> WritesInBounds(s[..n]) by {
        if WritesInBounds(s) {
          forall m | 0 <= m < n ensures s[..n][..m] == s[..m] { }
        }
      }
      if Fits(s) {
        forall m | 0 <= m < |s|
          ensures KindOf(s[m]) == Ipv4 ==> |Filter(s[..m], Ipv4)| < RX_BURST_SIZE
          ensures KindOf(s[m]) == Ipv6 ==> |Filter(s[..m], Ipv6)| < RX_BURST_SIZE
        {
          if m < n { assert s[..n][m] == s[m] && s[..n][..m] == s[..m]; }
        }
      }
    }
  }

  lemma {:induction false} FilterShorter(s: seq<Frame>, k: Kind)
    ensures |Filter(s, k)| <= |s|
  {
    if s != [] { FilterShorter(s[..|s| - 1], k); }
  }

  /** A burst of at most 32 frames, whatever their types, stays within the buffers. */
  lemma BurstFits(s: seq<Frame>)
    requires |s| <= 32
    ensures Fits(s) && WritesInBounds(s)
  {
    FilterShorter(s, Ipv4);
    FilterShorter(s, Ipv6);
    NoOverrunIff(s);
  }

  // ---------------------------------------------------------------- walks

  /** `taken`: the frames the application took from the NIC; `freed`: those it gave back, in order. */
  datatype State = State(rxDone: bool, taken: seq<Frame>, freed: seq<Frame>)

  const Start := State(false, [], [])

  /** One walk while the NIC has `burst` to deliver: the others are freed in the classifier, then each print node frees its own. */
  function Walk(s: State, burst: seq<Frame>): State {
    if s.rxDone || burst == [] then s
    else State(true, s.taken + burst, s.freed + Filter(burst, Other) + Filter(burst, Ipv4) + Filter(burst, Ipv6))
  }

  function Walks(s: State, bursts: seq<seq<Frame>>): State {
    if bursts == [] then s else Walk(Walks(s, bursts[..|bursts| - 1]), bursts[|bursts| - 1])
  }

  /** After any number of walks every frame taken has been freed exactly once, and nothing else has. */
  lemma {:induction false} WalksConserve(bursts: seq<seq<Frame>>)
    ensures multiset(Walks(Start, bursts).freed) == multiset(Walks(Start, bursts).taken)
  {
    if bursts != [] {
      WalksConserve(bursts[..|bursts| - 1]);
      FilterConserves(bursts[|bursts| - 1]);
    }
  }

  /** The application only ever takes the first burst that was not empty; later walks leave everything in the NIC. */
  lemma {:induction false} OneBurstOnly(bursts: seq<seq<Frame>>, i: nat)
    requires i < |bursts| && bursts[i] != [] && forall j :: 0 <= j < i ==> bursts[j] == []
    ensures Walks(Start, bursts).rxDone && Walks(Start, bursts).taken == bursts[i]
  {
    var n := |bursts| - 1;
    if i < n {
      OneBurstOnly(bursts[..n], i);
    } else {
      NothingYet(bursts[..n]);
    }
  }

  lemma {:induction false} NothingYet(bursts: seq<seq<Frame>>)
    requires forall j :: 0 <= j < |bursts| ==> bursts[j] == []
    ensures Walks(Start, bursts) == Start
  {
    if bursts != [] { NothingYet(bursts[..|bursts| - 1]); }
  }

  // ---------------------------------------------------------------- the program

  /** The node processes, with the streams the library keeps between them. */
  class Program {
    var rxDone: bool
    var taken: seq<Frame>
    var freed: seq<Frame>
    var classify: seq<Frame>
    var printIpv4: seq<Frame>
    var printIpv6: seq<Frame>

    constructor ()
      ensures Now() == Start && Quiet()
    {
      rxDone, taken, freed, classify, printIpv4, printIpv6 := false, [], [], [], [], [];
    }

    function Now(): State
      reads this
    {
      State(rxDone, taken, freed)
    }

    /** Between walks no stream holds anything. */
    predicate Quiet()
      reads this
    {
      classify == printIpv4 == printIpv6 == []
    }

    method RxNodeProcess(burst: seq<Frame>) returns (nb: nat)
      requires |burst| <= RX_BURST_SIZE
      modifies this`rxDone, this`taken, this`classify
      ensures nb == if old(rxDone) then 0 else |burst|
      ensures rxDone == (old(rxDone) || burst != [])
      ensures taken == old(taken) + burst[..nb] && classify == old(classify) + burst[..nb]
    {
      if rxDone { return 0; }
      taken := taken + burst;
      if |burst| == 0 { return 0; }
      var objs := new Frame[RX_BURST_SIZE];
      for i := 0 to |burst|
        invariant objs[..i] == burst[..i]
        modifies objs
      {
        objs[i] := burst[i];
      }
      classify := classify + objs[..|burst|];
      rxDone := true;
      return |burst|;
    }

    method ClassifyNodeProcess(objs: seq<Frame>) returns (nb: nat)
      requires Fits(objs)
      modifies this`freed, this`printIpv4, this`printIpv6
      ensures nb == |objs|
      ensures printIpv4 == old(printIpv4) + Filter(objs, Ipv4)
      ensures printIpv6 == old(printIpv6) + Filter(objs, Ipv6)
      ensures freed == old(freed) + Filter(objs, Other)
      ensures forall f :: f in printIpv4[|old(printIpv4)|..] <==> f in objs && f.etherType == 0x0800
      ensures forall f :: f in printIpv6[|old(printIpv6)|..] <==> f in objs && f.etherType == 0x86DD
      ensures forall f :: f in freed[|old(freed)|..] <==> f in objs && f.etherType != 0x0800 && f.etherType != 0x86DD
    {
      hide Filter, Fits;
      FilterNone();
      NoOverrunIff(objs);
      var ipv4Objs, ipv6Objs := new Frame[RX_BURST_SIZE], new Frame[RX_BURST_SIZE];
      var ipv4Count, ipv6Count := 0, 0;
      var i := 0;
      while i < |objs|
        invariant 0 <= i <= |objs|
        invariant 0 <= ipv4Count <= RX_BURST_SIZE && 0 <= ipv6Count <= RX_BURST_SIZE
        invariant ipv4Objs[..ipv4Count] == Filter(objs[..i], Ipv4)
        invariant ipv6Objs[..ipv6Count] == Filter(objs[..i], Ipv6)
        invariant freed == old(freed) + Filter(objs[..i], Other)
        modifies this`freed, ipv4Objs, ipv6Objs
      {
        var m := objs[i];
        ghost var done := objs[..i + 1];
        assert done[..i] == objs[..i] && done[i] == m;
        StreamsGrow(done);
        if m.etherType == ETHER_TYPE_IPV4 {
          ipv4Objs[ipv4Count] := m;
          ipv4Count := ipv4Count + 1;
        } else if m.etherType == ETHER_TYPE_IPV6 {
          ipv6Objs[ipv6Count] := m;
          ipv6Count := ipv6Count + 1;
        } else {
          freed := freed + [m];
        }
        i := i + 1;
      }
      assert objs[..i] == objs;
      if ipv4Count > 0 { printIpv4 := printIpv4 + ipv4Objs[..ipv4Count]; }
      if ipv6Count > 0 { printIpv6 := printIpv6 + ipv6Objs[..ipv6Count]; }
      nb := |objs|;
      assert printIpv4[|old(printIpv4)|..] == Filter(objs, Ipv4) && printIpv6[|old(printIpv6)|..] == Filter(objs, Ipv6);
      assert freed[|old(freed)|..] == Filter(objs, Other);
      forall f
        ensures f in Filter(objs, Ipv4) <==> f in objs && f.etherType == 0x0800
        ensures f in Filter(objs, Ipv6) <==> f in objs && f.etherType == 0x86DD
        ensures f in Filter(objs, Other) <==> f in objs && f.etherType != 0x0800 && f.etherType != 0x86DD
      {
        StreamByEtherType(objs, f);
      }
    }

    /** Both print nodes run this loop: the frame is displayed, then freed. */
    method PrintProcess(objs: seq<Frame>)
      modifies this`freed
      ensures freed == old(freed) + objs
    {
      for i := 0 to |objs|
        invariant freed == old(freed) + objs[..i]
      {
        freed := freed + [objs[i]];
      }
      assert objs[..|objs|] == objs;
    }

    /** rte_graph_walk: the source, then every node whose stream is not empty. */
    method GraphWalk(burst: seq<Frame>)
      requires Quiet() && |burst| <= RX_BURST_SIZE
      modifies this
      ensures Quiet() && Now() == Walk(old(Now()), burst)
    {
      hide Filter, Fits, KindOf, WritesInBounds, Kinds;
      FilterNone();
      var nb := RxNodeProcess(burst);
      assert classify == burst[..nb] && taken == (if nb == 0 then old(taken) else old(taken) + burst);
      if classify != [] {
        BurstFits(classify);
        nb := ClassifyNodeProcess(classify);
        classify := [];
      }
      ghost var got := burst[..nb];
      assert printIpv4 == Filter(got, Ipv4) && printIpv6 == Filter(got, Ipv6) && freed == old(freed) + Filter(got, Other);
      if printIpv4 != [] {
        PrintProcess(printIpv4);
        printIpv4 := [];
      }
      assert freed == old(freed) + Filter(got, Other) + Filter(got, Ipv4);
      if printIpv6 != [] {
        PrintProcess(printIpv6);
        printIpv6 := [];
      }
      assert freed == old(freed) + Filter(got, Other) + Filter(got, Ipv4) + Filter(got, Ipv6);
      if nb == 0 {
        assert got == [] && freed == old(freed);
      } else {
        assert got == burst;
      }
    }
  }
}
