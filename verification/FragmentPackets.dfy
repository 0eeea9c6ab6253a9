/** When the disassembler lets a packet go: at once without a latency, and otherwise when it is full or its time is up. */
module FragmentPackets {
  import opened Bytes
  import opened FragmentWire
  import A = FragmentAssemblerSpec
  import opened D = FragmentDisassemblerSpec
  import R = FragmentRoundTrip

  /** There is no room for another chunk, however small. */
  predicate Packed(p: Params, packet: seq<Chunk>) { p.outputMtu - HEADER <= PacketSize(packet) }

  lemma ChunkFitsIn(p: Params, id: nat, data: seq<byte>, used: nat, outUsed: nat)
    requires used <= |data| && OutAvail(p, outUsed) > 0
    ensures outUsed + HEADER + |NextChunk(p, id, data, used, outUsed).data| <= p.outputMtu
  {
  }

  /** Chunk `k` is within the limit on chunks, and shorter only as the last of its frame or to end with the packet. */
  ghost predicate Cut(p: Params, packet: seq<Chunk>, k: nat)
    requires k < |packet|
  {
    var c := packet[k];
    && (p.chunkMtu > 0 ==> |c.data| <= p.chunkMtu)
    && (c.last || |c.data| == p.chunkMtu || (k == |packet| - 1 && PacketSize(packet) == p.outputMtu))
  }

  ghost predicate AllCut(p: Params, packet: seq<Chunk>) { forall k :: 0 <= k < |packet| ==> Cut(p, packet, k) }

  /** The same of chunks written behind `outUsed` bytes. */
  ghost predicate CutBehind(p: Params, outUsed: nat, cs: seq<Chunk>) {
    forall k :: 0 <= k < |cs| ==>
      && (p.chunkMtu > 0 ==> |cs[k].data| <= p.chunkMtu)
      && (cs[k].last || |cs[k].data| == p.chunkMtu || (k == |cs| - 1 && outUsed + PacketSize(cs) == p.outputMtu))
  }

  lemma ChunkCut(p: Params, id: nat, data: seq<byte>, used: nat, outUsed: nat)
    requires p.Ok() && used <= |data| && OutAvail(p, outUsed) > 0
    ensures var c := NextChunk(p, id, data, used, outUsed);
            && (p.chunkMtu > 0 ==> |c.data| <= p.chunkMtu)
            && (c.last || |c.data| == p.chunkMtu || outUsed + HEADER + |c.data| == p.outputMtu)
  {
  }

  lemma CutMore(p: Params, outUsed: nat, c: Chunk, cs: seq<Chunk>)
    requires CutBehind(p, outUsed + HEADER + |c.data|, cs) && (c.last || |c.data| == p.chunkMtu)
    requires p.chunkMtu > 0 ==> |c.data| <= p.chunkMtu
    ensures CutBehind(p, outUsed, [c] + cs)
  {
    hide PacketSize;
    PacketSizeOne(c);
    PacketSizeAppend([c], cs);
    var ds := [c] + cs;
    assert forall k :: 0 < k < |ds| ==> ds[k] == cs[k - 1];
  }

  lemma {:induction false} WrittenCut(p: Params, id: nat, data: seq<byte>, used: nat, outUsed: nat)
    requires p.Ok() && used <= |data| && OutAvail(p, outUsed) > 0
    ensures CutBehind(p, outUsed, Written(p, id, data, used, outUsed))
    decreases |data| - used
  {
    hide PacketSize, NextChunk, Written;
    R.WrittenFirst(p, id, data, used, outUsed);
    var c := NextChunk(p, id, data, used, outUsed);
    var u, o := c.End(), outUsed + HEADER + |c.data|;
    ChunkCut(p, id, data, used, outUsed);
    PacketSizeOne(c);
    if |data| - u > 0 && OutAvail(p, o) > 0 {
      WrittenCut(p, id, data, u, o);
      hide CutBehind;
      CutMore(p, outUsed, c, Written(p, id, data, u, o));
    }
  }

  /** A packet that had chunks already: none of them had to end with it. */
  ghost predicate Unforced(p: Params, out: seq<Chunk>) { AllCut(p, out) && OutAvail(p, PacketSize(out)) > 0 }

  lemma AppendCut(p: Params, out: seq<Chunk>, cs: seq<Chunk>)
    requires Unforced(p, out) && CutBehind(p, PacketSize(out), cs)
    ensures AllCut(p, out + cs)
  {
    hide PacketSize;
    PacketSizeAppend(out, cs);
    var packet := out + cs;
    forall k | 0 <= k < |packet| ensures Cut(p, packet, k) {
      if k < |out| { assert Cut(p, out, k); }
    }
  }

  /** What is written never exceeds the packet. */
  lemma {:induction false} WrittenWithin(p: Params, id: nat, data: seq<byte>, used: nat, outUsed: nat)
    requires p.Ok() && used <= |data| && OutAvail(p, outUsed) > 0
    ensures outUsed + PacketSize(Written(p, id, data, used, outUsed)) <= p.outputMtu
    decreases |data| - used
  {
    hide PacketSize, NextChunk;
    R.WrittenFirst(p, id, data, used, outUsed);
    var c := NextChunk(p, id, data, used, outUsed);
    var u, o := c.End(), outUsed + HEADER + |c.data|;
    ChunkFitsIn(p, id, data, used, outUsed);
    PacketSizeOne(c);
    if |data| - u > 0 && OutAvail(p, o) > 0 {
      WrittenWithin(p, id, data, u, o);
      PacketSizeAppend([c], Written(p, id, data, u, o));
    }
  }

  /**
   What writing does to the packet on offer: it grows, within its size; a negative latency sends it whatever its size, any
   other exactly if it is packed.
   */
  lemma WriteSends(p: Params, id: nat, input: Input, out: seq<Chunk>)
    requires p.Ok() && input.used <= |input.data| && OutAvail(p, PacketSize(out)) > 0
    ensures var s := WriteChunks(p, id, input, out);
            && (p.latency < 0 ==> s.dis.out.None? && |s.packets| == 1)
            && (forall k :: 0 <= k < |s.packets| ==> out < s.packets[k] && PacketSize(s.packets[k]) <= p.outputMtu)
            && (p.latency >= 0 ==> forall k :: 0 <= k < |s.packets| ==> Packed(p, s.packets[k]))
            && (p.latency >= 0 ==> (s.packets == [] <==> s.dis.out.Some?) && |s.packets| <= 1)
            && (s.dis.out.Some? ==> out < s.dis.out.value && !Packed(p, s.dis.out.value))
  {
    var cs := Written(p, id, input.data, input.used, PacketSize(out));
    WrittenWithin(p, id, input.data, input.used, PacketSize(out));
    PacketSizeAppend(out, cs);
    hide Written, PacketSize;
  }

  // ---- without a latency ----

  lemma AtOnceStep(p: Params, d: Dis, e: Event)
    requires p.Ok() && Valid(p, d) && Legal(p, d, e) && p.latency < 0 && R.Open(d) == []
    ensures R.Open(Step(p, d, e).dis) == []
  {
    hide WriteChunks, PacketSize;
    EmptyPacket();
    match e {
      case Send(f) => if d.out.Some? { WriteSends(p, d.id, Input(f, 0), d.out.value); }
      case Recv => if d.input.Some? { WriteSends(p, d.id, d.input.value, []); }
      case Timer =>
      case Cancel =>
    }
  }

  lemma {:induction false} AtOnceRun(p: Params, d: Dis, es: seq<Event>)
    requires p.Ok() && Valid(p, d) && LegalRun(p, d, es) && p.latency < 0 && R.Open(d) == []
    ensures R.Open(Run(p, d, es).dis) == []
    decreases |es|
  {
    hide Step, Valid, Legal;
    if es != [] {
      StepValid(p, d, es[0]);
      AtOnceStep(p, d, es[0]);
      AtOnceRun(p, Step(p, d, es[0]).dis, es[1..]);
    }
  }

  /** Without a latency nothing is held back: a frame is delivered as soon as it is finished. */
  lemma RoundTripAtOnce(p: Params, q: A.Params, es: seq<Event>)
    requires R.Matched(p, q) && p.Ok() && Valid(p, Initial) && LegalRun(p, Initial, es) && CleanRun(p, Initial, es) && p.latency < 0
    ensures var t := Run(p, Initial, es);
            var delivered := A.Run(q, A.Initial, A.Events(Encoded(t.packets))).outs;
            && R.Open(t.dis) == [] && delivered == t.frames
            && (t.dis.input.None? ==> delivered == R.Kept([], es))
  {
    hide Run, LegalRun, CleanRun, A.Run, R.Matched, R.Kept;
    AtOnceRun(p, Initial, es);
    R.RoundTrip(p, q, es);
  }

  // ---- with a latency ----

  /** How many of the packets have room left, and how many times the timer expires. */
  function Loose(p: Params, packets: seq<seq<Chunk>>): nat {
    if packets == [] then 0 else (if Packed(p, packets[0]) then 0 else 1) + Loose(p, packets[1..])
  }

  function Timeouts(es: seq<Event>): nat {
    if es == [] then 0 else (if es[0].Timer? then 1 else 0) + Timeouts(es[1..])
  }

  lemma {:induction false} LooseAppend(p: Params, x: seq<seq<Chunk>>, y: seq<seq<Chunk>>)
    ensures Loose(p, x + y) == Loose(p, x) + Loose(p, y)
  {
    hide Packed;
    if x == [] {
      assert x + y == y;
    } else {
      LooseAppend(p, x[1..], y);
      assert (x + y)[1..] == x[1..] + y;
    }
  }

  ghost predicate AllWithin(p: Params, packets: seq<seq<Chunk>>) {
    forall k :: 0 <= k < |packets| ==> packets[k] != [] && PacketSize(packets[k]) <= p.outputMtu
  }

  lemma WithinAppend(p: Params, x: seq<seq<Chunk>>, y: seq<seq<Chunk>>)
    requires AllWithin(p, x) && AllWithin(p, y)
    ensures AllWithin(p, x + y)
  {
    hide PacketSize;
  }

  /** Every packet fits, and with a latency one that has room left goes only by the timer. */
  lemma PacketStep(p: Params, d: Dis, e: Event)
    requires p.Ok() && Valid(p, d) && Legal(p, d, e)
    ensures var s := Step(p, d, e);
            && |s.packets| <= 1
            && AllWithin(p, s.packets)
            && (p.latency >= 0 ==> Loose(p, s.packets) == if e.Timer? then 1 else 0)
  {
    hide WriteChunks, PacketSize;
    EmptyPacket();
    match e {
      case Send(f) => if d.out.Some? { WriteSends(p, d.id, Input(f, 0), d.out.value); }
      case Recv => if d.input.Some? { WriteSends(p, d.id, d.input.value, []); }
      case Timer =>
      case Cancel =>
    }
  }

  /**
   Over a whole run: every packet fits the MTU; and with a latency those that leave with room for another chunk are just
   as many as the timer lets go, so any other packet is packed.
   */
  lemma {:induction false} PacketsOfRun(p: Params, d: Dis, es: seq<Event>)
    requires p.Ok() && Valid(p, d) && LegalRun(p, d, es)
    ensures var ps := Run(p, d, es).packets;
            && AllWithin(p, ps)
            && (p.latency >= 0 ==> Loose(p, ps) == Timeouts(es))
            && (p.latency < 0 ==> Timeouts(es) == 0)
    decreases |es|
  {
    hide Step, Valid, AllWithin;
    if es == [] {
      NoPackets(p);
    } else {
      StepValid(p, d, es[0]);
      PacketStep(p, d, es[0]);
      var s := Step(p, d, es[0]);
      PacketsOfRun(p, s.dis, es[1..]);
      var rest := Run(p, s.dis, es[1..]).packets;
      LooseAppend(p, s.packets, rest);
      WithinAppend(p, s.packets, rest);
    }
  }

  lemma NoPackets(p: Params)
    ensures AllWithin(p, [])
  {
  }

  // ---- how frames are cut ----

  ghost predicate CutSoFar(p: Params, d: Dis) { d.out.Some? ==> AllCut(p, d.out.value) }

  ghost predicate PacketsCut(p: Params, packets: seq<seq<Chunk>>) { forall k :: 0 <= k < |packets| ==> AllCut(p, packets[k]) }

  lemma WriteCut(p: Params, id: nat, input: Input, out: seq<Chunk>)
    requires p.Ok() && input.used <= |input.data| && OutAvail(p, PacketSize(out)) > 0 && AllCut(p, out)
    ensures var s := WriteChunks(p, id, input, out); CutSoFar(p, s.dis) && PacketsCut(p, s.packets)
  {
    hide Written, PacketSize, AllCut, CutBehind;
    WrittenCut(p, id, input.data, input.used, PacketSize(out));
    AppendCut(p, out, Written(p, id, input.data, input.used, PacketSize(out)));
  }

  lemma CutStep(p: Params, d: Dis, e: Event)
    requires p.Ok() && Valid(p, d) && Legal(p, d, e) && CutSoFar(p, d)
    ensures var s := Step(p, d, e); CutSoFar(p, s.dis) && PacketsCut(p, s.packets)
  {
    hide WriteChunks, PacketSize, AllCut, AllFit;
    EmptyPacket();
    NothingCut(p);
    match e {
      case Send(f) => if d.out.Some? { WriteCut(p, d.id, Input(f, 0), d.out.value); }
      case Recv => if d.input.Some? { WriteCut(p, d.id, d.input.value, []); }
      case Timer =>
      case Cancel =>
    }
  }

  lemma NothingCut(p: Params)
    ensures AllCut(p, [])
  {
  }

  /**
   In every packet of a run, cancels or not: no chunk is longer than the limit on chunks, and one that is shorter is the
   last of its frame, or fills the packet to its last byte.
   */
  lemma {:induction false} ChunksOfRun(p: Params, d: Dis, es: seq<Event>)
    requires p.Ok() && Valid(p, d) && LegalRun(p, d, es) && CutSoFar(p, d)
    ensures CutSoFar(p, Run(p, d, es).dis) && PacketsCut(p, Run(p, d, es).packets)
    decreases |es|
  {
    hide Step, Valid, Legal, CutSoFar, AllCut;
    if es != [] {
      StepValid(p, d, es[0]);
      CutStep(p, d, es[0]);
      ChunksOfRun(p, Step(p, d, es[0]).dis, es[1..]);
    }
  }
}
