/** The disassembler as a value: the frame being written, the packet being filled, the next frame id. */
module FragmentDisassemblerSpec {
  import opened Bytes
  import opened FragmentWire

  /** `chunkMtu` limits chunk payloads if positive; a negative latency means packets are never held back. */
  datatype Params = Params(inputMtu: nat, outputMtu: nat, chunkMtu: int, latency: int) {
    predicate Ok() { inputMtu < 0x1_0000 && HEADER < outputMtu && chunkMtu != 0 }

    /** Payload room of an empty packet. */
    function Room(): int { outputMtu - HEADER }
  }

  datatype Input = Input(data: seq<byte>, used: nat)

  /** `out` is the chunks already written to the packet on offer. */
  datatype Dis = Dis(id: nat, input: Option<Input>, out: Option<seq<Chunk>>)

  const Initial: Dis := Dis(0, None, None)

  function Min(a: int, b: int): int { if a <= b then a else b }

  function PacketSize(cs: seq<Chunk>): nat { |EncodeAll(cs)| }

  /** OUT_AVAIL: payload room left after a further header. */
  function OutAvail(p: Params, outUsed: nat): int { p.outputMtu - outUsed - HEADER }

  function ChunkLen(p: Params, inAvail: nat, outAvail: int): int {
    var n := Min(inAvail, outAvail);
    if p.chunkMtu > 0 then Min(n, p.chunkMtu) else n
  }

  function NextChunk(p: Params, id: nat, data: seq<byte>, used: nat, outUsed: nat): (c: Chunk)
    requires used <= |data| && OutAvail(p, outUsed) > 0
    ensures used < |data| && p.Ok() ==> c.data != []
    ensures c.id == id && c.start == used && c.End() <= |data|
    ensures c.last <==> c.End() == |data|
    ensures c.data == data[used..c.End()]
  {
    var n := ChunkLen(p, |data| - used, OutAvail(p, outUsed));
    Chunk(id, used, n == |data| - used, data[used..used + n])
  }

  /** The chunks one call of write_chunks appends to the packet. */
  function Written(p: Params, id: nat, data: seq<byte>, used: nat, outUsed: nat): (cs: seq<Chunk>)
    requires p.Ok() && used <= |data| && OutAvail(p, outUsed) > 0
    ensures cs != []
    ensures used <= cs[|cs| - 1].End() <= |data|
    decreases |data| - used
  {
    var c := NextChunk(p, id, data, used, outUsed);
    var u, o := c.End(), outUsed + HEADER + |c.data|;
    if |data| - u > 0 && OutAvail(p, o) > 0 then [c] + Written(p, id, data, u, o) else [c]
  }

  datatype Event = Send(frame: seq<byte>) | Recv | Timer | Cancel

  /** What the interfaces allow: one frame at a time, one packet at a time, the timer only while a packet is held. */
  predicate Legal(p: Params, d: Dis, e: Event) {
    match e
    case Send(f) => d.input.None? && |f| <= p.inputMtu
    case Recv => d.out.None?
    case Timer => p.latency >= 0 && d.input.None? && d.out.Some? && d.out.value != []
    case Cancel => d.input.Some? && d.out.None?
  }

  /** A cancel that hits a frame of which nothing was written yet. */
  predicate Clean(d: Dis, e: Event) {
    e.Cancel? && d.input.Some? ==> d.input.value.used == 0
  }

  ghost predicate AllFit(cs: seq<Chunk>) {
    forall i :: 0 <= i < |cs| ==> cs[i].Fits()
  }

  ghost predicate Valid(p: Params, d: Dis) {
    && d.id < 0x1_0000
    && (d.input.Some? ==> |d.input.value.data| <= p.inputMtu && d.input.value.used <= |d.input.value.data| && d.out.None?)
    && (d.input.Some? && d.input.value.used > 0 ==> d.input.value.used < |d.input.value.data|)
    && (d.out.Some? ==> OutAvail(p, PacketSize(d.out.value)) > 0)
    && (d.out.Some? ==> AllFit(d.out.value))
  }

  /** The packets finished by a step and the frames whose input was finished by it. */
  datatype Effect = Effect(dis: Dis, packets: seq<seq<Chunk>>, frames: seq<seq<byte>>)

  /** A frame used up is finished; a packet that is full, or is never held back, is sent. */
  function Close(p: Params, id: nat, data: seq<byte>, used: nat, packet: seq<Chunk>): Effect {
    var done, full := used == |data|, OutAvail(p, PacketSize(packet)) <= 0 || p.latency < 0;
    Effect(
      Dis(if done then (id + 1) % 0x1_0000 else id,
          if done then None else Some(Input(data, used)),
          if full then None else Some(packet)),
      if full then [packet] else [],
      if done then [data] else [])
  }

  function WriteChunks(p: Params, id: nat, input: Input, out: seq<Chunk>): Effect
    requires p.Ok() && input.used <= |input.data| && OutAvail(p, PacketSize(out)) > 0
  {
    var cs := Written(p, id, input.data, input.used, PacketSize(out));
    Close(p, id, input.data, cs[|cs| - 1].End(), out + cs)
  }

  function Step(p: Params, d: Dis, e: Event): Effect
    requires p.Ok() && Valid(p, d) && Legal(p, d, e)
  {
    match e
    case Send(f) =>
      if d.out.None? then Effect(d.(input := Some(Input(f, 0))), [], [])
      else WriteChunks(p, d.id, Input(f, 0), d.out.value)
    case Recv =>
      EmptyPacket();
      if d.input.None? then Effect(d.(out := Some([])), [], [])
      else WriteChunks(p, d.id, d.input.value, [])
    case Timer => Effect(d.(out := None), [d.out.value], [])
    case Cancel => Effect(d.(input := None), [], [])
  }

  lemma EmptyPacket()
    ensures PacketSize([]) == 0
  {
  }

  lemma PacketSizeAppend(cs: seq<Chunk>, ds: seq<Chunk>)
    ensures PacketSize(cs + ds) == PacketSize(cs) + PacketSize(ds)
  {
    EncodeAllAppend(cs, ds);
  }

  lemma PacketSizeOne(c: Chunk)
    ensures PacketSize([c]) == HEADER + |c.data|
  {
    assert EncodeAll([c]) == Encode(c) + EncodeAll([]);
  }

  lemma {:induction false} WrittenFits(p: Params, id: nat, data: seq<byte>, used: nat, outUsed: nat)
    requires p.Ok() && id < 0x1_0000 && used <= |data| < 0x1_0000 && OutAvail(p, outUsed) > 0
    ensures AllFit(Written(p, id, data, used, outUsed))
    decreases |data| - used
  {
    var c := NextChunk(p, id, data, used, outUsed);
    var u, o := c.End(), outUsed + HEADER + |c.data|;
    if |data| - u > 0 && OutAvail(p, o) > 0 {
      WrittenFits(p, id, data, u, o);
    }
  }

  /** One call of write_chunks ends with the frame or the packet used up. */
  lemma {:induction false} WrittenExhausts(p: Params, id: nat, data: seq<byte>, used: nat, outUsed: nat)
    requires p.Ok() && used <= |data| && OutAvail(p, outUsed) > 0
    ensures var cs := Written(p, id, data, used, outUsed);
            cs[|cs| - 1].End() < |data| ==> OutAvail(p, outUsed + PacketSize(cs)) <= 0 && cs[|cs| - 1].End() > 0
    decreases |data| - used
  {
    hide PacketSize, NextChunk;
    var c := NextChunk(p, id, data, used, outUsed);
    var u, o := c.End(), outUsed + HEADER + |c.data|;
    PacketSizeOne(c);
    if |data| - u > 0 && OutAvail(p, o) > 0 {
      WrittenExhausts(p, id, data, u, o);
      PacketSizeAppend([c], Written(p, id, data, u, o));
    }
  }

  lemma WriteChunksValid(p: Params, id: nat, input: Input, out: seq<Chunk>)
    requires p.Ok() && input.used <= |input.data| <= p.inputMtu && OutAvail(p, PacketSize(out)) > 0 && id < 0x1_0000
    requires AllFit(out)
    ensures Valid(p, WriteChunks(p, id, input, out).dis)
    ensures forall k :: 0 <= k < |WriteChunks(p, id, input, out).packets| ==> AllFit(WriteChunks(p, id, input, out).packets[k])
  {
    hide PacketSize;
    var cs := Written(p, id, input.data, input.used, PacketSize(out));
    WrittenFits(p, id, input.data, input.used, PacketSize(out));
    WrittenExhausts(p, id, input.data, input.used, PacketSize(out));
    PacketSizeAppend(out, cs);
    hide Written;
    assert AllFit(out + cs);
    hide AllFit;
  }

  /** Every legal step keeps the disassembler valid: no frame waits while a packet is on offer, and every packet on
      offer has room for a chunk. */
  lemma StepValid(p: Params, d: Dis, e: Event)
    requires p.Ok() && Valid(p, d) && Legal(p, d, e)
    ensures Valid(p, Step(p, d, e).dis)
  {
    EmptyPacket();
    match e {
      case Send(f) => if d.out.Some? { WriteChunksValid(p, d.id, Input(f, 0), d.out.value); }
      case Recv => if d.input.Some? { WriteChunksValid(p, d.id, d.input.value, []); }
      case Timer =>
      case Cancel =>
    }
  }

  datatype Trace = Trace(dis: Dis, packets: seq<seq<Chunk>>, frames: seq<seq<byte>>)

  /** Every event is legal where it happens. */
  ghost predicate LegalRun(p: Params, d: Dis, es: seq<Event>)
    requires p.Ok() && Valid(p, d)
    decreases |es|
  {
    es == [] || (Legal(p, d, es[0]) && (StepValid(p, d, es[0]); LegalRun(p, Step(p, d, es[0]).dis, es[1..])))
  }

  /** Cancels hit untouched frames only. */
  ghost predicate CleanRun(p: Params, d: Dis, es: seq<Event>)
    requires p.Ok() && Valid(p, d) && LegalRun(p, d, es)
    decreases |es|
  {
    es == [] || (Clean(d, es[0]) && (StepValid(p, d, es[0]); CleanRun(p, Step(p, d, es[0]).dis, es[1..])))
  }

  ghost function Run(p: Params, d: Dis, es: seq<Event>): Trace
    requires p.Ok() && Valid(p, d) && LegalRun(p, d, es)
    decreases |es|
  {
    if es == [] then Trace(d, [], [])
    else
      StepValid(p, d, es[0]);
      var s := Step(p, d, es[0]);
      var t := Run(p, s.dis, es[1..]);
      Trace(t.dis, s.packets + t.packets, s.frames + t.frames)
  }

  function Encoded(packets: seq<seq<Chunk>>): seq<seq<byte>> {
    seq(|packets|, i requires 0 <= i < |packets| => EncodeAll(packets[i]))
  }
}
