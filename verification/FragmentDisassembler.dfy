/** FragmentProtoDisassembler: frames are cut into chunks directly into the packet buffer on offer. */
module FragmentDisassembler {
  import opened Bytes
  import opened FragmentWire
  import opened FragmentDisassemblerSpec

  /** The chunk list of the packet after one more chunk, in bytes. */
  lemma EncodeOneMore(cs: seq<Chunk>, c: Chunk)
    ensures EncodeAll(cs + [c]) == EncodeAll(cs) + Encode(c)
  {
    EncodeAllAppend(cs, [c]);
    assert EncodeAll([c]) == Encode(c) + EncodeAll([]);
  }

  class Disassembler {
    const inputMtu: nat
    const outputMtu: nat
    const chunkMtu: int
    const latency: int
    var frameId: nat
    /** the frame being cut; inLen is -1 if there is none */
    var input: seq<byte>
    var inLen: int
    var inUsed: nat
    /** the packet on offer */
    var out: array?<byte>
    var outUsed: nat
    var timerRunning: bool
    /** the chunks in out[..outUsed] */
    ghost var chunks: seq<Chunk>

    ghost function P(): Params { Params(inputMtu, outputMtu, chunkMtu, latency) }

    ghost function Abs(): Dis
      reads this
    {
      Dis(frameId, if inLen >= 0 then Some(Input(input, inUsed)) else None, if out != null then Some(chunks) else None)
    }

    /** The buffer holds the chunks and leaves room as counted. */
    ghost predicate BufferOk()
      reads this, out
    {
      out != null ==> out.Length == outputMtu && outUsed <= outputMtu && out[..outUsed] == EncodeAll(chunks)
    }

    ghost predicate TimerOk()
      reads this
    {
      timerRunning <==> out != null && chunks != []
    }

    ghost predicate Ready()
      reads this, out
    {
      P().Ok() && BufferOk() && -1 <= inLen && (inLen >= 0 ==> inLen == |input|)
    }

    ghost predicate Valid()
      reads this, out
    {
      Ready() && TimerOk() && FragmentDisassemblerSpec.Valid(P(), Abs())
    }

    constructor (inputMtu: nat, outputMtu: nat, chunkMtu: int, latency: int)
      requires Params(inputMtu, outputMtu, chunkMtu, latency).Ok()
      ensures Valid() && Abs() == Initial && P() == Params(inputMtu, outputMtu, chunkMtu, latency)
    {
      this.inputMtu := inputMtu;
      this.outputMtu := outputMtu;
      this.chunkMtu := chunkMtu;
      this.latency := latency;
      frameId := 0;
      input := [];
      inLen := -1;
      inUsed := 0;
      out := null;
      outUsed := 0;
      timerRunning := false;
      chunks := [];
    }

    /** One round of the loop: the next chunk is appended to the packet. */
    method WriteChunk()
      requires Ready() && out != null && inLen >= 0 && inUsed <= |input| && OutAvail(P(), outUsed) > 0
      modifies this`inUsed, this`outUsed, this`chunks, out
      ensures Ready()
      ensures var c := NextChunk(P(), frameId, input, old(inUsed), old(outUsed));
              chunks == old(chunks) + [c] && inUsed == c.End() && outUsed == old(outUsed) + HEADER + |c.data|
    {
      var avail := outputMtu - outUsed - HEADER;
      var n := Min(inLen - inUsed, avail);
      if chunkMtu > 0 {
        n := Min(n, chunkMtu);
      }
      var c := Chunk(frameId, inUsed, n == inLen - inUsed, input[inUsed..inUsed + n]);
      assert c == NextChunk(P(), frameId, input, inUsed, outUsed);
      hide NextChunk, ChunkLen;
      AppendChunk(c);
      inUsed := inUsed + n;
    }

    /** The chunk goes behind those already in the packet. */
    method AppendChunk(c: Chunk)
      requires out != null && BufferOk() && outUsed + HEADER + |c.data| <= outputMtu
      modifies this`outUsed, this`chunks, out
      ensures BufferOk() && chunks == old(chunks) + [c] && outUsed == old(outUsed) + HEADER + |c.data|
    {
      EncodeOneMore(chunks, c);
      var s := Encode(c);
      hide EncodeAll, Encode;
      CopyTo(out, outUsed, s);
      chunks := chunks + [c];
      outUsed := outUsed + |s|;
    }

    /** The do-while loop of write_chunks. */
    method FillPacket()
      requires Ready() && out != null && inLen >= 0 && inUsed <= |input| && OutAvail(P(), outUsed) > 0
      modifies this`inUsed, this`outUsed, this`chunks, out
      ensures Ready()
      ensures var cs := Written(P(), frameId, input, old(inUsed), old(outUsed));
              chunks == old(chunks) + cs && inUsed == cs[|cs| - 1].End()
    {
      hide Written, NextChunk, BufferOk, Filled, ToWrite;
      ghost var all := Written(P(), frameId, input, inUsed, outUsed);
      ghost var before := chunks;
      FillStart(P(), frameId, input, inUsed, outUsed, before);
      FillStep(P(), frameId, input, inUsed, outUsed, before, all, chunks);
      WriteChunk();
      while inLen - inUsed > 0 && outputMtu - outUsed - HEADER > 0
        invariant Ready() && inUsed <= |input|
        invariant Filled(P(), frameId, input, inUsed, outUsed, before, all, chunks)
        decreases inLen - inUsed
      {
        FillMore(P(), frameId, input, inUsed, outUsed, before, all, chunks);
        FillStep(P(), frameId, input, inUsed, outUsed, before, all, chunks);
        WriteChunk();
      }
      FillEnd(P(), frameId, input, inUsed, outUsed, before, all, chunks);
    }

    /** `packet` is the packet a step finished, in bytes. */
    ghost predicate Emitted(e: Effect, packet: Option<seq<byte>>) {
      match packet
      case None => e.packets == []
      case Some(b) => |e.packets| == 1 && b == EncodeAll(e.packets[0])
    }

    /** write_chunks; `done` tells that the frame was finished. */
    lemma PacketCounted()
      requires out != null && BufferOk()
      ensures outUsed == PacketSize(chunks)
    {
    }

    method WriteChunks() returns (packet: Option<seq<byte>>, done: bool)
      requires Ready() && TimerOk() && out != null && inLen >= 0 && inUsed <= |input| <= inputMtu
      requires frameId < 0x1_0000 && AllFit(chunks) && OutAvail(P(), PacketSize(chunks)) > 0
      modifies this, out
      ensures Valid()
      ensures var e := FragmentDisassemblerSpec.WriteChunks(P(), old(frameId), Input(old(input), old(inUsed)), old(chunks));
              Abs() == e.dis && Emitted(e, packet) && e.frames == if done then [old(input)] else []
    {
      hide Written, FragmentDisassemblerSpec.Valid, BufferOk, PacketSize, AllFit, Close, Emitted;
      PacketCounted();
      ghost var e := FragmentDisassemblerSpec.WriteChunks(P(), frameId, Input(input, inUsed), chunks);
      WriteChunksValid(P(), frameId, Input(input, inUsed), chunks);
      FillPacket();
      packet, done := FinishChunks(e);
    }

    /** The end of write_chunks: finish the frame if it is used up and the packet if it is full or not to be held. */
    method FinishChunks(ghost e: Effect) returns (packet: Option<seq<byte>>, done: bool)
      requires Ready() && out != null && chunks != [] && inLen >= 0 && inUsed <= |input|
      requires e == Close(P(), frameId, input, inUsed, chunks)
      requires FragmentDisassemblerSpec.Valid(P(), e.dis)
      modifies this
      ensures Valid() && Abs() == e.dis && Emitted(e, packet) && e.frames == if done then [old(input)] else []
    {
      hide FragmentDisassemblerSpec.Valid;
      assert outUsed == PacketSize(chunks);
      hide PacketSize;
      done := inLen - inUsed == 0;
      if done {
        inLen := -1;
        frameId := (frameId + 1) % 0x1_0000;
      }
      if outputMtu - outUsed - HEADER <= 0 || latency < 0 {
        packet := Some(out[..outUsed]);
        out := null;
        timerRunning := false;
      } else {
        packet := None;
        if !timerRunning {
          timerRunning := true;
        }
      }
    }

    /** input_handler_send */
    method InputSend(data: seq<byte>) returns (packet: Option<seq<byte>>, done: bool)
      requires Valid() && Legal(P(), Abs(), Send(data))
      modifies this, out
      ensures Valid()
      ensures var e := Step(P(), old(Abs()), Send(data));
              Abs() == e.dis && Emitted(e, packet) && e.frames == if done then [data] else []
    {
      StepValid(P(), Abs(), Send(data));
      inLen := |data|;
      input := data;
      inUsed := 0;
      packet, done := None, false;
      if out != null {
        hide FragmentDisassemblerSpec.WriteChunks;
        packet, done := WriteChunks();
      }
    }

    /** input_handler_requestcancel */
    method InputRequestCancel()
      requires Valid() && Legal(P(), Abs(), Cancel)
      modifies this
      ensures Valid() && Abs() == Step(P(), old(Abs()), Cancel).dis
    {
      inLen := -1;
    }

    /** output_handler_recv */
    method OutputRecv(data: array<byte>) returns (packet: Option<seq<byte>>, done: bool)
      requires Valid() && Legal(P(), Abs(), Recv) && data.Length == outputMtu
      modifies this, data
      ensures Valid()
      ensures var e := Step(P(), old(Abs()), Recv);
              Abs() == e.dis && Emitted(e, packet) && e.frames == if done then [old(input)] else []
    {
      hide FragmentDisassemblerSpec.WriteChunks, PacketSize;
      StepValid(P(), Abs(), Recv);
      EmptyPacket();
      out := data;
      outUsed := 0;
      chunks := [];
      packet, done := None, false;
      if inLen >= 0 {
        packet, done := WriteChunks();
      }
    }

    /** timer_handler: the packet has been held back long enough. */
    method TimerExpired() returns (packet: Option<seq<byte>>)
      requires Valid() && Legal(P(), Abs(), Timer)
      modifies this
      ensures Valid()
      ensures var e := Step(P(), old(Abs()), Timer);
              Abs() == e.dis && Emitted(e, packet) && e.frames == []
    {
      packet := Some(out[..outUsed]);
      out := null;
      timerRunning := false;
    }
  }

  /** The packet held `before` and holds `now`; the next round and those after it write what is missing of `all`. */
  ghost predicate ToWrite(p: Params, id: nat, data: seq<byte>, used: nat, outUsed: nat, before: seq<Chunk>, all: seq<Chunk>, now: seq<Chunk>)
    requires p.Ok()
  {
    && used <= |data| && OutAvail(p, outUsed) > 0 && all != []
    && var cs := Written(p, id, data, used, outUsed);
    before + all == now + cs && all[|all| - 1] == cs[|cs| - 1]
  }

  /** The same between two rounds, where the loop may be over. */
  ghost predicate Filled(p: Params, id: nat, data: seq<byte>, used: nat, outUsed: nat, before: seq<Chunk>, all: seq<Chunk>, now: seq<Chunk>)
    requires p.Ok()
  {
    if |data| - used > 0 && OutAvail(p, outUsed) > 0 then ToWrite(p, id, data, used, outUsed, before, all, now)
    else all != [] && before + all == now && used == all[|all| - 1].End()
  }

  lemma FillStart(p: Params, id: nat, data: seq<byte>, used: nat, outUsed: nat, before: seq<Chunk>)
    requires p.Ok() && used <= |data| && OutAvail(p, outUsed) > 0
    ensures ToWrite(p, id, data, used, outUsed, before, Written(p, id, data, used, outUsed), before)
  {
  }

  lemma FillMore(p: Params, id: nat, data: seq<byte>, used: nat, outUsed: nat, before: seq<Chunk>, all: seq<Chunk>, now: seq<Chunk>)
    requires p.Ok() && Filled(p, id, data, used, outUsed, before, all, now) && |data| - used > 0 && OutAvail(p, outUsed) > 0
    ensures ToWrite(p, id, data, used, outUsed, before, all, now)
  {
  }

  lemma FillStep(p: Params, id: nat, data: seq<byte>, used: nat, outUsed: nat, before: seq<Chunk>, all: seq<Chunk>, now: seq<Chunk>)
    requires p.Ok() && ToWrite(p, id, data, used, outUsed, before, all, now)
    ensures used <= |data| && OutAvail(p, outUsed) > 0
    ensures var c := NextChunk(p, id, data, used, outUsed);
            Filled(p, id, data, c.End(), outUsed + HEADER + |c.data|, before, all, now + [c])
  {
    hide NextChunk;
    var c := NextChunk(p, id, data, used, outUsed);
    var u, o := c.End(), outUsed + HEADER + |c.data|;
    if |data| - u > 0 && OutAvail(p, o) > 0 {
      var cs := Written(p, id, data, u, o);
      assert now + ([c] + cs) == now + [c] + cs;
    }
  }

  lemma FillEnd(p: Params, id: nat, data: seq<byte>, used: nat, outUsed: nat, before: seq<Chunk>, all: seq<Chunk>, now: seq<Chunk>)
    requires p.Ok() && Filled(p, id, data, used, outUsed, before, all, now) && !(|data| - used > 0 && OutAvail(p, outUsed) > 0)
    ensures all != [] && before + all == now && used == all[|all| - 1].End()
  {
  }
}
