/**
 Runs with cancels in mid-frame. Cancelling a frame of which some chunks were already sent leaves the frame id unchanged,
 so the next frame is sent under an id for which the assembler may still hold chunks. A frame is delivered exactly if the
 assembler holds nothing under its id when its first chunk goes out.
 */
module FragmentCancel {
  import opened Bytes
  import opened FragmentPieces
  import opened FragmentWire
  import A = FragmentAssemblerSpec
  import D = FragmentDisassemblerSpec
  import opened FragmentRoundTrip

  // ---- a frame that meets leftovers ----

  /** A frame that lacks its first byte and is known not to be empty. */
  ghost predicate Headless(f: A.Frame) {
    && (forall k :: 0 <= k < |f.pieces| ==> f.pieces[k].start > 0)
    && (f.length.Some? ==> f.length.value > 0)
  }

  lemma HeadlessIncomplete(f: A.Frame)
    requires Headless(f)
    ensures !A.Complete(f)
  {
    assert !Covered(f.pieces, 0);
  }

  /** It holds a byte at or after position `i`. */
  ghost predicate Beyond(f: A.Frame, i: nat) {
    exists k :: 0 <= k < |f.pieces| && f.pieces[k].data != [] && f.pieces[k].start >= i
  }

  /**
   What is held is in the way of a frame of which `used` bytes have been sent: there is a byte it did not send, or the
   first byte has been lost. Before it starts any byte will do.
   */
  ghost predicate Spoilt(f: A.Frame, used: nat) {
    f.length.None? && (Beyond(f, used) || (used > 0 && Headless(f) && Beyond(f, 0)))
  }

  /** Held last, and not old; the frames before it are from ids not used for another `n` frames. */
  ghost predicate Remnant(a: A.Asm, id: nat, used: nat, lag: nat, n: nat) {
    && Timely(a) && |a.frames| > 0 && Clear(a.frames[..|a.frames| - 1], id, n)
    && var f := a.frames[|a.frames| - 1];
       f.id == id && Spoilt(f, used) && a.time <= f.time + lag
  }

  /** The frame of which `used` bytes have been sent cannot be completed any more. */
  ghost predicate Fouled(a: A.Asm, id: nat, used: nat, lag: nat, n: nat) {
    Remnant(a, id, used, lag, n) || (used > 0 && Quiet(a, id, n))
  }

  /** The frame a chunk of such a frame goes to. */
  ghost predicate BadPlace(now: int, r: A.Place, id: nat, used: nat, n: nat) {
    && |r.frames| > 0 && r.at == |r.frames| - 1 && Timely(A.Asm(now, r.frames)) && Clear(r.frames[..r.at], id, n)
    && var f := r.frames[r.at];
       f.id == id && (Spoilt(f, used) || (used > 0 && f.pieces == [] && f.length.None?))
  }

  lemma LocateBad(q: A.Params, a: A.Asm, id: nat, used: nat, lag: nat, n: nat)
    requires q.Ok() && Fouled(a, id, used, lag, n) && lag <= 1 && n > 0
    ensures BadPlace(a.time, A.Locate(q, a, id), id, used, n)
  {
    hide Spoilt, Distance, Quiet;
    if Remnant(a, id, used, lag, n) {
      ThereLast(a.frames, id, n);
    } else {
      LocateQuiet(q, a, id, n);
    }
  }

  lemma LocateQuiet(q: A.Params, a: A.Asm, id: nat, n: nat)
    requires q.Ok() && Quiet(a, id, n) && n > 0
    ensures var r := A.Locate(q, a, id);
            && |r.frames| > 0 && r.at == |r.frames| - 1 && r.frames[r.at] == A.Frame(id, a.time, [], None)
            && Timely(A.Asm(a.time, r.frames)) && Clear(r.frames[..r.at], id, n)
  {
    hide Distance;
    NotThere(a.frames, id, n);
    var fs := if |a.frames| >= q.numFrames then a.frames[1..] else a.frames;
    var r := A.Locate(q, a, id);
    assert r.frames[..r.at] == fs;
  }

  /** A chunk that fits leaves the frame as bad as it was. */
  lemma StillSpoilt(f: A.Frame, c: Chunk, now: int, used: nat)
    requires Spoilt(f, used) || (used > 0 && f.pieces == [] && f.length.None?)
    requires c.start == used && (c.data == [] ==> c.last) && A.Compatible(f, c)
    ensures !A.Complete(A.Extend(f, c, now))
    ensures !c.last ==> Spoilt(A.Extend(f, c, now), c.End())
  {
    var g := A.Extend(f, c, now);
    if Beyond(f, used) {
      var k :| 0 <= k < |f.pieces| && f.pieces[k].data != [] && f.pieces[k].start >= used;
      assert !Overlap(f.pieces[k], c.AsPiece());
      assert g.pieces[k] == f.pieces[k];
      assert !c.last;
    } else {
      assert Headless(g) by { HeadlessMore(f, c, now); }
      HeadlessIncomplete(g);
      if !c.last { assert g.pieces[|f.pieces|].data != []; }
    }
  }

  lemma HeadlessMore(f: A.Frame, c: Chunk, now: int)
    requires Headless(f) && c.start > 0
    ensures Headless(A.Extend(f, c, now))
  {
  }

  /** After a chunk: nothing was delivered, and the frame is still lost or, if that was its last chunk, over. */
  ghost predicate AfterBad(now: int, r: A.Result, c: Chunk, id: nat, n: nat) {
    && r.out.None? && r.asm.time == now
    && (if c.last then Over(r.asm, id, n) else Fouled(r.asm, id, c.End(), 0, n))
  }

  /** What is held is from this id or from ids not used for another `n` frames. */
  ghost predicate Over(a: A.Asm, id: nat, n: nat) {
    Timely(a) && forall k :: 0 <= k < |a.frames| ==> a.frames[k].id < 0x1_0000 && (a.frames[k].id == id || Distance(id, a.frames[k].id) >= n)
  }

  lemma DeliverBad(q: A.Params, now: int, r: A.Place, c: Chunk, id: nat, used: nat, n: nat)
    requires BadPlace(now, r, id, used, n) && id < 0x1_0000
    requires c.start == used && (c.data == [] ==> c.last) && (!c.last ==> c.End() > 0)
    ensures AfterBad(now, A.Deliver(q, now, r, c), c, id, n)
  {
    hide A.Compatible, Spoilt, A.Complete, Distance;
    var f := r.frames[r.at];
    var g := A.Extend(f, c, now);
    assert A.DropAt(r.frames, r.at) == r.frames[..r.at];
    if A.Compatible(f, c) {
      StillSpoilt(f, c, now, used);
      assert r.frames[r.at := g][..r.at] == r.frames[..r.at];
    }
  }

  /** Once the frame is over its id is the farthest from being used again. */
  lemma OverQuiet(a: A.Asm, id: nat, n: nat)
    requires Over(a, id, n) && id < 0x1_0000 && 0 < n <= 0x1_0000
    ensures Quiet(a, (id + 1) % 0x1_0000, n - 1)
  {
    forall k | 0 <= k < |a.frames| ensures Distance((id + 1) % 0x1_0000, a.frames[k].id) >= n - 1 {
      OneOn(id, a.frames[k].id, n);
    }
  }

  lemma OneOn(id: nat, x: nat, n: nat)
    requires id < 0x1_0000 && x < 0x1_0000 && 0 < n <= 0x1_0000 && (x == id || Distance(id, x) >= n)
    ensures Distance((id + 1) % 0x1_0000, x) >= n - 1
  {
  }

  lemma ReceiveBad(q: A.Params, a: A.Asm, c: Chunk, used: nat, lag: nat, n: nat)
    requires q.Ok() && Fouled(a, c.id, used, lag, n) && lag <= 1 && n > 0 && c.id < 0x1_0000 && A.InBounds(q, c)
    requires c.start == used && (c.data == [] ==> c.last) && (!c.last ==> c.End() > 0)
    ensures AfterBad(a.time, A.Receive(q, a, c), c, c.id, n)
  {
    hide A.Locate, A.Deliver, AfterBad, Fouled, BadPlace;
    LocateBad(q, a, c.id, used, lag, n);
    DeliverBad(q, a.time, A.Locate(q, a, c.id), c, c.id, used, n);
  }

  ghost predicate AfterBadChunks(now: int, t: A.Trace, u: nat, id: nat, data: seq<byte>, n: nat) {
    && t.outs == [] && t.asm.time == now
    && (if u == |data| then Over(t.asm, id, n) else u > 0 && Fouled(t.asm, id, u, 0, n))
  }

  /** The chunks written by one call deliver nothing. */
  lemma {:induction false} RunBad(p: D.Params, q: A.Params, a: A.Asm, id: nat, data: seq<byte>, used: nat, outUsed: nat, lag: nat, n: nat)
    requires p.Ok() && q.Ok() && Fouled(a, id, used, lag, n) && lag <= 1 && |data| <= q.mtu && n > 0 && id < 0x1_0000
    requires (used < |data| || used == 0) && used <= |data| && D.OutAvail(p, outUsed) > 0
    ensures var cs := D.Written(p, id, data, used, outUsed);
            AfterBadChunks(a.time, A.Run(q, a, Arrivals(cs)), cs[|cs| - 1].End(), id, data, n)
    decreases |data| - used
  {
    hide D.NextChunk, A.Receive, Fouled, Over, A.Run, Arrivals;
    var c := D.NextChunk(p, id, data, used, outUsed);
    var u, o := c.End(), outUsed + HEADER + |c.data|;
    ReceiveBad(q, a, c, used, lag, n);
    var r := A.Receive(q, a, c);
    if |data| - u > 0 && D.OutAvail(p, o) > 0 {
      RunBad(p, q, r.asm, id, data, u, o, 0, n);
      var rest := D.Written(p, id, data, u, o);
      assert D.Written(p, id, data, used, outUsed) == [c] + rest;
      hide D.Written;
      RunArrival(q, a, c, rest);
    } else {
      RunArrival(q, a, c, []);
      RunNone(q, r.asm);
      assert [c] + [] == [c];
    }
  }

  // ---- the state during a run ----

  /** The assembler holds something under this id. */
  ghost predicate Held(a: A.Asm, id: nat) { A.IndexOf(a.frames, id) < |a.frames| }

  /**
   `bad` tells of a frame being sent whether it met leftovers. One not yet begun may have leftovers ahead; then no chunk
   is waiting to be sent.
   */
  ghost predicate Sound(p: D.Params, q: A.Params, d: D.Dis, a: A.Asm, bad: bool, n: nat)
    requires p.Ok() && q.Ok()
  {
    var b := Ahead(q, a, d).asm;
    if Used(d) == 0 then Quiet(b, d.id, n) || (Remnant(b, d.id, 0, 1, n) && Open(d) == [])
    else if bad then Fouled(b, d.id, Used(d), 1, n)
    else Holds(p, b, d.id, Data(d), Used(d), 1, n)
  }

  /** Whether the frame being sent, or sent next, meets leftovers. */
  ghost predicate Bad(q: A.Params, d: D.Dis, a: A.Asm, bad: bool)
    requires q.Ok()
  {
    if Used(d) == 0 then Held(Ahead(q, a, d).asm, d.id) else bad
  }

  lemma QuietNotHeld(a: A.Asm, id: nat, n: nat)
    requires Quiet(a, id, n) && n > 0
    ensures !Held(a, id)
  {
    NotThere(a.frames, id, n);
  }

  lemma RemnantHeld(a: A.Asm, id: nat, used: nat, lag: nat, n: nat)
    requires Remnant(a, id, used, lag, n) && n > 0
    ensures Held(a, id)
  {
    ThereLast(a.frames, id, n);
  }

  /** Without leftovers the assembler is in step. */
  lemma SoundInStep(p: D.Params, q: A.Params, d: D.Dis, a: A.Asm, bad: bool, n: nat)
    requires p.Ok() && q.Ok() && Sound(p, q, d, a, bad, n) && !Bad(q, d, a, bad) && n > 0
    ensures InStep(p, q, d, a, n)
  {
    hide Ahead, Remnant, Quiet, Held;
    var b := Ahead(q, a, d).asm;
    if Used(d) == 0 {
      if Remnant(b, d.id, 0, 1, n) { RemnantHeld(b, d.id, 0, 1, n); }
      HoldsNothing(p, b, d.id, Data(d), 1, n);
    }
  }

  lemma InStepSound(p: D.Params, q: A.Params, d: D.Dis, a: A.Asm, n: nat)
    requires p.Ok() && q.Ok() && InStep(p, q, d, a, n)
    ensures Sound(p, q, d, a, false, n)
  {
    hide Ahead, Remnant, Quiet;
    if Used(d) == 0 { IdleIsQuiet(p, Ahead(q, a, d).asm, d.id, Data(d), 1, n); }
  }

  /** Cancelling in mid-frame leaves something held. */
  lemma CurrentSpoilt(p: D.Params, a: A.Asm, id: nat, data: seq<byte>, used: nat, n: nat)
    requires p.Ok() && Holds(p, a, id, data, used, 1, n) && used > 0
    ensures Remnant(a, id, 0, 1, n)
  {
    hide CountOk, Timely, Clear;
    var f := a.frames[|a.frames| - 1];
    assert Covered(f.pieces, 0);
    var k :| 0 <= k < |f.pieces| && f.pieces[k].Has(0);
    assert Beyond(f, 0);
  }

  lemma SpoiltBefore(a: A.Asm, id: nat, used: nat, lag: nat, n: nat)
    requires Remnant(a, id, used, lag, n)
    ensures Remnant(a, id, 0, lag, n)
  {
    hide Timely, Clear;
    var f := a.frames[|a.frames| - 1];
    assert Beyond(f, 0);
  }

  lemma TickFouled(q: A.Params, a: A.Asm, id: nat, used: nat, n: nat)
    requires q.Ok() && Fouled(a, id, used, 0, n)
    ensures Fouled(A.Tick(q, a), id, used, 1, n)
  {
    hide A.Tick, Timely, Clear, Spoilt;
    if Remnant(a, id, used, 0, n) {
      TimelyLast(a);
      TickLast(q, a, id, n);
      SpoiltStays(a.frames[|a.frames| - 1], A.Tick(q, a).frames[|A.Tick(q, a).frames| - 1], used);
    } else {
      TickQuiet(q, a, id, n);
    }
  }

  lemma SpoiltStays(f: A.Frame, g: A.Frame, used: nat)
    requires g == f.(time := g.time) && Spoilt(f, used)
    ensures Spoilt(g, used)
  {
    if Beyond(f, used) {
      var k :| 0 <= k < |f.pieces| && f.pieces[k].data != [] && f.pieces[k].start >= used;
      assert g.pieces[k].data != [];
    } else {
      var k :| 0 <= k < |f.pieces| && f.pieces[k].data != [] && f.pieces[k].start >= 0;
      assert g.pieces[k].data != [];
    }
  }

  // ---- steps ----

  /** What step `s` has done: at most one frame finished, delivered if it met no leftovers, and the state is sound. */
  ghost predicate Did(p: D.Params, q: A.Params, d: D.Dis, a: A.Asm, bad: bool, s: D.Effect, n: nat)
    requires p.Ok() && q.Ok()
  {
    var v := Fed(q, a, s.packets);
    && |s.frames| <= 1 && |s.frames| <= n && Sound(p, q, s.dis, v.asm, bad, n - |s.frames|)
    && (s.frames != [] ==> Quiet(Ahead(q, v.asm, s.dis).asm, s.dis.id, n - 1))
    && Ahead(q, a, d).outs + (if bad then [] else s.frames) == v.outs + Ahead(q, v.asm, s.dis).outs
  }

  /** Writing chunks of a frame that met leftovers. */
  lemma WriteBad(p: D.Params, q: A.Params, d: D.Dis, a: A.Asm, input: D.Input, n: nat)
    requires p.Ok() && q.Ok() && p.inputMtu <= q.mtu && d.id < 0x1_0000 && Open(d) == [] && D.OutAvail(p, D.PacketSize([])) > 0
    requires |input.data| <= p.inputMtu && input.used <= |input.data| && (input.used < |input.data| || input.used == 0)
    requires Fouled(a, d.id, input.used, 1, n) && 0 < n <= 0x1_0000
    ensures Did(p, q, d, a, true, D.WriteChunks(p, d.id, input, []), n)
  {
    hide D.Written, D.PacketSize, A.Run, D.AllFit, Fouled, Did, AfterBadChunks, D.Close, D.WriteChunks;
    D.EmptyPacket();
    var cs := D.Written(p, d.id, input.data, input.used, 0);
    RunBad(p, q, a, d.id, input.data, input.used, 0, 1, n);
    D.WrittenFits(p, d.id, input.data, input.used, 0);
    D.WrittenExhausts(p, d.id, input.data, input.used, 0);
    WriteIs(p, d.id, input);
    WriteBad2(p, q, d, a, input, cs, n);
  }

  lemma WriteIs(p: D.Params, id: nat, input: D.Input)
    requires p.Ok() && input.used <= |input.data| && D.OutAvail(p, D.PacketSize([])) > 0
    ensures D.PacketSize([]) == 0
    ensures var cs := D.Written(p, id, input.data, input.used, 0);
            D.WriteChunks(p, id, input, []) == D.Close(p, id, input.data, cs[|cs| - 1].End(), cs)
  {
    hide D.Written, D.PacketSize, D.Close;
    D.EmptyPacket();
    var cs := D.Written(p, id, input.data, input.used, 0);
    assert [] + cs == cs;
  }

  lemma WriteBad2(p: D.Params, q: A.Params, d: D.Dis, a: A.Asm, input: D.Input, cs: seq<Chunk>, n: nat)
    requires p.Ok() && q.Ok() && d.id < 0x1_0000 && Open(d) == [] && 0 < n <= 0x1_0000 && D.AllFit(cs) && cs != []
    requires var u := cs[|cs| - 1].End();
             && AfterBadChunks(a.time, A.Run(q, a, Arrivals(cs)), u, d.id, input.data, n)
             && u <= |input.data| && (u < |input.data| ==> D.OutAvail(p, D.PacketSize(cs)) <= 0)
    ensures Did(p, q, d, a, true, D.Close(p, d.id, input.data, cs[|cs| - 1].End(), cs), n)
  {
    hide A.Run, A.Tick, D.PacketSize, D.AllFit, Fouled, Over, Quiet, Remnant, Fed;
    var u := cs[|cs| - 1].End();
    var s := D.Close(p, d.id, input.data, u, cs);
    var t := A.Run(q, a, Arrivals(cs));
    RunNone(q, a);
    if u == |input.data| { OverQuiet(t.asm, d.id, n); }
    if s.packets == [cs] {
      FedOne(q, a, cs);
      RunNone(q, A.Tick(q, t.asm));
      if u == |input.data| { TickQuiet(q, t.asm, s.dis.id, n - 1); } else { TickFouled(q, t.asm, d.id, u, n); }
    } else {
      FedNone(q, a);
    }
  }

  lemma FedOne(q: A.Params, a: A.Asm, cs: seq<Chunk>)
    requires q.Ok() && D.AllFit(cs)
    ensures var t := A.Run(q, a, Arrivals(cs));
            Fed(q, a, [cs]) == A.Trace(A.Tick(q, t.asm), t.outs)
  {
    hide A.Run, A.Tick;
    OnePacket(q, a, cs);
  }

  /** A frame that is begun is under way or finished. */
  lemma WriteGoesOn(p: D.Params, id: nat, input: D.Input)
    requires p.Ok() && input.used <= |input.data| && D.OutAvail(p, D.PacketSize([])) > 0
    ensures var s := D.WriteChunks(p, id, input, []);
            (s.frames == [] ==> Used(s.dis) > 0) && (s.frames != [] ==> Used(s.dis) == 0)
  {
    hide D.Written, D.PacketSize;
    D.WrittenExhausts(p, id, input.data, input.used, D.PacketSize([]));
  }

  /** A step while there are leftovers under the id. */
  lemma StepBad(p: D.Params, q: A.Params, d: D.Dis, a: A.Asm, bad: bool, e: D.Event, n: nat)
    requires p.Ok() && q.Ok() && p.inputMtu <= q.mtu && D.Valid(p, d) && D.Legal(p, d, e) && Sound(p, q, d, a, bad, n)
    requires Bad(q, d, a, bad) && 0 < n <= 0x1_0000
    ensures Did(p, q, d, a, true, D.Step(p, d, e), n)
    ensures var s := D.Step(p, d, e);
            s.frames == [] && Used(s.dis) == 0 && !(e.Cancel? && Used(d) > 0) ==>
              Held(Ahead(q, Fed(q, a, s.packets).asm, s.dis).asm, s.dis.id)
  {
    hide D.WriteChunks, A.Run, D.PacketSize, D.AllFit, Quiet, Held, Remnant;
    D.EmptyPacket();
    var b := Ahead(q, a, d).asm;
    BadIsFouled(p, q, d, a, bad, n);
    RunNone(q, a);
    FedNone(q, a);
    match e {
      case Send(f) =>
        if d.out.Some? {
          WriteBad(p, q, d, a, D.Input(f, 0), n);
          WriteGoesOn(p, d.id, D.Input(f, 0));
        } else {
          RemnantHeld(a, d.id, 0, 1, n);
        }
      case Recv =>
        if d.input.Some? {
          WriteBad(p, q, d, a, d.input.value, n);
          WriteGoesOn(p, d.id, d.input.value);
        } else {
          RemnantHeld(a, d.id, 0, 1, n);
        }
      case Timer => assert false;
      case Cancel => CancelBad(p, q, d, a, n);
    }
  }

  /** No chunk of the packet on offer came before, so the assembler is where the packets sent have brought it. */
  lemma BadIsFouled(p: D.Params, q: A.Params, d: D.Dis, a: A.Asm, bad: bool, n: nat)
    requires p.Ok() && q.Ok() && D.Valid(p, d) && Sound(p, q, d, a, bad, n) && Bad(q, d, a, bad) && n > 0
    ensures Open(d) == [] && Ahead(q, a, d) == A.Trace(a, []) && Fouled(a, d.id, Used(d), 1, n)
    ensures Used(d) == 0 ==> Remnant(a, d.id, 0, 1, n)
  {
    hide A.Run, Remnant, Quiet, Held;
    var b := Ahead(q, a, d).asm;
    if Used(d) == 0 && Quiet(b, d.id, n) { QuietNotHeld(b, d.id, n); }
    RunNone(q, a);
  }

  lemma CancelBad(p: D.Params, q: A.Params, d: D.Dis, a: A.Asm, n: nat)
    requires p.Ok() && q.Ok() && d.out.None? && Fouled(a, d.id, Used(d), 1, n)
    ensures Did(p, q, d, a, true, D.Effect(d.(input := None), [], []), n)
  {
    hide A.Run, Remnant, Quiet, Fed;
    RunNone(q, a);
    FedNone(q, a);
    if Remnant(a, d.id, Used(d), 1, n) { SpoiltBefore(a, d.id, Used(d), 1, n); }
  }

  /** A step while there are none. */
  lemma StepGood(p: D.Params, q: A.Params, d: D.Dis, a: A.Asm, e: D.Event, n: nat)
    requires Matched(p, q) && p.Ok() && q.Ok() && D.Valid(p, d) && D.Legal(p, d, e) && InStep(p, q, d, a, n) && n > 0
    ensures Did(p, q, d, a, false, D.Step(p, d, e), n)
    ensures var s := D.Step(p, d, e);
            Used(s.dis) == 0 && n > |s.frames| ==>
              (Held(Ahead(q, Fed(q, a, s.packets).asm, s.dis).asm, s.dis.id) <==> e.Cancel? && Used(d) > 0)
  {
    hide D.WriteChunks, A.Run, D.PacketSize, D.AllFit, Quiet, Held, Remnant, Matched, Fed, Holds;
    if D.Clean(d, e) {
      StepFed(p, q, d, a, e, n);
      OnlyOne(p, d, e);
      var s := D.Step(p, d, e);
      var v := Fed(q, a, s.packets);
      InStepSound(p, q, s.dis, v.asm, n - |s.frames|);
      if Used(s.dis) == 0 {
        IdleIsQuiet(p, Ahead(q, v.asm, s.dis).asm, s.dis.id, Data(s.dis), 1, n - |s.frames|);
        if n > |s.frames| { QuietNotHeld(Ahead(q, v.asm, s.dis).asm, s.dis.id, n - |s.frames|); }
      }
    } else {
      RunNone(q, a);
      FedNone(q, a);
      CurrentSpoilt(p, a, d.id, d.input.value.data, d.input.value.used, n);
      RemnantHeld(a, d.id, 0, 1, n);
    }
  }

  lemma StepAny(p: D.Params, q: A.Params, d: D.Dis, a: A.Asm, bad: bool, e: D.Event, n: nat)
    requires Matched(p, q) && p.Ok() && q.Ok() && D.Valid(p, d) && D.Legal(p, d, e)
    requires Sound(p, q, d, a, bad, n) && 0 < n <= 0x1_0000
    ensures Did(p, q, d, a, Bad(q, d, a, bad), D.Step(p, d, e), n)
  {
    hide D.Step, D.Valid, D.Legal, Sound, Bad, Did, Matched;
    MatchedOk(p, q);
    if Bad(q, d, a, bad) {
      StepBad(p, q, d, a, bad, e, n);
    } else {
      SoundInStep(p, q, d, a, bad, n);
      StepGood(p, q, d, a, e, n);
    }
  }

  // ---- runs ----

  /** Of the frames finished in a run, those for which nothing was held when their first chunk went out. */
  ghost function Unhindered(p: D.Params, q: A.Params, d: D.Dis, a: A.Asm, bad: bool, es: seq<D.Event>): seq<seq<byte>>
    requires p.Ok() && q.Ok() && D.Valid(p, d) && D.LegalRun(p, d, es)
    decreases |es|
  {
    if es == [] then []
    else
      D.StepValid(p, d, es[0]);
      var s := D.Step(p, d, es[0]);
      (if Bad(q, d, a, bad) then [] else s.frames)
      + Unhindered(p, q, s.dis, Fed(q, a, s.packets).asm, Bad(q, d, a, bad), es[1..])
  }

  /** Everything the assembler delivers of a run, the packet still on offer included. */
  ghost function DeliveredInAll(q: A.Params, a: A.Asm, t: D.Trace): seq<seq<byte>>
    requires q.Ok()
  {
    var u := Fed(q, a, t.packets);
    u.outs + Ahead(q, u.asm, t.dis).outs
  }

  lemma {:induction false} RunAny(p: D.Params, q: A.Params, d: D.Dis, a: A.Asm, bad: bool, es: seq<D.Event>, n: nat)
    requires Matched(p, q) && p.Ok() && q.Ok() && D.Valid(p, d) && D.LegalRun(p, d, es)
    requires Sound(p, q, d, a, bad, n) && |D.Run(p, d, es).frames| < n <= 0x1_0000
    ensures Ahead(q, a, d).outs + Unhindered(p, q, d, a, bad, es) == DeliveredInAll(q, a, D.Run(p, d, es))
    decreases |es|
  {
    hide D.Step, A.Run, Matched, Sound, Bad, D.Valid, Ahead, D.Legal, Fed;
    if es == [] {
      FedNone(q, a);
      assert Ahead(q, a, d).outs + [] == [] + Ahead(q, a, d).outs;
    } else {
      D.StepValid(p, d, es[0]);
      var s := D.Step(p, d, es[0]);
      StepAny(p, q, d, a, bad, es[0], n);
      var v := Fed(q, a, s.packets);
      var t := D.Run(p, s.dis, es[1..]);
      var b := Bad(q, d, a, bad);
      assert D.Run(p, d, es) == D.Trace(t.dis, s.packets + t.packets, s.frames + t.frames);
      RunAny(p, q, s.dis, v.asm, b, es[1..], n - |s.frames|);
      FedAppend(q, a, s.packets, t.packets);
      var w := Fed(q, v.asm, t.packets);
      hide D.Run, D.LegalRun, Unhindered;
      Chain(Ahead(q, a, d).outs, if b then [] else s.frames, Unhindered(p, q, s.dis, v.asm, b, es[1..]), v.outs,
            Ahead(q, v.asm, s.dis).outs, w.outs, Ahead(q, w.asm, t.dis).outs);
    }
  }

  /**
   Whatever is cancelled and when: of a run from the start, shorter than there are ids, the assembler delivers exactly the
   frames finished for which it held nothing when their first chunk went out.
   */
  lemma DeliveredFrames(p: D.Params, q: A.Params, es: seq<D.Event>)
    requires Matched(p, q) && p.Ok() && q.Ok() && D.Valid(p, D.Initial) && D.LegalRun(p, D.Initial, es)
    requires |D.Run(p, D.Initial, es).frames| < 0x1_0000
    ensures DeliveredInAll(q, A.Initial, D.Run(p, D.Initial, es)) == Unhindered(p, q, D.Initial, A.Initial, false, es)
  {
    hide A.Run, D.Run, Unhindered, DeliveredInAll, Sound, Ahead;
    InitialInStep(p, q, 0x1_0000);
    InStepSound(p, q, D.Initial, A.Initial, 0x1_0000);
    RunAny(p, q, D.Initial, A.Initial, false, es, 0x1_0000);
    assert [] + Unhindered(p, q, D.Initial, A.Initial, false, es) == Unhindered(p, q, D.Initial, A.Initial, false, es);
  }

  // ---- which frames those are ----

  /** Something of the frame cancelled last was sent, and no frame has been finished since. */
  function NextDirty(d: D.Dis, dirty: bool, e: D.Event, s: D.Effect): bool {
    s.frames == [] && (dirty || (e.Cancel? && Used(d) > 0))
  }

  /** No frame that follows a cancel in mid-frame is itself cancelled in mid-frame. */
  ghost predicate Settled(p: D.Params, d: D.Dis, dirty: bool, es: seq<D.Event>)
    requires p.Ok() && D.Valid(p, d) && D.LegalRun(p, d, es)
    decreases |es|
  {
    es == [] ||
    (&& !(dirty && es[0].Cancel? && Used(d) > 0)
     && (D.StepValid(p, d, es[0]);
         var s := D.Step(p, d, es[0]);
         Settled(p, s.dis, NextDirty(d, dirty, es[0], s), es[1..])))
  }

  /** The frames finished, without those sent directly after a cancel in mid-frame. */
  ghost function Spared(p: D.Params, d: D.Dis, dirty: bool, es: seq<D.Event>): seq<seq<byte>>
    requires p.Ok() && D.Valid(p, d) && D.LegalRun(p, d, es)
    decreases |es|
  {
    if es == [] then []
    else
      D.StepValid(p, d, es[0]);
      var s := D.Step(p, d, es[0]);
      (if dirty then [] else s.frames) + Spared(p, s.dis, NextDirty(d, dirty, es[0], s), es[1..])
  }

  /** What the assembler holds is what the disassembler can tell from its own cancels. */
  lemma StepDirty(p: D.Params, q: A.Params, d: D.Dis, a: A.Asm, bad: bool, e: D.Event, n: nat)
    requires Matched(p, q) && p.Ok() && q.Ok() && D.Valid(p, d) && D.Legal(p, d, e)
    requires Sound(p, q, d, a, bad, n) && |D.Step(p, d, e).frames| < n <= 0x1_0000
    requires !(Bad(q, d, a, bad) && e.Cancel? && Used(d) > 0)
    ensures var s := D.Step(p, d, e);
            Bad(q, s.dis, Fed(q, a, s.packets).asm, Bad(q, d, a, bad)) == NextDirty(d, Bad(q, d, a, bad), e, s)
  {
    hide D.WriteChunks, D.Valid, Sound, Matched, Held, Quiet, Ahead, Fed;
    MatchedOk(p, q);
    var s := D.Step(p, d, e);
    if Bad(q, d, a, bad) {
      StepBad(p, q, d, a, bad, e, n);
      var b := Ahead(q, Fed(q, a, s.packets).asm, s.dis).asm;
      if s.frames != [] { QuietNotHeld(b, s.dis.id, n - 1); }
    } else {
      SoundInStep(p, q, d, a, bad, n);
      StepGood(p, q, d, a, e, n);
    }
    OnlyOne(p, d, e);
  }

  /** A frame that is still being sent has not been finished. */
  lemma OnlyOne(p: D.Params, d: D.Dis, e: D.Event)
    requires p.Ok() && D.Valid(p, d) && D.Legal(p, d, e)
    ensures var s := D.Step(p, d, e);
            (s.frames != [] ==> Used(s.dis) == 0 && !e.Cancel?) && (e.Cancel? ==> Used(s.dis) == 0)
  {
    D.EmptyPacket();
    hide D.Written, D.PacketSize;
  }

  lemma {:induction false} SparedUnhindered(p: D.Params, q: A.Params, d: D.Dis, a: A.Asm, bad: bool, es: seq<D.Event>, n: nat)
    requires Matched(p, q) && p.Ok() && q.Ok() && D.Valid(p, d) && D.LegalRun(p, d, es)
    requires Sound(p, q, d, a, bad, n) && |D.Run(p, d, es).frames| < n <= 0x1_0000
    requires Settled(p, d, Bad(q, d, a, bad), es)
    ensures Unhindered(p, q, d, a, bad, es) == Spared(p, d, Bad(q, d, a, bad), es)
    decreases |es|
  {
    hide D.Step, A.Run, Matched, Sound, Bad, D.Valid, D.Legal, Fed;
    if es != [] {
      D.StepValid(p, d, es[0]);
      StepAny(p, q, d, a, bad, es[0], n);
      StepDirty(p, q, d, a, bad, es[0], n);
      var s := D.Step(p, d, es[0]);
      SparedUnhindered(p, q, s.dis, Fed(q, a, s.packets).asm, Bad(q, d, a, bad), es[1..], n - |s.frames|);
    }
  }

  /**
   As the disassembler sees it: with any number of cancels, none of them in the middle of a frame that itself follows a
   cancel in mid-frame, exactly the frames sent directly after a cancel in mid-frame are lost.
   */
  lemma LostFrames(p: D.Params, q: A.Params, es: seq<D.Event>)
    requires Matched(p, q) && p.Ok() && q.Ok() && D.Valid(p, D.Initial) && D.LegalRun(p, D.Initial, es)
    requires Settled(p, D.Initial, false, es) && |D.Run(p, D.Initial, es).frames| < 0x1_0000
    ensures DeliveredInAll(q, A.Initial, D.Run(p, D.Initial, es)) == Spared(p, D.Initial, false, es)
  {
    hide A.Run, D.Run, Unhindered, DeliveredInAll, Sound, Ahead, Spared, Settled, Held, Quiet;
    InitialInStep(p, q, 0x1_0000);
    InStepSound(p, q, D.Initial, A.Initial, 0x1_0000);
    NothingHeld(p, q, D.Initial, A.Initial, 0x1_0000);
    SparedUnhindered(p, q, D.Initial, A.Initial, false, es, 0x1_0000);
    DeliveredFrames(p, q, es);
  }

  lemma NothingHeld(p: D.Params, q: A.Params, d: D.Dis, a: A.Asm, n: nat)
    requires p.Ok() && q.Ok() && InStep(p, q, d, a, n) && n > 0
    ensures !Bad(q, d, a, false)
  {
    hide Ahead, Quiet, Held;
    if Used(d) == 0 {
      IdleIsQuiet(p, Ahead(q, a, d).asm, d.id, Data(d), 1, n);
      QuietNotHeld(Ahead(q, a, d).asm, d.id, n);
    }
  }

  ghost predicate NoCancel(es: seq<D.Event>) { forall i :: 0 <= i < |es| ==> !es[i].Cancel? }

  function Rest(dirty: bool, frames: seq<seq<byte>>): seq<seq<byte>> {
    if dirty && frames != [] then frames[1..] else frames
  }

  lemma {:induction false} SparedAfter(p: D.Params, d: D.Dis, dirty: bool, es: seq<D.Event>)
    requires p.Ok() && D.Valid(p, d) && D.LegalRun(p, d, es) && NoCancel(es)
    ensures Settled(p, d, dirty, es) && Spared(p, d, dirty, es) == Rest(dirty, D.Run(p, d, es).frames)
    decreases |es|
  {
    hide D.Step, D.Valid, D.Legal;
    if es != [] {
      D.StepValid(p, d, es[0]);
      OneFrame(p, d, es[0]);
      var s := D.Step(p, d, es[0]);
      assert !es[0].Cancel?;
      SparedAfter(p, s.dis, dirty && s.frames == [], es[1..]);
      var fs := D.Run(p, s.dis, es[1..]).frames;
      assert D.Run(p, d, es).frames == s.frames + fs;
      if s.frames != [] { assert (s.frames + fs)[1..] == fs; }
    }
  }

  lemma OneFrame(p: D.Params, d: D.Dis, e: D.Event)
    requires p.Ok() && D.Valid(p, d) && D.Legal(p, d, e)
    ensures |D.Step(p, d, e).frames| <= 1
  {
    hide D.Written, D.PacketSize;
    D.EmptyPacket();
  }

  /**
   Cancel a frame and go on in any way without a cancel: all frames finished from there on are delivered if nothing of the
   cancelled one had been sent, and otherwise all but the first.
   */
  lemma DeliveredAfterCancel(p: D.Params, q: A.Params, d: D.Dis, a: A.Asm, es: seq<D.Event>, n: nat)
    requires Matched(p, q) && p.Ok() && q.Ok() && D.Valid(p, d) && D.Legal(p, d, D.Cancel)
    requires InStep(p, q, d, a, n) && D.Valid(p, D.Step(p, d, D.Cancel).dis)
    requires D.LegalRun(p, D.Step(p, d, D.Cancel).dis, es) && NoCancel(es)
    requires |D.Run(p, D.Step(p, d, D.Cancel).dis, es).frames| < n <= 0x1_0000
    ensures var t := D.Run(p, D.Step(p, d, D.Cancel).dis, es);
            DeliveredInAll(q, a, t) == Rest(d.input.value.used > 0, t.frames)
  {
    hide A.Run, D.Run, D.LegalRun, Unhindered, DeliveredInAll, Ahead, Spared, Settled, Held, Quiet, NoCancel, Matched, InStep;
    var c := D.Step(p, d, D.Cancel).dis;
    StepGood(p, q, d, a, D.Cancel, n);
    FedNone(q, a);
    SparedAfter(p, c, d.input.value.used > 0, es);
    SparedUnhindered(p, q, c, a, false, es, n);
    RunAny(p, q, c, a, false, es, n);
    CancelAhead(q, a, c);
    var fs := Spared(p, c, d.input.value.used > 0, es);
    assert [] + fs == fs;
  }

  lemma CancelAhead(q: A.Params, a: A.Asm, c: D.Dis)
    requires q.Ok() && c.out.None?
    ensures Ahead(q, a, c) == A.Trace(a, [])
  {
    hide A.Run;
    RunNone(q, a);
  }

  // ---- a second cancel ----

  /** The first chunk of the next frame clashes with what is left of the cancelled one and wipes it out. */
  lemma FirstChunkClashes(p: D.Params, q: A.Params, a: A.Asm, c: Chunk, data: seq<byte>, used: nat, n: nat)
    requires p.Ok() && q.Ok() && Holds(p, a, c.id, data, used, 1, n) && used > 0 && n > 0
    requires c.start == 0 && (c.data == [] ==> c.last) && A.InBounds(q, c)
    ensures A.Receive(q, a, c).out.None? && Quiet(A.Receive(q, a, c).asm, c.id, n)
  {
    hide Clear, CountOk, A.Deliver;
    LocateHeld(p, q, a, c.id, data, used, 1, n);
    var r := A.Locate(q, a, c.id);
    FirstByteHeld(p, r.frames[r.at], c, data, used);
    ClashDrops(q, a.time, r, c, n);
  }

  lemma FirstByteHeld(p: D.Params, f: A.Frame, c: Chunk, data: seq<byte>, used: nat)
    requires p.Ok() && Current(p, f, c.id, data, used) && used > 0 && c.start == 0 && (c.data == [] ==> c.last)
    ensures !A.Compatible(f, c)
  {
    assert Covered(f.pieces, 0);
    var k :| 0 <= k < |f.pieces| && f.pieces[k].Has(0);
    if c.data != [] { assert Overlap(f.pieces[k], c.AsPiece()); } else { assert f.pieces[k].End() > c.End(); }
  }

  lemma ClashDrops(q: A.Params, now: int, r: A.Place, c: Chunk, n: nat)
    requires |r.frames| > 0 && r.at == |r.frames| - 1 && Timely(A.Asm(now, r.frames)) && Clear(r.frames[..r.at], c.id, n)
    requires !A.Compatible(r.frames[r.at], c)
    ensures A.Deliver(q, now, r, c).out.None? && Quiet(A.Deliver(q, now, r, c).asm, c.id, n)
  {
    assert A.DropAt(r.frames, r.at) == r.frames[..r.at];
  }

  /** Frame `f` waits, after the cancel, under the id of the cancelled frame. */
  function Resent(d: D.Dis, f: seq<byte>): D.Dis { D.Dis(d.id, Some(D.Input(f, 0)), None) }

  /**
   Cancel a frame in its middle, and the next one after a first packet with a single chunk: nothing is held any more, and
   the third frame will be delivered although it too follows a cancel in mid-frame.
   */
  lemma SecondCancelClears(p: D.Params, q: A.Params, d: D.Dis, a: A.Asm, f: seq<byte>, n: nat)
    requires Matched(p, q) && p.Ok() && q.Ok() && D.Valid(p, d) && InStep(p, q, d, a, n) && n > 0
    requires Used(d) > 0 && |f| <= p.inputMtu && D.Valid(p, Resent(d, f))
    requires var s := D.Step(p, Resent(d, f), D.Recv); Used(s.dis) > 0 && |s.packets| == 1 && |s.packets[0]| == 1
    ensures var s := D.Step(p, Resent(d, f), D.Recv);
            && s.dis.id == d.id && Fed(q, a, s.packets).outs == []
            && InStep(p, q, D.Dis(d.id, None, None), Fed(q, a, s.packets).asm, n)
  {
    hide A.Run, A.Tick, A.Receive, D.PacketSize, D.AllFit, Matched, D.WriteChunks, D.Close, Quiet, Holds, Fed;
    MatchedOk(p, q);
    var s := D.Step(p, Resent(d, f), D.Recv);
    D.EmptyPacket();
    WriteIs(p, d.id, D.Input(f, 0));
    var c := D.NextChunk(p, d.id, f, 0, 0);
    OneChunk(p, d.id, f, s);
    RunNone(q, a);
    FirstChunkClashes(p, q, a, c, Data(d), Used(d), n);
    FedChunk(q, a, c);
    var v := Fed(q, a, [[c]]).asm;
    TickQuiet(q, A.Receive(q, a, c).asm, d.id, n);
    RunNone(q, v);
    HoldsNothing(p, v, d.id, [], 1, n);
  }

  lemma OneChunk(p: D.Params, id: nat, f: seq<byte>, s: D.Effect)
    requires p.Ok() && id < 0x1_0000 && |f| <= p.inputMtu && D.OutAvail(p, 0) > 0
    requires var cs := D.Written(p, id, f, 0, 0); s == D.Close(p, id, f, cs[|cs| - 1].End(), cs)
    requires Used(s.dis) > 0 && |s.packets| == 1 && |s.packets[0]| == 1
    ensures s.packets == [[D.NextChunk(p, id, f, 0, 0)]] && s.dis.id == id && D.NextChunk(p, id, f, 0, 0).Fits()
    ensures f != []
  {
    hide D.PacketSize;
    D.WrittenFits(p, id, f, 0, 0);
    var cs := D.Written(p, id, f, 0, 0);
    assert cs[0] == D.NextChunk(p, id, f, 0, 0);
  }

  lemma FedChunk(q: A.Params, a: A.Asm, c: Chunk)
    requires q.Ok() && c.Fits()
    ensures var r := A.Receive(q, a, c);
            Fed(q, a, [[c]]) == A.Trace(A.Tick(q, r.asm), A.AsSeq(r.out))
  {
    hide A.Run, A.Tick, A.Receive;
    FedOne(q, a, [c]);
    RunArrival(q, a, c, []);
    RunNone(q, A.Receive(q, a, c).asm);
    assert [c] + [] == [c];
  }

  /** Packets with room for one byte of payload. */
  const Narrow: D.Params := D.Params(2, HEADER + 1, -1, -1)

  const SendTwo := [D.Send([1, 2]), D.Recv]

  lemma OneByteSent(id: nat, data: seq<byte>)
    requires id < 0x1_0000 && 1 <= |data| <= 2
    ensures var w := D.Dis(id, Some(D.Input(data, 0)), None);
            && D.Valid(Narrow, w) && D.Legal(Narrow, w, D.Recv)
            && var s := D.Step(Narrow, w, D.Recv);
               if |data| == 1 then s.frames == [data]
               else s.frames == [] && s.dis == D.Dis(id, Some(D.Input(data, 1)), None) && |s.packets| == 1 && |s.packets[0]| == 1
  {
    hide D.PacketSize, D.WriteChunks;
    D.EmptyPacket();
    var c := Chunk(id, 0, 1 == |data|, [data[0]]);
    assert data[0..1] == [data[0]];
    assert D.Written(Narrow, id, data, 0, 0) == [c];
    WriteIs(Narrow, id, D.Input(data, 0));
    D.PacketSizeOne(c);
  }

  /** A frame is offered and one packet taken. */
  lemma SendRecv(id: nat, data: seq<byte>)
    requires id < 0x1_0000 && 1 <= |data| <= 2
    ensures var d, es := D.Dis(id, None, None), [D.Send(data), D.Recv];
            && D.Valid(Narrow, d) && D.LegalRun(Narrow, d, es) && D.CleanRun(Narrow, d, es) && NoCancel(es)
            && var w := D.Dis(id, Some(D.Input(data, 0)), None);
               && D.Valid(Narrow, w) && D.Legal(Narrow, w, D.Recv)
               && var s := D.Step(Narrow, w, D.Recv);
                  D.Run(Narrow, d, es) == D.Trace(s.dis, s.packets, s.frames)
  {
    hide D.WriteChunks, D.PacketSize, D.AllFit;
    OneByteSent(id, data);
    var d, w := D.Dis(id, None, None), D.Dis(id, Some(D.Input(data, 0)), None);
    var s := D.Step(Narrow, w, D.Recv);
    OneEvent(w, D.Recv);
    hide D.Run, D.LegalRun, D.CleanRun;
    RunFirst(Narrow, d, D.Send(data), [D.Recv]);
    assert [D.Send(data)] + [D.Recv] == [D.Send(data), D.Recv];
    assert [] + s.packets == s.packets && [] + s.frames == s.frames;
  }

  lemma OneEvent(d: D.Dis, e: D.Event)
    requires D.Valid(Narrow, d) && D.Legal(Narrow, d, e) && D.Clean(d, e)
    ensures D.LegalRun(Narrow, d, [e]) && D.CleanRun(Narrow, d, [e])
    ensures var s := D.Step(Narrow, d, e); D.Run(Narrow, d, [e]) == D.Trace(s.dis, s.packets, s.frames)
  {
    hide D.Step, D.Valid, D.Legal, D.Clean;
    D.StepValid(Narrow, d, e);
    RunFirst(Narrow, d, e, []);
    assert [e] + [] == [e];
    var s := D.Step(Narrow, d, e);
    assert s.packets + [] == s.packets && s.frames + [] == s.frames;
  }

  /** A run, taken apart after its first event. */
  lemma RunFirst(p: D.Params, d: D.Dis, e: D.Event, es: seq<D.Event>)
    requires p.Ok() && D.Valid(p, d) && D.Legal(p, d, e) && D.Clean(d, e)
    ensures var s := D.Step(p, d, e);
            && D.Valid(p, s.dis) && (D.LegalRun(p, d, [e] + es) <==> D.LegalRun(p, s.dis, es))
            && (D.LegalRun(p, s.dis, es) ==>
                  && (D.CleanRun(p, d, [e] + es) <==> D.CleanRun(p, s.dis, es))
                  && var t := D.Run(p, s.dis, es);
                     D.Run(p, d, [e] + es) == D.Trace(t.dis, s.packets + t.packets, s.frames + t.frames))
  {
    hide D.Step, D.Legal, D.Clean, D.Valid;
    D.StepValid(p, d, e);
    assert ([e] + es)[1..] == es;
  }

  /** The first byte of a two-byte frame is out. */
  lemma MidFrame(q: A.Params)
    requires Matched(Narrow, q) && q.Ok()
    ensures D.Valid(Narrow, D.Initial) && D.LegalRun(Narrow, D.Initial, SendTwo)
    ensures var t := D.Run(Narrow, D.Initial, SendTwo);
            && t.dis == D.Dis(0, Some(D.Input([1, 2], 1)), None) && D.Valid(Narrow, t.dis)
            && InStep(Narrow, q, t.dis, Fed(q, A.Initial, t.packets).asm, 0x1_0000)
  {
    hide Matched, D.Run, D.LegalRun, D.CleanRun, D.Step, Fed, InStep, Ahead;
    SendRecv(0, [1, 2]);
    OneByteSent(0, [1, 2]);
    InitialInStep(Narrow, q, 0x1_0000);
    RunConserves(Narrow, q, D.Initial, A.Initial, SendTwo, 0x1_0000);
  }

  /** A two-byte frame is cancelled after its first byte was sent; the one-byte frame sent next is never delivered. */
  lemma CancelLosesNextFrame(q: A.Params)
    requires Matched(Narrow, q) && q.Ok()
    ensures D.Valid(Narrow, D.Initial) && D.LegalRun(Narrow, D.Initial, SendTwo)
    ensures var t := D.Run(Narrow, D.Initial, SendTwo);
            && D.Valid(Narrow, t.dis) && D.Legal(Narrow, t.dis, D.Cancel)
            && var c, es := D.Step(Narrow, t.dis, D.Cancel).dis, [D.Send([3]), D.Recv];
               && D.Valid(Narrow, c) && D.LegalRun(Narrow, c, es) && D.Run(Narrow, c, es).frames == [[3]]
               && DeliveredInAll(q, Fed(q, A.Initial, t.packets).asm, D.Run(Narrow, c, es)) == []
  {
    hide Matched, D.Run, D.LegalRun, D.CleanRun, Fed, InStep, Ahead, DeliveredInAll;
    MidFrame(q);
    SendRecv(0, [3]);
    OneByteSent(0, [3]);
    var t := D.Run(Narrow, D.Initial, SendTwo);
    DeliveredAfterCancel(Narrow, q, t.dis, Fed(q, A.Initial, t.packets).asm, [D.Send([3]), D.Recv], 0x1_0000);
  }

  /** The next frame is cancelled after its first byte as well; the third one is delivered. */
  lemma CancelTwiceSparesThird(q: A.Params)
    requires Matched(Narrow, q) && q.Ok()
    ensures D.Valid(Narrow, D.Initial) && D.LegalRun(Narrow, D.Initial, SendTwo)
    ensures var t := D.Run(Narrow, D.Initial, SendTwo);
            && D.Valid(Narrow, t.dis) && D.Legal(Narrow, t.dis, D.Cancel)
            && var c, es := D.Step(Narrow, t.dis, D.Cancel).dis, [D.Send([3, 4]), D.Recv];
               && D.Valid(Narrow, c) && D.LegalRun(Narrow, c, es)
               && var u := D.Run(Narrow, c, es);
                  && D.Valid(Narrow, u.dis) && D.Legal(Narrow, u.dis, D.Cancel) && Used(u.dis) > 0
                  && var c', es' := D.Step(Narrow, u.dis, D.Cancel).dis, [D.Send([5]), D.Recv];
                     && D.Valid(Narrow, c') && D.LegalRun(Narrow, c', es')
                     && DeliveredInAll(q, Fed(q, Fed(q, A.Initial, t.packets).asm, u.packets).asm, D.Run(Narrow, c', es')) == [[5]]
  {
    hide Matched, D.Run, D.LegalRun, D.CleanRun, Fed, InStep, Ahead, D.WriteChunks;
    MidFrame(q);
    SendRecv(0, [3, 4]);
    OneByteSent(0, [3, 4]);
    SendRecv(0, [5]);
    OneByteSent(0, [5]);
    var t := D.Run(Narrow, D.Initial, SendTwo);
    var a := Fed(q, A.Initial, t.packets).asm;
    SecondCancelClears(Narrow, q, t.dis, a, [3, 4], 0x1_0000);
    var d := D.Dis(0, None, None);
    var u := D.Run(Narrow, d, [D.Send([3, 4]), D.Recv]);
    assert Used(u.dis) == 1;
    var b := Fed(q, a, u.packets).asm;
    RunConserves(Narrow, q, d, b, [D.Send([5]), D.Recv], 0x1_0000);
    CancelAhead(q, b, d);
  }
}
