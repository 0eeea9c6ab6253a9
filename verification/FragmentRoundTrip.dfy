/**
 Disassembler and assembler end to end. `q` are the assembler's parameters and `p` the disassembler's; the assembler
 has at least as many chunk slots as fragmentproto_max_chunks_for_frame says when chunks are not limited further, and
 otherwise two for each whole chunk of the largest frame.
 */
module FragmentRoundTrip {
  import opened Bytes
  import opened FragmentPieces
  import Lists
  import opened FragmentWire
  import A = FragmentAssemblerSpec
  import D = FragmentDisassemblerSpec

  function DivideUp(a: nat, b: nat): nat
    requires b > 0
  {
    (a + b - 1) / b
  }

  /** fragmentproto_max_chunks_for_frame */
  function MaxChunksForFrame(carrierMtu: nat, frameMtu: nat): nat
    requires HEADER < carrierMtu
  {
    DivideUp(frameMtu, carrierMtu - HEADER) + 1
  }

  ghost predicate Matched(p: D.Params, q: A.Params) {
    && p.Ok() && q.Ok() && p.inputMtu <= q.mtu
    && (if p.chunkMtu < 0 then q.numChunks >= MaxChunksForFrame(p.outputMtu, p.inputMtu)
        else q.numChunks >= 2 * DivideUp(p.inputMtu, Unit(p)) && q.numChunks >= 1)
  }

  /** What a chunk carries that is neither the last of its frame nor cut short by the end of its packet. */
  function Unit(p: D.Params): nat
    requires p.Ok()
  {
    if 0 < p.chunkMtu < p.Room() then p.chunkMtu else p.Room()
  }

  /**
   `n` chunks can hold `used` bytes of a frame that is not finished. With chunks limited in size, one that is cut short
   by its packet is followed by a whole one, so at least every other chunk is whole.
   */
  ghost predicate CountOk(p: D.Params, n: nat, used: nat)
    requires p.Ok()
  {
    && n <= used
    && (p.chunkMtu < 0 && n > 0 ==> (n - 1) * p.Room() < used)
    && (p.chunkMtu > 0 ==> n / 2 * Unit(p) <= used)
  }

  /** The same while the last chunk was a whole one. */
  ghost predicate CountWhole(p: D.Params, n: nat, used: nat)
    requires p.Ok()
  {
    p.chunkMtu > 0 ==> (n + 1) / 2 * Unit(p) <= used
  }

  /** The assembler holds exactly the first `used` bytes of `data`, as pieces `ps`. */
  ghost predicate Prefix(ps: seq<Piece>, data: seq<byte>, used: nat) {
    && used <= |data|
    && Disjoint(ps) && Within(ps, used) && Full(ps, used)
    && (forall k :: 0 <= k < |ps| ==> ps[k].End() <= |data| && ps[k].data == data[ps[k].start..ps[k].End()])
  }

  /** How many frames on from `id` the id `x` is used. */
  function Distance(id: nat, x: nat): nat { (x - id) % 0x1_0000 }

  /** None of the frames has an id that will be used within `n` frames. */
  ghost predicate Clear(fs: seq<A.Frame>, id: nat, n: nat) {
    forall k :: 0 <= k < |fs| ==> fs[k].id < 0x1_0000 && Distance(id, fs[k].id) >= n
  }

  ghost predicate Timely(a: A.Asm) {
    0 <= a.time <= A.MAX_TIME && forall k :: 0 <= k < |a.frames| ==> 0 <= a.frames[k].time <= a.time
  }

  /** Whatever frames are held are left over, from ids that are not used for another `n` frames. */
  ghost predicate Quiet(a: A.Asm, id: nat, n: nat) { Timely(a) && Clear(a.frames, id, n) }

  /**
   The assembler's state while `used` bytes of frame `id` have been sent and `lag` packets ended since the last of them.
   Frames left over from ids that are not used for another `n` frames come before the one being received.
   */
  ghost predicate Holds(p: D.Params, a: A.Asm, id: nat, data: seq<byte>, used: nat, lag: nat, n: nat)
    requires p.Ok()
  {
    && used <= |data|
    && if used == 0 then Quiet(a, id, n)
       else
         && Timely(a) && |a.frames| > 0 && Clear(a.frames[..|a.frames| - 1], id, n)
         && Current(p, a.frames[|a.frames| - 1], id, data, used) && a.time <= a.frames[|a.frames| - 1].time + lag
  }

  /** The frame being received. */
  ghost predicate Current(p: D.Params, f: A.Frame, id: nat, data: seq<byte>, used: nat)
    requires p.Ok()
  {
    f.id == id && f.length.None? && Prefix(f.pieces, data, used) && CountOk(p, |f.pieces|, used)
  }

  lemma ClearNext(fs: seq<A.Frame>, id: nat, n: nat)
    requires Clear(fs, id, n) && n > 0 && id < 0x1_0000
    ensures Clear(fs, (id + 1) % 0x1_0000, n - 1)
  {
  }

  lemma SlotsLeft(p: D.Params, q: A.Params, n: nat, used: nat, len: nat)
    requires Matched(p, q) && CountOk(p, n, used) && used < len <= p.inputMtu
    ensures n < q.numChunks
  {
    if p.chunkMtu < 0 {
      DivideUpBound(p.inputMtu, p.Room(), n);
    } else {
      DivideUpBound(p.inputMtu, Unit(p), n / 2 + 1);
    }
  }

  lemma LeastMultiple(d: nat, m: nat, b: nat)
    requires d <= m
    ensures d * b <= m * b
  {
  }

  lemma DivideUpBound(a: nat, b: nat, n: nat)
    requires b > 0
    ensures n > DivideUp(a, b) ==> (n - 1) * b >= a
  {
    var d := DivideUp(a, b);
    assert d * b >= a by { assert a + b - 1 == d * b + (a + b - 1) % b; }
    hide DivideUp;
    if n > d { LeastMultiple(d, n - 1, b); }
  }

  /** Appending the next bytes to a prefix gives the longer prefix. */
  lemma PrefixExtends(ps: seq<Piece>, data: seq<byte>, used: nat, q: Piece)
    requires Prefix(ps, data, used) && q.start == used && q.End() <= |data| && q.data == data[used..q.End()]
    ensures Prefix(ps + [q], data, q.End())
    ensures forall k :: 0 <= k < |ps| ==> !Overlap(ps[k], q)
  {
    var r := ps + [q];
    forall i | 0 <= i < q.End() ensures Covered(r, i) {
      if i < used {
        assert Covered(ps, i);
        var k :| 0 <= k < |ps| && ps[k].Has(i);
        assert r[k].Has(i);
      } else {
        assert r[|ps|].Has(i);
      }
    }
    hide Overlap, Covered;
    forall k | 0 <= k < |ps| ensures !Overlap(ps[k], q) { NoOverlap(ps[k], q); }
  }

  lemma NoOverlap(a: Piece, b: Piece)
    requires a.End() <= b.start
    ensures !Overlap(a, b)
  {
  }

  /** A full prefix spells the frame. */
  lemma PrefixContent(ps: seq<Piece>, data: seq<byte>)
    requires Prefix(ps, data, |data|)
    ensures Content(ps, |data|) == data
  {
    var r := Content(ps, |data|);
    forall i | 0 <= i < |data| ensures r[i] == data[i] {
      assert Covered(ps, i);
      var k :| 0 <= k < |ps| && ps[k].Has(i);
      ByteAtUnique(ps, i, k);
    }
  }

  /** The located frame holds the prefix sent so far; the others are left over. */
  ghost predicate Ready(p: D.Params, now: int, r: A.Place, id: nat, data: seq<byte>, used: nat, n: nat)
    requires p.Ok()
  {
    && |r.frames| > 0 && r.at == |r.frames| - 1 && Timely(A.Asm(now, r.frames))
    && Clear(r.frames[..r.at], id, n) && Current(p, r.frames[r.at], id, data, used)
  }

  lemma {:induction false} NotThere(fs: seq<A.Frame>, id: nat, n: nat)
    requires Clear(fs, id, n) && n > 0
    ensures A.IndexOf(fs, id) == |fs|
  {
    if fs != [] {
      assert fs[0].id != id by { assert Distance(id, fs[0].id) >= 1; }
      NotThere(fs[1..], id, n);
    }
  }

  lemma {:induction false} ThereLast(fs: seq<A.Frame>, id: nat, n: nat)
    requires fs != [] && Clear(fs[..|fs| - 1], id, n) && n > 0 && fs[|fs| - 1].id == id
    ensures A.IndexOf(fs, id) == |fs| - 1
  {
    if |fs| > 1 {
      var front := fs[..|fs| - 1];
      assert fs[0].id != id by { assert Distance(id, front[0].id) >= 1; }
      assert fs[1..][..|fs| - 2] == front[1..];
      ThereLast(fs[1..], id, n);
    }
  }

  lemma LocateHeld(p: D.Params, q: A.Params, a: A.Asm, id: nat, data: seq<byte>, used: nat, lag: nat, n: nat)
    requires p.Ok() && q.Ok() && Holds(p, a, id, data, used, lag, n) && lag <= 1 && n > 0
    ensures Ready(p, a.time, A.Locate(q, a, id), id, data, used, n)
    ensures used > 0 ==> |a.frames| > 0 && A.Locate(q, a, id).frames == a.frames
    ensures used == 0 ==> A.Locate(q, a, id).frames[A.Locate(q, a, id).at].pieces == []
  {
    hide Prefix, CountOk, Distance;
    if used == 0 {
      EmptyPrefix(data);
      EmptyCount(p);
      NotThere(a.frames, id, n);
      var fs := if |a.frames| >= q.numFrames then a.frames[1..] else a.frames;
      var r := A.Locate(q, a, id);
      assert r.frames[..r.at] == fs;
    } else {
      ThereLast(a.frames, id, n);
    }
  }

  lemma EmptyCount(p: D.Params)
    requires p.Ok()
    ensures CountOk(p, 0, 0)
  {
  }

  lemma EmptyPrefix(data: seq<byte>)
    ensures Prefix([], data, 0)
  {
  }

  /** `c` carries the next bytes of `data`, and is marked last exactly when it reaches the end. */
  ghost predicate Follows(p: D.Params, c: Chunk, id: nat, data: seq<byte>, used: nat) {
    && c.id == id && c.start == used && c.End() <= |data| && c.data == data[used..c.End()]
    && (c.last <==> c.End() == |data|)
    && (used < |data| ==> c.data != [])
    && (p.chunkMtu < 0 && used > 0 && !c.last ==> |c.data| == p.Room())
  }

  lemma CountExtends(p: D.Params, n: nat, used: nat, len: nat)
    requires p.Ok() && CountOk(p, n, used) && len > 0 && (n == 0 <==> used == 0)
    requires p.chunkMtu < 0 && used > 0 ==> len == p.Room()
    requires CountWhole(p, n, used) || len == Unit(p)
    ensures CountOk(p, n + 1, used + len)
    ensures len == Unit(p) ==> CountWhole(p, n + 1, used + len)
  {
    hide Unit;
    if p.chunkMtu < 0 {
      if n > 0 { assert (n + 1 - 1) * p.Room() == (n - 1) * p.Room() + p.Room(); }
    } else {
      CountLimited(n, Unit(p), used, len);
    }
  }

  lemma CountLimited(n: nat, u: nat, used: nat, len: nat)
    requires n / 2 * u <= used && ((n + 1) / 2 * u <= used || len == u)
    ensures (n + 1) / 2 * u <= used + len
    ensures len == u ==> (n + 2) / 2 * u <= used + len
  {
    Halves(n, u);
  }

  lemma Halves(n: nat, u: nat)
    ensures (n + 2) / 2 * u == n / 2 * u + u
    ensures (n + 1) / 2 * u <= n / 2 * u + u
  {
    var h := n / 2;
    assert (n + 2) / 2 == h + 1;
    assert (h + 1) * u == h * u + u;
    if n % 2 == 0 {
      assert (n + 1) / 2 == h;
    } else {
      assert (n + 1) / 2 == h + 1;
    }
  }

  /** The frame being received, if any, ended with a whole chunk. */
  ghost predicate Whole(p: D.Params, a: A.Asm, used: nat)
    requires p.Ok()
  {
    used > 0 ==> |a.frames| > 0 && CountWhole(p, |a.frames[|a.frames| - 1].pieces|, used)
  }

  lemma PrefixNonEmpty(ps: seq<Piece>, data: seq<byte>, used: nat)
    requires Prefix(ps, data, used) && used > 0
    ensures ps != []
  {
    assert Covered(ps, 0);
  }

  ghost predicate AfterChunk(p: D.Params, now: int, r: A.Result, c: Chunk, id: nat, data: seq<byte>, n: nat)
    requires p.Ok()
  {
    && r.asm.time == now
    && if c.last then r.out == Some(data) && Quiet(r.asm, id, n)
       else
         && r.out.None? && Holds(p, r.asm, id, data, c.End(), 0, n)
         && (|c.data| == Unit(p) ==> Whole(p, r.asm, c.End()))
  }

  lemma DeliverNext(p: D.Params, q: A.Params, now: int, r: A.Place, c: Chunk, id: nat, data: seq<byte>, used: nat, n: nat)
    requires Matched(p, q) && Ready(p, now, r, id, data, used, n) && |data| <= p.inputMtu
    requires Follows(p, c, id, data, used) && (used < |data| || used == 0)
    requires c.last || |c.data| == Unit(p) || CountWhole(p, |r.frames[r.at].pieces|, used)
    ensures AfterChunk(p, now, A.Deliver(q, now, r, c), c, id, data, n)
  {
    var f := r.frames[r.at];
    var g := A.Extend(f, c, now);
    PrefixExtends(f.pieces, data, used, c.AsPiece());
    hide Full, Disjoint, Covered, Clear;
    assert A.Compatible(f, c);
    if c.last {
      PrefixContent(g.pieces, data);
      assert A.Complete(g);
      assert A.DropAt(r.frames, r.at) == r.frames[..r.at];
    } else {
      if used > 0 { PrefixNonEmpty(f.pieces, data, used); }
      CountExtends(p, |f.pieces|, used, |c.data|);
      SlotsLeft(p, q, |g.pieces|, c.End(), |data|);
      hide Prefix, CountOk, CountWhole, Matched;
      assert r.frames[r.at := g][..r.at] == r.frames[..r.at];
    }
  }

  lemma ReceiveNext(p: D.Params, q: A.Params, a: A.Asm, c: Chunk, id: nat, data: seq<byte>, used: nat, lag: nat, n: nat)
    requires Matched(p, q) && Holds(p, a, id, data, used, lag, n) && lag <= 1 && |data| <= p.inputMtu && n > 0
    requires Follows(p, c, id, data, used) && (used < |data| || used == 0)
    requires c.last || |c.data| == Unit(p) || Whole(p, a, used)
    ensures AfterChunk(p, a.time, A.Receive(q, a, c), c, id, data, n)
  {
    hide A.Locate, A.Deliver, AfterChunk, Clear, Timely;
    LocateHeld(p, q, a, id, data, used, lag, n);
    DeliverNext(p, q, a.time, A.Locate(q, a, id), c, id, data, used, n);
  }

  function Arrivals(cs: seq<Chunk>): (es: seq<A.Event>)
    ensures |es| == |cs|
    ensures forall i :: 0 <= i < |cs| ==> es[i] == A.Arrive(cs[i])
  {
    seq(|cs|, i requires 0 <= i < |cs| => A.Arrive(cs[i]))
  }

  ghost predicate AfterChunks(p: D.Params, now: int, t: A.Trace, u: nat, id: nat, data: seq<byte>, n: nat)
    requires p.Ok()
  {
    && t.asm.time == now
    && if u == |data| then t.outs == [data] && Quiet(t.asm, id, n)
       else t.outs == [] && u > 0 && Holds(p, t.asm, id, data, u, 0, n)
  }

  lemma NextFollows(p: D.Params, id: nat, data: seq<byte>, used: nat, outUsed: nat)
    requires p.Ok() && used <= |data| && D.OutAvail(p, outUsed) > 0
    requires p.chunkMtu < 0 && used > 0 ==> outUsed == 0
    ensures Follows(p, D.NextChunk(p, id, data, used, outUsed), id, data, used)
    ensures var c := D.NextChunk(p, id, data, used, outUsed);
            && (p.chunkMtu < 0 && !c.last ==> D.OutAvail(p, outUsed + HEADER + |c.data|) <= 0)
            && (!c.last && outUsed == 0 ==> |c.data| == Unit(p))
            && (!c.last && D.OutAvail(p, outUsed + HEADER + |c.data|) > 0 ==> |c.data| == Unit(p))
  {
  }

  /** The chunks written by one call bring the assembler exactly to where the disassembler is. */
  lemma {:induction false} RunWritten(p: D.Params, q: A.Params, a: A.Asm, id: nat, data: seq<byte>, used: nat, outUsed: nat, lag: nat, n: nat)
    requires Matched(p, q) && Holds(p, a, id, data, used, lag, n) && lag <= 1 && |data| <= p.inputMtu && n > 0
    requires (used < |data| || used == 0) && D.OutAvail(p, outUsed) > 0
    requires p.chunkMtu < 0 && used > 0 ==> outUsed == 0
    requires outUsed > 0 ==> Whole(p, a, used)
    ensures var cs := D.Written(p, id, data, used, outUsed);
            AfterChunks(p, a.time, A.Run(q, a, Arrivals(cs)), cs[|cs| - 1].End(), id, data, n)
    decreases |data| - used
  {
    hide D.NextChunk, D.Written, A.Receive, Holds, Whole, Matched, A.Run, Arrivals, Follows, Unit, AfterChunk, AfterChunks, A.AsSeq;
    MatchedOk(p, q);
    WrittenFirst(p, id, data, used, outUsed);
    var c := D.NextChunk(p, id, data, used, outUsed);
    var u, o := c.End(), outUsed + HEADER + |c.data|;
    NextFollows(p, id, data, used, outUsed);
    ReceiveNext(p, q, a, c, id, data, used, lag, n);
    var r := A.Receive(q, a, c);
    if |data| - u > 0 && D.OutAvail(p, o) > 0 {
      NotLast(p, a.time, r, c, id, data, n);
      RunWritten(p, q, r.asm, id, data, u, o, 0, n);
      ArriveMore(q, a, c, D.Written(p, id, data, u, o));
    } else {
      ArriveOne(q, a, c);
      AfterOne(p, a.time, r, c, id, data, n);
    }
  }

  lemma ArriveOne(q: A.Params, a: A.Asm, c: Chunk)
    requires q.Ok()
    ensures var r := A.Receive(q, a, c); A.Run(q, a, Arrivals([c])) == A.Trace(r.asm, A.AsSeq(r.out))
  {
    hide A.Receive, A.Run, Arrivals;
    var r := A.Receive(q, a, c);
    RunArrival(q, a, c, []);
    RunNone(q, r.asm);
    assert [c] + [] == [c];
    assert A.AsSeq(r.out) + [] == A.AsSeq(r.out);
  }

  lemma ArriveMore(q: A.Params, a: A.Asm, c: Chunk, cs: seq<Chunk>)
    requires q.Ok() && A.AsSeq(A.Receive(q, a, c).out) == [] && cs != []
    ensures A.Run(q, a, Arrivals([c] + cs)) == A.Run(q, A.Receive(q, a, c).asm, Arrivals(cs))
    ensures ([c] + cs)[|cs|] == cs[|cs| - 1]
  {
    hide A.Receive, A.Run, Arrivals;
    RunArrival(q, a, c, cs);
    var t := A.Run(q, A.Receive(q, a, c).asm, Arrivals(cs));
    assert [] + t.outs == t.outs;
  }

  lemma WrittenFirst(p: D.Params, id: nat, data: seq<byte>, used: nat, outUsed: nat)
    requires p.Ok() && used <= |data| && D.OutAvail(p, outUsed) > 0
    ensures var c := D.NextChunk(p, id, data, used, outUsed);
            var u, o := c.End(), outUsed + HEADER + |c.data|;
            D.Written(p, id, data, used, outUsed) ==
              if |data| - u > 0 && D.OutAvail(p, o) > 0 then [c] + D.Written(p, id, data, u, o) else [c]
  {
    hide D.NextChunk;
  }

  lemma NotLast(p: D.Params, now: int, r: A.Result, c: Chunk, id: nat, data: seq<byte>, n: nat)
    requires p.Ok() && AfterChunk(p, now, r, c, id, data, n) && !c.last
    ensures r.asm.time == now && A.AsSeq(r.out) == [] && Holds(p, r.asm, id, data, c.End(), 0, n)
    ensures |c.data| == Unit(p) ==> Whole(p, r.asm, c.End())
  {
    hide Holds, Whole, Unit;
  }

  lemma AfterOne(p: D.Params, now: int, r: A.Result, c: Chunk, id: nat, data: seq<byte>, n: nat)
    requires p.Ok() && AfterChunk(p, now, r, c, id, data, n) && (c.last <==> c.End() == |data|) && (c.last || c.End() > 0)
    ensures AfterChunks(p, now, A.Trace(r.asm, A.AsSeq(r.out)), c.End(), id, data, n)
  {
    hide Holds, Quiet;
  }

  lemma RunArrival(q: A.Params, a: A.Asm, c: Chunk, cs: seq<Chunk>)
    requires q.Ok()
    ensures var r := A.Receive(q, a, c);
            var t := A.Run(q, r.asm, Arrivals(cs));
            A.Run(q, a, Arrivals([c] + cs)) == A.Trace(t.asm, A.AsSeq(r.out) + t.outs)
  {
    hide A.Receive;
    assert Arrivals([c] + cs)[0] == A.Arrive(c);
    assert Arrivals([c] + cs)[1..] == Arrivals(cs);
  }

  lemma MatchedOk(p: D.Params, q: A.Params)
    requires Matched(p, q)
    ensures p.Ok() && q.Ok() && p.inputMtu <= q.mtu
  {
  }

  // ---- whole runs ----

  lemma {:induction false} PacketIsItsChunks(cs: seq<Chunk>)
    requires D.AllFit(cs)
    ensures A.PacketEvents(EncodeAll(cs)) == Arrivals(cs) + [A.EndPacket]
    decreases |cs|
  {
    hide Encode, ParseHead;
    if cs != [] {
      assert cs[0].Fits();
      assert D.AllFit(cs[1..]);
      PacketIsItsChunks(cs[1..]);
      ParseEncoded(cs[0], EncodeAll(cs[1..]));
      assert |Encode(cs[0])| >= HEADER;
      assert [A.Arrive(cs[0])] + (Arrivals(cs[1..]) + [A.EndPacket]) == Arrivals(cs) + [A.EndPacket];
    }
  }

  lemma {:induction false} RetainedClear(q: A.Params, now: int, fs: seq<A.Frame>, id: nat, n: nat)
    requires Clear(fs, id, n)
    ensures Clear(A.Retained(q, now, fs), id, n)
  {
    if fs != [] {
      RetainedClear(q, now, fs[..|fs| - 1], id, n);
    }
  }

  lemma TickTimely(q: A.Params, a: A.Asm)
    requires q.Ok() && Timely(a)
    ensures Timely(A.Tick(q, a))
  {
    if a.time == A.MAX_TIME {
      var fs := A.Retained(q, a.time, a.frames);
      A.RetainedIs(q, a.time, a.frames);
      if fs != [] {
        A.MinTimeIs(fs);
        forall k | 0 <= k < |fs| ensures A.MinTime(fs) <= fs[k].time && 1 <= fs[k].time <= a.time {
          assert fs[k] in fs;
        }
        hide A.Retained;
        var f :| f in fs && f.time == A.MinTime(fs);
        assert 1 <= f.time <= a.time;
      }
    }
  }

  lemma TickQuiet(q: A.Params, a: A.Asm, id: nat, n: nat)
    requires q.Ok() && Quiet(a, id, n)
    ensures Quiet(A.Tick(q, a), id, n)
  {
    TickTimely(q, a);
    hide Timely, Distance;
    RetainedClear(q, a.time, a.frames, id, n);
  }

  lemma TickHolds(p: D.Params, q: A.Params, a: A.Asm, id: nat, data: seq<byte>, used: nat, n: nat)
    requires p.Ok() && q.Ok() && Holds(p, a, id, data, used, 0, n)
    ensures Holds(p, A.Tick(q, a), id, data, used, 1, n)
  {
    hide Prefix, CountOk, A.Tick, Timely, Clear;
    if used == 0 {
      TickQuiet(q, a, id, n);
    } else {
      TimelyLast(a);
      TickLast(q, a, id, n);
    }
  }

  /** A frame of this packet survives the end of the packet and is then one packet old. */
  lemma TickLast(q: A.Params, a: A.Asm, id: nat, n: nat)
    requires q.Ok() && Timely(a) && |a.frames| > 0 && Clear(a.frames[..|a.frames| - 1], id, n)
    requires a.frames[|a.frames| - 1].time == a.time
    ensures var b := A.Tick(q, a);
            && Timely(b) && |b.frames| > 0 && Clear(b.frames[..|b.frames| - 1], id, n)
            && var f := b.frames[|b.frames| - 1];
               f == a.frames[|a.frames| - 1].(time := f.time) && b.time <= f.time + 1
  {
    TickTimely(q, a);
    hide Timely, Distance;
    var front := a.frames[..|a.frames| - 1];
    RetainedClear(q, a.time, front, id, n);
    if a.time == A.MAX_TIME {
      var fs := A.Retained(q, a.time, a.frames);
      assert fs == A.Retained(q, a.time, front) + [a.frames[|a.frames| - 1]];
      assert fs[..|fs| - 1] == A.Retained(q, a.time, front);
      ShiftedClear(fs, A.MinTime(fs), id, n);
    }
  }

  lemma ShiftedClear(fs: seq<A.Frame>, m: int, id: nat, n: nat)
    requires fs != [] && Clear(fs[..|fs| - 1], id, n)
    ensures Clear(A.Shifted(fs, m)[..|fs| - 1], id, n)
  {
    hide Distance;
    var gs := A.Shifted(fs, m)[..|fs| - 1];
    forall k | 0 <= k < |gs| ensures gs[k].id == fs[..|fs| - 1][k].id { }
  }

  lemma TimelyLast(a: A.Asm)
    requires Timely(a) && |a.frames| > 0
    ensures a.frames[|a.frames| - 1].time <= a.time
  {
  }

  function Open(d: D.Dis): seq<Chunk> { if d.out.Some? then d.out.value else [] }
  function Data(d: D.Dis): seq<byte> { if d.input.Some? then d.input.value.data else [] }
  function Used(d: D.Dis): nat { if d.input.Some? then d.input.value.used else 0 }

  /** The assembler after the packets sent so far, fed also with the chunks of the packet still on offer. */
  ghost function Ahead(q: A.Params, a: A.Asm, d: D.Dis): A.Trace
    requires q.Ok()
  {
    A.Run(q, a, Arrivals(Open(d)))
  }

  ghost predicate InStep(p: D.Params, q: A.Params, d: D.Dis, a: A.Asm, n: nat)
    requires p.Ok() && q.Ok()
  {
    Holds(p, Ahead(q, a, d).asm, d.id, Data(d), Used(d), 1, n)
  }

  /** `t` is what the assembler did with the packets of step `s`: nothing is lost, nothing is delivered twice. */
  ghost predicate Conserves(p: D.Params, q: A.Params, d: D.Dis, a: A.Asm, s: D.Effect, t: A.Trace, n: nat)
    requires p.Ok() && q.Ok() && |s.frames| <= n
  {
    && InStep(p, q, s.dis, t.asm, n - |s.frames|)
    && Ahead(q, a, d).outs + s.frames == t.outs + Ahead(q, t.asm, s.dis).outs
  }

  lemma RunNone(q: A.Params, a: A.Asm)
    requires q.Ok()
    ensures A.Run(q, a, []) == A.Trace(a, [])
    ensures Arrivals([]) == []
  {
  }

  lemma HoldsNothing(p: D.Params, a: A.Asm, id: nat, data: seq<byte>, lag: nat, n: nat)
    requires p.Ok() && Quiet(a, id, n)
    ensures Holds(p, a, id, data, 0, lag, n)
  {
  }

  lemma IdleIsQuiet(p: D.Params, a: A.Asm, id: nat, data: seq<byte>, lag: nat, n: nat)
    requires p.Ok() && Holds(p, a, id, data, 0, lag, n)
    ensures Quiet(a, id, n)
  {
  }

  lemma OnePacket(q: A.Params, a: A.Asm, cs: seq<Chunk>)
    requires q.Ok() && D.AllFit(cs)
    ensures var t := A.Run(q, a, Arrivals(cs));
            A.Run(q, a, A.Events(D.Encoded([cs]))) == A.Trace(A.Tick(q, t.asm), t.outs)
  {
    hide A.Tick, A.Receive;
    var ps := D.Encoded([cs]);
    assert ps[1..] == [];
    assert A.Events(ps) == A.PacketEvents(EncodeAll(cs));
    PacketIsItsChunks(cs);
    A.RunAppend(q, a, Arrivals(cs), [A.EndPacket]);
    var t := A.Run(q, a, Arrivals(cs));
    RunEnd(q, t.asm);
  }

  lemma RunEnd(q: A.Params, a: A.Asm)
    requires q.Ok()
    ensures A.Run(q, a, [A.EndPacket]) == A.Trace(A.Tick(q, a), [])
  {
    var es := [A.EndPacket];
    assert es[1..] == [];
    assert A.Run(q, A.Tick(q, a), es[1..]) == A.Trace(A.Tick(q, a), []);
  }

  lemma WriteConserves(p: D.Params, q: A.Params, d: D.Dis, a: A.Asm, input: D.Input, out: seq<Chunk>, n: nat)
    requires Matched(p, q) && d.id < 0x1_0000 && out == Open(d) && D.AllFit(out)
    requires D.OutAvail(p, D.PacketSize(out)) > 0
    requires |input.data| <= p.inputMtu && (input.used < |input.data| || input.used == 0)
    requires input.used > 0 ==> out == []
    requires Holds(p, Ahead(q, a, d).asm, d.id, input.data, input.used, 1, n) && n > 0
    ensures var s := D.WriteChunks(p, d.id, input, out);
            Conserves(p, q, d, a, s, A.Run(q, a, A.Events(D.Encoded(s.packets))), n)
  {
    hide D.Written, D.PacketSize, A.Run, D.AllFit, Holds, Matched, AfterChunks;
    MatchedOk(p, q);
    var cs := D.Written(p, d.id, input.data, input.used, D.PacketSize(out));
    var b := Ahead(q, a, d);
    D.EmptyPacket();
    RunWritten(p, q, b.asm, d.id, input.data, input.used, D.PacketSize(out), 1, n);
    var t := A.Run(q, b.asm, Arrivals(cs));
    var u := cs[|cs| - 1].End();
    D.WrittenFits(p, d.id, input.data, input.used, D.PacketSize(out));
    D.WrittenExhausts(p, d.id, input.data, input.used, D.PacketSize(out));
    D.PacketSizeAppend(out, cs);
    assert Arrivals(out + cs) == Arrivals(out) + Arrivals(cs);
    A.RunAppend(q, a, Arrivals(out), Arrivals(cs));
    WriteConserves2(p, q, d, a, input, out, cs, u, b, t, n);
  }

  lemma WriteConserves2(p: D.Params, q: A.Params, d: D.Dis, a: A.Asm, input: D.Input, out: seq<Chunk>,
                        cs: seq<Chunk>, u: nat, b: A.Trace, t: A.Trace, n: nat)
    requires p.Ok() && q.Ok() && input.used <= |input.data| && D.OutAvail(p, D.PacketSize(out)) > 0
    requires cs == D.Written(p, d.id, input.data, input.used, D.PacketSize(out)) && u == cs[|cs| - 1].End()
    requires D.AllFit(out) && D.AllFit(cs) && d.id < 0x1_0000 && n > 0
    requires b == Ahead(q, a, d) && AfterChunks(p, b.asm.time, t, u, d.id, input.data, n)
    requires A.Run(q, a, Arrivals(out + cs)) == A.Trace(t.asm, b.outs + t.outs)
    requires u < |input.data| ==> D.OutAvail(p, D.PacketSize(out + cs)) <= 0
    ensures var s := D.WriteChunks(p, d.id, input, out);
            Conserves(p, q, d, a, s, A.Run(q, a, A.Events(D.Encoded(s.packets))), n)
  {
    hide D.Written, A.Tick, D.PacketSize, A.Run, D.AllFit, Quiet;
    var s := D.WriteChunks(p, d.id, input, out);
    var packet := out + cs;
    assert D.AllFit(packet) by { AllFitAppend(out, cs); }
    if u == |input.data| {
      QuietNext(t.asm, d.id, n);
      HoldsNothing(p, t.asm, s.dis.id, [], 0, n - 1);
      HoldsNothing(p, t.asm, s.dis.id, [], 1, n - 1);
    } else {
      assert Holds(p, t.asm, d.id, input.data, u, 0, n);
    }
    if s.packets == [packet] {
      OnePacket(q, a, packet);
      RunNone(q, A.Tick(q, t.asm));
      TickHolds(p, q, t.asm, s.dis.id, Data(s.dis), Used(s.dis), n - |s.frames|);
      assert b.outs + s.frames == b.outs + t.outs;
    } else {
      assert D.Encoded(s.packets) == [];
      assert A.Events([]) == [];
      RunNone(q, a);
      assert [] + (b.outs + t.outs) == b.outs + s.frames;
    }
  }

  lemma QuietNext(a: A.Asm, id: nat, n: nat)
    requires Quiet(a, id, n) && n > 0 && id < 0x1_0000
    ensures Quiet(a, (id + 1) % 0x1_0000, n - 1)
  {
    ClearNext(a.frames, id, n);
  }

  lemma AllFitAppend(a: seq<Chunk>, b: seq<Chunk>)
    requires D.AllFit(a) && D.AllFit(b)
    ensures D.AllFit(a + b)
  {
  }

  lemma StepConserves(p: D.Params, q: A.Params, d: D.Dis, a: A.Asm, e: D.Event, n: nat)
    requires Matched(p, q) && D.Valid(p, d) && D.Legal(p, d, e) && D.Clean(d, e) && InStep(p, q, d, a, n) && n > 0
    ensures var s := D.Step(p, d, e);
            |s.frames| <= 1 && Conserves(p, q, d, a, s, A.Run(q, a, A.Events(D.Encoded(s.packets))), n)
  {
    hide D.WriteChunks, A.Run, D.PacketSize, Holds, Matched, Conserves, D.AllFit;
    MatchedOk(p, q);
    D.EmptyPacket();
    var b := Ahead(q, a, d);
    match e {
      case Send(f) =>
        IdleHolds(p, b.asm, d.id, Data(d), f, n);
        if d.out.Some? {
          OneFinished(p, d.id, D.Input(f, 0), d.out.value);
          WriteConserves(p, q, d, a, D.Input(f, 0), d.out.value, n);
        } else {
          StillConserves(p, q, d, a, D.Step(p, d, e).dis, n);
        }
      case Recv =>
        if d.input.Some? {
          NoChunks();
          OneFinished(p, d.id, d.input.value, []);
          WriteConserves(p, q, d, a, d.input.value, [], n);
        } else {
          StillConserves(p, q, d, a, D.Step(p, d, e).dis, n);
        }
      case Timer => TimerConserves(p, q, d, a, n);
      case Cancel =>
        IdleHolds(p, b.asm, d.id, Data(d), [], n);
        StillConserves(p, q, d, a, D.Step(p, d, e).dis, n);
    }
  }

  lemma NoChunks()
    ensures D.AllFit([])
  {
  }

  lemma IdleHolds(p: D.Params, a: A.Asm, id: nat, data: seq<byte>, f: seq<byte>, n: nat)
    requires p.Ok() && Holds(p, a, id, data, 0, 1, n)
    ensures Holds(p, a, id, f, 0, 1, n)
  {
  }

  lemma OneFinished(p: D.Params, id: nat, input: D.Input, out: seq<Chunk>)
    requires p.Ok() && input.used <= |input.data| && D.OutAvail(p, D.PacketSize(out)) > 0
    ensures |D.WriteChunks(p, id, input, out).frames| <= 1
  {
    hide D.Written, D.PacketSize;
  }

  /** A step that sends no packet and leaves the packet on offer as it is. */
  lemma StillConserves(p: D.Params, q: A.Params, d: D.Dis, a: A.Asm, d': D.Dis, n: nat)
    requires p.Ok() && q.Ok() && Open(d') == Open(d) && d'.id == d.id
    requires Holds(p, Ahead(q, a, d).asm, d'.id, Data(d'), Used(d'), 1, n)
    ensures Conserves(p, q, d, a, D.Effect(d', [], []), A.Run(q, a, A.Events(D.Encoded([]))), n)
  {
    hide A.Run, Holds;
    assert D.Encoded([]) == [] && A.Events([]) == [];
    RunNone(q, a);
    var outs := Ahead(q, a, d).outs;
    assert outs + [] == [] + outs;
  }

  lemma TimerConserves(p: D.Params, q: A.Params, d: D.Dis, a: A.Asm, n: nat)
    requires p.Ok() && q.Ok() && InStep(p, q, d, a, n) && d.input.None? && d.out.Some? && D.AllFit(d.out.value)
    ensures Conserves(p, q, d, a, D.Effect(d.(out := None), [d.out.value], []), A.Run(q, a, A.Events(D.Encoded([d.out.value]))), n)
  {
    hide A.Run, A.Tick, Quiet, Holds, D.AllFit;
    var b := Ahead(q, a, d);
    OnePacket(q, a, d.out.value);
    RunNone(q, A.Tick(q, b.asm));
    IdleIsQuiet(p, b.asm, d.id, [], 1, n);
    HoldsNothing(p, b.asm, d.id, [], 0, n);
    TickHolds(p, q, b.asm, d.id, [], 0, n);
    assert b.outs + [] == b.outs;
  }

  lemma EventsNone(x: seq<seq<byte>>)
    requires x == []
    ensures A.Events(x) == []
  {
  }

  lemma EventsFirst(x: seq<seq<byte>>)
    requires x != []
    ensures A.Events(x) == A.PacketEvents(x[0]) + A.Events(x[1..])
  {
    hide A.PacketEvents;
  }

  lemma {:induction false} EventsAppend(x: seq<seq<byte>>, y: seq<seq<byte>>)
    ensures A.Events(x + y) == A.Events(x) + A.Events(y)
  {
    hide A.PacketEvents, A.Events;
    if x == [] {
      assert x + y == y;
      EventsNone(x);
      assert [] + A.Events(y) == A.Events(y);
    } else {
      EventsAppend(x[1..], y);
      assert (x + y)[1..] == x[1..] + y;
      EventsFirst(x);
      EventsFirst(x + y);
      Lists.Assoc(A.PacketEvents(x[0]), A.Events(x[1..]), A.Events(y));
    }
  }

  /** What the assembler does with a list of packets. */
  ghost function Fed(q: A.Params, a: A.Asm, packets: seq<seq<Chunk>>): A.Trace
    requires q.Ok()
  {
    A.Run(q, a, A.Events(D.Encoded(packets)))
  }

  lemma EncodedAppend(x: seq<seq<Chunk>>, y: seq<seq<Chunk>>)
    ensures D.Encoded(x + y) == D.Encoded(x) + D.Encoded(y)
  {
    hide EncodeAll;
  }

  lemma FedAppend(q: A.Params, a: A.Asm, x: seq<seq<Chunk>>, y: seq<seq<Chunk>>)
    requires q.Ok()
    ensures var t := Fed(q, a, x);
            var u := Fed(q, t.asm, y);
            Fed(q, a, x + y) == A.Trace(u.asm, t.outs + u.outs)
  {
    hide A.Run, A.Events, D.Encoded;
    EncodedAppend(x, y);
    EventsAppend(D.Encoded(x), D.Encoded(y));
    A.RunAppend(q, a, A.Events(D.Encoded(x)), A.Events(D.Encoded(y)));
  }

  lemma FedNone(q: A.Params, a: A.Asm)
    requires q.Ok()
    ensures Fed(q, a, []) == A.Trace(a, [])
  {
    assert D.Encoded([]) == [] && A.Events([]) == [];
    RunNone(q, a);
  }

  /** Over a whole run: frames finished equals frames delivered plus those still in the packet on offer. */
  lemma {:induction false} RunConserves(p: D.Params, q: A.Params, d: D.Dis, a: A.Asm, es: seq<D.Event>, n: nat)
    requires Matched(p, q) && p.Ok() && D.Valid(p, d) && D.LegalRun(p, d, es) && D.CleanRun(p, d, es)
    requires InStep(p, q, d, a, n) && |D.Run(p, d, es).frames| < n
    ensures var t := D.Run(p, d, es);
            var u := Fed(q, a, t.packets);
            && InStep(p, q, t.dis, u.asm, n - |t.frames|)
            && Ahead(q, a, d).outs + t.frames == u.outs + Ahead(q, u.asm, t.dis).outs
    decreases |es|
  {
    hide D.Step, A.Run, Matched, InStep, D.Valid, Ahead, D.Legal, Fed, D.Clean;
    MatchedOk(p, q);
    if es == [] {
      FedNone(q, a);
      assert Ahead(q, a, d).outs + [] == [] + Ahead(q, a, d).outs;
    } else {
      D.StepValid(p, d, es[0]);
      StepFed(p, q, d, a, es[0], n);
      var s := D.Step(p, d, es[0]);
      var v := Fed(q, a, s.packets);
      var t := D.Run(p, s.dis, es[1..]);
      assert D.Run(p, d, es) == D.Trace(t.dis, s.packets + t.packets, s.frames + t.frames);
      hide D.Run, D.LegalRun, D.CleanRun;
      RunConserves(p, q, s.dis, v.asm, es[1..], n - |s.frames|);
      FedAppend(q, a, s.packets, t.packets);
      var w := Fed(q, v.asm, t.packets);
      Chain(Ahead(q, a, d).outs, s.frames, t.frames, v.outs, Ahead(q, v.asm, s.dis).outs, w.outs, Ahead(q, w.asm, t.dis).outs);
    }
  }

  lemma StepFed(p: D.Params, q: A.Params, d: D.Dis, a: A.Asm, e: D.Event, n: nat)
    requires Matched(p, q) && p.Ok() && q.Ok() && D.Valid(p, d) && D.Legal(p, d, e) && D.Clean(d, e)
    requires InStep(p, q, d, a, n) && n > 0
    ensures var s := D.Step(p, d, e);
            var v := Fed(q, a, s.packets);
            && |s.frames| <= 1 && InStep(p, q, s.dis, v.asm, n - |s.frames|)
            && Ahead(q, a, d).outs + s.frames == v.outs + Ahead(q, v.asm, s.dis).outs
  {
    hide D.Step, A.Run, Matched, InStep, D.Valid, Ahead, D.Legal, D.Clean;
    StepConserves(p, q, d, a, e, n);
  }

  lemma Chain<T>(p0: seq<T>, f0: seq<T>, f1: seq<T>, o0: seq<T>, p1: seq<T>, o1: seq<T>, p2: seq<T>)
    requires p0 + f0 == o0 + p1 && p1 + f1 == o1 + p2
    ensures p0 + (f0 + f1) == (o0 + o1) + p2
  {
    assert p0 + (f0 + f1) == (p0 + f0) + f1;
    assert (o0 + p1) + f1 == o0 + (p1 + f1);
    assert o0 + (o1 + p2) == (o0 + o1) + p2;
  }

  /** The frames offered by the environment, without the cancelled ones. */
  function Kept(acc: seq<seq<byte>>, es: seq<D.Event>): seq<seq<byte>>
    decreases |es|
  {
    if es == [] then acc
    else match es[0]
      case Send(f) => Kept(acc + [f], es[1..])
      case Cancel => Kept(if acc == [] then [] else acc[..|acc| - 1], es[1..])
      case _ => Kept(acc, es[1..])
  }

  function Waiting(d: D.Dis): seq<seq<byte>> { if d.input.Some? then [d.input.value.data] else [] }

  lemma StepKept(p: D.Params, d: D.Dis, e: D.Event, acc: seq<seq<byte>>)
    requires p.Ok() && D.Valid(p, d) && D.Legal(p, d, e)
    ensures var s := D.Step(p, d, e);
            Kept(acc + Waiting(d), [e]) == acc + s.frames + Waiting(s.dis)
  {
    var s := D.Step(p, d, e);
    assert [e][1..] == [];
    D.EmptyPacket();
    hide D.Written, D.PacketSize;
    match e {
      case Send(f) => assert acc + [] + [f] == acc + [f] + [];
      case Recv =>
      case Timer =>
      case Cancel =>
        assert (acc + Waiting(d))[..|acc|] == acc + [] + [];
    }
  }

  lemma KeptSplit(acc: seq<seq<byte>>, es: seq<D.Event>)
    requires es != []
    ensures Kept(acc, es) == Kept(Kept(acc, [es[0]]), es[1..])
  {
    var e := [es[0]];
    assert e[1..] == [];
    assert forall x :: Kept(x, e[1..]) == x;
  }

  lemma {:induction false} RunKept(p: D.Params, d: D.Dis, es: seq<D.Event>, acc: seq<seq<byte>>)
    requires p.Ok() && D.Valid(p, d) && D.LegalRun(p, d, es)
    ensures var t := D.Run(p, d, es);
            Kept(acc + Waiting(d), es) == acc + t.frames + Waiting(t.dis)
    decreases |es|
  {
    hide D.Step, D.Valid, D.Legal;
    if es == [] {
      assert acc + [] == acc;
    } else {
      D.StepValid(p, d, es[0]);
      StepKept(p, d, es[0], acc);
      KeptSplit(acc + Waiting(d), es);
      var s := D.Step(p, d, es[0]);
      RunKept(p, s.dis, es[1..], acc + s.frames);
      var t := D.Run(p, s.dis, es[1..]);
      assert acc + s.frames + t.frames == acc + (s.frames + t.frames);
    }
  }

  lemma InitialInStep(p: D.Params, q: A.Params, n: nat)
    requires p.Ok() && q.Ok()
    ensures D.Valid(p, D.Initial) && InStep(p, q, D.Initial, A.Initial, n) && Ahead(q, A.Initial, D.Initial).outs == []
  {
    RunNone(q, A.Initial);
  }

  /**
   Round trip. For every legal run of the disassembler, whatever frames are offered and whenever packets are taken or
   flushed, a fresh assembler fed with the packets delivers the frames in order: all of them, except those whose last
   chunk still sits in the packet on offer.
   */
  lemma RoundTrip(p: D.Params, q: A.Params, es: seq<D.Event>)
    requires Matched(p, q) && p.Ok() && D.Valid(p, D.Initial) && D.LegalRun(p, D.Initial, es) && D.CleanRun(p, D.Initial, es)
    ensures var t := D.Run(p, D.Initial, es);
            var delivered := A.Run(q, A.Initial, A.Events(D.Encoded(t.packets))).outs;
            && delivered <= t.frames
            && t.frames <= Kept([], es)
            && (Open(t.dis) == [] ==> delivered == t.frames)
            && (Open(t.dis) == [] && t.dis.input.None? ==> delivered == Kept([], es))
  {
    MatchedOk(p, q);
    var n := |D.Run(p, D.Initial, es).frames| + 1;
    InitialInStep(p, q, n);
    RunConserves(p, q, D.Initial, A.Initial, es, n);
    RunKept(p, D.Initial, es, []);
    hide A.Run;
    var t := D.Run(p, D.Initial, es);
    var u := Fed(q, A.Initial, t.packets);
    assert [] + t.frames == t.frames;
    assert [] + Waiting(D.Initial) == [];
    RunNone(q, u.asm);
    hide D.Run;
    assert u.outs + Ahead(q, u.asm, t.dis).outs == t.frames;
    assert t.frames + Waiting(t.dis) == Kept([], es);
  }
}
