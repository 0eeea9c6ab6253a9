/** What is on the wire: the chunks of one frame after those of another, each frame under the next id. */
module FragmentSent {
  import opened Bytes
  import opened FragmentPieces
  import opened FragmentWire
  import opened D = FragmentDisassemblerSpec
  import A = FragmentAssemblerSpec
  import R = FragmentRoundTrip
  import Lists

  /** Chunk `k` begins where the one before ended, carries those bytes of `data`, and is marked last if it ends there. */
  ghost predicate InLine(cs: seq<Chunk>, id: nat, data: seq<byte>, k: nat)
    requires k < |cs|
  {
    var c := cs[k];
    && c.id == id && c.start == (if k == 0 then 0 else cs[k - 1].End()) && c.End() <= |data| && c.data == data[c.start..c.End()]
    && (c.last <==> c.End() == |data|) && (c.data != [] || (k == 0 && data == []))
  }

  /** The chunks carry the first `used` bytes of `data`, in order. */
  ghost predicate Chained(cs: seq<Chunk>, id: nat, data: seq<byte>, used: nat) {
    && used == (if cs == [] then 0 else cs[|cs| - 1].End())
    && forall k :: 0 <= k < |cs| ==> InLine(cs, id, data, k)
  }

  /** All of a frame, which takes a chunk even if it is empty. */
  ghost predicate Spelled(cs: seq<Chunk>, id: nat, data: seq<byte>) { cs != [] && Chained(cs, id, data, |data|) }

  lemma ChainedMore(p: Params, cs: seq<Chunk>, id: nat, data: seq<byte>, used: nat, c: Chunk)
    requires Chained(cs, id, data, used) && R.Follows(p, c, id, data, used) && (used < |data| || cs == [])
    ensures Chained(cs + [c], id, data, c.End())
  {
    var ds := cs + [c];
    forall k | 0 <= k < |ds| ensures InLine(ds, id, data, k) {
      if k < |cs| { assert InLine(cs, id, data, k); }
    }
  }

  /** The frame being written, of which `cur` is on its way. */
  ghost predicate Begun(p: Params, cur: seq<Chunk>, id: nat, data: seq<byte>, used: nat)
    requires p.Ok()
  {
    Chained(cur, id, data, used) && R.CountOk(p, |cur|, used) && (cur == [] <==> used == 0)
  }

  /** The frame is on its way, in as many chunks as there are slots for. */
  ghost predicate Gone(q: A.Params, cs: seq<Chunk>, id: nat, data: seq<byte>) { Spelled(cs, id, data) && |cs| <= q.numChunks }

  ghost predicate Wrote(p: Params, q: A.Params, cur: seq<Chunk>, id: nat, data: seq<byte>, used: nat)
    requires p.Ok()
  {
    if used == |data| then Gone(q, cur, id, data) else used > 0 && Begun(p, cur, id, data, used)
  }

  lemma WriteOne(p: Params, q: A.Params, cur: seq<Chunk>, id: nat, data: seq<byte>, used: nat, c: Chunk)
    requires R.Matched(p, q) && |data| <= p.inputMtu && Begun(p, cur, id, data, used) && (used < |data| || used == 0)
    requires R.Follows(p, c, id, data, used) && (c.last || |c.data| == R.Unit(p) || R.CountWhole(p, |cur|, used))
    ensures Wrote(p, q, cur + [c], id, data, c.End())
    ensures !c.last && |c.data| == R.Unit(p) ==> R.CountWhole(p, |cur| + 1, c.End())
  {
    ChainedMore(p, cur, id, data, used, c);
    hide Chained, R.CountOk, R.CountWhole, R.Matched, R.Unit;
    R.MatchedOk(p, q);
    if used < |data| { R.SlotsLeft(p, q, |cur|, used, |data|); }
    if !c.last { R.CountExtends(p, |cur|, used, |c.data|); }
  }

  lemma {:induction false} WrittenPart(p: Params, q: A.Params, cur: seq<Chunk>, id: nat, data: seq<byte>, used: nat, outUsed: nat)
    requires R.Matched(p, q) && |data| <= p.inputMtu && Begun(p, cur, id, data, used) && (used < |data| || used == 0)
    requires OutAvail(p, outUsed) > 0 && (p.chunkMtu < 0 && used > 0 ==> outUsed == 0)
    requires outUsed > 0 ==> R.CountWhole(p, |cur|, used)
    ensures var cs := Written(p, id, data, used, outUsed); Wrote(p, q, cur + cs, id, data, cs[|cs| - 1].End())
    decreases |data| - used
  {
    hide NextChunk, Written, Begun, Gone, R.Matched, R.Follows, R.Unit, R.CountWhole;
    R.MatchedOk(p, q);
    R.WrittenFirst(p, id, data, used, outUsed);
    var c := NextChunk(p, id, data, used, outUsed);
    var u, o := c.End(), outUsed + HEADER + |c.data|;
    R.NextFollows(p, id, data, used, outUsed);
    WriteOne(p, q, cur, id, data, used, c);
    if |data| - u > 0 && OutAvail(p, o) > 0 {
      WrittenPart(p, q, cur + [c], id, data, u, o);
      var rest := Written(p, id, data, u, o);
      assert cur + [c] + rest == cur + ([c] + rest);
    }
  }

  // ---- steps ----

  function Flat<T>(xs: seq<seq<T>>): seq<T> {
    if xs == [] then [] else xs[0] + Flat(xs[1..])
  }

  lemma {:induction false} FlatAppend<T>(xs: seq<seq<T>>, ys: seq<seq<T>>)
    ensures Flat(xs + ys) == Flat(xs) + Flat(ys)
  {
    if xs == [] {
      assert xs + ys == ys;
    } else {
      FlatAppend(xs[1..], ys);
      assert (xs + ys)[1..] == xs[1..] + ys;
      Lists.Assoc(xs[0], Flat(xs[1..]), Flat(ys));
    }
  }

  lemma FlatOne<T>(x: seq<T>)
    ensures Flat([x]) == x && Flat<T>([]) == []
  {
    assert [x][1..] == [];
    assert x + [] == x;
  }

  /** Step `s` from `d` wrote `ws`: to the packet on offer, behind what was there. */
  ghost predicate Puts(d: Dis, s: Effect, ws: seq<Chunk>) { R.Open(d) + ws == Flat(s.packets) + R.Open(s.dis) }

  /** With `ws` behind it, the frame being written is still being written, or finished and its id used up. */
  ghost predicate Goes(p: Params, q: A.Params, d: Dis, cur: seq<Chunk>, s: Effect, ws: seq<Chunk>)
    requires p.Ok()
  {
    if s.frames == [] then s.dis.id == d.id && Begun(p, cur + ws, d.id, R.Data(s.dis), R.Used(s.dis))
    else
      && |s.frames| == 1 && Gone(q, cur + ws, d.id, s.frames[0])
      && s.dis.id == (d.id + 1) % 0x1_0000 && s.dis.input.None?
  }

  lemma NothingBegun(p: Params, id: nat, data: seq<byte>)
    requires p.Ok()
    ensures Begun(p, [], id, data, 0)
  {
  }

  lemma WriteGoes(p: Params, q: A.Params, d: Dis, cur: seq<Chunk>, input: Input, out: seq<Chunk>) returns (ws: seq<Chunk>)
    requires R.Matched(p, q) && out == R.Open(d) && OutAvail(p, PacketSize(out)) > 0
    requires |input.data| <= p.inputMtu && (input.used < |input.data| || input.used == 0) && (input.used > 0 ==> out == [])
    requires Begun(p, cur, d.id, input.data, input.used)
    ensures var s := WriteChunks(p, d.id, input, out); Puts(d, s, ws) && Goes(p, q, d, cur, s, ws)
  {
    hide Written, R.Matched, Begun, Gone, PacketSize;
    R.MatchedOk(p, q);
    EmptyPacket();
    ws := Written(p, d.id, input.data, input.used, PacketSize(out));
    if input.used == 0 { NothingWhole(p, cur, d.id, input.data); }
    WrittenPart(p, q, cur, d.id, input.data, input.used, PacketSize(out));
    FlatOne(out + ws);
    assert out + ws + [] == out + ws && [] + (out + ws) == out + ws;
  }

  lemma NothingWhole(p: Params, cur: seq<Chunk>, id: nat, data: seq<byte>)
    requires p.Ok() && Begun(p, cur, id, data, 0)
    ensures R.CountWhole(p, |cur|, 0)
  {
  }

  lemma StepGoes(p: Params, q: A.Params, d: Dis, cur: seq<Chunk>, e: Event) returns (ws: seq<Chunk>)
    requires R.Matched(p, q) && p.Ok() && Valid(p, d) && Legal(p, d, e) && Clean(d, e) && Begun(p, cur, d.id, R.Data(d), R.Used(d))
    ensures Puts(d, Step(p, d, e), ws) && Goes(p, q, d, cur, Step(p, d, e), ws)
  {
    hide WriteChunks, R.Matched, Gone, PacketSize, R.CountOk, Chained, AllFit;
    EmptyPacket();
    ws := [];
    assert cur + [] == cur && R.Open(d) + [] == R.Open(d) && [] + R.Open(d) == R.Open(d);
    match e {
      case Send(f) =>
        NothingBegun(p, d.id, f);
        if d.out.Some? { ws := WriteGoes(p, q, d, cur, Input(f, 0), d.out.value); }
      case Recv =>
        if d.input.Some? { ws := WriteGoes(p, q, d, cur, d.input.value, []); }
      case Timer =>
        FlatOne(d.out.value);
      case Cancel =>
        NothingBegun(p, d.id, []);
    }
  }

  // ---- whole runs ----

  /** `parts` are the chunks of the frames, the first of them under the id `from`. */
  ghost predicate Parts(q: A.Params, parts: seq<seq<Chunk>>, frames: seq<seq<byte>>, from: nat) {
    |parts| == |frames| && forall k :: 0 <= k < |parts| ==> Gone(q, parts[k], (from + k) % 0x1_0000, frames[k])
  }

  lemma PartsMore(q: A.Params, part: seq<Chunk>, frame: seq<byte>, parts: seq<seq<Chunk>>, frames: seq<seq<byte>>, from: nat)
    requires Gone(q, part, from, frame) && from < 0x1_0000 && Parts(q, parts, frames, (from + 1) % 0x1_0000)
    ensures Parts(q, [part] + parts, [frame] + frames, from)
  {
    hide Gone;
    var ps, fs := [part] + parts, [frame] + frames;
    forall k | 0 <= k < |ps| ensures Gone(q, ps[k], (from + k) % 0x1_0000, fs[k]) {
      if k > 0 { assert Gone(q, parts[k - 1], ((from + 1) % 0x1_0000 + (k - 1)) % 0x1_0000, frames[k - 1]); }
    }
  }

  lemma Join<T>(o0: seq<T>, w0: seq<T>, f0: seq<T>, o1: seq<T>, w1: seq<T>, f1: seq<T>, o2: seq<T>)
    requires o0 + w0 == f0 + o1 && o1 + w1 == f1 + o2
    ensures o0 + (w0 + w1) == (f0 + f1) + o2
  {
    Lists.Assoc(o0, w0, w1);
    Lists.Assoc(f0, o1, w1);
    Lists.Assoc(f0, f1, o2);
  }

  lemma {:induction false} RunGoes(p: Params, q: A.Params, d: Dis, cur: seq<Chunk>, es: seq<Event>)
    returns (ws: seq<Chunk>, parts: seq<seq<Chunk>>, rest: seq<Chunk>)
    requires R.Matched(p, q) && p.Ok() && Valid(p, d) && LegalRun(p, d, es) && CleanRun(p, d, es)
    requires Begun(p, cur, d.id, R.Data(d), R.Used(d))
    ensures var t := Run(p, d, es);
            && R.Open(d) + ws == Flat(t.packets) + R.Open(t.dis)
            && cur + ws == Flat(parts) + rest && Parts(q, parts, t.frames, d.id)
            && Begun(p, rest, t.dis.id, R.Data(t.dis), R.Used(t.dis))
    decreases |es|
  {
    hide Step, Legal, Clean, Begun, Gone, R.Matched, AllFit;
    if es == [] {
      ws, parts, rest := [], [], cur;
      assert R.Open(d) + [] == [] + R.Open(d) && cur + [] == [] + cur;
    } else {
      StepValid(p, d, es[0]);
      ws := StepGoes(p, q, d, cur, es[0]);
      var s := Step(p, d, es[0]);
      var t := Run(p, s.dis, es[1..]);
      var next := if s.frames == [] then cur + ws else [];
      if s.frames != [] { NothingBegun(p, s.dis.id, []); }
      var ws1, parts1, rest1 := RunGoes(p, q, s.dis, next, es[1..]);
      Join(R.Open(d), ws, Flat(s.packets), R.Open(s.dis), ws1, Flat(t.packets), R.Open(t.dis));
      FlatAppend(s.packets, t.packets);
      Lists.Assoc(cur, ws, ws1);
      if s.frames == [] {
        parts := parts1;
        assert [] + t.frames == t.frames;
      } else {
        parts := [cur + ws] + parts1;
        PartsMore(q, cur + ws, s.frames[0], parts1, t.frames, d.id);
        assert s.frames == [s.frames[0]];
        assert [] + ws1 == ws1;
        assert parts[1..] == parts1;
        Lists.Assoc(cur + ws, Flat(parts1), rest1);
      }
      ws, rest := ws + ws1, rest1;
    }
  }

  /** All that has been written: what is in the packets sent and in the one on offer. */
  function Sent(t: Trace): seq<Chunk> { Flat(t.packets) + R.Open(t.dis) }

  /**
   Whatever frames are sent and however they are cut and packed: what has been written is the chunks of the frames, frame
   after frame, with those of the frame being written behind them. The chunks of each frame carry its bytes in order
   under the frame's own number, modulo 65536, the last of them and no other marked so; and they are no more than the
   assembler has slots for.
   */
  lemma FramesOnTheWire(p: Params, q: A.Params, es: seq<Event>) returns (parts: seq<seq<Chunk>>, rest: seq<Chunk>)
    requires R.Matched(p, q) && p.Ok() && Valid(p, Initial) && LegalRun(p, Initial, es) && CleanRun(p, Initial, es)
    ensures var t := Run(p, Initial, es);
            && Sent(t) == Flat(parts) + rest && Parts(q, parts, t.frames, 0)
            && Chained(rest, |t.frames| % 0x1_0000, R.Data(t.dis), R.Used(t.dis))
  {
    hide Chained, Run, LegalRun, CleanRun, R.Matched;
    NothingBegun(p, 0, []);
    var ws;
    ws, parts, rest := RunGoes(p, q, Initial, [], es);
    IdsCount(p, Initial, es);
    assert [] + ws == ws;
  }

  lemma {:induction false} IdsCount(p: Params, d: Dis, es: seq<Event>)
    requires p.Ok() && Valid(p, d) && LegalRun(p, d, es) && d.id < 0x1_0000
    ensures Run(p, d, es).dis.id == (d.id + |Run(p, d, es).frames|) % 0x1_0000
    decreases |es|
  {
    hide Step, Valid, Legal;
    if es != [] {
      StepValid(p, d, es[0]);
      StepId(p, d, es[0]);
      IdsCount(p, Step(p, d, es[0]).dis, es[1..]);
    }
  }

  lemma StepId(p: Params, d: Dis, e: Event)
    requires p.Ok() && Valid(p, d) && Legal(p, d, e)
    ensures var s := Step(p, d, e); s.dis.id == (d.id + |s.frames|) % 0x1_0000
  {
    hide Written, PacketSize, AllFit;
    EmptyPacket();
  }
}
