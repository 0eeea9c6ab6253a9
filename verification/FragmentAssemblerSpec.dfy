/**
 The assembler as a value: which frames are held, with the pieces received so far. It decides completeness
 by looking whether every byte of the frame is covered; the class in FragmentAssembler only compares two sums.
 */
module FragmentAssemblerSpec {
  import opened Bytes
  import opened FragmentPieces
  import opened FragmentWire
  import Lists

  /** FPA_MAX_TIME */
  const MAX_TIME: nat := 0xFFFF_FFFF

  /** `mtu` is the output MTU; the time tolerance equals the number of frames. */
  datatype Params = Params(mtu: nat, numChunks: nat, numFrames: nat) {
    predicate Ok() { 0 < numChunks && 0 < numFrames < MAX_TIME }
  }

  /** `length` is known once the chunk marked last has arrived. */
  datatype Frame = Frame(id: nat, time: int, pieces: seq<Piece>, length: Option<nat>)

  /** Held frames, in the order in which they were allocated. */
  datatype Asm = Asm(time: int, frames: seq<Frame>)

  datatype Result = Result(asm: Asm, out: Option<seq<byte>>)

  const Initial: Asm := Asm(0, [])

  predicate TimedOut(p: Params, now: int, f: Frame) {
    now - f.time > p.numFrames
  }

  ghost predicate Complete(f: Frame) {
    f.length.Some? && Full(f.pieces, f.length.value)
  }

  /** Position of the frame with this id, or the number of frames. */
  function IndexOf(fs: seq<Frame>, id: nat): (k: nat)
    ensures k <= |fs|
    ensures k < |fs| ==> fs[k].id == id
    ensures forall j :: 0 <= j < k ==> fs[j].id != id
  {
    if fs == [] then 0 else if fs[0].id == id then 0 else 1 + IndexOf(fs[1..], id)
  }

  function DropAt<T>(s: seq<T>, k: nat): (r: seq<T>)
    requires k < |s|
    ensures |r| == |s| - 1
    ensures forall i :: 0 <= i < |r| ==> r[i] == if i < k then s[i] else s[i + 1]
  {
    s[..k] + s[k + 1..]
  }

  datatype Place = Place(frames: seq<Frame>, at: nat)

  /** The frame a chunk goes to: the held one, or a new one in a free entry or in the oldest one's place. */
  function Locate(p: Params, a: Asm, id: nat): (r: Place)
    requires p.Ok()
    ensures r.at < |r.frames| && r.frames[r.at].id == id
  {
    var blank := Frame(id, a.time, [], None);
    var k := IndexOf(a.frames, id);
    if k == |a.frames| then
      var fs := if |a.frames| >= p.numFrames then a.frames[1..] else a.frames;
      Place(fs + [blank], |fs|)
    else if TimedOut(p, a.time, a.frames[k]) then
      Place(DropAt(a.frames, k) + [blank], |a.frames| - 1)
    else
      Place(a.frames, k)
  }

  predicate InBounds(p: Params, c: Chunk) {
    c.start <= p.mtu && |c.data| <= p.mtu - c.start
  }

  /** The chunk contradicts nothing the frame already holds. */
  ghost predicate Compatible(f: Frame, c: Chunk) {
    && (forall k :: 0 <= k < |f.pieces| ==> !Overlap(f.pieces[k], c.AsPiece()))
    && (if c.last then f.length.None? && Within(f.pieces, c.End())
        else f.length.Some? ==> c.End() <= f.length.value)
  }

  function Extend(f: Frame, c: Chunk, now: int): Frame {
    Frame(f.id, now, f.pieces + [c.AsPiece()], if c.last then Some(c.End()) else f.length)
  }

  /** One chunk. A contradicting chunk, or one that uses the last slot without completing, drops the frame. */
  ghost function Receive(p: Params, a: Asm, c: Chunk): Result
    requires p.Ok()
  {
    if !InBounds(p, c) then Result(a, None) else Deliver(p, a.time, Locate(p, a, c.id), c)
  }

  ghost function Deliver(p: Params, now: int, r: Place, c: Chunk): Result
    requires r.at < |r.frames|
  {
    var f, rest := r.frames[r.at], Asm(now, DropAt(r.frames, r.at));
    if !Compatible(f, c) then Result(rest, None)
    else
      var g := Extend(f, c, now);
      if Complete(g) then Result(rest, Some(Content(g.pieces, g.length.value)))
      else if |g.pieces| == p.numChunks then Result(rest, None)
      else Result(Asm(now, r.frames[r.at := g]), None)
  }

  function Retained(p: Params, now: int, fs: seq<Frame>): seq<Frame> {
    if fs == [] then []
    else
      var rest, f := fs[..|fs| - 1], fs[|fs| - 1];
      if TimedOut(p, now, f) then Retained(p, now, rest) else Retained(p, now, rest) + [f]
  }

  lemma {:induction false} RetainedIs(p: Params, now: int, fs: seq<Frame>)
    ensures |Retained(p, now, fs)| <= |fs|
    ensures forall f :: f in Retained(p, now, fs) <==> f in fs && !TimedOut(p, now, f)
  {
    if fs != [] {
      var rest, f := fs[..|fs| - 1], fs[|fs| - 1];
      assert fs == rest + [f];
      RetainedIs(p, now, rest);
    }
  }

  function MinTime(fs: seq<Frame>): int
    requires fs != []
  {
    var t := fs[|fs| - 1].time;
    if |fs| == 1 then t
    else
      var m := MinTime(fs[..|fs| - 1]);
      if t < m then t else m
  }

  lemma {:induction false} MinTimeIs(fs: seq<Frame>)
    requires fs != []
    ensures exists f :: f in fs && f.time == MinTime(fs)
    ensures forall f :: f in fs ==> MinTime(fs) <= f.time
  {
    var rest, f := fs[..|fs| - 1], fs[|fs| - 1];
    assert fs == rest + [f];
    assert f in fs;
    if rest != [] {
      MinTimeIs(rest);
      var g :| g in rest && g.time == MinTime(rest);
      assert g in fs;
    }
  }

  function Shifted(fs: seq<Frame>, m: int): seq<Frame> {
    seq(|fs|, i requires 0 <= i < |fs| => fs[i].(time := fs[i].time - m))
  }

  /** End of a packet: the clock advances, after times were reduced if it is at its maximum. */
  function Tick(p: Params, a: Asm): Asm {
    if a.time != MAX_TIME then a.(time := a.time + 1)
    else
      var fs := Retained(p, a.time, a.frames);
      if fs == [] then Initial
      else Asm(a.time - MinTime(fs) + 1, Shifted(fs, MinTime(fs)))
  }

  datatype Event = Arrive(chunk: Chunk) | EndPacket

  /** What a packet amounts to: its chunks up to the first malformed one, then its end. */
  function PacketEvents(s: seq<byte>): seq<Event>
    decreases |s|
  {
    if s == [] then [EndPacket]
    else
      var h := ParseHead(s);
      if h.Malformed? then [EndPacket]
      else [Arrive(h.chunk)] + PacketEvents(s[HEADER + |h.chunk.data|..])
  }

  function Events(packets: seq<seq<byte>>): seq<Event> {
    if packets == [] then [] else PacketEvents(packets[0]) + Events(packets[1..])
  }

  ghost function StepEvent(p: Params, a: Asm, e: Event): Result
    requires p.Ok()
  {
    match e
    case Arrive(c) => Receive(p, a, c)
    case EndPacket => Result(Tick(p, a), None)
  }

  datatype Trace = Trace(asm: Asm, outs: seq<seq<byte>>)

  function AsSeq(o: Option<seq<byte>>): seq<seq<byte>> {
    match o case None => [] case Some(v) => [v]
  }

  ghost function Run(p: Params, a: Asm, es: seq<Event>): Trace
    requires p.Ok()
    decreases |es|
  {
    if es == [] then Trace(a, [])
    else
      var r := StepEvent(p, a, es[0]);
      var t := Run(p, r.asm, es[1..]);
      Trace(t.asm, AsSeq(r.out) + t.outs)
  }

  lemma {:induction false} RunAppend(p: Params, a: Asm, es: seq<Event>, fs: seq<Event>)
    requires p.Ok()
    ensures var t := Run(p, a, es);
            var u := Run(p, t.asm, fs);
            Run(p, a, es + fs) == Trace(u.asm, t.outs + u.outs)
    decreases |es|
  {
    hide StepEvent;
    if es == [] {
      assert es + fs == fs;
      assert [] + Run(p, a, fs).outs == Run(p, a, fs).outs;
    } else {
      var r := StepEvent(p, a, es[0]);
      RunAppend(p, r.asm, es[1..], fs);
      assert (es + fs)[1..] == es[1..] + fs;
      var t := Run(p, r.asm, es[1..]);
      var u := Run(p, t.asm, fs);
      Lists.Assoc(AsSeq(r.out), t.outs, u.outs);
    }
  }
}
