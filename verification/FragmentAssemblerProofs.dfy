/** What every run of the assembler keeps, and how its frames age. */
module FragmentAssemblerProofs {
  import opened Bytes
  import opened FragmentPieces
  import opened FragmentWire
  import opened FragmentAssemblerSpec

  // ---- invariant of the held frames ----

  ghost predicate Consistent(p: Params, f: Frame) {
    && Disjoint(f.pieces)
    && Within(f.pieces, if f.length.Some? then f.length.value else p.mtu)
    && (f.length.Some? ==> f.length.value <= p.mtu)
  }

  /** A held frame is consistent, has a spare chunk slot and misses at least one byte or its length. */
  ghost predicate Pending(p: Params, f: Frame) {
    Consistent(p, f) && |f.pieces| < p.numChunks && !Complete(f)
  }

  ghost predicate Held(p: Params, now: int, f: Frame) {
    Pending(p, f) && 0 <= f.time <= now
  }

  ghost predicate DistinctIds(fs: seq<Frame>) {
    forall i, j :: 0 <= i < j < |fs| ==> fs[i].id != fs[j].id
  }

  ghost predicate Inv(p: Params, a: Asm) {
    && 0 <= a.time <= MAX_TIME
    && |a.frames| <= p.numFrames
    && DistinctIds(a.frames)
    && forall i :: 0 <= i < |a.frames| ==> Held(p, a.time, a.frames[i])
  }

  /** The frames other than the located one are held frames; the located one is ready for a chunk. */
  ghost predicate PlaceOk(p: Params, now: int, r: Place) {
    && r.at < |r.frames| <= p.numFrames
    && DistinctIds(r.frames)
    && (forall i :: 0 <= i < |r.frames| && i != r.at ==> Held(p, now, r.frames[i]))
    && Consistent(p, r.frames[r.at])
    && |r.frames[r.at].pieces| < p.numChunks
  }

  lemma LocateKeeps(p: Params, a: Asm, id: nat)
    requires p.Ok() && Inv(p, a)
    ensures PlaceOk(p, a.time, Locate(p, a, id))
  {
    hide Complete, Disjoint, Within;
    var k := IndexOf(a.frames, id);
    if k < |a.frames| {
      assert Held(p, a.time, a.frames[k]);
    } else {
      BlankConsistent(p, Frame(id, a.time, [], None));
    }
    BlankConsistent(p, Frame(id, a.time, [], None));
  }

  lemma BlankConsistent(p: Params, f: Frame)
    requires f.pieces == [] && f.length.None?
    ensures Consistent(p, f)
  {
  }

  /** An accepted chunk keeps the pieces disjoint and inside the frame. */
  lemma ExtendConsistent(p: Params, f: Frame, c: Chunk, now: int)
    requires Consistent(p, f) && InBounds(p, c) && Compatible(f, c)
    ensures Consistent(p, Extend(f, c, now))
  {
    var g := Extend(f, c, now);
    forall i, j | 0 <= i < j < |g.pieces| ensures !Overlap(g.pieces[i], g.pieces[j]) {
      if j < |f.pieces| { assert !Overlap(f.pieces[i], f.pieces[j]); }
    }
  }

  lemma DeliverKeeps(p: Params, now: int, r: Place, c: Chunk)
    requires PlaceOk(p, now, r) && InBounds(p, c) && 0 <= now <= MAX_TIME
    ensures Inv(p, Deliver(p, now, r, c).asm)
  {
    var f := r.frames[r.at];
    if Compatible(f, c) {
      ExtendConsistent(p, f, c, now);
    }
    hide Complete, Consistent, Full, Compatible;
  }

  lemma ReceiveKeeps(p: Params, a: Asm, c: Chunk)
    requires p.Ok() && Inv(p, a)
    ensures Inv(p, Receive(p, a, c).asm)
  {
    if InBounds(p, c) {
      LocateKeeps(p, a, c.id);
      hide Locate, Deliver, PlaceOk;
      DeliverKeeps(p, a.time, Locate(p, a, c.id), c);
    }
  }

  // ---- the clock ----

  lemma {:induction false} RetainedKeepsDistinct(p: Params, now: int, fs: seq<Frame>)
    requires DistinctIds(fs)
    ensures DistinctIds(Retained(p, now, fs))
  {
    if fs != [] {
      var rest := fs[..|fs| - 1];
      RetainedKeepsDistinct(p, now, rest);
      RetainedIs(p, now, rest);
      var r := Retained(p, now, rest);
      forall i | 0 <= i < |r| ensures r[i].id != fs[|fs| - 1].id {
        assert r[i] in rest;
      }
    }
  }

  lemma TickKeeps(p: Params, a: Asm)
    requires p.Ok() && Inv(p, a)
    ensures Inv(p, Tick(p, a))
  {
    hide Pending, Retained, MinTime;
    if a.time == MAX_TIME {
      var fs := Retained(p, a.time, a.frames);
      RetainedKeepsDistinct(p, a.time, a.frames);
      RetainedIs(p, a.time, a.frames);
      if fs != [] {
        var m := MinTime(fs);
        MinTimeIs(fs);
        var f :| f in fs && f.time == m;
        forall i | 0 <= i < |fs| ensures Held(p, a.time - m, Shifted(fs, m)[i]) {
          assert fs[i] in fs;
          assert Held(p, a.time, fs[i]);
          PendingAnyTime(p, fs[i], fs[i].time - m);
        }
      }
    }
  }

  lemma PendingAnyTime(p: Params, f: Frame, t: int)
    requires Pending(p, f)
    ensures Pending(p, f.(time := t))
  {
  }

  /** The age a frame has when the next packet is processed. */
  function Age(a: Asm, f: Frame): int { a.time - f.time }

  /**
   Advancing the clock drops only timed-out frames, keeps the order, pieces and lengths of the others and makes each
   exactly one packet older; the clock stays within its range.
   */
  lemma TickAges(p: Params, a: Asm)
    requires p.Ok() && Inv(p, a)
    ensures var b := Tick(p, a);
            && 0 <= b.time <= MAX_TIME
            && (b.frames == [] || a.time < MAX_TIME || b.time <= p.numFrames + 1)
            && (var fs := if a.time < MAX_TIME then a.frames else Retained(p, a.time, a.frames);
                |b.frames| == |fs| &&
                forall i :: 0 <= i < |fs| ==>
                  b.frames[i].(time := fs[i].time) == fs[i] && Age(b, b.frames[i]) == Age(a, fs[i]) + 1)
  {
    TickKeeps(p, a);
    if a.time == MAX_TIME {
      var fs := Retained(p, a.time, a.frames);
      RetainedIs(p, a.time, a.frames);
      if fs != [] {
        var m := MinTime(fs);
        MinTimeIs(fs);
        var f :| f in fs && f.time == m;
        assert !TimedOut(p, a.time, f);
      }
    }
  }

  lemma {:induction false} RunKeeps(p: Params, a: Asm, es: seq<Event>)
    requires p.Ok() && Inv(p, a)
    ensures Inv(p, Run(p, a, es).asm)
    decreases |es|
  {
    if es != [] {
      StepKeeps(p, a, es[0]);
      hide StepEvent, Inv;
      RunKeeps(p, StepEvent(p, a, es[0]).asm, es[1..]);
    }
  }

  lemma StepKeeps(p: Params, a: Asm, e: Event)
    requires p.Ok() && Inv(p, a)
    ensures Inv(p, StepEvent(p, a, e).asm)
  {
    hide Inv, Receive, Tick;
    match e {
      case Arrive(c) => ReceiveKeeps(p, a, c);
      case EndPacket => TickKeeps(p, a);
    }
  }
}
