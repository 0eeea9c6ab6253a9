/** Every frame the assembler delivers is spelled, byte by byte, by chunks that arrived for one frame id. */
module FragmentSoundness {
  import opened Bytes
  import opened FragmentPieces
  import opened FragmentWire
  import opened FragmentAssemblerSpec
  import opened FragmentAssemblerProofs

  ghost predicate Increasing(js: seq<nat>) {
    forall t, u :: 0 <= t < u < |js| ==> js[t] < js[u]
  }

  ghost predicate IsSource(h: seq<Event>, id: nat, j: nat, q: Piece) {
    j < |h| && h[j].Arrive? && h[j].chunk.id == id && h[j].chunk.AsPiece() == q
  }

  ghost predicate IsLast(h: seq<Event>, j: nat) {
    j < |h| && h[j].Arrive? && h[j].chunk.last
  }

  /** `js` are the positions in the history, in order, of the chunks of frame `id` with these pieces; the length,
      if known, is where the one chunk among them marked last ends. */
  ghost predicate Sources(h: seq<Event>, id: nat, js: seq<nat>, ps: seq<Piece>, length: Option<nat>) {
    && |js| == |ps|
    && Increasing(js)
    && (forall t :: 0 <= t < |js| ==> IsSource(h, id, js[t], ps[t]))
    && (forall t :: 0 <= t < |js| && IsLast(h, js[t]) ==> length == Some(ps[t].End()))
    && (length.Some? ==> exists t :: 0 <= t < |js| && IsLast(h, js[t]))
    && (forall t, u :: 0 <= t < u < |js| ==> !(IsLast(h, js[t]) && IsLast(h, js[u])))
  }

  ghost predicate Backed(h: seq<Event>, f: Frame) {
    exists js :: Sources(h, f.id, js, f.pieces, f.length)
  }

  ghost predicate AllBacked(h: seq<Event>, fs: seq<Frame>) {
    forall i :: 0 <= i < |fs| ==> Backed(h, fs[i])
  }

  /** The pieces tile the frame and spell it. */
  ghost predicate Spells(ps: seq<Piece>, out: seq<byte>) {
    && Disjoint(ps)
    && Within(ps, |out|)
    && Full(ps, |out|)
    && (forall t, i :: 0 <= t < |ps| && ps[t].Has(i) ==> out[i] == ps[t].data[i - ps[t].start])
  }

  ghost predicate Genuine(h: seq<Event>, out: seq<byte>) {
    exists id: nat, js: seq<nat>, ps: seq<Piece> :: Sources(h, id, js, ps, Some(|out|)) && Spells(ps, out)
  }

  lemma SourcesLater(h: seq<Event>, g: seq<Event>, id: nat, js: seq<nat>, ps: seq<Piece>, length: Option<nat>)
    requires Sources(h, id, js, ps, length)
    ensures Sources(h + g, id, js, ps, length)
  {
    forall t | 0 <= t < |js| ensures IsSource(h + g, id, js[t], ps[t]) && IsLast(h + g, js[t]) == IsLast(h, js[t]) {
      assert IsSource(h, id, js[t], ps[t]);
    }
  }

  lemma BackedLater(h: seq<Event>, g: seq<Event>, f: Frame)
    requires Backed(h, f)
    ensures Backed(h + g, f)
  {
    var js: seq<nat> :| Sources(h, f.id, js, f.pieces, f.length);
    SourcesLater(h, g, f.id, js, f.pieces, f.length);
  }

  lemma GenuineLater(h: seq<Event>, g: seq<Event>, out: seq<byte>)
    requires Genuine(h, out)
    ensures Genuine(h + g, out)
  {
    var id: nat, js: seq<nat>, ps: seq<Piece> :| Sources(h, id, js, ps, Some(|out|)) && Spells(ps, out);
    SourcesLater(h, g, id, js, ps, Some(|out|));
  }

  /** An accepted chunk becomes one more source. */
  lemma ExtendBacked(h: seq<Event>, f: Frame, c: Chunk, now: int)
    requires Backed(h, f) && f.id == c.id && Compatible(f, c)
    ensures Backed(h + [Arrive(c)], Extend(f, c, now))
  {
    var js: seq<nat> :| Sources(h, f.id, js, f.pieces, f.length);
    SourcesLater(h, [Arrive(c)], f.id, js, f.pieces, f.length);
    forall t | 0 <= t < |js| ensures js[t] < |h| { assert IsSource(h, f.id, js[t], f.pieces[t]); }
    var g := Extend(f, c, now);
    AddSource(h + [Arrive(c)], f.id, js, f.pieces, f.length, c, |h|);
    assert Sources(h + [Arrive(c)], g.id, js + [|h|], g.pieces, g.length);
  }

  lemma AddSource(h: seq<Event>, id: nat, js: seq<nat>, ps: seq<Piece>, length: Option<nat>, c: Chunk, j: nat)
    requires Sources(h, id, js, ps, length)
    requires j < |h| && h[j] == Arrive(c) && c.id == id && forall t :: 0 <= t < |js| ==> js[t] < j
    requires c.last ==> length.None?
    ensures Sources(h, id, js + [j], ps + [c.AsPiece()], if c.last then Some(c.End()) else length)
  {
    var js' := js + [j];
    assert IsSource(h, id, j, c.AsPiece());
    assert IsLast(h, j) == c.last;
    if c.last {
      assert forall t :: 0 <= t < |js| ==> !IsLast(h, js[t]);
      assert IsLast(h, js'[|js|]);
    } else if length.Some? {
      var t :| 0 <= t < |js| && IsLast(h, js[t]);
      assert IsLast(h, js'[t]);
    }
    hide IsLast, IsSource;
  }

  /** A complete consistent frame spells its content. */
  lemma CompleteSpells(p: Params, g: Frame)
    requires Consistent(p, g) && Complete(g)
    ensures Spells(g.pieces, Content(g.pieces, g.length.value))
  {
    var out := Content(g.pieces, g.length.value);
    forall t, i | 0 <= t < |g.pieces| && g.pieces[t].Has(i)
      ensures out[i] == g.pieces[t].data[i - g.pieces[t].start]
    {
      ByteAtUnique(g.pieces, i, t);
    }
  }

  lemma LocateBacked(p: Params, h: seq<Event>, a: Asm, id: nat)
    requires p.Ok() && AllBacked(h, a.frames)
    ensures AllBacked(h, Locate(p, a, id).frames)
  {
    assert Sources(h, id, [], [], None);
    assert Backed(h, Frame(id, a.time, [], None));
    hide Backed;
  }

  ghost predicate OutGenuine(h: seq<Event>, r: Result) {
    AllBacked(h, r.asm.frames) && (r.out.Some? ==> Genuine(h, r.out.value))
  }

  lemma DeliverSound(p: Params, h: seq<Event>, now: int, r: Place, c: Chunk)
    requires PlaceOk(p, now, r) && InBounds(p, c) && r.frames[r.at].id == c.id && AllBacked(h, r.frames)
    ensures OutGenuine(h + [Arrive(c)], Deliver(p, now, r, c))
  {
    var f, h' := r.frames[r.at], h + [Arrive(c)];
    assert AllBacked(h', r.frames) by {
      forall i | 0 <= i < |r.frames| ensures Backed(h', r.frames[i]) { BackedLater(h, [Arrive(c)], r.frames[i]); }
    }
    if Compatible(f, c) {
      ExtendConsistent(p, f, c, now);
      ExtendBacked(h, f, c, now);
      var g := Extend(f, c, now);
      if Complete(g) {
        CompleteSpells(p, g);
        var js: seq<nat> :| Sources(h', g.id, js, g.pieces, g.length);
        var out := Content(g.pieces, g.length.value);
        assert Sources(h', g.id, js, g.pieces, Some(|out|)) && Spells(g.pieces, out);
      }
    }
    hide Backed, Complete, Compatible, Consistent;
  }

  lemma StepSound(p: Params, h: seq<Event>, a: Asm, e: Event)
    requires p.Ok() && Inv(p, a) && AllBacked(h, a.frames)
    ensures OutGenuine(h + [e], StepEvent(p, a, e))
  {
    match e {
      case Arrive(c) =>
        if InBounds(p, c) {
          LocateKeeps(p, a, c.id);
          LocateBacked(p, h, a, c.id);
          hide Locate, Deliver, PlaceOk, AllBacked;
          DeliverSound(p, h, a.time, Locate(p, a, c.id), c);
        } else {
          AllBackedLater(h, [e], a.frames);
        }
      case EndPacket =>
        TickBacked(p, h, a);
        AllBackedLater(h, [e], Tick(p, a).frames);
    }
  }

  lemma AllBackedLater(h: seq<Event>, g: seq<Event>, fs: seq<Frame>)
    requires AllBacked(h, fs)
    ensures AllBacked(h + g, fs)
  {
    forall i | 0 <= i < |fs| ensures Backed(h + g, fs[i]) { BackedLater(h, g, fs[i]); }
  }

  lemma TickBacked(p: Params, h: seq<Event>, a: Asm)
    requires AllBacked(h, a.frames)
    ensures AllBacked(h, Tick(p, a).frames)
  {
    if a.time == MAX_TIME {
      var fs := Retained(p, a.time, a.frames);
      RetainedIs(p, a.time, a.frames);
      forall i | 0 <= i < |fs| ensures Backed(h, fs[i]) && forall t :: Backed(h, fs[i].(time := t)) {
        assert fs[i] in a.frames;
      }
    }
  }

  lemma {:induction false} RunSound(p: Params, h: seq<Event>, a: Asm, es: seq<Event>, k: nat)
    requires p.Ok() && Inv(p, a) && AllBacked(h, a.frames)
    requires k < |Run(p, a, es).outs|
    ensures Genuine(h + es, Run(p, a, es).outs[k])
    decreases |es|
  {
    hide StepEvent, Inv, AllBacked, Genuine;
    StepSound(p, h, a, es[0]);
    StepKeeps(p, a, es[0]);
    var r := StepEvent(p, a, es[0]);
    var first := AsSeq(r.out);
    assert h + es == (h + [es[0]]) + es[1..];
    if k < |first| {
      GenuineLater(h + [es[0]], es[1..], r.out.value);
    } else {
      RunSound(p, h + [es[0]], r.asm, es[1..], k - |first|);
    }
  }

  /** Reassembly soundness: whatever packets arrive, every delivered frame is genuine. */
  lemma DeliveredFramesAreGenuine(p: Params, packets: seq<seq<byte>>, k: nat)
    requires p.Ok() && k < |Run(p, Initial, Events(packets)).outs|
    ensures Genuine(Events(packets), Run(p, Initial, Events(packets)).outs[k])
  {
    RunSound(p, [], Initial, Events(packets), k);
    assert [] + Events(packets) == Events(packets);
  }
}
