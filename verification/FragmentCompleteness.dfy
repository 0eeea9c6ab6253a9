/**
 Chunks that arrive in any order, among those of other frames, are put together. What is asked for is told from the
 events alone: the chunks tile the frame, not too many other frames start in between, and no chunk comes too late.
 */
module FragmentCompleteness {
  import opened Bytes
  import opened FragmentPieces
  import opened FragmentWire
  import opened FragmentAssemblerSpec
  import opened FragmentAssemblerProofs
  import S = FragmentSoundness
  import Lists

  // ---- what the events say ----

  predicate Carries(e: Event, id: nat) { e.Arrive? && e.chunk.id == id }

  /** The chunks of frame `id`, in the order in which they arrive. */
  function Chunks(es: seq<Event>, id: nat): seq<Chunk> {
    if es == [] then []
    else
      var e := es[|es| - 1];
      Chunks(es[..|es| - 1], id) + if Carries(e, id) then [e.chunk] else []
  }

  /** The other frames of which chunks arrive. */
  function Others(es: seq<Event>, id: nat): set<nat> {
    if es == [] then {}
    else
      var e := es[|es| - 1];
      Others(es[..|es| - 1], id) + if e.Arrive? && e.chunk.id != id then {e.chunk.id} else {}
  }

  /** How many packets have ended since a chunk of frame `id` arrived last. */
  function Since(es: seq<Event>, id: nat): Option<nat> {
    if es == [] then None
    else
      var e, before := es[|es| - 1], Since(es[..|es| - 1], id);
      if Carries(e, id) then Some(0)
      else if e.EndPacket? && before.Some? then Some(before.value + 1)
      else before
  }

  /** No two chunks share a position, together they are just [0, n), and number `l` is the only one marked last and ends there. */
  ghost predicate Tiles(cs: seq<Chunk>, n: nat, l: nat) {
    && l < |cs| && cs[l].last && cs[l].End() == n
    && (forall k :: 0 <= k < |cs| && k != l ==> !cs[k].last)
    && (|cs| == 1 || forall k :: 0 <= k < |cs| ==> cs[k].data != [])
    && (forall j, k, i :: 0 <= j < k < |cs| && cs[j].AsPiece().Has(i) ==> !cs[k].AsPiece().Has(i))
    && (forall k :: 0 <= k < |cs| ==> cs[k].End() <= n)
    && (forall i :: 0 <= i < n ==> Covered(Pieces(cs), i))
  }

  function Pieces(cs: seq<Chunk>): (ps: seq<Piece>)
    ensures |ps| == |cs| && forall k :: 0 <= k < |cs| ==> ps[k] == cs[k].AsPiece()
  {
    seq(|cs|, k requires 0 <= k < |cs| => cs[k].AsPiece())
  }

  /** Where a chunk marked last ends, if one has arrived. */
  function LengthOf(cs: seq<Chunk>): Option<nat> {
    if cs == [] then None else if cs[|cs| - 1].last then Some(cs[|cs| - 1].End()) else LengthOf(cs[..|cs| - 1])
  }

  // ---- chunks beyond the largest frame ----

  /** The events without the chunks that reach beyond the largest frame. */
  function Heard(p: Params, es: seq<Event>): seq<Event> {
    if es == [] then []
    else (if es[0].Arrive? && es[0].chunk.End() > p.mtu then [] else [es[0]]) + Heard(p, es[1..])
  }

  /** Such chunks are as if they had not come, even to the frame whose id they bear. */
  lemma {:induction false} BeyondIgnored(p: Params, a: Asm, es: seq<Event>)
    requires p.Ok()
    ensures Run(p, a, es) == Run(p, a, Heard(p, es))
    decreases |es|
  {
    hide Locate, Deliver, Tick;
    if es != [] {
      var r := StepEvent(p, a, es[0]);
      BeyondIgnored(p, r.asm, es[1..]);
      var rest := Heard(p, es[1..]);
      assert ([es[0]] + rest)[1..] == rest;
      assert [] + Run(p, a, es[1..]).outs == Run(p, a, es[1..]).outs && [] + rest == rest;
    }
  }

  // ---- lists of frames ----

  /** Frame `f` is held, and whatever was allocated after it is one of the frames `later`. */
  ghost predicate HeldAt(fs: seq<Frame>, x: nat, f: Frame, later: set<nat>) {
    x < |fs| && fs[x] == f && forall y :: x < y < |fs| ==> fs[y].id in later
  }

  lemma DropOther(fs: seq<Frame>, x: nat, f: Frame, later: set<nat>, y: nat)
    requires HeldAt(fs, x, f, later) && y < |fs| && y != x
    ensures HeldAt(DropAt(fs, y), if y < x then x - 1 else x, f, later)
  {
  }

  lemma AppendLater(fs: seq<Frame>, x: nat, f: Frame, later: set<nat>, g: Frame)
    requires HeldAt(fs, x, f, later)
    ensures HeldAt(fs + [g], x, f, later + {g.id})
  {
  }

  lemma ReplaceOther(fs: seq<Frame>, x: nat, f: Frame, later: set<nat>, y: nat, g: Frame)
    requires HeldAt(fs, x, f, later) && y < |fs| && y != x && g.id == fs[y].id
    ensures HeldAt(fs[y := g], x, f, later)
  {
  }

  lemma MoreLater(fs: seq<Frame>, x: nat, f: Frame, later: set<nat>, more: set<nat>)
    requires HeldAt(fs, x, f, later) && later <= more
    ensures HeldAt(fs, x, f, more)
  {
  }

  /** There are at least as many ids as frames behind the first. */
  lemma {:induction false} IdsBehind(fs: seq<Frame>, ids: set<nat>)
    requires DistinctIds(fs) && forall y :: 0 <= y < |fs| ==> fs[y].id in ids
    ensures |fs| <= |ids|
  {
    if fs != [] {
      var rest, last := fs[..|fs| - 1], fs[|fs| - 1].id;
      forall y | 0 <= y < |rest| ensures rest[y].id in ids - {last} { assert rest[y] == fs[y]; }
      IdsBehind(rest, ids - {last});
    }
  }

  /** A full pool has an older frame to give up. */
  lemma NotOldest(p: Params, fs: seq<Frame>, x: nat, f: Frame, later: set<nat>, id: nat)
    requires DistinctIds(fs) && HeldAt(fs, x, f, later) && IndexOf(fs, id) == |fs|
    requires |later + {id}| < p.numFrames && |fs| >= p.numFrames
    ensures x > 0
  {
    if x == 0 {
      var rest := fs[1..];
      forall y | 0 <= y < |rest| ensures rest[y].id in (later + {id}) - {id} { assert rest[y] == fs[y + 1]; }
      IdsBehind(rest, (later + {id}) - {id});
    }
  }

  // ---- chunks of other frames ----

  lemma LocateOther(p: Params, a: Asm, x: nat, f: Frame, later: set<nat>, id: nat) returns (y: nat)
    requires p.Ok() && Inv(p, a) && HeldAt(a.frames, x, f, later) && id != f.id && |later + {id}| < p.numFrames
    ensures var r := Locate(p, a, id);
            HeldAt(r.frames, y, f, later + {id}) && r.at != y && r.at < |r.frames| && r.frames[r.at].id == id
  {
    hide Held, HeldAt;
    IndexHeld(a.frames, x, f, later);
    var k, blank := IndexOf(a.frames, id), Frame(id, a.time, [], None);
    y := x;
    MoreLater(a.frames, x, f, later, later + {id});
    if k == |a.frames| {
      var fs := a.frames;
      if |fs| >= p.numFrames {
        NotOldest(p, fs, x, f, later, id);
        DropOther(fs, x, f, later, 0);
        assert DropAt(fs, 0) == fs[1..];
        fs := fs[1..];
        y := x - 1;
      }
      AppendLater(fs, y, f, later, blank);
    } else if TimedOut(p, a.time, a.frames[k]) {
      DropOther(a.frames, x, f, later, k);
      y := if k < x then x - 1 else x;
      AppendLater(DropAt(a.frames, k), y, f, later, blank);
    }
  }

  lemma ReceiveOther(p: Params, a: Asm, x: nat, f: Frame, later: set<nat>, c: Chunk) returns (y: nat)
    requires p.Ok() && Inv(p, a) && HeldAt(a.frames, x, f, later) && c.id != f.id && |later + {c.id}| < p.numFrames
    ensures HeldAt(Receive(p, a, c).asm.frames, y, f, later + {c.id}) && Receive(p, a, c).asm.time == a.time
  {
    hide Inv, Locate, HeldAt, Compatible, Complete;
    y := x;
    if !InBounds(p, c) {
      MoreLater(a.frames, x, f, later, later + {c.id});
    } else {
      y := LocateOther(p, a, x, f, later, c.id);
      var r := Locate(p, a, c.id);
      IndexHeld(r.frames, y, f, later + {c.id});
      DropOther(r.frames, y, f, later + {c.id}, r.at);
      ReplaceOther(r.frames, y, f, later + {c.id}, r.at, Extend(r.frames[r.at], c, a.time));
      var g := Extend(r.frames[r.at], c, a.time);
      if !Compatible(r.frames[r.at], c) || Complete(g) || |g.pieces| == p.numChunks {
        y := if r.at < y then y - 1 else y;
      }
    }
  }

  lemma IndexHeld(fs: seq<Frame>, x: nat, f: Frame, later: set<nat>)
    requires HeldAt(fs, x, f, later)
    ensures x < |fs| && fs[x] == f
  {
  }

  // ---- the end of a packet ----

  lemma {:induction false} RetainedHeld(p: Params, now: int, fs: seq<Frame>, x: nat, f: Frame, later: set<nat>) returns (y: nat)
    requires HeldAt(fs, x, f, later) && !TimedOut(p, now, f)
    ensures HeldAt(Retained(p, now, fs), y, f, later)
  {
    hide TimedOut;
    var rest, last := fs[..|fs| - 1], fs[|fs| - 1];
    if x == |rest| {
      y := |Retained(p, now, rest)|;
    } else {
      y := RetainedHeld(p, now, rest, x, f, later);
    }
  }

  lemma TickHeld(p: Params, a: Asm, x: nat, f: Frame, later: set<nat>) returns (y: nat)
    requires p.Ok() && Inv(p, a) && HeldAt(a.frames, x, f, later) && a.time - f.time <= p.numFrames
    ensures var b := Tick(p, a); HeldAt(b.frames, y, f.(time := b.time - (a.time - f.time + 1)), later)
  {
    hide Inv, Retained, MinTime;
    TickAges(p, a);
    y := x;
    if a.time == MAX_TIME {
      y := RetainedHeld(p, a.time, a.frames, x, f, later);
    }
    TimeInRange(p, a);
    hide Tick;
  }

  lemma TimeInRange(p: Params, a: Asm)
    requires Inv(p, a)
    ensures 0 <= a.time <= MAX_TIME
  {
  }

  // ---- chunks of the frame itself ----

  /** After a chunk that fits: the frame is delivered if it is complete, and otherwise held as long as it has slots. */
  ghost predicate Took(p: Params, now: int, res: Result, x: nat, g: Frame, later: set<nat>) {
    if Complete(g) then res.out == Some(Content(g.pieces, g.length.value))
    else |g.pieces| != p.numChunks ==> res.out.None? && res.asm.time == now && HeldAt(res.asm.frames, x, g, later)
  }

  lemma DeliverOwn(p: Params, now: int, r: Place, f: Frame, later: set<nat>, c: Chunk)
    requires HeldAt(r.frames, r.at, f, later) && Compatible(f, c)
    ensures Took(p, now, Deliver(p, now, r, c), r.at, Extend(f, c, now), later)
  {
    hide Compatible, Complete;
  }

  lemma ReceiveOwn(p: Params, a: Asm, x: nat, f: Frame, later: set<nat>, c: Chunk)
    requires p.Ok() && Inv(p, a) && HeldAt(a.frames, x, f, later) && c.id == f.id && !TimedOut(p, a.time, f)
    requires InBounds(p, c) && Compatible(f, c)
    ensures Took(p, a.time, Receive(p, a, c), x, Extend(f, c, a.time), later)
  {
    hide Held, Compatible, Deliver, Took, Extend;
    assert IndexOf(a.frames, f.id) == x;
    DeliverOwn(p, a.time, Place(a.frames, x), f, later, c);
  }

  /** The id is free: nothing is held under it, or only what is timed out. */
  ghost predicate Available(p: Params, a: Asm, id: nat) {
    var k := IndexOf(a.frames, id);
    k == |a.frames| || TimedOut(p, a.time, a.frames[k])
  }

  lemma ReceiveFirst(p: Params, a: Asm, c: Chunk) returns (x: nat)
    requires p.Ok() && Available(p, a, c.id) && InBounds(p, c)
    ensures Took(p, a.time, Receive(p, a, c), x, Extend(Frame(c.id, a.time, [], None), c, a.time), {})
  {
    hide Deliver, Took, Extend;
    var r, f := Locate(p, a, c.id), Frame(c.id, a.time, [], None);
    x := r.at;
    assert HeldAt(r.frames, r.at, f, {});
    assert Compatible(f, c);
    hide Locate, Compatible;
    DeliverOwn(p, a.time, r, f, {}, c);
  }

  // ---- how old what is held is ----

  /** Every held frame has had a chunk, and is at least as old as the events say. */
  ghost predicate Aged(a: Asm, h: seq<Event>) {
    forall i :: 0 <= i < |a.frames| ==> OldEnough(a.time, a.frames[i], h)
  }

  ghost predicate OldEnough(now: int, f: Frame, h: seq<Event>) {
    Since(h, f.id).Some? && now - f.time >= Since(h, f.id).value
  }

  lemma SinceMore(h: seq<Event>, e: Event, id: nat)
    ensures var s, t := Since(h, id), Since(h + [e], id);
            t == if Carries(e, id) then Some(0) else if e.EndPacket? && s.Some? then Some(s.value + 1) else s
  {
    assert (h + [e])[..|h|] == h;
  }

  lemma OldEnoughOther(now: int, f: Frame, h: seq<Event>, c: Chunk)
    requires OldEnough(now, f, h) && f.time <= now
    ensures OldEnough(now, f, h + [Arrive(c)])
  {
    SinceMore(h, Arrive(c), f.id);
  }

  lemma NewEnough(now: int, f: Frame, h: seq<Event>, c: Chunk)
    requires f.id == c.id && f.time == now
    ensures OldEnough(now, f, h + [Arrive(c)])
  {
    SinceMore(h, Arrive(c), f.id);
  }

  ghost predicate InPast(now: int, fs: seq<Frame>) { forall i :: 0 <= i < |fs| ==> fs[i].time <= now }

  lemma ReceiveAged(p: Params, a: Asm, h: seq<Event>, c: Chunk)
    requires p.Ok() && InPast(a.time, a.frames) && Aged(a, h)
    ensures Aged(Receive(p, a, c).asm, h + [Arrive(c)])
  {
    hide OldEnough, Compatible, Complete, Locate;
    var h' := h + [Arrive(c)];
    forall i | 0 <= i < |a.frames| ensures OldEnough(a.time, a.frames[i], h') {
      OldEnoughOther(a.time, a.frames[i], h, c);
    }
    if InBounds(p, c) {
      var r := Locate(p, a, c.id);
      NewEnough(a.time, Frame(c.id, a.time, [], None), h, c);
      NewEnough(a.time, Extend(r.frames[r.at], c, a.time), h, c);
      LocateAged(p, a, h', c.id);
    }
  }

  lemma LocateAged(p: Params, a: Asm, h: seq<Event>, id: nat)
    requires p.Ok() && Aged(a, h) && OldEnough(a.time, Frame(id, a.time, [], None), h)
    ensures Aged(Asm(a.time, Locate(p, a, id).frames), h)
  {
    hide OldEnough, TimedOut;
  }

  lemma TickAged(p: Params, a: Asm, h: seq<Event>)
    requires p.Ok() && Inv(p, a) && Aged(a, h)
    ensures Aged(Tick(p, a), h + [EndPacket])
  {
    hide Inv, Retained, MinTime, Tick;
    TickAges(p, a);
    RetainedIs(p, a.time, a.frames);
    TimeInRange(p, a);
    var fs := if a.time < MAX_TIME then a.frames else Retained(p, a.time, a.frames);
    var b := Tick(p, a);
    forall i | 0 <= i < |b.frames| ensures OldEnough(b.time, b.frames[i], h + [EndPacket]) {
      assert fs[i] in a.frames;
      SinceMore(h, EndPacket, fs[i].id);
    }
  }

  lemma StepAged(p: Params, a: Asm, h: seq<Event>, e: Event)
    requires p.Ok() && Inv(p, a) && Aged(a, h)
    ensures Aged(StepEvent(p, a, e).asm, h + [e])
  {
    hide Aged, Tick, Receive;
    match e {
      case Arrive(c) => ReceiveAged(p, a, h, c);
      case EndPacket => TickAged(p, a, h);
    }
  }

  lemma {:induction false} RunAged(p: Params, a: Asm, h: seq<Event>, es: seq<Event>)
    requires p.Ok() && Inv(p, a) && Aged(a, h)
    ensures Inv(p, Run(p, a, es).asm) && Aged(Run(p, a, es).asm, h + es)
    decreases |es|
  {
    hide Inv, Aged, StepEvent;
    if es == [] {
      assert h + es == h;
    } else {
      StepKeeps(p, a, es[0]);
      StepAged(p, a, h, es[0]);
      RunAged(p, StepEvent(p, a, es[0]).asm, h + [es[0]], es[1..]);
      assert h + [es[0]] + es[1..] == h + es;
    }
  }

  /** From the events: an id never used, or not for more packets than there are frames, is free. */
  lemma StaleAvailable(p: Params, a: Asm, h: seq<Event>, id: nat)
    requires Aged(a, h) && (Since(h, id).None? || Since(h, id).value > p.numFrames)
    ensures Available(p, a, id)
  {
    var k := IndexOf(a.frames, id);
    if k < |a.frames| { assert OldEnough(a.time, a.frames[k], h); }
  }

  // ---- a frame that is tiled ----

  lemma {:induction false} LengthPrefix(cs: seq<Chunk>, n: nat, l: nat, k: nat)
    requires Tiles(cs, n, l) && k <= |cs|
    ensures LengthOf(cs[..k]) == if l < k then Some(n) else None
  {
    if k > 0 {
      LengthPrefix(cs, n, l, k - 1);
      assert cs[..k][..k - 1] == cs[..k - 1];
    }
  }

  /** The frame after the first `k` of the chunks. */
  function After(id: nat, time: int, cs: seq<Chunk>): Frame { Frame(id, time, Pieces(cs), LengthOf(cs)) }

  lemma ExtendsTo(id: nat, time: int, now: int, cs: seq<Chunk>, k: nat)
    requires k < |cs|
    ensures Extend(After(id, time, cs[..k]), cs[k], now) == After(id, now, cs[..k + 1])
  {
    assert cs[..k + 1][..k] == cs[..k];
    assert Pieces(cs[..k]) + [cs[k].AsPiece()] == Pieces(cs[..k + 1]);
  }

  lemma ApartNoOverlap(a: Piece, b: Piece)
    requires a.data != [] && b.data != [] && forall i :: a.Has(i) ==> !b.Has(i)
    ensures !Overlap(a, b)
  {
    OverlapIsSharing(a, b);
  }

  lemma NextFits(id: nat, time: int, cs: seq<Chunk>, n: nat, l: nat, k: nat)
    requires Tiles(cs, n, l) && k < |cs|
    ensures Compatible(After(id, time, cs[..k]), cs[k])
  {
    LengthPrefix(cs, n, l, k);
    var ps := Pieces(cs[..k]);
    forall j | 0 <= j < k ensures !Overlap(ps[j], cs[k].AsPiece()) && ps[j].End() <= n {
      assert ps[j] == cs[j].AsPiece();
      ApartNoOverlap(cs[j].AsPiece(), cs[k].AsPiece());
    }
  }

  /** As long as a chunk is missing so is its first byte. */
  lemma NotYet(id: nat, time: int, cs: seq<Chunk>, n: nat, l: nat, k: nat)
    requires Tiles(cs, n, l) && k < |cs| && |cs| > 1
    ensures !Complete(After(id, time, cs[..k]))
  {
    LengthPrefix(cs, n, l, k);
    var ps, i := Pieces(cs[..k]), cs[k].start;
    assert cs[k].AsPiece().Has(i);
    forall j | 0 <= j < |ps| ensures !ps[j].Has(i) { assert ps[j] == cs[j].AsPiece(); }
    assert !Covered(ps, i);
  }

  lemma AllThere(id: nat, time: int, cs: seq<Chunk>, n: nat, l: nat)
    requires Tiles(cs, n, l)
    ensures Complete(After(id, time, cs)) && LengthOf(cs) == Some(n) && S.Spells(Pieces(cs), Content(Pieces(cs), n))
  {
    LengthPrefix(cs, n, l, |cs|);
    assert cs[..|cs|] == cs;
    var ps := Pieces(cs);
    assert Disjoint(ps) by {
      forall j, k | 0 <= j < k < |ps| ensures !Overlap(ps[j], ps[k]) { ApartNoOverlap(ps[j], ps[k]); }
    }
    var out := Content(ps, n);
    forall t, i | 0 <= t < |ps| && ps[t].Has(i) ensures out[i] == ps[t].data[i - ps[t].start] { ByteAtUnique(ps, i, t); }
  }

  // ---- runs ----

  lemma ChunksMore(es: seq<Event>, k: nat, id: nat)
    requires k < |es|
    ensures Chunks(es[..k + 1], id) == Chunks(es[..k], id) + if Carries(es[k], id) then [es[k].chunk] else []
    ensures Others(es[..k + 1], id) == Others(es[..k], id) + if es[k].Arrive? && es[k].chunk.id != id then {es[k].chunk.id} else {}
  {
    assert es[..k + 1][..k] == es[..k];
  }

  lemma {:induction false} Growing(es: seq<Event>, k: nat, m: nat, id: nat)
    requires k <= m <= |es|
    ensures Chunks(es[..k], id) <= Chunks(es[..m], id) && Others(es[..k], id) <= Others(es[..m], id)
  {
    hide Chunks, Others;
    if k < m {
      Growing(es, k, m - 1, id);
      ChunksMore(es, m - 1, id);
    }
  }

  /** Among the events `es` the frame `id` arrives whole, not too slowly and beside few enough others. */
  ghost predicate Arrives(p: Params, es: seq<Event>, id: nat, n: nat, l: nat) {
    && es != [] && Carries(es[0], id) && Carries(es[|es| - 1], id)
    && Tiles(Chunks(es, id), n, l) && n <= p.mtu && |Chunks(es, id)| <= p.numChunks
    && |Others(es, id)| < p.numFrames
    && (forall k :: 0 < k <= |es| ==> Since(es[..k], id).Some? && Since(es[..k], id).value <= p.numFrames)
  }

  /** Up to the last chunk the chunks so far are a proper prefix. */
  lemma ChunksSoFar(p: Params, es: seq<Event>, id: nat, n: nat, l: nat, k: nat)
    requires Arrives(p, es, id, n, l) && k < |es|
    ensures var cs, m := Chunks(es, id), |Chunks(es[..k], id)|;
            && m < |cs| && Chunks(es[..k], id) == cs[..m]
            && (Carries(es[k], id) ==> cs[m] == es[k].chunk)
            && (Carries(es[k], id) ==> (m + 1 == |cs| <==> k + 1 == |es|))
  {
    hide Chunks, Tiles, Since, Others;
    var e := |es| - 1;
    Growing(es, k, e, id);
    ChunksMore(es, e, id);
    assert es[..|es|] == es;
    ChunksMore(es, k, id);
    Growing(es, k + 1, |es|, id);
    if k + 1 < |es| { Growing(es, k + 1, e, id); }
  }

  lemma FewOthers(p: Params, es: seq<Event>, id: nat, n: nat, l: nat, k: nat)
    requires Arrives(p, es, id, n, l) && k < |es|
    ensures es[k].Arrive? && es[k].chunk.id != id ==> |Others(es[..k], id) + {es[k].chunk.id}| < p.numFrames
  {
    hide Chunks, Tiles, Since, Others;
    ChunksMore(es, k, id);
    Growing(es, k + 1, |es|, id);
    assert es[..|es|] == es;
    Lists.SubsetSize(Others(es[..k + 1], id), Others(es, id));
  }

  lemma RunStep(p: Params, a: Asm, es: seq<Event>, k: nat)
    requires p.Ok() && k < |es|
    ensures Run(p, a, es[..k + 1]).asm == StepEvent(p, Run(p, a, es[..k]).asm, es[k]).asm
  {
    hide StepEvent;
    assert es[..k + 1] == es[..k] + [es[k]];
    RunAppend(p, a, es[..k], [es[k]]);
    assert [es[k]][1..] == [];
  }

  /** What is held of the frame after the first `k` events. */
  ghost predicate HeldSoFar(b: Asm, es: seq<Event>, id: nat, k: nat, x: nat)
    requires k <= |es|
  {
    && Since(es[..k], id).Some?
    && HeldAt(b.frames, x, After(id, b.time - Since(es[..k], id).value, Chunks(es[..k], id)), Others(es[..k], id))
  }

  lemma FirstChunk(p: Params, a: Asm, es: seq<Event>, id: nat, n: nat, l: nat) returns (x: nat)
    requires p.Ok() && Available(p, a, id) && Arrives(p, es, id, n, l)
    ensures |es| > 1 ==> HeldSoFar(StepEvent(p, a, es[0]).asm, es, id, 1, x)
    ensures |es| == 1 ==> Delivers(StepEvent(p, a, es[0]), Chunks(es, id), n)
  {
    hide Available, Receive, HeldAt, Tiles, Chunks, Since, Others;
    var c := es[0].chunk;
    ChunksSoFar(p, es, id, n, l, 0);
    ChunksMore(es, 0, id);
    NothingYet(es, id);
    ChunkInBounds(p, Chunks(es, id), n, l, 0);
    x := ReceiveFirst(p, a, c);
    var cs := Chunks(es, id);
    assert cs[..0] == [];
    ExtendsTo(id, a.time, a.time, cs, 0);
    TookChunk(p, a.time, Receive(p, a, c), x, id, {}, cs, n, l, 0);
    assert es[..1] == [es[0]];
    assert Others(es[..1], id) == {};
    assert Chunks(es[..1], id) == cs[..1];
    SinceMore([], es[0], id);
    assert [] + [es[0]] == [es[0]];
  }

  lemma NothingYet(es: seq<Event>, id: nat)
    ensures Chunks(es[..0], id) == [] && Others(es[..0], id) == {} && LengthOf([]) == None && Pieces([]) == []
  {
  }

  lemma ChunkInBounds(p: Params, cs: seq<Chunk>, n: nat, l: nat, k: nat)
    requires Tiles(cs, n, l) && k < |cs| && n <= p.mtu
    ensures InBounds(p, cs[k])
  {
  }

  /** The frame the chunks spell is put out. */
  ghost predicate Delivers(r: Result, cs: seq<Chunk>, n: nat) {
    r.out.Some? && |r.out.value| == n && S.Spells(Pieces(cs), r.out.value)
  }

  lemma TookChunk(p: Params, now: int, res: Result, x: nat, id: nat, later: set<nat>, cs: seq<Chunk>, n: nat, l: nat, k: nat)
    requires Tiles(cs, n, l) && k < |cs| <= p.numChunks && Took(p, now, res, x, After(id, now, cs[..k + 1]), later)
    ensures k + 1 < |cs| ==> res.asm.time == now && HeldAt(res.asm.frames, x, After(id, now, cs[..k + 1]), later)
    ensures k + 1 == |cs| ==> Delivers(res, cs, n)
  {
    hide Tiles, HeldAt, Complete, S.Spells;
    if k + 1 < |cs| {
      NotYet(id, now, cs, n, l, k + 1);
    } else {
      assert cs[..k + 1] == cs;
      AllThere(id, now, cs, n, l);
    }
  }

  lemma OwnChunk(p: Params, b: Asm, es: seq<Event>, id: nat, n: nat, l: nat, k: nat, x: nat)
    requires p.Ok() && Inv(p, b) && Arrives(p, es, id, n, l) && 0 < k < |es| && Carries(es[k], id) && HeldSoFar(b, es, id, k, x)
    ensures k + 1 < |es| ==> HeldSoFar(StepEvent(p, b, es[k]).asm, es, id, k + 1, x)
    ensures k + 1 == |es| ==> Delivers(StepEvent(p, b, es[k]), Chunks(es, id), n)
  {
    hide Inv, Receive, HeldAt, Tiles, Chunks, Others, Since, Compatible;
    ChunksSoFar(p, es, id, n, l, k);
    ChunksMore(es, k, id);
    var cs, m, g := Chunks(es, id), |Chunks(es[..k], id)|, Since(es[..k], id).value;
    var c := es[k].chunk;
    assert g <= p.numFrames;
    NextFits(id, b.time - g, cs, n, l, m);
    ChunkInBounds(p, cs, n, l, m);
    ReceiveOwn(p, b, x, After(id, b.time - g, cs[..m]), Others(es[..k], id), c);
    ExtendsTo(id, b.time - g, b.time, cs, m);
    TookChunk(p, b.time, Receive(p, b, c), x, id, Others(es[..k], id), cs, n, l, m);
    SinceMore(es[..k], es[k], id);
    assert es[..k] + [es[k]] == es[..k + 1];
    assert Chunks(es[..k + 1], id) == cs[..m + 1];
    assert Others(es[..k + 1], id) == Others(es[..k], id);
  }

  lemma OtherEvent(p: Params, b: Asm, es: seq<Event>, id: nat, n: nat, l: nat, k: nat, x: nat) returns (y: nat)
    requires p.Ok() && Inv(p, b) && Arrives(p, es, id, n, l) && 0 < k < |es| && !Carries(es[k], id) && HeldSoFar(b, es, id, k, x)
    ensures HeldSoFar(StepEvent(p, b, es[k]).asm, es, id, k + 1, y)
  {
    hide Inv, Receive, Tick, HeldAt, Tiles, Chunks, Others, Since;
    ChunksMore(es, k, id);
    SinceMore(es[..k], es[k], id);
    assert es[..k] + [es[k]] == es[..k + 1];
    var g := Since(es[..k], id).value;
    var f := After(id, b.time - g, Chunks(es[..k], id));
    assert Chunks(es[..k + 1], id) == Chunks(es[..k], id);
    if es[k].Arrive? {
      FewOthers(p, es, id, n, l, k);
      y := ReceiveOther(p, b, x, f, Others(es[..k], id), es[k].chunk);
    } else {
      assert g <= p.numFrames;
      assert Others(es[..k + 1], id) == Others(es[..k], id);
      y := TickHeld(p, b, x, f, Others(es[..k], id));
    }
  }

  lemma {:induction false} Midway(p: Params, a: Asm, es: seq<Event>, id: nat, n: nat, l: nat, k: nat) returns (x: nat)
    requires p.Ok() && Inv(p, a) && Available(p, a, id) && Arrives(p, es, id, n, l) && 0 < k < |es|
    ensures Inv(p, Run(p, a, es[..k]).asm) && HeldSoFar(Run(p, a, es[..k]).asm, es, id, k, x)
  {
    hide Inv, Available, Arrives, HeldSoFar, StepEvent, Run;
    RunKeeps(p, a, es[..k]);
    RunStep(p, a, es, k - 1);
    if k == 1 {
      StartOfRun(p, a, es);
      x := FirstChunk(p, a, es, id, n, l);
    } else {
      x := Midway(p, a, es, id, n, l, k - 1);
      var b := Run(p, a, es[..k - 1]).asm;
      RunKeeps(p, a, es[..k - 1]);
      if Carries(es[k - 1], id) {
        OwnChunk(p, b, es, id, n, l, k - 1, x);
      } else {
        x := OtherEvent(p, b, es, id, n, l, k - 1, x);
      }
    }
  }

  lemma StartOfRun(p: Params, a: Asm, es: seq<Event>)
    requires p.Ok()
    ensures Run(p, a, es[..0]).asm == a
  {
  }

  lemma ArrivesThenDelivered(p: Params, a: Asm, es: seq<Event>, id: nat, n: nat, l: nat)
    requires p.Ok() && Inv(p, a) && Available(p, a, id) && Arrives(p, es, id, n, l)
    ensures Delivers(StepEvent(p, Run(p, a, es[..|es| - 1]).asm, es[|es| - 1]), Chunks(es, id), n)
  {
    hide Inv, Available, HeldSoFar, StepEvent, Run, Delivers, Tiles, Chunks, Others, Since;
    var k := |es| - 1;
    if k == 0 {
      StartOfRun(p, a, es);
      var x := FirstChunk(p, a, es, id, n, l);
    } else {
      var x := Midway(p, a, es, id, n, l, k);
      OwnChunk(p, Run(p, a, es[..k]).asm, es, id, n, l, k, x);
    }
  }

  /**
   Reassembly completeness. Whatever has happened before, let the chunks of a frame arrive in any order among others:
   they tile the frame, there are slots for them, chunks of fewer other frames than the pool has entries come in between,
   and no more packets end between two of them than that. If nothing is held under the id, or its last chunk is longer
   ago, then the frame they spell is put out as the last of them arrives.
   */
  lemma ChunksInAnyOrder(p: Params, before: seq<Event>, es: seq<Event>, id: nat, n: nat, l: nat)
    requires p.Ok() && Arrives(p, es, id, n, l)
    requires || Since(before, id).None? || Since(before, id).value > p.numFrames
             || IndexOf(Run(p, Initial, before).asm.frames, id) == |Run(p, Initial, before).asm.frames|
    ensures var a := Run(p, Initial, before).asm;
            Delivers(StepEvent(p, Run(p, a, es[..|es| - 1]).asm, es[|es| - 1]), Chunks(es, id), n)
    ensures exists out :: out in Run(p, Initial, before + es).outs && |out| == n && S.Spells(Pieces(Chunks(es, id)), out)
  {
    hide StepEvent, Run, Tiles, Chunks, Others, S.Spells, Inv, Aged;
    var a := Run(p, Initial, before).asm;
    Freshly(p, before);
    if Since(before, id).None? || Since(before, id).value > p.numFrames { StaleAvailable(p, a, before, id); }
    ArrivesThenDelivered(p, a, es, id, n, l);
    LastOut(p, before, es);
  }

  lemma Freshly(p: Params, before: seq<Event>)
    requires p.Ok()
    ensures Inv(p, Run(p, Initial, before).asm) && Aged(Run(p, Initial, before).asm, before)
  {
    hide Run;
    RunAged(p, Initial, [], before);
    assert [] + before == before;
  }

  lemma LastOut(p: Params, before: seq<Event>, es: seq<Event>)
    requires p.Ok() && es != []
    ensures var a := Run(p, Initial, before).asm;
            var r := StepEvent(p, Run(p, a, es[..|es| - 1]).asm, es[|es| - 1]);
            r.out.Some? ==> r.out.value in Run(p, Initial, before + es).outs
  {
    hide StepEvent, Run;
    var k := |es| - 1;
    var a := Run(p, Initial, before).asm;
    RunAppend(p, Initial, before, es);
    assert es == es[..k] + [es[k]];
    RunAppend(p, a, es[..k], [es[k]]);
    OneEvent(p, Run(p, a, es[..k]).asm, es[k]);
  }

  lemma OneEvent(p: Params, a: Asm, e: Event)
    requires p.Ok()
    ensures Run(p, a, [e]).outs == AsSeq(StepEvent(p, a, e).out)
  {
    hide StepEvent;
    assert [e][1..] == [];
    var outs := AsSeq(StepEvent(p, a, e).out);
    assert outs + [] == outs;
  }
}
