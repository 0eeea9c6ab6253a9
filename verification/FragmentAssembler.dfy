/** FragmentProtoAssembler: the fixed pool, the clock and the packet being processed, updated in place. */
module FragmentAssembler {
  import opened Bytes
  import opened FragmentPieces
  import opened FragmentWire
  import opened FragmentAssemblerSpec
  import opened FragmentAssemblerProofs
  import opened FragmentPool
  import opened Lists

  lemma LastIndex(o: Pool)
    requires Partitioned(o) && o.used != []
    ensures IndexIn(o.used, o.used[|o.used| - 1]) == |o.used| - 1
  {
    IndexInIs(o.used, |o.used| - 1);
  }

  lemma LocateHeldFrame(p: Params, a: Asm, id: nat, k: nat)
    requires p.Ok() && k == IndexOf(a.frames, id) < |a.frames|
    ensures var blank := Frame(id, a.time, [], None);
            Locate(p, a, id) == if a.time - a.frames[k].time > p.numFrames then Place(DropAt(a.frames, k) + [blank], |a.frames| - 1)
                                else Place(a.frames, k)
  {
  }

  lemma LocateNewFrame(p: Params, a: Asm, id: nat)
    requires p.Ok() && IndexOf(a.frames, id) == |a.frames|
    ensures var fs := if |a.frames| >= p.numFrames then a.frames[1..] else a.frames;
            Locate(p, a, id) == Place(fs + [Frame(id, a.time, [], None)], |fs|)
  {
  }

  lemma EntryMeans(p: Params, o: Pool, u: nat)
    requires AllSane(p, o) && u in o.used
    ensures u < |o.entries| && Sane(p, o.entries[u]) && View(p, o)[IndexIn(o.used, u)] == FrameOf(o.entries[u])
  {
    assert Sane(p, o.entries[o.used[IndexIn(o.used, u)]]);
  }

  /** Storing a compatible chunk in the pool extends the frame it belongs to. */
  lemma StoreRefines(p: Params, o: Pool, u: nat, c: Chunk, now: int)
    requires Partitioned(o) && Indexed(o) && AllSane(p, o) && u in o.used
    requires InBounds(p, c) && Compatible(View(p, o)[IndexIn(o.used, u)], c)
    ensures u < |o.entries| && c.End() <= |o.entries[u].buffer|
    ensures var k, g := IndexIn(o.used, u), AddChunk(o.entries[u], c, now);
            var r := Stored(o, k, g);
            && Partitioned(r) && Indexed(r) && AllSane(p, r) && Sane(p, g)
            && View(p, r) == View(p, o)[k := FrameOf(g)]
            && FrameOf(g) == Extend(View(p, o)[k], c, now)
  {
    EntryMeans(p, o, u);
    AddChunkRefines(p, o.entries[u], c, now);
    var k, g := IndexIn(o.used, u), AddChunk(o.entries[u], c, now);
    StoredKeeps(o, k, g);
    StoredView(p, o, k, g);
    hide Partitioned, Indexed, AllSane, View, FrameOf, Compatible;
  }

  lemma DeliverRejects(p: Params, now: int, r: Place, c: Chunk)
    requires r.at < |r.frames|
    ensures !Compatible(r.frames[r.at], c) ==> Deliver(p, now, r, c) == Result(Asm(now, DropAt(r.frames, r.at)), None)
  {
  }

  /** Comparing the entry's sum with its length decides as the coverage test does. */
  lemma DeliverAccepts(p: Params, now: int, r: Place, c: Chunk, e: Entry)
    requires PlaceOk(p, now, r) && InBounds(p, c) && Compatible(r.frames[r.at], c)
    requires Sane(p, e) && FrameOf(e) == Extend(r.frames[r.at], c, now)
    ensures var rest := Asm(now, DropAt(r.frames, r.at));
            Deliver(p, now, r, c) ==
              if e.length < 0 || e.sum < e.length then
                if |e.chunks| == p.numChunks then Result(rest, None) else Result(Asm(now, r.frames[r.at := FrameOf(e)]), None)
              else Result(rest, Some(e.buffer[..e.length]))
    ensures e.length >= 0 ==> e.sum <= e.length <= |e.buffer|
  {
    ExtendConsistent(p, r.frames[r.at], c, now);
    hide Compatible, Consistent;
    if e.length >= 0 {
      SumDecides(p, e);
    }
    hide Full;
  }

  lemma IndexHere(o: Pool, i: nat)
    requires Partitioned(o) && i < |o.used|
    ensures IndexIn(o.used, o.used[i]) == i
  {
    IndexInIs(o.used, i);
  }

  /** The scan over the used frames `fs` has passed `j` of them, kept `i` and found the least time of these. */
  ghost predicate Scanned(p: Params, now: int, fs: seq<Frame>, j: nat, cur: seq<Frame>, i: nat, min: Option<int>) {
    && j <= |fs|
    && var kept := Retained(p, now, fs[..j]);
    && i == |kept| && cur == kept + fs[j..]
    && min == if kept == [] then None else Some(MinTime(kept))
  }

  lemma ScanStart(p: Params, now: int, fs: seq<Frame>)
    ensures Scanned(p, now, fs, 0, fs, 0, None)
  {
  }

  function Lesser(min: Option<int>, t: int): int { if min == None || t < min.value then t else min.value }

  lemma ScanStep(p: Params, now: int, fs: seq<Frame>, j: nat, cur: seq<Frame>, i: nat, min: Option<int>)
    requires Scanned(p, now, fs, j, cur, i, min) && i < |cur|
    ensures j < |fs|
    ensures TimedOut(p, now, cur[i]) ==> Scanned(p, now, fs, j + 1, DropAt(cur, i), i, min)
    ensures !TimedOut(p, now, cur[i]) ==>
              Scanned(p, now, fs, j + 1, cur, i + 1, Some(Lesser(min, cur[i].time)))
  {
    var kept := Retained(p, now, fs[..j]);
    assert fs[..j + 1][..j] == fs[..j];
    assert (kept + [fs[j]])[..|kept|] == kept;
    if TimedOut(p, now, fs[j]) {
      assert DropAt(cur, i) == kept + fs[j + 1..];
    } else {
      assert cur == kept + [fs[j]] + fs[j + 1..];
    }
  }

  lemma ScanEnd(p: Params, now: int, fs: seq<Frame>, j: nat, cur: seq<Frame>, i: nat, min: Option<int>)
    requires Scanned(p, now, fs, j, cur, i, min) && i >= |cur|
    ensures cur == Retained(p, now, fs) && min == if cur == [] then None else Some(MinTime(cur))
  {
    assert j == |fs| && fs[..j] == fs;
  }

  lemma ShiftMiddle(fs: seq<Frame>, i: nat, m: int)
    requires i < |fs|
    ensures (Shifted(fs[..i], m) + fs[i..])[i := fs[i].(time := fs[i].time - m)] == Shifted(fs[..i + 1], m) + fs[i + 1..]
  {
  }

  function Later(e: Entry, m: int): Entry { e.(time := e.time - m) }

  lemma ShiftEntrySane(p: Params, e: Entry, m: int)
    requires Sane(p, e)
    ensures Sane(p, Later(e, m)) && Later(e, m).id == e.id
    ensures FrameOf(Later(e, m)) == FrameOf(e).(time := FrameOf(e).time - m)
  {
    assert PiecesOf(Later(e, m)) == PiecesOf(e);
  }

  lemma ShiftRefines(p: Params, o: Pool, i: nat, m: int)
    requires Partitioned(o) && Indexed(o) && AllSane(p, o) && i < |o.used|
    ensures o.used[i] < |o.entries|
    ensures var r := Stored(o, i, Later(o.entries[o.used[i]], m));
            && Partitioned(r) && Indexed(r) && AllSane(p, r)
            && View(p, r) == View(p, o)[i := View(p, o)[i].(time := View(p, o)[i].time - m)]
  {
    EntryAt(p, o, i);
    hide Partitioned, Indexed, AllSane, Stored, View, Sane, FrameOf;
    var e := o.entries[o.used[i]];
    var g := Later(e, m);
    ShiftEntrySane(p, e, m);
    StoredKeeps(o, i, g);
    StoredView(p, o, i, g);
  }

  lemma EntryAt(p: Params, o: Pool, i: nat)
    requires AllSane(p, o) && i < |o.used|
    ensures o.used[i] < |o.entries| && Sane(p, o.entries[o.used[i]]) && View(p, o)[i] == FrameOf(o.entries[o.used[i]])
  {
  }

  lemma TickAtMax(p: Params, a: Asm)
    requires a.time == MAX_TIME
    ensures var fs := Retained(p, a.time, a.frames);
            Tick(p, a) == (if fs == [] then Asm(0, []) else Asm(a.time - MinTime(fs) + 1, Shifted(fs, MinTime(fs)))) &&
            (fs != [] ==> Shifted(fs, MinTime(fs)) != [])
  {
  }

  /** What the head of the unread part of a packet leads to. */
  lemma PacketStep(p: Params, a: Asm, s: seq<byte>)
    requires p.Ok()
    ensures var h := if s == [] then Malformed else ParseHead(s);
            Run(p, a, PacketEvents(s)) ==
              if h.Malformed? then Trace(Tick(p, a), [])
              else
                var r := Receive(p, a, h.chunk);
                var t := Run(p, r.asm, PacketEvents(s[HEADER + |h.chunk.data|..]));
                Trace(t.asm, AsSeq(r.out) + t.outs)
  {
    hide Receive, Tick, ParseHead;
    var h := if s == [] then Malformed else ParseHead(s);
    if h.Malformed? {
      assert PacketEvents(s) == [EndPacket];
      assert [EndPacket][1..] == [];
      assert Run(p, Tick(p, a), []) == Trace(Tick(p, a), []);
    } else {
      var rest := PacketEvents(s[HEADER + |h.chunk.data|..]);
      assert PacketEvents(s) == [Arrive(h.chunk)] + rest;
      assert ([Arrive(h.chunk)] + rest)[1..] == rest;
    }
  }

  class Assembler {
    const outputMtu: nat
    const numChunks: nat
    /** time_tolerance, which is also the number of entries */
    const tolerance: nat
    const entries: array<Entry>
    var time: int
    var free: seq<nat>
    var used: seq<nat>
    var tree: map<nat, nat>
    /** the packet being processed; inLen is -1 if there is none */
    var input: seq<byte>
    var inLen: int
    var inPos: nat

    ghost function P(): Params { Params(outputMtu, numChunks, tolerance) }

    ghost function PoolOf(): Pool
      reads this`free, this`used, this`tree, entries
    {
      Pool(entries[..], free, used, tree)
    }

    /** The pool is well formed and its entries mean frames. */
    ghost predicate Sound()
      reads this`free, this`used, this`tree, entries
    {
      P().Ok() && entries.Length == tolerance && Partitioned(PoolOf()) && Indexed(PoolOf()) && AllSane(P(), PoolOf())
    }

    ghost function Frames(): (fs: seq<Frame>)
      requires Sound()
      reads this`free, this`used, this`tree, entries
      ensures |fs| == |used|
    {
      View(P(), PoolOf())
    }

    ghost function Abs(): Asm
      requires Sound()
      reads this`time, this`free, this`used, this`tree, entries
    {
      Asm(time, Frames())
    }

    ghost predicate Valid()
      reads this`time, this`free, this`used, this`tree, entries
      ensures Valid() ==> Sound() && P().Ok()
    {
      Sound() && Inv(P(), Abs())
    }

    /** FragmentProtoAssembler_Init: every entry free, the clock at zero. */
    constructor (outputMtu: nat, numFrames: nat, numChunks: nat)
      requires 0 < numFrames < MAX_TIME && 0 < numChunks
      ensures Valid() && fresh(entries) && P() == Params(outputMtu, numChunks, numFrames)
      ensures Abs() == Initial && inLen == -1
    {
      this.outputMtu := outputMtu;
      this.numChunks := numChunks;
      tolerance := numFrames;
      time := 0;
      var buffer := seq(outputMtu, i => 0);
      entries := new Entry[numFrames](i => BlankEntry(0, 0, buffer));
      free := seq(numFrames, i => i);
      used := [];
      tree := map[];
      input := [];
      inLen := -1;
      inPos := 0;
    }

    method FreeFrame(u: nat)
      requires Sound() && u in used
      modifies this`free, this`used, this`tree
      ensures Sound()
      ensures Frames() == DropAt(old(Frames()), IndexIn(old(used), u))
      ensures used == DropAt(old(used), IndexIn(old(used), u)) && free == old(free) + [u]
      ensures tree == old(tree) - {entries[u].id}
    {
      ghost var o := PoolOf();
      var k := IndexIn(used, u);
      FreedLists(o, k);
      FreedIndexed(o, k);
      FreedView(P(), o, k);
      hide Partitioned, Indexed, AllSane;
      used := DropAt(used, k);
      tree := tree - {entries[u].id};
      free := free + [u];
      assert PoolOf() == Freed(o, k);
    }

    method FreeOldestFrame()
      requires Sound() && used != []
      modifies this`free, this`used, this`tree
      ensures Sound() && Frames() == old(Frames())[1..] && free != [] && tree.Keys <= old(tree).Keys
    {
      var u := used[0];
      assert IndexIn(used, u) == 0;
      hide Partitioned, Indexed, AllSane, View;
      FreeFrame(u);
      assert DropAt(old(Frames()), 0) == old(Frames())[1..];
    }

    /** The part of allocate_new_frame after an entry is known to be free. */
    method TakeFreeEntry(id: nat) returns (u: nat)
      requires Sound() && id !in tree && free != []
      modifies this`free, this`used, this`tree, entries
      ensures Sound() && Frames() == old(Frames()) + [Frame(id, time, [], None)]
      ensures u in used && IndexIn(used, u) == |used| - 1
    {
      ghost var o := PoolOf();
      u := free[0];
      AllocatedLists(o, id, time);
      AllocatedIndexed(o, id, time);
      AllocatedView(P(), o, id, time);
      LastIndex(Allocated(o, id, time));
      hide Partitioned, Indexed, AllSane, View;
      free := free[1..];
      entries[u] := BlankEntry(id, time, entries[u].buffer);
      used := used + [u];
      tree := tree[id := u];
      assert PoolOf() == Allocated(o, id, time);
    }

    method AllocateNewFrame(id: nat) returns (u: nat)
      requires Sound() && id !in tree
      modifies this`free, this`used, this`tree, entries
      ensures Sound()
      ensures Frames() == (if |old(used)| >= tolerance then old(Frames())[1..] else old(Frames())) + [Frame(id, time, [], None)]
      ensures u in used && IndexIn(used, u) == |used| - 1
    {
      assert free == [] <==> |used| >= tolerance;
      hide Partitioned, Indexed, AllSane, View;
      if free == [] {
        FreeOldestFrame();
      }
      u := TakeFreeEntry(id);
    }

    /** The entry a chunk of frame `id` goes to. */
    method LocateFrame(id: nat) returns (u: nat)
      requires Valid()
      modifies this`free, this`used, this`tree, entries
      ensures Sound() && u in used
      ensures Place(Frames(), IndexIn(used, u)) == Locate(P(), old(Abs()), id)
    {
      hide Partitioned, Indexed, AllSane, Inv, View, Locate, IndexOf, Filed, DropAt;
      LookupMatches(P(), PoolOf(), id);
      if id !in tree {
        LocateNewFrame(P(), Abs(), id);
        u := AllocateNewFrame(id);
      } else {
        u := tree[id];
        ghost var k := IndexIn(used, u);
        LocateHeldFrame(P(), Abs(), id, k);
        if time - entries[u].time > tolerance {
          FreeFrame(u);
          u := AllocateNewFrame(id);
        }
      }
    }

    /** The checks of a chunk against the frame it belongs to. */
    method CheckChunk(u: nat, c: Chunk) returns (ok: bool)
      requires u < entries.Length && Sane(P(), entries[u])
      ensures ok <==> Compatible(FrameOf(entries[u]), c)
    {
      var e := entries[u];
      var i := 0;
      while i < |e.chunks|
        invariant 0 <= i <= |e.chunks|
        invariant forall k :: 0 <= k < i ==> !Overlap(PiecesOf(e)[k], c.AsPiece())
      {
        var r := e.chunks[i];
        assert PiecesOf(e)[i] == PieceOf(r, e.buffer);
        if r.start + r.len > c.start && c.start + |c.data| > r.start {
          return false;
        }
        i := i + 1;
      }
      LengthSoFarTest(PiecesOf(e), c.End());
      hide MaxEnd, Within;
      if c.last {
        if e.length >= 0 { return false; }
        if e.lengthSoFar > c.End() { return false; }
      } else {
        if e.length >= 0 {
          if c.End() > e.length { return false; }
        }
      }
      return true;
    }

    /** Add an accepted chunk to its entry. */
    method StoreChunk(u: nat, c: Chunk)
      requires Sound() && u in used && InBounds(P(), c) && Compatible(Frames()[IndexIn(used, u)], c)
      modifies entries
      ensures Sound() && Sane(P(), entries[u])
      ensures FrameOf(entries[u]) == Extend(old(Frames()[IndexIn(used, u)]), c, time)
      ensures Frames() == old(Frames())[IndexIn(used, u) := FrameOf(entries[u])]
    {
      hide Partitioned, Indexed, AllSane, View, Sane, FrameOf, Compatible, InBounds, Extend;
      ghost var o, k := PoolOf(), IndexIn(used, u);
      StoreRefines(P(), o, u, c, time);
      var e := entries[u];
      var length, lengthSoFar := e.length, e.lengthSoFar;
      if c.last {
        length := c.End();
      } else if e.length < 0 && e.lengthSoFar < c.End() {
        lengthSoFar := c.End();
      }
      var g := Entry(e.id, time, e.chunks + [Range(c.start, |c.data|)], e.sum + |c.data|, length, lengthSoFar,
                     Splice(e.buffer, c.start, c.data));
      assert g == AddChunk(e, c, time);
      hide AddChunk, Splice;
      SetEntry(u, g);
      assert entries[..][u] == entries[u];
    }

    /** The end of process_chunk: wait for more chunks, give up, or hand out the frame. */
    method FinishChunk(u: nat, c: Chunk, ghost r: Place) returns (out: Option<seq<byte>>)
      requires Sound() && u in used && PlaceOk(P(), time, r) && InBounds(P(), c) && r.at == IndexIn(used, u)
      requires Compatible(r.frames[r.at], c) && Sane(P(), entries[u]) && FrameOf(entries[u]) == Extend(r.frames[r.at], c, time)
      requires Frames() == r.frames[r.at := FrameOf(entries[u])]
      modifies this`free, this`used, this`tree
      ensures Sound() && Result(Abs(), out) == FragmentAssemblerSpec.Deliver(P(), time, r, c)
    {
      var e := entries[u];
      DeliverAccepts(P(), time, r, c, e);
      hide Partitioned, Indexed, AllSane, View, PlaceOk, Deliver, FrameOf, Compatible, Sane, PoolOf;
      assert DropAt(r.frames[r.at := FrameOf(e)], r.at) == DropAt(r.frames, r.at);
      hide DropAt;
      if e.length < 0 || e.sum < e.length {
        if |e.chunks| == numChunks {
          FreeFrame(u);
        }
        return None;
      }
      FreeFrame(u);
      return Some(e.buffer[..e.length]);
    }

    method DeliverChunk(u: nat, c: Chunk) returns (out: Option<seq<byte>>)
      requires Sound() && u in used && PlaceOk(P(), time, Place(Frames(), IndexIn(used, u))) && InBounds(P(), c)
      modifies this`free, this`used, this`tree, entries
      ensures Sound()
      ensures Result(Abs(), out) == FragmentAssemblerSpec.Deliver(P(), time, old(Place(Frames(), IndexIn(used, u))), c)
    {
      hide Partitioned, Indexed, AllSane, View, PlaceOk, Deliver, FrameOf, Compatible, Sane, InBounds, Extend, DropAt;
      ghost var r := Place(Frames(), IndexIn(used, u));
      EntryMeans(P(), PoolOf(), u);
      DeliverRejects(P(), time, r, c);
      hide PoolOf;
      var ok := CheckChunk(u, c);
      if !ok {
        FreeFrame(u);
        return None;
      }
      StoreChunk(u, c);
      out := FinishChunk(u, c, r);
    }

    /** process_chunk: one chunk, and the frame it completes if any. */
    method ProcessChunk(c: Chunk) returns (out: Option<seq<byte>>)
      requires Valid()
      modifies this`free, this`used, this`tree, entries
      ensures Valid() && Result(Abs(), out) == Receive(P(), old(Abs()), c)
    {
      ReceiveKeeps(P(), Abs(), c);
      LocateKeeps(P(), Abs(), c.id);
      hide Partitioned, Indexed, AllSane, Inv, View, Locate, Deliver, PlaceOk, PoolOf;
      if c.start > outputMtu { return None; }
      if |c.data| > outputMtu - c.start { return None; }
      var u := LocateFrame(c.id);
      out := DeliverChunk(u, c);
    }

    /** Free the i-th used frame if it is timed out; otherwise tell its time. */
    method DropIfTimedOut(i: nat) returns (dropped: bool, t: int)
      requires Sound() && i < |used|
      modifies this`free, this`used, this`tree
      ensures Sound() && dropped == TimedOut(P(), time, old(Frames())[i]) && t == old(Frames())[i].time
      ensures Frames() == if dropped then DropAt(old(Frames()), i) else old(Frames())
    {
      var u := used[i];
      IndexHere(PoolOf(), i);
      EntryMeans(P(), PoolOf(), u);
      t := entries[u].time;
      dropped := time - t > tolerance;
      hide Partitioned, Indexed, AllSane, View, PoolOf, Sane;
      if dropped {
        FreeFrame(u);
      }
    }

    /** First loop of reduce_times: free the timed-out frames and find the least time of the others. */
    method DropTimedOut() returns (minTime: Option<int>)
      requires Sound()
      modifies this`free, this`used, this`tree
      ensures Sound() && Frames() == Retained(P(), time, old(Frames()))
      ensures minTime == if Frames() == [] then None else Some(MinTime(Frames()))
    {
      hide Sound, Frames, P, Retained, MinTime, DropAt, TimedOut, Scanned, Lesser;
      minTime := None;
      var i := 0;
      ghost var fs, j := Frames(), 0;
      ScanStart(P(), time, fs);
      while i < |used|
        invariant Sound() && 0 <= j <= |fs| && Scanned(P(), time, fs, j, Frames(), i, minTime)
        decreases |fs| - j
      {
        ScanStep(P(), time, fs, j, Frames(), i, minTime);
        j := j + 1;
        var dropped, t := DropIfTimedOut(i);
        if !dropped {
          minTime := Some(Lesser(minTime, t));
          i := i + 1;
        }
      }
      ScanEnd(P(), time, fs, j, Frames(), i, minTime);
    }

    /** Lower the time of the i-th used frame. */
    method ShiftEntry(i: nat, m: int)
      requires Sound() && i < |used|
      modifies entries
      ensures Sound() && Frames() == old(Frames())[i := old(Frames())[i].(time := old(Frames())[i].time - m)]
    {
      hide Partitioned, Indexed, AllSane, View, FrameOf;
      ghost var o := PoolOf();
      ShiftRefines(P(), o, i, m);
      var u := used[i];
      SetEntry(u, entries[u].(time := entries[u].time - m));
    }

    /** An entry is updated in place. */
    method SetEntry(u: nat, e: Entry)
      requires u < entries.Length
      modifies entries
      ensures entries[..] == old(entries[..])[u := e]
    {
      entries[u] := e;
    }

    /** Second loop of reduce_times. */
    method SubtractTime(m: int)
      requires Sound()
      modifies entries
      ensures Sound() && Frames() == Shifted(old(Frames()), m)
    {
      hide Partitioned, Indexed, AllSane, View, PoolOf;
      ghost var fs := Frames();
      var i := 0;
      while i < |used|
        invariant Sound() && 0 <= i <= |used| == |fs|
        invariant Frames() == Shifted(fs[..i], m) + fs[i..]
      {
        ShiftMiddle(fs, i, m);
        assert Frames()[i] == fs[i];
        hide Shifted;
        ShiftEntry(i, m);
        i := i + 1;
      }
      assert fs[..i] == fs;
    }

    method ReduceTimes()
      requires Sound() && time == MAX_TIME
      modifies this`time, this`free, this`used, this`tree, entries
      ensures Sound()
      ensures var fs := Retained(P(), MAX_TIME, old(Frames()));
              Abs() == if fs == [] then Asm(0, []) else Asm(MAX_TIME - MinTime(fs), Shifted(fs, MinTime(fs)))
    {
      hide Sound, Frames, P, Retained, MinTime, Shifted;
      var m := DropTimedOut();
      if m == None {
        time := 0;
      } else {
        SubtractTime(m.value);
        time := time - m.value;
      }
    }

    /** The end of process_input: the clock. */
    method AdvanceTime()
      requires Valid()
      modifies this`time, this`free, this`used, this`tree, entries
      ensures Valid() && Abs() == Tick(P(), old(Abs()))
    {
      hide Inv, Retained, MinTime, Shifted, Partitioned, Indexed, AllSane, View;
      TickKeeps(P(), Abs());
      if time == MAX_TIME {
        TickAtMax(P(), Abs());
        hide Sound, Frames, Tick;
        ReduceTimes();
        if used != [] {
          time := time + 1;
        }
      } else {
        hide Sound, Frames;
        time := time + 1;
      }
    }

    /** The part of the packet not read yet. */
    ghost function Rest(): seq<byte>
      requires inPos <= |input|
      reads this`input, this`inPos
    {
      input[inPos..]
    }

    ghost predicate HaveInput()
      reads this`input, this`inPos, this`inLen
    {
      inLen == |input| && inPos <= |input|
    }

    /** All that the unread part of the packet leads to. */
    ghost function Ahead(): Trace
      requires Valid() && inPos <= |input|
      reads this, entries
    {
      Run(P(), Abs(), PacketEvents(Rest()))
    }

    /** Read one chunk and process it; a malformed one is left alone. */
    method ReadChunk() returns (ok: bool, out: Option<seq<byte>>)
      requires Valid() && HaveInput()
      modifies this`free, this`used, this`tree, this`inPos, entries
      ensures Valid() && HaveInput()
      ensures !ok ==> out == None && Abs() == old(Abs()) && old(Ahead()) == Trace(Tick(P(), Abs()), [])
      ensures ok ==> inPos > old(inPos) && old(Ahead()) == Trace(Ahead().asm, AsSeq(out) + Ahead().outs)
    {
      hide Valid, Sound, Abs, P, Receive, Tick, Run, ParseHead, PacketEvents;
      var rest := input[inPos..];
      PacketStep(P(), Abs(), rest);
      if rest == [] {
        return false, None;
      }
      var h := ParseHead(rest);
      if h.Malformed? {
        return false, None;
      }
      var n := HEADER + |h.chunk.data|;
      out := ProcessChunk(h.chunk);
      inPos := inPos + n;
      assert Rest() == rest[n..];
      ok := true;
    }

    /**
     process_input: read chunks until one completes a frame, or to the end of the packet. Either way what this call did
     and what is left to do add up to what the packet amounts to.
     */
    method ProcessInput() returns (out: Option<seq<byte>>)
      requires Valid() && HaveInput()
      modifies this`time, this`free, this`used, this`tree, this`inPos, this`inLen, entries
      ensures Valid() && (if out == None then inLen == -1 else HaveInput())
      ensures out == None ==> old(Ahead()) == Trace(Abs(), [])
      ensures out != None ==> old(Ahead()) == Trace(Ahead().asm, [out.value] + Ahead().outs)
    {
      hide Valid, Sound, Ahead, Abs, Tick, P;
      ghost var whole := Ahead();
      while true
        invariant Valid() && HaveInput() && whole == Ahead()
        decreases |input| - inPos
      {
        var ok, res := ReadChunk();
        if !ok {
          break;
        }
        if res != None {
          return res;
        }
        assert [] + Ahead().outs == Ahead().outs;
      }
      AdvanceTime();
      inLen := -1;
      return None;
    }

    /** A packet arrives. */
    method InputSend(data: seq<byte>) returns (out: Option<seq<byte>>)
      requires Valid() && inLen == -1
      modifies this, entries
      ensures Valid() && (if out == None then inLen == -1 else HaveInput())
      ensures out == None ==> Run(P(), old(Abs()), PacketEvents(data)) == Trace(Abs(), [])
      ensures out != None ==> Run(P(), old(Abs()), PacketEvents(data)) == Trace(Ahead().asm, [out.value] + Ahead().outs)
    {
      hide Sound, Frames, Inv, Run;
      inLen := |data|;
      input := data;
      inPos := 0;
      assert Rest() == data;
      out := ProcessInput();
    }
  }
}
