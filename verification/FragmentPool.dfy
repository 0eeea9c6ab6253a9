/** The assembler's fixed pool of frame entries: what the concrete fields mean. */
module FragmentPool {
  import opened Bytes
  import opened FragmentPieces
  import opened FragmentWire
  import opened FragmentAssemblerSpec
  import opened FragmentAssemblerProofs
  import opened Lists

  datatype Range = Range(start: nat, len: nat) {
    function End(): nat { start + len }
  }

  /** `length` is -1 until known; `lengthSoFar` bounds the data received while it is unknown. */
  datatype Entry = Entry(id: nat, time: int, chunks: seq<Range>, sum: int, length: int, lengthSoFar: int, buffer: seq<byte>)

  /** Entries are named by their index; `used` and `free` are the two lists, `tree` finds a used entry by id. */
  datatype Pool = Pool(entries: seq<Entry>, free: seq<nat>, used: seq<nat>, tree: map<nat, nat>)

  ghost predicate InBuffer(e: Entry) {
    forall k :: 0 <= k < |e.chunks| ==> e.chunks[k].End() <= |e.buffer|
  }

  function PieceOf(r: Range, buffer: seq<byte>): Piece
    requires r.End() <= |buffer|
  {
    Piece(r.start, buffer[r.start..r.End()])
  }

  function PiecesOf(e: Entry): (ps: seq<Piece>)
    requires InBuffer(e)
    ensures |ps| == |e.chunks|
    ensures forall k :: 0 <= k < |ps| ==> ps[k] == PieceOf(e.chunks[k], e.buffer)
  {
    seq(|e.chunks|, k requires 0 <= k < |e.chunks| => PieceOf(e.chunks[k], e.buffer))
  }

  function FrameOf(e: Entry): Frame
    requires InBuffer(e)
  {
    Frame(e.id, e.time, PiecesOf(e), if e.length < 0 then None else Some(e.length))
  }

  /** The derived fields agree with the chunks. */
  ghost predicate Sane(p: Params, e: Entry) {
    && |e.buffer| == p.mtu
    && InBuffer(e)
    && e.sum == Total(PiecesOf(e))
    && (e.length < 0 ==> e.lengthSoFar == MaxEnd(PiecesOf(e)))
  }

  /** The lists have no entry twice, share none, and together are as long as the pool. */
  ghost predicate Partitioned(o: Pool) {
    && Distinct(o.used) && Distinct(o.free)
    && (forall i, j :: 0 <= i < |o.used| && 0 <= j < |o.free| ==> o.used[i] != o.free[j])
    && |o.used| + |o.free| == |o.entries|
    && (forall i :: 0 <= i < |o.used| ==> o.used[i] < |o.entries|)
    && (forall i :: 0 <= i < |o.free| ==> o.free[i] < |o.entries|)
  }

  /** Entry `u` is found in the tree under its id. */
  ghost predicate Filed(o: Pool, u: nat) {
    u < |o.entries| && o.entries[u].id in o.tree && o.tree[o.entries[u].id] == u
  }

  /** The tree holds exactly the used entries, under their ids. */
  ghost predicate Indexed(o: Pool) {
    && (forall i :: 0 <= i < |o.used| ==> Filed(o, o.used[i]))
    && (forall id :: id in o.tree ==> o.tree[id] in o.used && Filed(o, o.tree[id]) && o.entries[o.tree[id]].id == id)
  }

  ghost predicate AllSane(p: Params, o: Pool) {
    && (forall i :: 0 <= i < |o.used| ==> o.used[i] < |o.entries|)
    && (forall u :: 0 <= u < |o.entries| ==> |o.entries[u].buffer| == p.mtu)
    && (forall i :: 0 <= i < |o.used| ==> Sane(p, o.entries[o.used[i]]))
  }

  function View(p: Params, o: Pool): (fs: seq<Frame>)
    requires AllSane(p, o)
    ensures |fs| == |o.used|
    ensures forall i :: 0 <= i < |fs| ==> fs[i] == FrameOf(o.entries[o.used[i]])
  {
    seq(|o.used|, i requires 0 <= i < |o.used| => FrameOf(o.entries[o.used[i]]))
  }

  /** Every entry is on exactly one of the two lists. */
  lemma ListsPartitionPool(o: Pool, u: nat)
    requires Partitioned(o) && u < |o.entries|
    ensures u in o.used <==> u !in o.free
  {
    var all := o.used + o.free;
    forall i | 0 <= i < |all| ensures all[i] == if i < |o.used| then o.used[i] else o.free[i - |o.used|] {
    }
    Pigeonhole(all, |o.entries|, u);
  }

  /** A duplicate-free list of n numbers below n holds every number below n. */
  lemma Pigeonhole(s: seq<nat>, n: nat, u: nat)
    requires Distinct(s) && |s| == n && u < n && forall i :: 0 <= i < |s| ==> s[i] < n
    ensures u in s
  {
    var a := set i | 0 <= i < n :: s[i];
    var b := Span(0, n);
    Image(s, n);
    SubsetSize(a, b);
    assert u in a;
  }

  lemma {:induction false} Image(s: seq<nat>, n: nat)
    requires Distinct(s) && n <= |s|
    ensures |set i | 0 <= i < n :: s[i]| == n
  {
    var a := set i | 0 <= i < n :: s[i];
    if n == 0 {
      assert a == {};
    } else {
      Image(s, n - 1);
      var b := set i | 0 <= i < n - 1 :: s[i];
      assert a == b + {s[n - 1]};
    }
  }

  // ---- list operations ----

  /** free_frame: move the k-th used entry to the end of the free list. */
  function Freed(o: Pool, k: nat): Pool
    requires k < |o.used| && o.used[k] < |o.entries|
  {
    Pool(o.entries, o.free + [o.used[k]], DropAt(o.used, k), o.tree - {o.entries[o.used[k]].id})
  }

  lemma FreedLists(o: Pool, k: nat)
    requires Partitioned(o) && k < |o.used|
    ensures Partitioned(Freed(o, k))
  {
    var r := Freed(o, k);
    assert Distinct(r.used);
    assert Distinct(r.free);
  }

  lemma FreedIndexed(o: Pool, k: nat)
    requires Partitioned(o) && Indexed(o) && k < |o.used|
    ensures Indexed(Freed(o, k))
  {
    var r := Freed(o, k);
    assert Filed(o, o.used[k]);
    forall id | id in r.tree ensures r.tree[id] in r.used && Filed(r, r.tree[id]) && r.entries[r.tree[id]].id == id {
      FreedEntry(o, k, id);
    }
    forall i | 0 <= i < |r.used| ensures Filed(r, r.used[i]) {
      var j := if i < k then i else i + 1;
      assert Filed(o, o.used[j]) && o.used[j] != o.used[k];
    }
  }

  lemma FreedEntry(o: Pool, k: nat, id: nat)
    requires Partitioned(o) && k < |o.used| && id in o.tree && id != o.entries[o.used[k]].id
    requires o.tree[id] in o.used && Filed(o, o.tree[id]) && o.entries[o.tree[id]].id == id
    ensures var r := Freed(o, k); o.tree[id] in r.used && Filed(r, o.tree[id])
  {
    var r := Freed(o, k);
    var i :| 0 <= i < |o.used| && o.used[i] == o.tree[id];
    assert r.used[if i < k then i else i - 1] == o.tree[id];
  }

  lemma FreedView(p: Params, o: Pool, k: nat)
    requires AllSane(p, o) && k < |o.used|
    ensures AllSane(p, Freed(o, k)) && View(p, Freed(o, k)) == DropAt(View(p, o), k)
  {
    hide Sane;
  }

  function BlankEntry(id: nat, now: int, buffer: seq<byte>): Entry {
    Entry(id, now, [], 0, -1, 0, buffer)
  }

  /** allocate_new_frame, once an entry is free. */
  function Allocated(o: Pool, id: nat, now: int): Pool
    requires o.free != [] && o.free[0] < |o.entries|
  {
    var u := o.free[0];
    Pool(o.entries[u := BlankEntry(id, now, o.entries[u].buffer)], o.free[1..], o.used + [u], o.tree[id := u])
  }

  lemma AllocatedLists(o: Pool, id: nat, now: int)
    requires Partitioned(o) && o.free != []
    ensures Partitioned(Allocated(o, id, now))
  {
  }

  lemma AllocatedIndexed(o: Pool, id: nat, now: int)
    requires Partitioned(o) && Indexed(o) && o.free != [] && id !in o.tree
    ensures Indexed(Allocated(o, id, now))
  {
    var r, u := Allocated(o, id, now), o.free[0];
    forall i | 0 <= i < |r.used| ensures Filed(r, r.used[i]) {
      if i < |o.used| { assert Filed(o, o.used[i]); }
    }
    forall x | x in r.tree ensures r.tree[x] in r.used && Filed(r, r.tree[x]) && r.entries[r.tree[x]].id == x {
      if x == id {
        assert r.used[|o.used|] == u;
      } else {
        assert Filed(o, o.tree[x]);
        var i :| 0 <= i < |o.used| && o.used[i] == o.tree[x];
        assert r.used[i] == o.tree[x];
      }
    }
  }

  lemma BlankSane(p: Params, id: nat, now: int, buffer: seq<byte>)
    requires |buffer| == p.mtu
    ensures Sane(p, BlankEntry(id, now, buffer)) && FrameOf(BlankEntry(id, now, buffer)) == Frame(id, now, [], None)
  {
  }

  lemma AllocatedView(p: Params, o: Pool, id: nat, now: int)
    requires Partitioned(o) && AllSane(p, o) && o.free != []
    ensures AllSane(p, Allocated(o, id, now))
    ensures View(p, Allocated(o, id, now)) == View(p, o) + [Frame(id, now, [], None)]
  {
    var r, u := Allocated(o, id, now), o.free[0];
    BlankSane(p, id, now, o.entries[u].buffer);
    hide Sane, FrameOf;
    forall i | 0 <= i < |o.used| ensures r.entries[r.used[i]] == o.entries[o.used[i]] {
    }
  }

  /** Overwrite the k-th used entry, keeping its id. */
  function Stored(o: Pool, k: nat, e: Entry): Pool
    requires k < |o.used| && o.used[k] < |o.entries|
  {
    Pool(o.entries[o.used[k] := e], o.free, o.used, o.tree)
  }

  lemma StoredKeeps(o: Pool, k: nat, e: Entry)
    requires Partitioned(o) && Indexed(o) && k < |o.used| && e.id == o.entries[o.used[k]].id
    ensures Partitioned(Stored(o, k, e)) && Indexed(Stored(o, k, e))
  {
    var r := Stored(o, k, e);
    forall u | 0 <= u < |o.entries| ensures r.entries[u].id == o.entries[u].id && Filed(r, u) == Filed(o, u) {
    }
    hide Filed;
  }

  lemma StoredView(p: Params, o: Pool, k: nat, e: Entry)
    requires Partitioned(o) && AllSane(p, o) && k < |o.used| && Sane(p, e)
    ensures AllSane(p, Stored(o, k, e)) && View(p, Stored(o, k, e)) == View(p, o)[k := FrameOf(e)]
  {
    assert |e.buffer| == p.mtu;
    hide Sane, FrameOf;
  }

  // ---- one entry ----

  /** memcpy into the frame buffer. */
  function Splice(buffer: seq<byte>, at: nat, data: seq<byte>): (r: seq<byte>)
    requires at + |data| <= |buffer|
    ensures |r| == |buffer|
  {
    buffer[..at] + data + buffer[at + |data|..]
  }

  function AddChunk(e: Entry, c: Chunk, now: int): Entry
    requires c.End() <= |e.buffer|
  {
    Entry(e.id, now, e.chunks + [Range(c.start, |c.data|)], e.sum + |c.data|,
          if c.last then c.End() else e.length,
          if !c.last && e.length < 0 && e.lengthSoFar < c.End() then c.End() else e.lengthSoFar,
          Splice(e.buffer, c.start, c.data))
  }

  lemma SpliceElsewhere(buffer: seq<byte>, c: Chunk, r: Range)
    requires c.End() <= |buffer| && r.End() <= |buffer|
    requires !Overlap(PieceOf(r, buffer), c.AsPiece())
    ensures PieceOf(r, Splice(buffer, c.start, c.data)) == PieceOf(r, buffer)
  {
    var b := Splice(buffer, c.start, c.data);
    assert b[r.start..r.End()] == buffer[r.start..r.End()];
  }

  lemma MaxEndAppend(ps: seq<Piece>, q: Piece)
    ensures Total(ps + [q]) == Total(ps) + |q.data|
    ensures MaxEnd(ps + [q]) == if MaxEnd(ps) < q.End() then q.End() else MaxEnd(ps)
  {
    assert (ps + [q])[..|ps|] == ps;
  }

  lemma AddChunkPieces(e: Entry, c: Chunk, now: int)
    requires InBuffer(e) && c.End() <= |e.buffer|
    requires forall k :: 0 <= k < |e.chunks| ==> !Overlap(PiecesOf(e)[k], c.AsPiece())
    ensures InBuffer(AddChunk(e, c, now)) && PiecesOf(AddChunk(e, c, now)) == PiecesOf(e) + [c.AsPiece()]
  {
    var g := AddChunk(e, c, now);
    forall k | 0 <= k < |e.chunks| ensures PieceOf(g.chunks[k], g.buffer) == PieceOf(e.chunks[k], e.buffer) {
      assert PiecesOf(e)[k] == PieceOf(e.chunks[k], e.buffer);
      SpliceElsewhere(e.buffer, c, e.chunks[k]);
    }
    assert g.buffer[c.start..c.End()] == c.data;
    hide Splice, Overlap;
  }

  /** Recording a compatible chunk in the entry is recording it in the frame. */
  lemma AddChunkRefines(p: Params, e: Entry, c: Chunk, now: int)
    requires Sane(p, e) && InBounds(p, c) && Compatible(FrameOf(e), c)
    ensures Sane(p, AddChunk(e, c, now)) && FrameOf(AddChunk(e, c, now)) == Extend(FrameOf(e), c, now)
  {
    AddChunkPieces(e, c, now);
    MaxEndAppend(PiecesOf(e), c.AsPiece());
    hide InBuffer, Total, MaxEnd, Overlap, PieceOf, Splice, PiecesOf;
  }

  lemma LengthSoFarTest(ps: seq<Piece>, n: nat)
    ensures MaxEnd(ps) > n <==> !Within(ps, n)
  {
    if ps != [] {
      LengthSoFarTest(ps[..|ps| - 1], n);
      var rest := ps[..|ps| - 1];
      if !Within(rest, n) {
        var k :| 0 <= k < |rest| && rest[k].End() > n;
        assert ps[k].End() > n;
      }
    }
  }

  /** The sum never exceeds the length; the comparison of the two decides completeness; the buffer is the frame. */
  lemma SumDecides(p: Params, e: Entry)
    requires Sane(p, e) && Consistent(p, FrameOf(e)) && e.length >= 0
    ensures e.sum <= e.length <= |e.buffer|
    ensures e.sum == e.length <==> Complete(FrameOf(e))
    ensures Complete(FrameOf(e)) ==> Content(PiecesOf(e), e.length) == e.buffer[..e.length]
  {
    Packing(PiecesOf(e), e.length);
    if Full(PiecesOf(e), e.length) {
      BufferIsContent(e);
    }
  }

  lemma BufferIsContent(e: Entry)
    requires InBuffer(e) && Disjoint(PiecesOf(e)) && 0 <= e.length <= |e.buffer| && Full(PiecesOf(e), e.length)
    ensures Content(PiecesOf(e), e.length) == e.buffer[..e.length]
  {
    hide ByteAt, Content, PiecesOf, Disjoint;
    var r := Content(PiecesOf(e), e.length);
    forall i | 0 <= i < e.length ensures r[i] == e.buffer[i] { ByteInBuffer(e, i); }
  }

  lemma ByteInBuffer(e: Entry, i: nat)
    requires InBuffer(e) && Disjoint(PiecesOf(e)) && Covered(PiecesOf(e), i)
    ensures i < |e.buffer| && ByteAt(PiecesOf(e), i) == e.buffer[i]
  {
    hide ByteAt, PiecesOf, Disjoint;
    var ps := PiecesOf(e);
    var k :| 0 <= k < |ps| && ps[k].Has(i);
    ByteAtUnique(ps, i, k);
  }

  // ---- looking an id up ----

  lemma LookupMatches(p: Params, o: Pool, id: nat)
    requires Partitioned(o) && Indexed(o) && AllSane(p, o)
    ensures id !in o.tree ==> IndexOf(View(p, o), id) == |o.used|
    ensures id in o.tree ==> o.tree[id] in o.used && IndexOf(View(p, o), id) == IndexIn(o.used, o.tree[id])
    ensures id in o.tree ==> Filed(o, o.tree[id]) && o.entries[o.tree[id]].id == id &&
                             View(p, o)[IndexIn(o.used, o.tree[id])].time == o.entries[o.tree[id]].time
    ensures |o.used| <= |o.entries|
  {
    var k := IndexOf(View(p, o), id);
    if id in o.tree {
      var j := IndexIn(o.used, o.tree[id]);
      assert View(p, o)[j].id == id;
    }
    if k < |o.used| {
      assert View(p, o)[k].id == o.entries[o.used[k]].id;
      assert Filed(o, o.used[k]);
      assert o.used[IndexIn(o.used, o.tree[id])] == o.used[k];
    }
  }

  lemma IndexInIs(s: seq<nat>, k: nat)
    requires Distinct(s) && k < |s|
    ensures s[k] in s && IndexIn(s, s[k]) == k
  {
    var j := IndexIn(s, s[k]);
  }
}
