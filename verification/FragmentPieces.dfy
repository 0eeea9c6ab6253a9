/** Pieces of a frame and the packing argument behind the test `sum == length`. */
module FragmentPieces {
  import opened Bytes
  import Lists

  /** `data` placed at offset `start` of a frame. */
  datatype Piece = Piece(start: nat, data: seq<byte>) {
    function End(): nat { start + |data| }
    predicate Has(i: int) { start <= i < End() }
  }

  /** chunks_overlap: an empty piece strictly inside another one overlaps it, at a boundary it does not. */
  predicate Overlap(a: Piece, b: Piece) {
    a.End() > b.start && b.End() > a.start
  }

  ghost predicate Disjoint(ps: seq<Piece>) {
    forall i, j :: 0 <= i < j < |ps| ==> !Overlap(ps[i], ps[j])
  }

  ghost predicate Within(ps: seq<Piece>, n: nat) {
    forall k :: 0 <= k < |ps| ==> ps[k].End() <= n
  }

  ghost predicate Covered(ps: seq<Piece>, i: int) {
    exists k :: 0 <= k < |ps| && ps[k].Has(i)
  }

  /** Every position below `n` lies in some piece. */
  ghost predicate Full(ps: seq<Piece>, n: nat) {
    forall i :: 0 <= i < n ==> Covered(ps, i)
  }

  function Total(ps: seq<Piece>): nat {
    if ps == [] then 0 else Total(ps[..|ps| - 1]) + |ps[|ps| - 1].data|
  }

  ghost function Span(a: nat, n: nat): (r: set<int>)
    ensures forall i :: i in r <==> a <= i < a + n
    ensures |r| == n
  {
    if n == 0 then {} else Span(a, n - 1) + {a + n - 1}
  }

  function MaxEnd(ps: seq<Piece>): (m: nat)
    ensures forall k :: 0 <= k < |ps| ==> ps[k].End() <= m
  {
    if ps == [] then 0
    else
      var m, e := MaxEnd(ps[..|ps| - 1]), ps[|ps| - 1].End();
      if m < e then e else m
  }

  ghost function Positions(ps: seq<Piece>): set<int> {
    set i | 0 <= i < MaxEnd(ps) && Covered(ps, i)
  }

  lemma CoveredSplit(ps: seq<Piece>, i: int)
    requires ps != []
    ensures Covered(ps, i) <==> Covered(ps[..|ps| - 1], i) || ps[|ps| - 1].Has(i)
  {
    var rest := ps[..|ps| - 1];
    if Covered(rest, i) {
      var k :| 0 <= k < |rest| && rest[k].Has(i);
      assert ps[k].Has(i);
    }
  }

  /** An empty piece strictly inside another. */
  predicate Inside(a: Piece, b: Piece) { a.data == [] && b.start < a.start < b.End() }

  /** The arithmetic test holds exactly if two pieces share a position, or one is empty and inside the other. */
  lemma OverlapIsSharing(a: Piece, b: Piece)
    ensures Overlap(a, b) <==> (exists i :: a.Has(i) && b.Has(i)) || Inside(a, b) || Inside(b, a)
  {
    if Overlap(a, b) && a.data != [] && b.data != [] {
      var i := if a.start < b.start then b.start else a.start;
      assert a.Has(i) && b.Has(i);
    }
  }

  lemma {:induction false} TotalIsCardinality(ps: seq<Piece>)
    requires Disjoint(ps)
    ensures |Positions(ps)| == Total(ps)
  {
    if ps != [] {
      var rest, last := ps[..|ps| - 1], ps[|ps| - 1];
      TotalIsCardinality(rest);
      var a, b := Positions(rest), Span(last.start, |last.data|);
      forall i ensures i in Positions(ps) <==> i in a + b {
        CoveredSplit(ps, i);
      }
      assert Positions(ps) == a + b;
      assert a !! b by {
        forall i | i in a ensures i !in b { LastIsNew(ps, i); }
      }
    }
  }

  lemma LastIsNew(ps: seq<Piece>, i: int)
    requires ps != [] && Disjoint(ps) && Covered(ps[..|ps| - 1], i)
    ensures !ps[|ps| - 1].Has(i)
  {
    var k :| 0 <= k < |ps| - 1 && ps[..|ps| - 1][k].Has(i);
    assert !Overlap(ps[k], ps[|ps| - 1]);
  }

  /** Disjoint pieces inside [0, n) never sum to more than n, and sum to n exactly when they fill it. */
  lemma Packing(ps: seq<Piece>, n: nat)
    requires Disjoint(ps) && Within(ps, n)
    ensures Total(ps) <= n
    ensures Total(ps) == n <==> Full(ps, n)
  {
    TotalIsCardinality(ps);
    var all, pos := Span(0, n), Positions(ps);
    forall i | i in pos ensures i in all {
      var k :| 0 <= k < |ps| && ps[k].Has(i);
      assert ps[k].End() <= n;
    }
    Lists.SubsetSize(pos, all);
    FullIsEverything(ps, n, pos, all);
  }

  lemma FullIsEverything(ps: seq<Piece>, n: nat, pos: set<int>, all: set<int>)
    requires forall i :: i in pos <==> Covered(ps, i)
    requires forall i :: i in all <==> 0 <= i < n
    requires pos <= all
    ensures pos == all <==> Full(ps, n)
  {
    if pos == all {
      forall i | 0 <= i < n ensures Covered(ps, i) {
        assert i in all;
        assert i in pos;
      }
    }
    if Full(ps, n) {
      forall i | i in all ensures i in pos {
        assert Covered(ps, i);
      }
    }
  }

  /** The byte a covered position holds. */
  function ByteAt(ps: seq<Piece>, i: nat): byte
    requires Covered(ps, i)
  {
    var last := ps[|ps| - 1];
    if last.Has(i) then last.data[i - last.start]
    else
      assert Covered(ps[..|ps| - 1], i) by {
        var k :| 0 <= k < |ps| && ps[k].Has(i);
        assert ps[..|ps| - 1][k].Has(i);
      }
      ByteAt(ps[..|ps| - 1], i)
  }

  lemma {:induction false} ByteAtUnique(ps: seq<Piece>, i: nat, k: nat)
    requires Disjoint(ps) && k < |ps| && ps[k].Has(i)
    ensures Covered(ps, i) && ByteAt(ps, i) == ps[k].data[i - ps[k].start]
  {
    assert Covered(ps, i);
    if k < |ps| - 1 {
      assert !Overlap(ps[k], ps[|ps| - 1]);
      ByteAtUnique(ps[..|ps| - 1], i, k);
    }
  }

  /** The frame that a full set of pieces spells. */
  function Content(ps: seq<Piece>, n: nat): (r: seq<byte>)
    requires Full(ps, n)
    ensures |r| == n
    ensures forall i :: 0 <= i < n ==> Covered(ps, i) && r[i] == ByteAt(ps, i)
  {
    seq(n, i requires 0 <= i < n => ByteAt(ps, i))
  }
}
