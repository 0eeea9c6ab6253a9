/** End to end over a network that reorders: a frame is put together from its chunks in whatever order they come. */
module FragmentReordering {
  import opened Bytes
  import opened FragmentPieces
  import opened FragmentWire
  import opened FragmentSent
  import opened C = FragmentCompleteness
  import A = FragmentAssemblerSpec
  import D = FragmentDisassemblerSpec
  import R = FragmentRoundTrip
  import S = FragmentSoundness

  // ---- permutations ----

  ghost predicate Distinct<T(!new)>(s: seq<T>) { forall j, k :: 0 <= j < k < |s| ==> s[j] != s[k] }

  lemma {:induction false} DistinctOnce<T(!new)>(s: seq<T>, x: T)
    requires Distinct(s)
    ensures multiset(s)[x] <= 1
  {
    if s != [] {
      var t := s[..|s| - 1];
      assert s == t + [s[|s| - 1]];
      DistinctOnce(t, x);
      assert x == s[|s| - 1] ==> x !in t;
    }
  }

  lemma OnceDistinct<T(!new)>(s: seq<T>)
    requires forall x :: multiset(s)[x] <= 1
    ensures Distinct(s)
  {
    forall j, k | 0 <= j < k < |s| ensures s[j] != s[k] {
      assert s == s[..k] + s[k..];
      assert s[k..][0] == s[k] && s[..k][j] == s[j];
      assert multiset(s)[s[k]] == multiset(s[..k])[s[k]] + multiset(s[k..])[s[k]];
      assert s[k] !in multiset(s[..k]);
    }
  }

  lemma PermutedDistinct<T(!new)>(s: seq<T>, t: seq<T>)
    requires Distinct(s) && multiset(s) == multiset(t)
    ensures Distinct(t) && |t| == |s| && forall x :: x in t <==> x in s
  {
    forall x ensures multiset(t)[x] <= 1 && (x in t <==> x in s) {
      DistinctOnce(s, x);
      assert x in t <==> x in multiset(t);
      assert x in s <==> x in multiset(s);
    }
    OnceDistinct(t);
    assert |multiset(s)| == |s| && |multiset(t)| == |t|;
  }

  // ---- the chunks of a frame in any order ----

  /** Later chunks lie behind. */
  lemma {:induction false} Behind(cs: seq<Chunk>, id: nat, data: seq<byte>, j: nat, k: nat)
    requires Spelled(cs, id, data) && j < k < |cs|
    ensures cs[j].End() <= cs[k].start
  {
    assert InLine(cs, id, data, k);
    if j < k - 1 {
      assert InLine(cs, id, data, k - 1);
      Behind(cs, id, data, j, k - 1);
    }
  }

  lemma {:induction false} Reaches(cs: seq<Chunk>, id: nat, data: seq<byte>, k: nat, i: nat) returns (t: nat)
    requires Spelled(cs, id, data) && k < |cs| && i < cs[k].End()
    ensures t <= k && cs[t].AsPiece().Has(i)
  {
    t := k;
    assert InLine(cs, id, data, k);
    if i < cs[k].start { t := Reaches(cs, id, data, k - 1, i); }
  }

  /** A frame of one chunk, or chunks that are all different and none of them empty. */
  lemma PartDistinct(cs: seq<Chunk>, id: nat, data: seq<byte>)
    requires Spelled(cs, id, data)
    ensures Distinct(cs) && (|cs| == 1 || forall k :: 0 <= k < |cs| ==> cs[k].data != [])
    ensures forall k :: 0 <= k < |cs| ==> (cs[k].last <==> k == |cs| - 1)
  {
    forall k | 0 <= k < |cs| ensures (|cs| == 1 || cs[k].data != []) && (cs[k].last <==> k == |cs| - 1) {
      assert InLine(cs, id, data, k);
      if k < |cs| - 1 {
        Behind(cs, id, data, k, |cs| - 1);
        assert InLine(cs, id, data, |cs| - 1);
      }
    }
    forall j, k | 0 <= j < k < |cs| ensures cs[j] != cs[k] { Behind(cs, id, data, j, k); }
  }

  /** The chunks of a frame are of it. */
  lemma Of(cs: seq<Chunk>, id: nat, data: seq<byte>, c: Chunk) returns (k: nat)
    requires Spelled(cs, id, data) && c in cs
    ensures k < |cs| && cs[k] == c && c.End() <= |data| && c.data == data[c.start..c.End()]
  {
    k :| 0 <= k < |cs| && cs[k] == c;
    assert InLine(cs, id, data, k);
  }

  lemma PermutedApart(cs: seq<Chunk>, id: nat, data: seq<byte>, ds: seq<Chunk>, j: nat, k: nat, i: int)
    requires Spelled(cs, id, data) && Distinct(ds) && j < k < |ds| && ds[j] in cs && ds[k] in cs && ds[j].AsPiece().Has(i)
    ensures !ds[k].AsPiece().Has(i)
  {
    hide Spelled;
    var x := Of(cs, id, data, ds[j]);
    var y := Of(cs, id, data, ds[k]);
    if x < y { Behind(cs, id, data, x, y); } else { Behind(cs, id, data, y, x); }
  }

  lemma PermutedCovers(cs: seq<Chunk>, id: nat, data: seq<byte>, ds: seq<Chunk>, i: nat)
    requires Spelled(cs, id, data) && i < |data| && forall c :: c in cs ==> c in ds
    ensures Covered(Pieces(ds), i)
  {
    var t := Reaches(cs, id, data, |cs| - 1, i);
    hide Spelled;
    assert cs[t] in ds;
    var k :| 0 <= k < |ds| && ds[k] == cs[t];
    assert Pieces(ds)[k].Has(i);
  }

  lemma PermutedTiles(cs: seq<Chunk>, id: nat, data: seq<byte>, ds: seq<Chunk>) returns (l: nat)
    requires Spelled(cs, id, data) && multiset(ds) == multiset(cs)
    ensures Tiles(ds, |data|, l) && |ds| == |cs|
  {
    PartDistinct(cs, id, data);
    PermutedDistinct(cs, ds);
    var last := cs[|cs| - 1];
    assert last in cs && last.End() == |data|;
    hide Spelled, Covered;
    l :| 0 <= l < |ds| && ds[l] == last;
    forall k | 0 <= k < |ds| ensures ds[k].End() <= |data| && (k != l ==> !ds[k].last) && (|ds| == 1 || ds[k].data != []) {
      assert ds[k] in ds;
      var x := Of(cs, id, data, ds[k]);
    }
    forall j, k, i | 0 <= j < k < |ds| && ds[j].AsPiece().Has(i) ensures !ds[k].AsPiece().Has(i) {
      assert ds[j] in ds && ds[k] in ds;
      PermutedApart(cs, id, data, ds, j, k, i);
    }
    forall i | 0 <= i < |data| ensures Covered(Pieces(ds), i) { PermutedCovers(cs, id, data, ds, i); }
  }

  /** What they spell is the frame. */
  lemma SpellsFrame(cs: seq<Chunk>, id: nat, data: seq<byte>, ds: seq<Chunk>, out: seq<byte>)
    requires Spelled(cs, id, data) && multiset(ds) == multiset(cs) && |out| == |data| && S.Spells(Pieces(ds), out)
    ensures out == data
  {
    hide Spelled, Disjoint, Within;
    forall i | 0 <= i < |data| ensures out[i] == data[i] {
      assert Covered(Pieces(ds), i);
      var k :| 0 <= k < |Pieces(ds)| && Pieces(ds)[k].Has(i);
      assert ds[k] in multiset(ds) && ds[k] in multiset(cs);
      var x := Of(cs, id, data, ds[k]);
    }
  }

  // ---- end to end ----

  /** The chunks `cs` arrive in `es`, in some order, not too slowly and beside few enough other frames. */
  ghost predicate Reordered(q: A.Params, es: seq<A.Event>, id: nat, cs: seq<Chunk>) {
    && es != [] && Carries(es[0], id) && Carries(es[|es| - 1], id) && multiset(Chunks(es, id)) == multiset(cs)
    && |Others(es, id)| < q.numFrames
    && forall k :: 0 < k <= |es| ==> Since(es[..k], id).Some? && Since(es[..k], id).value <= q.numFrames
  }

  /**
   Take any frame a disassembler has finished, and let its chunks reach the assembler in any order, whatever has arrived
   before and whatever arrives in between, of other frames, in other packets, or of nothing that was ever sent: the frame
   is put out as the last of its chunks arrives, provided its id is not still held, chunks of fewer other frames than the
   pool has entries come in between, and no more packets than that end from one of its chunks to the next.
   */
  lemma DeliveredInAnyOrder(p: D.Params, q: A.Params, sent: seq<D.Event>, parts: seq<seq<Chunk>>, k: nat, before: seq<A.Event>, es: seq<A.Event>)
    requires R.Matched(p, q) && p.Ok() && D.Valid(p, D.Initial) && D.LegalRun(p, D.Initial, sent)
    requires Parts(q, parts, D.Run(p, D.Initial, sent).frames, 0) && k < |parts|
    requires Reordered(q, es, k % 0x1_0000, parts[k])
    requires var id := k % 0x1_0000;
             || Since(before, id).None? || Since(before, id).value > q.numFrames
             || A.IndexOf(A.Run(q, A.Initial, before).asm.frames, id) == |A.Run(q, A.Initial, before).asm.frames|
    ensures var t, a := D.Run(p, D.Initial, sent), A.Run(q, A.Initial, before).asm;
            A.StepEvent(q, A.Run(q, a, es[..|es| - 1]).asm, es[|es| - 1]).out == Some(t.frames[k])
  {
    hide D.Run, D.LegalRun, A.Run, A.StepEvent, R.Matched, Chunks, Others, Since, Spelled, Tiles, S.Spells;
    R.MatchedOk(p, q);
    var id, data := k % 0x1_0000, D.Run(p, D.Initial, sent).frames[k];
    assert Gone(q, parts[k], (0 + k) % 0x1_0000, data);
    FrameSizes(p, D.Initial, sent, k);
    var l := PermutedTiles(parts[k], id, data, Chunks(es, id));
    ChunksInAnyOrder(q, before, es, id, |data|, l);
    var a := A.Run(q, A.Initial, before).asm;
    var r := A.StepEvent(q, A.Run(q, a, es[..|es| - 1]).asm, es[|es| - 1]);
    SpellsFrame(parts[k], id, data, Chunks(es, id), r.out.value);
  }

  /** No frame is longer than the input allows. */
  lemma {:induction false} FrameSizes(p: D.Params, d: D.Dis, es: seq<D.Event>, k: nat)
    requires p.Ok() && D.Valid(p, d) && D.LegalRun(p, d, es) && k < |D.Run(p, d, es).frames|
    ensures |D.Run(p, d, es).frames[k]| <= p.inputMtu
    decreases |es|
  {
    hide D.Step, D.Valid, D.Legal;
    D.StepValid(p, d, es[0]);
    StepSizes(p, d, es[0]);
    var s := D.Step(p, d, es[0]);
    if k >= |s.frames| { FrameSizes(p, s.dis, es[1..], k - |s.frames|); }
  }

  lemma StepSizes(p: D.Params, d: D.Dis, e: D.Event)
    requires p.Ok() && D.Valid(p, d) && D.Legal(p, d, e)
    ensures forall k :: 0 <= k < |D.Step(p, d, e).frames| ==> |D.Step(p, d, e).frames[k]| <= p.inputMtu
  {
    hide D.Written, D.PacketSize, D.AllFit;
    D.EmptyPacket();
  }
}
