/** The writer the generator emits, for any schema. */
module BProtoWriter {
  import opened Bytes
  import opened BProtoSpec
  import opened BProtoRoundTrip
  import BProtoWindow

  /** Whether one more value may follow `n` values of a field. */
  predicate MayAdd(c: Cardinality, n: nat) { c.Optional? || c.Required? ==> n == 0 }

  /** What Finish demands of a field. */
  predicate MayFinish(c: Cardinality, n: nat) { c.Required? || c.RequiredRepeated? ==> n >= 1 }

  class Writer {
    const sch: Schema
    const out: array<byte>
    var used: nat
    var count: seq<nat>
    ghost var recs: seq<Rec>

    constructor (sch: Schema, out: array<byte>)
      requires WellFormed(sch)
      ensures Valid() && this.sch == sch && this.out == out && recs == [] && used == 0
    {
      this.sch := sch;
      this.out := out;
      used := 0;
      count := seq(|sch|, i => 0);
      recs := [];
    }

    ghost predicate Counted()
      reads this`count, this`recs
    {
      |count| == |sch| &&
      forall i :: 0 <= i < |sch| ==>
        count[i] == |ValuesOf(recs, sch[i])| && (sch[i].card.Optional? || sch[i].card.Required? ==> count[i] <= 1)
    }

    ghost predicate AllKnown()
      reads this`recs
    {
      forall k :: 0 <= k < |recs| ==> Known(sch, recs[k])
    }

    /** The buffer holds the records added so far, all of them the schema's, none too often. */
    ghost predicate Valid()
      reads this, out
    {
      && WellFormed(sch)
      && used <= out.Length && out[..used] == EncodeAll(recs)
      && AllWritable(recs) && AllKnown() && Counted()
    }

    /** Append one record of field `i`. */
    method Append(i: nat, r: Rec)
      requires Valid() && i < |sch| && Matches(sch[i], r) && Writable(r)
      requires MayAdd(sch[i].card, count[i]) && used + r.Size() <= out.Length
      modifies this, out
      ensures Valid() && recs == old(recs) + [r] && used == old(used) + r.Size()
      ensures count == old(count)[i := old(count)[i] + 1]
    {
      hide EncodeRec, Matches, ValuesOf, Writable, WellFormed, EncodeAll;
      CopyTo(out, used, EncodeRec(r));
      EncodeLast(recs, r);
      ghost var before := recs;
      recs := recs + [r];
      used := used + r.Size();
      count := count[i := count[i] + 1];
      assert Known(sch, r);
      forall j | 0 <= j < |sch| ensures count[j] == |ValuesOf(recs, sch[j])| {
        BProtoWindow.ValuesAppend(before, [r], sch[j]);
        BProtoWindow.ValuesOne(r, sch[j]);
        OnlyField(sch, i, j, r);
      }
    }

    /** Add an integer: its little-endian bytes. */
    method AddUint(i: nat, v: nat)
      requires Valid() && i < |sch| && sch[i].kind.Uint? && v < Range(sch[i].kind.size)
      requires MayAdd(sch[i].card, count[i]) && used + HEADER + sch[i].kind.size <= out.Length
      modifies this, out
      ensures Valid() && used == old(used) + HEADER + sch[i].kind.size
      ensures |recs| == |old(recs)| + 1 && old(recs) == recs[..|old(recs)|]
      ensures var r := recs[|old(recs)|]; Matches(sch[i], r) && FromLe(r.body) == v
    {
      FromToLe(v, sch[i].kind.size);
      Append(i, Rec(sch[i].id, TypeOf(sch[i].kind), ToLe(v, sch[i].kind.size)));
    }

    /** Add a block of data. */
    method AddData(i: nat, data: seq<byte>)
      requires Valid() && i < |sch| && !sch[i].kind.Uint? && (sch[i].kind.ConstData? ==> |data| == sch[i].kind.size)
      requires |data| < 0x1_0000_0000
      requires MayAdd(sch[i].card, count[i]) && used + HEADER + LENGTH + |data| <= out.Length
      modifies this, out
      ensures Valid() && used == old(used) + HEADER + LENGTH + |data|
      ensures |recs| == |old(recs)| + 1 && old(recs) == recs[..|old(recs)|]
      ensures var r := recs[|old(recs)|]; Matches(sch[i], r) && r.body == data
    {
      Append(i, Rec(sch[i].id, TypeOf(sch[i].kind), data));
    }

    /** The finished buffer is a message, and its records are those added. */
    method Finish() returns (n: nat)
      requires Valid() && forall i :: 0 <= i < |sch| ==> MayFinish(sch[i].card, count[i])
      ensures n == used && n <= out.Length
      ensures IsMessage(sch, out[..n]) && Records(out[..n]) == Some(recs)
    {
      hide EncodeAll, ValuesOf, Writable, WellFormed, Known, IsMessage;
      MessagesAreEncodings(sch, out[..used], recs);
      return used;
    }
  }

  lemma EncodeLast(rs: seq<Rec>, r: Rec)
    ensures EncodeAll(rs + [r]) == EncodeAll(rs) + EncodeRec(r)
  {
    assert (rs + [r])[..|rs|] == rs;
  }

  lemma OnlyField(sch: Schema, i: nat, j: nat, r: Rec)
    requires WellFormed(sch) && i < |sch| && j < |sch| && Matches(sch[i], r)
    ensures Matches(sch[j], r) <==> i == j
  {
  }
}
