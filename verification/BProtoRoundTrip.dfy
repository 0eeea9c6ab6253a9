/** Lists of writable records and the buffers a parser accepts correspond one to one. */
module BProtoRoundTrip {
  import opened Bytes
  import opened BProtoSpec
  import Lists

  predicate AllWritable(rs: seq<Rec>) { forall k :: 0 <= k < |rs| ==> Writable(rs[k]) }

  lemma {:induction false} EncodeHead(r: Rec, rs: seq<Rec>)
    ensures EncodeAll([r] + rs) == EncodeRec(r) + EncodeAll(rs)
  {
    hide EncodeRec;
    var all := [r] + rs;
    if rs == [] {
      assert all[..0] == [];
      assert EncodeAll(all) == [] + EncodeRec(r);
    } else {
      var front, last := rs[..|rs| - 1], rs[|rs| - 1];
      EncodeHead(r, front);
      assert all[..|all| - 1] == [r] + front;
      Lists.Assoc(EncodeRec(r), EncodeAll(front), EncodeRec(last));
    }
  }

  /** What is written is read back. */
  lemma {:induction false} RecordsOfEncoded(rs: seq<Rec>)
    requires AllWritable(rs)
    ensures Records(EncodeAll(rs)) == Some(rs)
  {
    hide ParseRec, EncodeRec, Writable;
    if rs != [] {
      var r, rest := rs[0], rs[1..];
      assert rs == [r] + rest;
      EncodeHead(r, rest);
      RecordsOfEncoded(rest);
      ParseWritten(r, EncodeAll(rest));
    }
  }

  lemma InParts(s: seq<byte>, a: nat, b: nat, c: nat, d: nat)
    requires a <= b <= c <= d <= |s|
    ensures s[..d] == s[..a] + s[a..b] + s[b..c] + s[c..d]
  {
    assert s[..b] == s[..a] + s[a..b];
    assert s[..c] == s[..b] + s[b..c];
  }

  lemma EncodeParsed(s: seq<byte>)
    requires ParseRec(s).Some?
    ensures Writable(ParseRec(s).value) && EncodeRec(ParseRec(s).value) == s[..ParseRec(s).value.Size()]
  {
    hide ToLe, FromLe, Range;
    Range32();
    ToFromLe(s[..2]);
    ToFromLe(s[2..4]);
    var r := ParseRec(s).value;
    if r.typ <= 4 {
      InParts(s, 2, HEADER, HEADER, r.Size());
      assert s[HEADER..HEADER] == [];
    } else {
      ToFromLe(s[HEADER..HEADER + LENGTH]);
      InParts(s, 2, HEADER, HEADER + LENGTH, r.Size());
    }
  }

  /** What is read, written again, is the same buffer. */
  lemma {:induction false} EncodedRecords(s: seq<byte>)
    requires Records(s).Some?
    ensures AllWritable(Records(s).value) && EncodeAll(Records(s).value) == s
    decreases |s|
  {
    hide ParseRec, EncodeRec, Writable;
    if s != [] {
      var r := ParseRec(s).value;
      var t := s[r.Size()..];
      EncodeParsed(s);
      EncodedRecords(t);
      EncodeHead(r, Records(t).value);
      assert s == s[..r.Size()] + t;
    }
  }

  /** A list of records that a schema allows. */
  ghost predicate Allowed(sch: Schema, rs: seq<Rec>) {
    && AllWritable(rs)
    && (forall k :: 0 <= k < |rs| ==> Known(sch, rs[k]))
    && (forall i :: 0 <= i < |sch| ==> CountOk(sch[i].card, |ValuesOf(rs, sch[i])|))
  }

  /** The messages of a schema are exactly the encodings of the record lists it allows. */
  lemma MessagesAreEncodings(sch: Schema, s: seq<byte>, rs: seq<Rec>)
    ensures IsMessage(sch, s) && Records(s) == Some(rs) <==> Allowed(sch, rs) && s == EncodeAll(rs)
  {
    hide ParseRec, EncodeRec, Writable, Known, CountOk, ValuesOf;
    if Records(s) == Some(rs) {
      EncodedRecords(s);
    }
    if AllWritable(rs) {
      RecordsOfEncoded(rs);
    }
  }

  // ---- how often a field occurs ----

  predicate Occurs(rs: seq<Rec>, f: Field) { exists k :: 0 <= k < |rs| && Matches(f, rs[k]) }

  predicate OccursTwice(rs: seq<Rec>, f: Field) { exists j, k :: 0 <= j < k < |rs| && Matches(f, rs[j]) && Matches(f, rs[k]) }

  lemma {:induction false} ValuesCounted(rs: seq<Rec>, f: Field)
    ensures ValuesOf(rs, f) == [] <==> !Occurs(rs, f)
    ensures |ValuesOf(rs, f)| <= 1 <==> !OccursTwice(rs, f)
  {
    hide Matches;
    if rs != [] {
      var t := rs[1..];
      ValuesCounted(t, f);
      assert forall k :: 0 <= k < |t| ==> t[k] == rs[k + 1];
      assert Occurs(rs, f) <==> Matches(f, rs[0]) || Occurs(t, f) by {
        if k :| 0 <= k < |t| && Matches(f, t[k]) { assert Matches(f, rs[k + 1]); }
        if k :| 0 < k < |rs| && Matches(f, rs[k]) { assert Matches(f, t[k - 1]); }
      }
      assert OccursTwice(rs, f) <==> (Matches(f, rs[0]) && Occurs(t, f)) || OccursTwice(t, f) by { TwiceInTail(rs, f); }
    }
  }

  lemma TwiceInTail(rs: seq<Rec>, f: Field)
    requires rs != []
    ensures OccursTwice(rs, f) <==> (Matches(f, rs[0]) && Occurs(rs[1..], f)) || OccursTwice(rs[1..], f)
  {
    hide Matches;
    var t := rs[1..];
    if OccursTwice(rs, f) {
      var j, k :| 0 <= j < k < |rs| && Matches(f, rs[j]) && Matches(f, rs[k]);
      assert Matches(f, t[k - 1]);
      if j > 0 { assert Matches(f, t[j - 1]); }
    }
    if Matches(f, rs[0]) && Occurs(t, f) {
      var k :| 0 <= k < |t| && Matches(f, t[k]);
      assert Matches(f, rs[k + 1]);
    }
    if OccursTwice(t, f) {
      var j, k :| 0 <= j < k < |t| && Matches(f, t[j]) && Matches(f, t[k]);
      assert Matches(f, rs[j + 1]) && Matches(f, rs[k + 1]);
    }
  }

  /** A message: records, each of some field; a required field occurs, and one that is not repeated does not occur twice. */
  lemma MessageIs(sch: Schema, s: seq<byte>)
    ensures IsMessage(sch, s) <==>
            && Records(s).Some?
            && (forall k :: 0 <= k < |Records(s).value| ==> Known(sch, Records(s).value[k]))
            && (forall i :: 0 <= i < |sch| && sch[i].card in {Required, RequiredRepeated} ==> Occurs(Records(s).value, sch[i]))
            && (forall i :: 0 <= i < |sch| && sch[i].card in {Required, Optional} ==> !OccursTwice(Records(s).value, sch[i]))
  {
    hide Records, Known, ValuesOf, Occurs, OccursTwice;
    if Records(s).Some? {
      var rs := Records(s).value;
      forall i | 0 <= i < |sch|
        ensures CountOk(sch[i].card, |ValuesOf(rs, sch[i])|) <==>
                && (sch[i].card in {Required, RequiredRepeated} ==> Occurs(rs, sch[i]))
                && (sch[i].card in {Required, Optional} ==> !OccursTwice(rs, sch[i]))
      {
        ValuesCounted(rs, sch[i]);
      }
    }
  }
}
