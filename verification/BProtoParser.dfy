/** The parser the generator emits, for any schema: one pass finds each field's stretch; Get then reads along it. */
module BProtoParser {
  import opened Bytes
  import opened BProtoSpec
  import opened BProtoWindow

  // ---- the pass over the buffer ----

  ghost predicate AllKnown(sch: Schema, rs: seq<Rec>) {
    forall k :: 0 <= k < |rs| ==> Known(sch, rs[k])
  }

  /** State of the pass after the records up to `at`. */
  ghost predicate Scanned(sch: Schema, s: seq<byte>, at: nat, start: seq<nat>, span: seq<nat>, count: seq<nat>) {
    && |start| == |span| == |count| == |sch|
    && at <= |s| && Between(s, 0, at).Some? && AllKnown(sch, Between(s, 0, at).value)
    && (forall i :: 0 <= i < |sch| ==> Stretch(s, |s|, at, sch[i], start[i], span[i]))
    && (forall i :: 0 <= i < |sch| ==> count[i] == |ValuesOf(Between(s, 0, at).value, sch[i])|)
  }

  lemma ScanStart(sch: Schema, s: seq<byte>)
    ensures var zero := seq(|sch|, i => 0);
            Scanned(sch, s, 0, seq(|sch|, i => |s|), zero, zero)
  {
    assert Between(s, 0, 0) == Some([]);
  }

  lemma ScanTake(sch: Schema, s: seq<byte>, at: nat, start: seq<nat>, span: seq<nat>, count: seq<nat>, i: nat)
    requires WellFormed(sch) && Scanned(sch, s, at, start, span, count) && at < |s| && ParseRec(s[at..]).Some?
    requires i < |sch| && Matches(sch[i], ParseRec(s[at..]).value)
    ensures var e := at + ParseRec(s[at..]).value.Size();
            var b := if start[i] == |s| then at else start[i];
            b <= e && Scanned(sch, s, e, start[i := b], span[i := e - b], count[i := count[i] + 1])
  {
    hide Stretch, Matches, ParseRec, ValuesOf, WellFormed, Known;
    var r := ParseRec(s[at..]).value;
    var e := at + r.Size();
    var b := if start[i] == |s| then at else start[i];
    StretchTake(s, |s|, at, sch[i], start[i], span[i]);
    One(s, at);
    Join(s, 0, at, e);
    var rs := Between(s, 0, at).value;
    assert Between(s, 0, e).value == rs + [r];
    assert Known(sch, r) by { KnownBy(sch, r, i); }
    forall j | 0 <= j < |sch|
      ensures Stretch(s, |s|, e, sch[j], start[i := b][j], span[i := e - b][j])
      ensures count[i := count[i] + 1][j] == |ValuesOf(rs + [r], sch[j])|
    {
      ValuesAppend(rs, [r], sch[j]);
      ValuesOne(r, sch[j]);
      if j != i {
        OtherField(sch, r, i, j);
        StretchSkip(s, |s|, at, sch[j], start[j], span[j]);
      }
    }
  }

  lemma KnownBy(sch: Schema, r: Rec, i: nat)
    requires i < |sch| && Matches(sch[i], r)
    ensures Known(sch, r)
  {
  }

  lemma OtherField(sch: Schema, r: Rec, i: nat, j: nat)
    requires WellFormed(sch) && i < |sch| && j < |sch| && i != j && Matches(sch[i], r)
    ensures !Matches(sch[j], r)
  {
  }

  /** A malformed or unknown record makes the buffer no message. */
  lemma {:induction false} BetweenSplit(s: seq<byte>, a: nat, b: nat, c: nat)
    requires b <= c <= |s| && Between(s, a, b).Some?
    ensures Between(s, a, c).Some? <==> Between(s, b, c).Some?
    decreases b - a
  {
    hide ParseRec;
    if a != b {
      BetweenUpTo(s, a, b);
      var n := a + ParseRec(s[a..]).value.Size();
      BetweenSplit(s, n, b, c);
    }
  }

  lemma ScanReject(sch: Schema, s: seq<byte>, at: nat)
    requires at < |s| && Between(s, 0, at).Some?
    requires ParseRec(s[at..]).None? || !Known(sch, ParseRec(s[at..]).value)
    ensures !IsMessage(sch, s)
  {
    hide ParseRec, Known, ValuesOf;
    BetweenIsRecords(s, 0);
    assert s[0..] == s;
    BetweenSplit(s, 0, at, |s|);
    if Between(s, at, |s|).Some? {
      BetweenUpTo(s, at, |s|);
      Join(s, 0, at, |s|);
      var x, r := Between(s, 0, at).value, ParseRec(s[at..]).value;
      assert Records(s).value[|x|] == r;
    }
  }

  lemma ScanEnd(sch: Schema, s: seq<byte>, start: seq<nat>, span: seq<nat>, count: seq<nat>)
    requires Scanned(sch, s, |s|, start, span, count)
    ensures Records(s).Some?
    ensures IsMessage(sch, s) <==> forall i :: 0 <= i < |sch| ==> CountOk(sch[i].card, count[i])
    ensures forall i :: 0 <= i < |sch| ==> Stretch(s, |s|, |s|, sch[i], start[i], span[i])
  {
    hide Known, ValuesOf, Stretch, CountOk;
    BetweenIsRecords(s, 0);
    assert s[0..] == s;
  }

  /** In a message the record at any boundary is known, so a field's identifier settles that it is the field's. */
  lemma RecordAt(sch: Schema, s: seq<byte>, a: nat, i: nat)
    requires WellFormed(sch) && IsMessage(sch, s) && i < |sch|
    requires a < |s| && Between(s, 0, a).Some? && ParseRec(s[a..]).Some?
    ensures var r := ParseRec(s[a..]).value;
            (r.id == sch[i].id <==> Matches(sch[i], r))
  {
    hide ParseRec, ValuesOf, CountOk;
    BetweenIsRecords(s, 0);
    assert s[0..] == s;
    BetweenSplit(s, 0, a, |s|);
    BetweenUpTo(s, a, |s|);
    Join(s, 0, a, |s|);
    var x, r := Between(s, 0, a).value, ParseRec(s[a..]).value;
    assert Records(s).value[|x|] == r;
    assert Known(sch, r);
  }

  /** At position zero everything the field has is unread. */
  lemma StretchCursor(s: seq<byte>, f: Field, start: nat, span: nat)
    requires Stretch(s, |s|, |s|, f, start, span) && Records(s).Some?
    ensures Cursor(s, f, start, span, 0) && Unread(s, f, start, span, 0) == ValuesOf(Records(s).value, f)
    ensures Cursor(s, f, start, span, span) && Unread(s, f, start, span, span) == []
  {
    hide ValuesOf, Matches, ParseRec;
    BetweenIsRecords(s, 0);
    assert s[0..] == s;
    StretchValues(s, |s|, |s|, f, start, span);
  }

  /** The switch of the pass: which field a record is for, if any. */
  method FindField(sch: Schema, r: Rec) returns (f: Option<nat>)
    requires WellFormed(sch) && 1 <= r.typ <= 6
    ensures f.Some? ==> f.value < |sch| && Matches(sch[f.value], r)
    ensures f.None? ==> !Known(sch, r)
  {
    var i := 0;
    while i < |sch|
      invariant 0 <= i <= |sch|
      invariant forall j :: 0 <= j < i ==> !Matches(sch[j], r)
    {
      var k := sch[i].kind;
      if sch[i].id == r.id && (if r.typ <= 4 then k.Uint? && TypeOf(k) == r.typ else !k.Uint?) {
        if r.typ > 4 && (TypeOf(k) != r.typ || (k.ConstData? && |r.body| != k.size)) {
          forall j | 0 <= j < |sch| ensures !Matches(sch[j], r) {
            if j != i { assert sch[i].id != sch[j].id; }
          }
          return None;
        }
        return Some(i);
      }
      i := i + 1;
    }
    return None;
  }

  class Parser {
    const sch: Schema
    var buf: seq<byte>
    var start: seq<nat>
    var span: seq<nat>
    var pos: seq<nat>

    constructor (sch: Schema)
      ensures this.sch == sch
    {
      this.sch := sch;
      buf := [];
      start := [];
      span := [];
      pos := [];
    }

    ghost predicate Sized()
      reads this
    {
      |start| == |span| == |pos| == |sch|
    }

    ghost predicate FieldOk(i: nat)
      requires Sized() && i < |sch|
      reads this
    {
      Stretch(buf, |buf|, |buf|, sch[i], start[i], span[i]) && Cursor(buf, sch[i], start[i], span[i], pos[i])
    }

    /** The buffer holds a message, and every reading position stands on a record of its field's stretch or at its end. */
    ghost predicate Valid()
      reads this
    {
      WellFormed(sch) && Sized() && IsMessage(sch, buf) && forall i :: 0 <= i < |sch| ==> FieldOk(i)
    }

    /** The values of a field not read yet. */
    ghost function Left(i: nat): seq<seq<byte>>
      requires Valid() && i < |sch|
      reads this
    {
      assert FieldOk(i);
      Unread(buf, sch[i], start[i], span[i], pos[i])
    }

    /** Parser_Init: accepts exactly the messages of the schema, with every value of every field ahead. */
    method Init(s: seq<byte>) returns (ok: bool)
      requires WellFormed(sch)
      modifies this
      ensures ok <==> IsMessage(sch, s)
      ensures ok ==> buf == s && Valid() && forall i :: 0 <= i < |sch| ==> Left(i) == ValuesOf(Records(s).value, sch[i])
    {
      hide Scanned, IsMessage, ParseRec, Known, Stretch, Cursor, Matches, ValuesOf, CountOk, Unread;
      buf := s;
      var n := |s|;
      start := seq(|sch|, i => n);
      span := seq(|sch|, i => 0);
      pos := seq(|sch|, i => 0);
      var count: seq<nat> := seq(|sch|, i => 0);
      ScanStart(sch, s);
      var at := 0;
      while at < |s|
        invariant buf == s && at <= |s| && Scanned(sch, s, at, start, span, count) && pos == seq(|sch|, i => 0)
      {
        ScanFacts(sch, s, at, start, span, count);
        var h := ParseRec(s[at..]);
        if h.None? {
          ScanReject(sch, s, at);
          return false;
        }
        var f := FindField(sch, h.value);
        if f.None? {
          ScanReject(sch, s, at);
          return false;
        }
        var i := f.value;
        ScanTake(sch, s, at, start, span, count, i);
        var e := at + h.value.Size();
        assert start[i := start[i]] == start;
        if start[i] == |s| {
          start := start[i := at];
        }
        span := span[i := e - start[i]];
        count := count[i := count[i] + 1];
        at := e;
      }
      ScanFacts(sch, s, at, start, span, count);
      ScanEnd(sch, s, start, span, count);
      ok := CheckCounts(sch, count);
      forall i | 0 <= i < |sch| ensures FieldOk(i) && Unread(buf, sch[i], start[i], span[i], pos[i]) == ValuesOf(Records(s).value, sch[i]) {
        StretchCursor(s, sch[i], start[i], span[i]);
      }
    }

    /** The reader of one field: the next value, or none once all have been read; other fields are untouched. */
    method Get(i: nat) returns (r: Option<seq<byte>>)
      requires Valid() && i < |sch|
      modifies this`pos
      ensures Valid() && forall j :: 0 <= j < |sch| && j != i ==> pos[j] == old(pos[j])
      ensures r == if old(Left(i)) == [] then None else Some(old(Left(i))[0])
      ensures Left(i) == if old(Left(i)) == [] then [] else old(Left(i))[1..]
    {
      hide IsMessage, ParseRec, Stretch, Cursor, Matches, Unread, WellFormed;
      ghost var before := Left(i);
      var at := pos[i];
      assert FieldOk(i);
      CursorFacts(buf, sch[i], start[i], span[i], at);
      while at < span[i]
        invariant at <= span[i] && pos == old(pos) && Cursor(buf, sch[i], start[i], span[i], at)
        invariant Unread(buf, sch[i], start[i], span[i], at) == before
      {
        CursorFacts(buf, sch[i], start[i], span[i], at);
        CursorStep(buf, sch[i], start[i], span[i], at);
        RecordAt(sch, buf, start[i] + at, i);
        var h := ParseRec(buf[start[i] + at..]).value;
        if h.id == sch[i].id { MatchesType(sch[i], h); }
        at := at + h.Size();
        CursorFacts(buf, sch[i], start[i], span[i], at);
        if h.id == sch[i].id && h.typ == TypeOf(sch[i].kind) {
          pos := pos[i := at];
          Moved(i);
          return Some(h.body);
        }
        assert [] + Unread(buf, sch[i], start[i], span[i], at) == Unread(buf, sch[i], start[i], span[i], at);
      }
      ExhaustedIff(buf, sch[i], start[i], span[i], at);
      pos := pos[i := at];
      Moved(i);
      return None;
    }

    /** The reader of an integer field gives the number. */
    method GetUint(i: nat) returns (v: Option<nat>)
      requires Valid() && i < |sch| && sch[i].kind.Uint?
      modifies this`pos
      ensures Valid() && forall j :: 0 <= j < |sch| && j != i ==> pos[j] == old(pos[j])
      ensures v == if old(Left(i)) == [] then None else Some(FromLe(old(Left(i))[0]))
      ensures Left(i) == if old(Left(i)) == [] then [] else old(Left(i))[1..]
    {
      var r := Get(i);
      v := if r.None? then None else Some(FromLe(r.value));
    }

    /** Moving one position along its stretch disturbs no other field. */
    twostate lemma Moved(i: nat)
      requires old(Valid()) && i < |sch| && buf == old(buf) && start == old(start) && span == old(span)
      requires |pos| == |sch| && pos == old(pos)[i := pos[i]] && Cursor(buf, sch[i], start[i], span[i], pos[i])
      ensures Valid()
    {
      hide IsMessage, Stretch, Cursor, WellFormed;
      forall j | 0 <= j < |sch| ensures FieldOk(j) {
        assert old(FieldOk(j));
      }
    }

    /** Start the field over. */
    method Reset(i: nat)
      requires Valid() && i < |sch|
      modifies this`pos
      ensures Valid() && forall j :: 0 <= j < |sch| && j != i ==> pos[j] == old(pos[j])
      ensures Records(buf).Some? && Left(i) == ValuesOf(Records(buf).value, sch[i])
    {
      assert FieldOk(i);
      StretchCursor(buf, sch[i], start[i], span[i]);
      pos := pos[i := 0];
      Moved(i);
    }

    /** Skip what is left of the field. */
    method Forward(i: nat)
      requires Valid() && i < |sch|
      modifies this`pos
      ensures Valid() && forall j :: 0 <= j < |sch| && j != i ==> pos[j] == old(pos[j])
      ensures Left(i) == []
    {
      assert FieldOk(i);
      StretchCursor(buf, sch[i], start[i], span[i]);
      pos := pos[i := span[i]];
      Moved(i);
    }

    /** Whether every value of the message has been read. */
    method GotEverything() returns (all: bool)
      requires Valid()
      ensures all <==> forall i :: 0 <= i < |sch| ==> Left(i) == []
    {
      hide IsMessage, Stretch, Cursor, Unread, WellFormed;
      var i := 0;
      while i < |sch|
        invariant 0 <= i <= |sch|
        invariant forall j :: 0 <= j < i ==> Left(j) == []
      {
        assert FieldOk(i);
        ExhaustedIff(buf, sch[i], start[i], span[i], pos[i]);
        if pos[i] != span[i] {
          assert Left(i) != [];
          return false;
        }
        i := i + 1;
      }
      return true;
    }
  }

  lemma CursorFacts(s: seq<byte>, f: Field, start: nat, span: nat, pos: nat)
    requires Cursor(s, f, start, span, pos)
    ensures pos <= span
    ensures pos < span ==> start + span <= |s| && Between(s, 0, start + pos).Some?
  {
  }

  lemma MatchesType(f: Field, r: Rec)
    requires Matches(f, r)
    ensures r.typ == TypeOf(f.kind)
  {
  }

  lemma ScanFacts(sch: Schema, s: seq<byte>, at: nat, start: seq<nat>, span: seq<nat>, count: seq<nat>)
    requires Scanned(sch, s, at, start, span, count)
    ensures |start| == |span| == |count| == |sch| && at <= |s| && Between(s, 0, at).Some?
  {
  }

  /** The cardinality checks. */
  method CheckCounts(sch: Schema, count: seq<nat>) returns (ok: bool)
    requires |count| == |sch|
    ensures ok <==> forall i :: 0 <= i < |sch| ==> CountOk(sch[i].card, count[i])
  {
    var i := 0;
    while i < |sch|
      invariant 0 <= i <= |sch|
      invariant forall j :: 0 <= j < i ==> CountOk(sch[j].card, count[j])
    {
      if !CountOk(sch[i].card, count[i]) {
        return false;
      }
      i := i + 1;
    }
    return true;
  }
}
