/** A message from the adds of its writer to the reads of its reader. */
module BProtoExchange {
  import opened Bytes
  import opened BProtoSpec
  import opened BProtoRoundTrip
  import BProtoWindow
  import opened BProtoWriter
  import opened BProtoParser

  /** What a field is given and read as. */
  datatype Value = Number(n: nat) | Block(data: seq<byte>)

  datatype Add = Add(field: nat, value: Value)

  /** The value suits the field. */
  predicate Suits(f: Field, v: Value) {
    match f.kind
    case Uint(n) => v.Number? && v.n < Range(n)
    case Data => v.Block? && |v.data| < 0x1_0000_0000
    case ConstData(n) => v.Block? && |v.data| == n < 0x1_0000_0000
  }

  function BodyOf(f: Field, v: Value): seq<byte> {
    if v.Number? then (if f.kind.Uint? then ToLe(v.n, f.kind.size) else []) else v.data
  }

  function ValueOf(f: Field, body: seq<byte>): Value { if f.kind.Uint? then Number(FromLe(body)) else Block(body) }

  lemma BodyRoundTrip(f: Field, v: Value)
    requires Suits(f, v)
    ensures ValueOf(f, BodyOf(f, v)) == v
  {
    if f.kind.Uint? { FromToLe(v.n, f.kind.size); }
  }

  ghost predicate AllSuit(sch: Schema, adds: seq<Add>) {
    forall k :: 0 <= k < |adds| ==> adds[k].field < |sch| && Suits(sch[adds[k].field], adds[k].value)
  }

  /** The values given to field `i`, in order. */
  function Given(adds: seq<Add>, i: nat): seq<Value> {
    if adds == [] then []
    else
      var a := adds[|adds| - 1];
      Given(adds[..|adds| - 1], i) + (if a.field == i then [a.value] else [])
  }

  lemma {:induction false} GivenLater(adds: seq<Add>, k: nat, i: nat)
    requires k <= |adds|
    ensures |Given(adds[..k], i)| <= |Given(adds, i)|
    ensures k < |adds| && adds[k].field == i ==> |Given(adds[..k], i)| < |Given(adds, i)|
    decreases |adds| - k
  {
    if k < |adds| {
      assert adds[..k + 1][..k] == adds[..k];
      GivenLater(adds, k + 1, i);
    } else {
      assert adds[..k] == adds;
    }
  }

  /** Bytes the adds take. */
  function SizeOf(sch: Schema, adds: seq<Add>): nat
    requires forall k :: 0 <= k < |adds| ==> adds[k].field < |sch|
  {
    if adds == [] then 0
    else
      var a := adds[|adds| - 1];
      var f := sch[a.field];
      SizeOf(sch, adds[..|adds| - 1]) + HEADER + (if f.kind.Uint? then 0 else LENGTH) + |BodyOf(f, a.value)|
  }

  lemma {:induction false} SizeLater(sch: Schema, adds: seq<Add>, k: nat)
    requires k <= |adds| && forall j :: 0 <= j < |adds| ==> adds[j].field < |sch|
    ensures SizeOf(sch, adds[..k]) <= SizeOf(sch, adds)
    decreases |adds| - k
  {
    if k < |adds| {
      assert adds[..k + 1][..k] == adds[..k];
      SizeLater(sch, adds, k + 1);
    } else {
      assert adds[..k] == adds;
    }
  }

  /** Records and adds tell the same story about every field. */
  ghost predicate Written(sch: Schema, adds: seq<Add>, recs: seq<Rec>) {
    forall i :: 0 <= i < |sch| ==> SameValues(sch[i], ValuesOf(recs, sch[i]), Given(adds, i))
  }

  ghost predicate SameValues(f: Field, bodies: seq<seq<byte>>, vs: seq<Value>) {
    |bodies| == |vs| && forall k :: 0 <= k < |vs| ==> ValueOf(f, bodies[k]) == vs[k]
  }

  lemma WrittenMore(sch: Schema, adds: seq<Add>, recs: seq<Rec>, a: Add, r: Rec)
    requires WellFormed(sch) && Written(sch, adds, recs) && a.field < |sch|
    requires Matches(sch[a.field], r) && ValueOf(sch[a.field], r.body) == a.value
    ensures Written(sch, adds + [a], recs + [r])
  {
    hide ValuesOf, Matches, WellFormed, ValueOf;
    assert (adds + [a])[..|adds|] == adds;
    forall i | 0 <= i < |sch| ensures SameValues(sch[i], ValuesOf(recs + [r], sch[i]), Given(adds + [a], i)) {
      BProtoWindow.ValuesAppend(recs, [r], sch[i]);
      BProtoWindow.ValuesOne(r, sch[i]);
      OnlyField(sch, a.field, i, r);
      assert SameValues(sch[i], ValuesOf(recs, sch[i]), Given(adds, i));
    }
  }

  /** One add, by the writer's method for the field. */
  method AddOne(w: Writer, ghost adds: seq<Add>, a: Add)
    requires w.Valid() && Written(w.sch, adds, w.recs) && a.field < |w.sch| && Suits(w.sch[a.field], a.value)
    requires MayAdd(w.sch[a.field].card, w.count[a.field])
    requires w.used + HEADER + (if w.sch[a.field].kind.Uint? then 0 else LENGTH) + |BodyOf(w.sch[a.field], a.value)| <= w.out.Length
    modifies w, w.out
    ensures w.Valid() && Written(w.sch, adds + [a], w.recs)
    ensures w.used == old(w.used) + HEADER + (if w.sch[a.field].kind.Uint? then 0 else LENGTH) + |BodyOf(w.sch[a.field], a.value)|
  {
    hide Written, Writer.Valid, Matches, ValuesOf, FromLe, ToLe;
    WriterFacts(w);
    BodyRoundTrip(w.sch[a.field], a.value);
    ghost var before := w.recs;
    if w.sch[a.field].kind.Uint? {
      w.AddUint(a.field, a.value.n);
    } else {
      w.AddData(a.field, a.value.data);
    }
    ghost var r := w.recs[|before|];
    assert w.recs == before + [r];
    WrittenMore(w.sch, adds, before, a, r);
  }

  lemma WriterFacts(w: Writer)
    requires w.Valid()
    ensures WellFormed(w.sch) && |w.count| == |w.sch|
  {
  }

  /** All values of a field, read to the end. */
  method ReadAll(p: Parser, i: nat) returns (vs: seq<Value>)
    requires p.Valid() && i < |p.sch|
    modifies p`pos
    ensures p.Valid() && p.Left(i) == [] && forall j :: 0 <= j < |p.sch| && j != i ==> p.pos[j] == old(p.pos[j])
    ensures SameValues(p.sch[i], old(p.Left(i)), vs)
  {
    hide Parser.Valid, Parser.Left, ValueOf;
    ghost var all := p.Left(i);
    vs := [];
    Positions(p);
    while true
      invariant p.Valid() && |p.pos| == |p.sch| && |vs| <= |all| && p.Left(i) == all[|vs|..]
      invariant forall k :: 0 <= k < |vs| ==> ValueOf(p.sch[i], all[k]) == vs[k]
      invariant forall j :: 0 <= j < |p.sch| && j != i ==> p.pos[j] == old(p.pos[j])
      decreases |all| - |vs|
    {
      var v := ReadOne(p, i);
      if v.None? { break; }
      vs := vs + [v.value];
    }
  }

  lemma Positions(p: Parser)
    requires p.Valid()
    ensures |p.pos| == |p.sch|
  {
  }

  /** The next value of a field, by the parser's method for the field. */
  method ReadOne(p: Parser, i: nat) returns (v: Option<Value>)
    requires p.Valid() && i < |p.sch|
    modifies p`pos
    ensures p.Valid() && |p.pos| == |p.sch| == |old(p.pos)| && forall j :: 0 <= j < |p.sch| && j != i ==> p.pos[j] == old(p.pos[j])
    ensures v == if old(p.Left(i)) == [] then None else Some(ValueOf(p.sch[i], old(p.Left(i))[0]))
    ensures p.Left(i) == if old(p.Left(i)) == [] then [] else old(p.Left(i))[1..]
  {
    hide Parser.Valid, Parser.Left, FromLe;
    Positions(p);
    if p.sch[i].kind.Uint? {
      var n := p.GetUint(i);
      v := if n.None? then None else Some(Number(n.value));
    } else {
      var r := p.Get(i);
      v := if r.None? then None else Some(Block(r.value));
    }
    Positions(p);
  }

  /** What a schema asks of a list of adds. */
  ghost predicate Sendable(sch: Schema, adds: seq<Add>) {
    AllSuit(sch, adds) && forall i :: 0 <= i < |sch| ==> CountOk(sch[i].card, |Given(adds, i)|)
  }

  /** Every value is added in turn. */
  method WriteAll(w: Writer, adds: seq<Add>)
    requires w.Valid() && w.recs == [] && w.used == 0 && Sendable(w.sch, adds) && SizeOf(w.sch, adds) <= w.out.Length
    modifies w, w.out
    ensures w.Valid() && Written(w.sch, adds, w.recs)
  {
    hide Suits, BodyOf, CountOk, Written, Writer.Valid, Given, WellFormed;
    var k := 0;
    assert SizeOf(w.sch, []) == 0;
    assert Written(w.sch, [], []) by { NothingWritten(w.sch); }
    assert adds[..0] == [];
    while k < |adds|
      invariant 0 <= k <= |adds| && w.Valid() && Written(w.sch, adds[..k], w.recs) && w.used == SizeOf(w.sch, adds[..k])
    {
      var a := adds[k];
      assert adds[..k + 1] == adds[..k] + [a];
      assert adds[..k + 1][..k] == adds[..k];
      SizeLater(w.sch, adds, k + 1);
      WriterFacts(w);
      MayStillAdd(w, adds, k);
      AddOne(w, adds[..k], a);
      k := k + 1;
    }
    assert adds[..k] == adds;
  }

  lemma NothingWritten(sch: Schema)
    ensures Written(sch, [], [])
  {
  }

  /** Within the cardinalities there is room for what is still to come. */
  lemma MayStillAdd(w: Writer, adds: seq<Add>, k: nat)
    requires w.Valid() && k < |adds| && Sendable(w.sch, adds) && Written(w.sch, adds[..k], w.recs)
    ensures MayAdd(w.sch[adds[k].field].card, w.count[adds[k].field])
  {
    hide Suits, ValuesOf;
    var i := adds[k].field;
    GivenLater(adds, k, i);
    assert SameValues(w.sch[i], ValuesOf(w.recs, w.sch[i]), Given(adds[..k], i));
  }

  /**
   Write a message, parse it and read every field to the end: each field yields exactly the values it was given, in the
   order given, and then nothing is left.
   */
  method Exchange(sch: Schema, adds: seq<Add>, out: array<byte>) returns (read: seq<seq<Value>>, all: bool)
    requires WellFormed(sch) && Sendable(sch, adds) && SizeOf(sch, adds) <= out.Length
    modifies out
    ensures all && |read| == |sch| && forall i :: 0 <= i < |sch| ==> read[i] == Given(adds, i)
  {
    hide Suits, Written, WellFormed, Records, IsMessage, Given, ValuesOf, SizeOf, Parser.Valid, Writer.Valid;
    var w := new Writer(sch, out);
    WriteAll(w, adds);
    MayStillFinish(w, adds);
    var n := w.Finish();
    var p := new Parser(sch);
    var ok := p.Init(out[..n]);
    ghost var recs := w.recs;
    read := [];
    while |read| < |sch|
      invariant |read| <= |sch| && p.Valid() && p.sch == sch && Written(sch, adds, recs)
      invariant forall i :: 0 <= i < |read| ==> read[i] == Given(adds, i) && p.Left(i) == []
      invariant forall i :: |read| <= i < |sch| ==> p.Left(i) == ValuesOf(recs, sch[i])
      decreases |sch| - |read|
    {
      ghost var i := |read|;
      var vs := ReadAll(p, |read|);
      assert vs == Given(adds, i) by { ReadIsGiven(sch, adds, recs, i, vs); }
      read := read + [vs];
    }
    all := p.GotEverything();
  }

  lemma ReadIsGiven(sch: Schema, adds: seq<Add>, recs: seq<Rec>, i: nat, vs: seq<Value>)
    requires i < |sch| && Written(sch, adds, recs) && SameValues(sch[i], ValuesOf(recs, sch[i]), vs)
    ensures vs == Given(adds, i)
  {
    hide ValuesOf, Given;
    assert SameValues(sch[i], ValuesOf(recs, sch[i]), Given(adds, i));
  }

  lemma MayStillFinish(w: Writer, adds: seq<Add>)
    requires w.Valid() && Sendable(w.sch, adds) && Written(w.sch, adds, w.recs)
    ensures forall i :: 0 <= i < |w.sch| ==> MayFinish(w.sch[i].card, w.count[i])
  {
    hide Suits, ValuesOf, Given;
    forall i | 0 <= i < |w.sch| ensures MayFinish(w.sch[i].card, w.count[i]) {
      assert SameValues(w.sch[i], ValuesOf(w.recs, w.sch[i]), Given(adds, i));
    }
  }
}
