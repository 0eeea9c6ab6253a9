/** The bproto format: a message is a list of typed, numbered records; a schema says which records are allowed. */
module BProtoSpec {
  import opened Bytes

  /** `Uint(n)` is an unsigned integer of n bytes. */
  datatype Kind = Uint(size: nat) | Data | ConstData(size: nat)

  datatype Cardinality = Repeated | RequiredRepeated | Optional | Required

  datatype Field = Field(id: nat, kind: Kind, card: Cardinality)

  type Schema = seq<Field>

  /** BPROTO_TYPE_* */
  function TypeOf(k: Kind): nat {
    match k
    case Uint(n) => if n == 1 then 1 else if n == 2 then 2 else if n == 4 then 3 else 4
    case Data => 5
    case ConstData(_) => 6
  }

  /** Size of the integer of a record type. */
  function UintSize(t: nat): nat {
    if t == 1 then 1 else if t == 2 then 2 else if t == 3 then 4 else 8
  }

  ghost predicate WellFormed(sch: Schema) {
    && (forall i :: 0 <= i < |sch| ==> sch[i].id < 0x1_0000 && (sch[i].kind.Uint? ==> sch[i].kind.size in {1, 2, 4, 8}))
    && (forall i, j :: 0 <= i < j < |sch| ==> sch[i].id != sch[j].id)
  }

  const HEADER: nat := 4
  const LENGTH: nat := 4

  /** A record: `body` is the integer's bytes, or the data without its length. */
  datatype Rec = Rec(id: nat, typ: nat, body: seq<byte>) {
    function Size(): nat { HEADER + (if typ <= 4 then 0 else LENGTH) + |body| }
  }

  function EncodeRec(r: Rec): (s: seq<byte>)
    ensures |s| == r.Size()
  {
    ToLe(r.id, 2) + ToLe(r.typ, 2) + (if r.typ <= 4 then [] else ToLe(|r.body|, LENGTH)) + r.body
  }

  function EncodeAll(rs: seq<Rec>): seq<byte> {
    if rs == [] then [] else EncodeAll(rs[..|rs| - 1]) + EncodeRec(rs[|rs| - 1])
  }

  /** What stands at the head of a buffer. */
  function ParseRec(s: seq<byte>): (r: Option<Rec>)
    ensures r.Some? ==> r.value.Size() <= |s| && 1 <= r.value.typ <= 6
  {
    if |s| < HEADER then None
    else
      var id, typ := FromLe(s[..2]), FromLe(s[2..4]);
      if 1 <= typ <= 4 then
        var n := UintSize(typ);
        if |s| - HEADER < n then None else Some(Rec(id, typ, s[HEADER..HEADER + n]))
      else if typ == 5 || typ == 6 then
        if |s| - HEADER < LENGTH then None
        else
          var n := FromLe(s[HEADER..HEADER + LENGTH]);
          if |s| - HEADER - LENGTH < n then None else Some(Rec(id, typ, s[HEADER + LENGTH..HEADER + LENGTH + n]))
      else None
  }

  /** Cut a buffer into records. */
  function Records(s: seq<byte>): (r: Option<seq<Rec>>)
    decreases |s|
  {
    if s == [] then Some([])
    else
      var h := ParseRec(s);
      if h.None? then None
      else
        var t := Records(s[h.value.Size()..]);
        if t.None? then None else Some([h.value] + t.value)
  }

  predicate Matches(f: Field, r: Rec) {
    f.id == r.id && TypeOf(f.kind) == r.typ && (f.kind.ConstData? ==> |r.body| == f.kind.size)
  }

  predicate Known(sch: Schema, r: Rec) { exists i :: 0 <= i < |sch| && Matches(sch[i], r) }

  /** The bodies of a field's records, in order. */
  function ValuesOf(rs: seq<Rec>, f: Field): seq<seq<byte>> {
    if rs == [] then []
    else (if Matches(f, rs[0]) then [rs[0].body] else []) + ValuesOf(rs[1..], f)
  }

  predicate CountOk(c: Cardinality, n: nat) {
    match c
    case Repeated => true
    case RequiredRepeated => n >= 1
    case Optional => n <= 1
    case Required => n == 1
  }

  /** A buffer that holds a message of the schema. */
  ghost predicate IsMessage(sch: Schema, s: seq<byte>) {
    && Records(s).Some?
    && (forall k :: 0 <= k < |Records(s).value| ==> Known(sch, Records(s).value[k]))
    && (forall i :: 0 <= i < |sch| ==> CountOk(sch[i].card, |ValuesOf(Records(s).value, sch[i])|))
  }

  // ---- round trip of records ----

  predicate Writable(r: Rec) {
    && r.id < 0x1_0000 && 1 <= r.typ <= 6
    && (if r.typ <= 4 then |r.body| == UintSize(r.typ) else |r.body| < 0x1_0000_0000)
  }

  lemma Range32()
    ensures Range(2) == 0x1_0000 && Range(4) == 0x1_0000_0000
  {
    Range16();
    assert Range(3) == 256 * Range(2);
    assert Range(4) == 256 * Range(3);
  }

  lemma ParseWritten(r: Rec, rest: seq<byte>)
    requires Writable(r)
    ensures ParseRec(EncodeRec(r) + rest) == Some(r)
    ensures (EncodeRec(r) + rest)[r.Size()..] == rest
  {
    Range32();
    FromToLe(r.id, 2);
    FromToLe(r.typ, 2);
    var s := EncodeRec(r) + rest;
    assert s[..2] == ToLe(r.id, 2);
    assert s[2..4] == ToLe(r.typ, 2);
    if r.typ <= 4 {
      assert s[HEADER..HEADER + |r.body|] == r.body;
    } else {
      FromToLe(|r.body|, LENGTH);
      assert s[HEADER..HEADER + LENGTH] == ToLe(|r.body|, LENGTH);
      assert s[HEADER + LENGTH..HEADER + LENGTH + |r.body|] == r.body;
    }
  }
}
