/** FragmentProto chunks and their wire form: a 7-byte little-endian header, then the payload. */
module FragmentWire {
  import opened Bytes
  import opened FragmentPieces
  import Lists

  const HEADER: nat := 7

  datatype Chunk = Chunk(id: nat, start: nat, last: bool, data: seq<byte>) {
    function AsPiece(): Piece { Piece(start, data) }

    function End(): nat { start + |data| }

    /** Every field fits the header. */
    predicate Fits() { id < 0x1_0000 && start < 0x1_0000 && |data| < 0x1_0000 }
  }

  function Encode(c: Chunk): (r: seq<byte>)
    ensures |r| == HEADER + |c.data|
  {
    ToLe(c.id, 2) + ToLe(c.start, 2) + ToLe(|c.data|, 2) + [if c.last then 1 else 0] + c.data
  }

  /** A packet: its chunks one after another. */
  function EncodeAll(cs: seq<Chunk>): seq<byte> {
    if cs == [] then [] else Encode(cs[0]) + EncodeAll(cs[1..])
  }

  /** What is found at the head of the unread part of a packet. */
  datatype Head = Malformed | Found(chunk: Chunk)

  function ParseHead(s: seq<byte>): (r: Head)
    ensures r.Found? ==> HEADER + |r.chunk.data| <= |s| && r.chunk.Fits()
  {
    Range16();
    if |s| < HEADER then Malformed
    else
      var len := FromLe(s[4..6]);
      if s[6] != 0 && s[6] != 1 then Malformed
      else if |s| - HEADER < len then Malformed
      else Found(Chunk(FromLe(s[..2]), FromLe(s[2..4]), s[6] == 1, s[HEADER..HEADER + len]))
  }

  /** A header written and read back is the same header, whatever follows it. */
  lemma ParseEncoded(c: Chunk, rest: seq<byte>)
    requires c.Fits()
    ensures ParseHead(Encode(c) + rest) == Found(c)
    ensures (Encode(c) + rest)[HEADER + |c.data|..] == rest
  {
    var s := Encode(c) + rest;
    Range16();
    FromToLe(c.id, 2);
    FromToLe(c.start, 2);
    FromToLe(|c.data|, 2);
    assert s[..2] == ToLe(c.id, 2);
    assert s[2..4] == ToLe(c.start, 2);
    assert s[4..6] == ToLe(|c.data|, 2);
    assert s[HEADER..HEADER + |c.data|] == c.data;
  }

  lemma EncodeNone(cs: seq<Chunk>)
    requires cs == []
    ensures EncodeAll(cs) == []
  {
  }

  lemma EncodeFirst(cs: seq<Chunk>)
    requires cs != []
    ensures EncodeAll(cs) == Encode(cs[0]) + EncodeAll(cs[1..])
  {
    hide Encode;
  }

  lemma {:induction false} EncodeAllAppend(cs: seq<Chunk>, ds: seq<Chunk>)
    ensures EncodeAll(cs + ds) == EncodeAll(cs) + EncodeAll(ds)
  {
    hide Encode, EncodeAll;
    if cs == [] {
      assert cs + ds == ds;
      EncodeNone(cs);
      assert [] + EncodeAll(ds) == EncodeAll(ds);
    } else {
      EncodeAllAppend(cs[1..], ds);
      assert (cs + ds)[1..] == cs[1..] + ds;
      EncodeFirst(cs);
      EncodeFirst(cs + ds);
      Lists.Assoc(Encode(cs[0]), EncodeAll(cs[1..]), EncodeAll(ds));
    }
  }
}
