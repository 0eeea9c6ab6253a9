/** Which byte holds what, for each of the formats. */
module WireLayout {
  import opened Bytes
  import F = FragmentWire
  import B = BProtoSpec
  import P = PacketProtoSpec
  import D = DhcpSpec
  import O = DhcpOptions

  /** The 16-bit and the 32-bit integer, low byte first. */
  lemma Low16(v: nat)
    requires v < 0x1_0000
    ensures ToLe(v, 2) == [v % 256, v / 256]
  {
    Range16();
    ToLeByte(v, 2, 0);
    ToLeByte(v, 2, 1);
    assert Range(0) == 1;
  }

  lemma Low32(v: nat)
    requires v < 0x1_0000_0000
    ensures ToLe(v, 4) == [v % 256, v / 0x100 % 256, v / 0x1_0000 % 256, v / 0x100_0000]
  {
    Range16();
    assert Range(3) == 256 * Range(2);
    assert Range(0) == 1;
    ToLeByte(v, 4, 0);
    ToLeByte(v, 4, 1);
    ToLeByte(v, 4, 2);
    ToLeByte(v, 4, 3);
  }

  /** A chunk: frame id, start, length, whether it is the last, payload. */
  lemma ChunkLayout(c: F.Chunk)
    requires c.Fits()
    ensures F.Encode(c) == [c.id % 256, c.id / 256, c.start % 256, c.start / 256, |c.data| % 256, |c.data| / 256, if c.last then 1 else 0] + c.data
  {
    Low16(c.id);
    Low16(c.start);
    Low16(|c.data|);
  }

  /**
   A record of a field: id, type, then the integer's bytes, or the length and the data. Integers of one, two, four and
   eight bytes are of types 1 to 4, data is of type 5, and data of a fixed size of type 6.
   */
  lemma RecordLayout(id: nat, kind: B.Kind, body: seq<byte>)
    requires id < 0x1_0000 && |body| < 0x1_0000_0000 && (kind.Uint? ==> kind.size in {1, 2, 4, 8})
    ensures var n := |body|;
            B.EncodeRec(B.Rec(id, B.TypeOf(kind), body)) ==
            [id % 256, id / 256, if kind == B.Uint(1) then 1 else if kind == B.Uint(2) then 2 else if kind == B.Uint(4) then 3
                                 else if kind == B.Uint(8) then 4 else if kind == B.Data then 5 else 6, 0]
            + (if kind.Uint? then [] else [n % 256, n / 0x100 % 256, n / 0x1_0000 % 256, n / 0x100_0000]) + body
  {
    hide ToLe;
    Low16(id);
    Low16(B.TypeOf(kind));
    Low32(|body|);
  }

  /** A packet on a stream: its length, low byte first, then its payload. */
  lemma PacketLayout(p: seq<byte>)
    requires |p| <= P.MAX_PAYLOAD
    ensures P.Encode(p) == [|p| % 256, |p| / 256] + p
  {
    Low16(|p|);
  }

  function High32(s: seq<byte>): nat
    requires |s| == 4
  {
    s[0] as nat * 0x100_0000 + s[1] as nat * 0x1_0000 + s[2] as nat * 0x100 + s[3] as nat
  }

  function Number(v: Option<seq<byte>>): Option<nat> { if v.Some? && |v.value| == 4 then Some(High32(v.value)) else None }

  /**
   A reply, of whatever options in whatever order: its type, server, lease time and mask are options 53, 54, 51 and 1, the
   last of each; offers, acks and naks are of types 2, 5 and 6; and every number has its high byte first.
   */
  lemma ReplyLayout(os: seq<O.Opt>, pad: nat, address: nat)
    requires O.Encodable(os) && O.AllSized(os)
    ensures var f := O.Parse(O.Encode(os, pad));
            && f.Some? && O.Read(f.value)
            && var kind, server := O.LastOf(os, 53), O.LastOf(os, 54);
               O.ToReply(f.value, address) ==
               if Number(server).None? || (kind != Some([2]) && kind != Some([5]) && kind != Some([6])) then None
               else Some(D.Reply(if kind == Some([2]) then D.Offer else if kind == Some([5]) then D.Ack else D.Nak,
                                 Number(server).value, address, Number(O.LastOf(os, 51)), Number(O.LastOf(os, 1))))
  {
    hide O.Split, O.Servers, O.Encode, O.Encodable, O.LastOf;
    O.SplitEncoded(os, pad);
    O.ParsedRead(O.Encode(os, pad));
    var f := O.Parse(O.Encode(os, pad)).value;
    assert f.kind.Some? ==> f.kind.value == [f.kind.value[0]];
  }
}
