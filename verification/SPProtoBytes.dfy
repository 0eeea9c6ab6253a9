/** What is in a datagram, byte by byte: where each field stands, and what the hash is taken over. */
module SPProtoBytes {
  import opened Bytes
  import opened SPProtoSpec
  import opened SPProtoRoundTrip

  /** `z` is the plaintext with zeros in place of the hash. */
  ghost predicate Blanked(p: Params, t: seq<byte>, z: seq<byte>) {
    |z| == |t| && forall i :: 0 <= i < |t| ==> z[i] == if p.OtpLen() <= i < p.HeaderLen() then 0 else t[i]
  }

  /** The hash field holds the hash of the whole plaintext, password and payload included, with the field blanked. */
  ghost predicate Sealed(p: Params, c: Crypto, t: seq<byte>) {
    && p.HeaderLen() <= |t|
    && (p.hash.Some? ==> forall z :: Blanked(p, t, z) ==> t[p.OtpLen()..p.HeaderLen()] == c.hash(z))
  }

  /** Seed, low byte first, password and payload stand at these places. */
  predicate Reads(p: Params, t: seq<byte>, d: Packet) {
    && p.HeaderLen() <= |t| && d.payload == t[p.HeaderLen()..]
    && (if p.otp then d.seed == t[0] as int + 256 * t[1] as int && d.otp == t[2..6] else d.seed == 0 && d.otp == [])
  }

  /** The datagram is the plaintext; or a vector of one block and the text, a one and zeros up to a whole block, encrypted. */
  ghost predicate PlaintextOf(p: Params, c: Crypto, s: seq<byte>, t: seq<byte>) {
    match p.block
    case None => t == s
    case Some(b) =>
      && 0 < b <= |s| && |s| % b == 0
      && var y := c.decrypt(s[..b], s[b..]);
         |y| >= b && PadAt(y, |y| - b, |t|) && t == y[..|t|]
  }

  lemma BlankedIs(p: Params, t: seq<byte>, z: seq<byte>)
    requires p.HeaderLen() <= |t|
    ensures Blanked(p, t, z) <==> z == t[..p.OtpLen()] + Zeros(p.HashLen()) + t[p.HeaderLen()..]
  {
    var w := t[..p.OtpLen()] + Zeros(p.HashLen()) + t[p.HeaderLen()..];
    assert Blanked(p, t, w);
    if Blanked(p, t, z) { assert z == w; }
  }

  lemma SealedIs(p: Params, c: Crypto, t: seq<byte>)
    requires p.HeaderLen() <= |t|
    ensures var o, h := p.OtpLen(), p.HeaderLen();
            Sealed(p, c, t) <==> (p.hash.Some? ==> c.hash(t[..o] + Zeros(p.HashLen()) + t[h..]) == t[o..h])
  {
    hide Blanked, Zeros;
    var z := t[..p.OtpLen()] + Zeros(p.HashLen()) + t[p.HeaderLen()..];
    BlankedIs(p, t, z);
    forall y | Blanked(p, t, y) ensures y == z { BlankedIs(p, t, y); }
  }

  lemma SeedIs(t: seq<byte>)
    requires |t| >= 2
    ensures FromLe(t[..SEED_LEN]) == t[0] as int + 256 * t[1] as int
  {
    var s := t[..SEED_LEN];
    assert s[1..] == [t[1]] && s[1..][1..] == [];
    assert FromLe([]) == 0;
    assert FromLe(s[1..]) == t[1];
  }

  /** A plaintext is accepted exactly if its length is legal and it is sealed; what is read stands at its places. */
  lemma OpenedIff(p: Params, c: Crypto, mtu: nat, t: seq<byte>, d: Packet)
    ensures Open(p, c, mtu, t) == Some(d) <==> p.HeaderLen() <= |t| <= p.HeaderLen() + mtu && Sealed(p, c, t) && Reads(p, t, d)
  {
    hide Sealed, Zeros;
    if p.HeaderLen() <= |t| {
      SealedIs(p, c, t);
      if p.otp { SeedIs(t); }
    }
  }

  lemma UnlockedIff(p: Params, c: Crypto, s: seq<byte>, t: seq<byte>)
    requires p.Valid() && p.block.Some? && CipherOk(c)
    ensures Unlock(p, c, true, s) == Some(t) <==> PlaintextOf(p, c, s, t)
  {
    hide Scan, CipherOk;
    var b := p.block.value;
    if |s| % b == 0 && |s| >= b {
      var y := c.decrypt(s[..b], s[b..]);
      if |y| >= b {
        ScanIs(y, |y| - b, |y|, |t|);
        var i := Scan(y, |y| - b, |y|);
        if i.Some? { ScanIs(y, |y| - b, |y|, i.value); }
      }
    }
  }

  /**
   The decoder, on bytes: it returns a packet exactly if the key is there and the datagram has a plaintext of legal length
   that is sealed, and then what stands in that plaintext.
   */
  lemma DecodedIff(p: Params, c: Crypto, key: bool, mtu: nat, s: seq<byte>, d: Packet)
    requires p.Valid() && CipherOk(c)
    ensures Decode(p, c, key, mtu, s) == Some(d) <==>
            && (p.block.Some? ==> key)
            && exists t :: PlaintextOf(p, c, s, t) && p.HeaderLen() <= |t| <= p.HeaderLen() + mtu && Sealed(p, c, t) && Reads(p, t, d)
  {
    hide Open, Unlock, Sealed, Reads, CipherOk;
    forall t ensures Open(p, c, mtu, t) == Some(d) <==>
                     p.HeaderLen() <= |t| <= p.HeaderLen() + mtu && Sealed(p, c, t) && Reads(p, t, d) {
      OpenedIff(p, c, mtu, t, d);
    }
    if p.block.Some? {
      hide PlaintextOf;
      UnlockKey(p, c, key, s);
      forall t ensures Unlock(p, c, true, s) == Some(t) <==> PlaintextOf(p, c, s, t) { UnlockedIff(p, c, s, t); }
    }
  }

  lemma UnlockKey(p: Params, c: Crypto, key: bool, s: seq<byte>)
    requires p.Valid() && p.block.Some? && CipherOk(c)
    ensures Unlock(p, c, key, s) == if key then Unlock(p, c, true, s) else None
  {
    hide Scan, CipherOk;
  }

  /** The encoder, on bytes: the datagram's plaintext is sealed and holds the packet, behind the vector if encrypted. */
  lemma EncodedBytes(p: Params, c: Crypto, iv: seq<byte>, d: Packet)
    requires p.Valid() && HashOk(p, c) && CipherOk(c) && Carries(p, d) && (p.block.Some? ==> |iv| == p.block.value)
    ensures var s := Encode(p, c, iv, d);
            && (p.block.Some? ==> iv <= s)
            && exists t :: PlaintextOf(p, c, s, t) && |t| == p.HeaderLen() + |d.payload| && Sealed(p, c, t) && Reads(p, t, d)
  {
    hide Decode, Sealed, Reads, PlaintextOf, Plain, Pad;
    var s := Encode(p, c, iv, d);
    RoundTrip(p, c, |d.payload|, iv, d);
    DecodedIff(p, c, true, |d.payload|, s, d);
    var t :| PlaintextOf(p, c, s, t) && p.HeaderLen() <= |t| <= p.HeaderLen() + |d.payload| && Sealed(p, c, t) && Reads(p, t, d);
    ReadsLength(p, t, d);
  }

  lemma ReadsLength(p: Params, t: seq<byte>, d: Packet)
    requires Reads(p, t, d)
    ensures |t| == p.HeaderLen() + |d.payload|
  {
  }

  /** A datagram whose plaintext is changed anywhere is refused unless the hash still matches. */
  lemma UnsealedRefused(p: Params, c: Crypto, key: bool, mtu: nat, s: seq<byte>)
    requires p.Valid() && CipherOk(c) && forall t :: PlaintextOf(p, c, s, t) ==> !Sealed(p, c, t)
    ensures Decode(p, c, key, mtu, s).None?
  {
    hide Decode, Sealed, PlaintextOf;
    if Decode(p, c, key, mtu, s).Some? { DecodedIff(p, c, key, mtu, s, Decode(p, c, key, mtu, s).value); }
  }
}
