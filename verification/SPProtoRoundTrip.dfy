/** Decoding inverts encoding, accepts nothing else, and everything fits its buffer. */
module SPProtoRoundTrip {
  import opened Align
  import opened Bytes
  import opened SPProtoSpec

  lemma OtpRead(p: Params, d: Packet, rest: seq<byte>)
    requires Carries(p, d) && p.otp
    ensures var t := OtpData(p, d) + rest; FromLe(t[..SEED_LEN]) == d.seed && t[SEED_LEN..SEED_LEN + OTP_LEN] == d.otp
  {
    Range16();
    FromToLe(d.seed, SEED_LEN);
    var t := OtpData(p, d) + rest;
    assert t[..SEED_LEN] == ToLe(d.seed, SEED_LEN);
    assert t[SEED_LEN..SEED_LEN + OTP_LEN] == d.otp;
  }

  function Digest(p: Params, c: Crypto, d: Packet): seq<byte>
    requires Carries(p, d)
  {
    if p.hash.Some? then c.hash(OtpData(p, d) + Zeros(p.HashLen()) + d.payload) else []
  }

  lemma PlainParts(p: Params, c: Crypto, d: Packet)
    requires HashOk(p, c) && Carries(p, d)
    ensures var t, o, h := Plain(p, c, d), p.OtpLen(), p.HeaderLen();
            && |t| == h + |d.payload| && t[..o] == OtpData(p, d) && t[o..h] == Digest(p, c, d) && t[h..] == d.payload
            && t == OtpData(p, d) + (Digest(p, c, d) + d.payload)
  {
    hide OtpData, Zeros;
  }

  lemma OpenPlain(p: Params, c: Crypto, mtu: nat, d: Packet)
    requires HashOk(p, c) && Carries(p, d)
    ensures Open(p, c, mtu, Plain(p, c, d)) == if |d.payload| <= mtu then Some(d) else None
  {
    hide OtpData, Zeros, Plain;
    PlainParts(p, c, d);
    if p.otp {
      OtpRead(p, d, Digest(p, c, d) + d.payload);
    }
  }

  lemma PlainOpened(p: Params, c: Crypto, mtu: nat, t: seq<byte>)
    requires Open(p, c, mtu, t).Some?
    ensures var d := Open(p, c, mtu, t).value; Carries(p, d) && |d.payload| <= mtu && Plain(p, c, d) == t
  {
    hide Zeros;
    var d, o, h := Open(p, c, mtu, t).value, p.OtpLen(), p.HeaderLen();
    if p.otp {
      Range16();
      ToFromLe(t[..SEED_LEN]);
      assert t[..o] == t[..SEED_LEN] + t[SEED_LEN..SEED_LEN + OTP_LEN];
    }
    assert OtpData(p, d) == t[..o];
    assert t == t[..o] + t[o..h] + t[h..];
  }

  function Iv(p: Params, s: seq<byte>): seq<byte> {
    if p.block.Some? && |s| >= p.block.value then s[..p.block.value] else []
  }

  lemma UnlockLocked(p: Params, c: Crypto, iv: seq<byte>, x: seq<byte>)
    requires p.Valid() && p.block.Some? && CipherOk(c) && |iv| == p.block.value
    ensures Unlock(p, c, true, iv + c.encrypt(iv, Pad(p.block.value, x))) == Some(x)
  {
    hide Scan, Pad;
    var b := p.block.value;
    PadFound(b, x);
    var y := Pad(b, x);
    var s := iv + c.encrypt(iv, y);
    ModOnce(|y|, b);
    assert s[..b] == iv && s[b..] == c.encrypt(iv, y);
    assert y[..|x|] == x;
  }

  lemma LockUnlocked(p: Params, c: Crypto, key: bool, s: seq<byte>)
    requires p.Valid() && p.block.Some? && CipherOk(c) && Unlock(p, c, key, s).Some?
    ensures var b := p.block.value;
            key && |s| >= b && s == s[..b] + c.encrypt(s[..b], Pad(b, Unlock(p, c, key, s).value))
  {
    hide Pad;
    var b := p.block.value;
    var y := c.decrypt(s[..b], s[b..]);
    var i := Scan(y, |y| - b, |y|).value;
    ScanIs(y, |y| - b, |y|, i);
    SubMod(|y|, b);
    PadScan(b, y[..i], y);
    assert s == s[..b] + s[b..];
  }

  lemma SubMod(x: nat, n: nat)
    requires n > 0 && (x + n) % n == 0
    ensures x % n == 0
  {
    ModOnce(x, n);
  }

  /**
   * The decoder returns a packet exactly if the datagram is that packet's encoding under the vector it starts with,
   * the key is there and the payload fits.
   */
  lemma DecodeIff(p: Params, c: Crypto, key: bool, mtu: nat, s: seq<byte>, d: Packet)
    requires p.Valid() && HashOk(p, c) && CipherOk(c) && Carries(p, d)
    ensures Decode(p, c, key, mtu, s) == Some(d) <==>
            && |d.payload| <= mtu
            && (p.block.Some? ==> key && |s| >= p.block.value)
            && s == Encode(p, c, Iv(p, s), d)
  {
    hide Open, Unlock, Plain, Pad, HashOk, CipherOk;
    OpenPlain(p, c, mtu, d);
    if p.block.None? {
      if Open(p, c, mtu, s).Some? { PlainOpened(p, c, mtu, s); }
    } else {
      var b, t := p.block.value, Unlock(p, c, key, s);
      if t.Some? {
        LockUnlocked(p, c, key, s);
        if Open(p, c, mtu, t.value).Some? { PlainOpened(p, c, mtu, t.value); }
      }
      if key && |s| >= b && s == Encode(p, c, s[..b], d) {
        UnlockLocked(p, c, s[..b], Plain(p, c, d));
      }
    }
  }

  /** Whatever is decoded has the shape of a packet. */
  lemma DecodedCarries(p: Params, c: Crypto, key: bool, mtu: nat, s: seq<byte>)
    requires p.Valid() && HashOk(p, c) && CipherOk(c) && Decode(p, c, key, mtu, s).Some?
    ensures Carries(p, Decode(p, c, key, mtu, s).value)
  {
    hide Open, Unlock;
    PlainOpened(p, c, mtu, if p.block.None? then s else Unlock(p, c, key, s).value);
  }

  /** Encode, then decode: the same payload, seed and password. */
  lemma RoundTrip(p: Params, c: Crypto, mtu: nat, iv: seq<byte>, d: Packet)
    requires p.Valid() && HashOk(p, c) && CipherOk(c) && Carries(p, d)
    requires |d.payload| <= mtu && (p.block.Some? ==> |iv| == p.block.value)
    ensures Decode(p, c, true, mtu, Encode(p, c, iv, d)) == Some(d)
  {
    hide Decode, Plain, Pad;
    var s := Encode(p, c, iv, d);
    DecodeIff(p, c, true, mtu, s, d);
    if p.block.Some? {
      assert s[..p.block.value] == iv;
    }
  }

  // ---- sizes ----

  const INT_MAX: int := 0x7FFF_FFFF

  /** Size of the datagram for a payload, or -1. */
  function CarrierMtu(p: Params, payload: nat): int
    requires p.Valid()
  {
    var h := p.HeaderLen();
    if p.block.None? then (if payload > INT_MAX - h then -1 else h + payload)
    else
      var b := p.block.value;
      if payload > INT_MAX - (b + h + b) then -1 else b + AlignUp(h + payload + 1, b)
  }

  /** Largest payload for a datagram; negative if there is none. */
  function PayloadMtu(p: Params, carrier: nat): int
    requires p.Valid()
  {
    var h := p.HeaderLen();
    if p.block.None? then carrier - h
    else
      var b := p.block.value;
      AlignDown(carrier, b) - b - h - 1
  }

  /** The two size computations agree: a payload fits a carrier exactly if the carrier has room for its datagram. */
  lemma SizesAgree(p: Params, payload: nat, carrier: nat)
    requires p.Valid() && CarrierMtu(p, payload) >= 0
    ensures CarrierMtu(p, payload) <= INT_MAX
    ensures CarrierMtu(p, payload) <= carrier <==> payload <= PayloadMtu(p, carrier)
  {
    if p.block.Some? {
      var b, n := p.block.value, p.HeaderLen() + payload + 1;
      AlignUpIs(n, b);
      AlignDownIs(carrier, b);
      var u, w := AlignUp(n, b), AlignDown(carrier, b);
      ModOnce(u, b);
      BelowMultiple(u + b, carrier, b);
      if b <= w {
        SubMod(w - b, b);
      }
    }
  }

  /** A multiple is at most x exactly if it is at most x rounded down. */
  lemma BelowMultiple(u: nat, x: nat, b: nat)
    requires b > 0 && u % b == 0
    ensures u <= x <==> u <= AlignDown(x, b)
  {
    AlignDownIs(x, b);
    if AlignDown(x, b) < u {
      NextMultiple(AlignDown(x, b), u, b);
    }
  }

  lemma NextMultiple(w: nat, u: nat, b: nat)
    requires b > 0 && w % b == 0 && u % b == 0 && w < u
    ensures w + b <= u
  {
    EuclidIs(w, b);
    EuclidIs(u, b);
    LessMultiple(w / b, u / b, b);
    LessMultiple(u / b, w / b, b);
  }

  lemma PadLength(b: nat, x: seq<byte>)
    requires b > 0
    ensures |Pad(b, x)| == AlignUp(|x| + 1, b)
  {
    hide AlignUp;
    AlignUpIs(|x| + 1, b);
  }

  lemma AlignGrows(x: nat, y: nat, b: nat)
    requires x <= y && b > 0
    ensures AlignUp(x, b) <= AlignUp(y, b)
  {
    hide AlignUp;
    AlignUpIs(x, b);
    AlignUpIs(y, b);
  }

  /** A datagram has exactly the announced size, and a larger payload never a smaller one. */
  lemma EncodedSize(p: Params, c: Crypto, iv: seq<byte>, d: Packet, mtu: nat)
    requires p.Valid() && HashOk(p, c) && CipherOk(c) && Carries(p, d)
    requires |d.payload| <= mtu && CarrierMtu(p, mtu) >= 0 && (p.block.Some? ==> |iv| == p.block.value)
    ensures |Encode(p, c, iv, d)| == CarrierMtu(p, |d.payload|) <= CarrierMtu(p, mtu)
  {
    hide Plain, OtpData, AlignUp, Pad;
    PlainParts(p, c, d);
    if p.block.Some? {
      var b, h := p.block.value, p.HeaderLen();
      PadLength(b, Plain(p, c, d));
      AlignGrows(h + |d.payload| + 1, h + mtu + 1, b);
    }
  }
}
