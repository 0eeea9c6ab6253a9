/** The SPProto encoder and decoder, working in place on their buffers. */
module SPProto {
  import opened Align
  import opened Bytes
  import opened SPProtoSpec
  import opened SPProtoRoundTrip

  /** Size of the plaintext buffer. */
  function BufferSize(p: Params, mtu: nat): nat
    requires p.Valid()
  {
    if p.block.Some? then AlignUp(p.HeaderLen() + mtu + 1, p.block.value) else 0
  }

  /** Replace the bytes from `at` on by as many others. */
  method Overwrite(t: array<byte>, at: nat, s: seq<byte>)
    requires at + |s| <= t.Length
    modifies t
    ensures t[..] == old(t[..])[..at] + s + old(t[..])[at + |s|..]
  {
    assert t[..][..at] == t[..at] && t[..][at + |s|..] == t[at + |s|..];
    CopyTo(t, at, s);
    assert t[..] == t[..at + |s|] + t[at + |s|..];
  }

  /** The hash of a packet whose hash field has been blanked. */
  method BlankAndHash(p: Params, c: Crypto, t: array<byte>, n: nat) returns (digest: seq<byte>)
    requires HashOk(p, c) && p.hash.Some? && p.HeaderLen() <= n <= t.Length
    modifies t
    ensures var o, h, was := p.OtpLen(), p.HeaderLen(), old(t[..]);
            && t[..] == was[..o] + Zeros(p.HashLen()) + was[h..]
            && digest == c.hash(was[..o] + Zeros(p.HashLen()) + was[h..n])
    ensures |digest| == p.HashLen()
  {
    hide Zeros;
    Overwrite(t, p.OtpLen(), Zeros(p.HashLen()));
    ghost var was, z := old(t[..]), Zeros(p.HashLen());
    var o, h := p.OtpLen(), p.HeaderLen();
    assert (was[..o] + z + was[h..])[..n] == was[..o] + z + was[h..n];
    assert t[..n] == t[..][..n];
    digest := c.hash(t[..n]);
  }

  class Encoder {
    const p: Params
    const c: Crypto
    const inputMtu: nat
    const buf: array<byte>

    constructor (p: Params, c: Crypto, inputMtu: nat)
      requires p.Valid() && HashOk(p, c) && CipherOk(c) && CarrierMtu(p, inputMtu) >= 0
      ensures Valid() && fresh(buf) && this.p == p && this.c == c && this.inputMtu == inputMtu
    {
      this.p := p;
      this.c := c;
      this.inputMtu := inputMtu;
      buf := new byte[BufferSize(p, inputMtu)];
    }

    ghost predicate Valid() {
      p.Valid() && HashOk(p, c) && CipherOk(c) && CarrierMtu(p, inputMtu) >= 0 && buf.Length == BufferSize(p, inputMtu)
    }

    method WriteOtp(t: array<byte>, seed: nat, otp: seq<byte>)
      requires Carries(p, Packet(seed, otp, [])) && p.OtpLen() <= t.Length
      modifies t
      ensures t[..] == OtpData(p, Packet(seed, otp, [])) + old(t[..])[p.OtpLen()..]
    {
      if p.otp {
        Overwrite(t, 0, ToLe(seed, SEED_LEN) + otp);
      }
    }

    method WriteHash(t: array<byte>, n: nat)
      requires HashOk(p, c) && p.HeaderLen() <= n <= t.Length
      modifies t
      ensures var o, h, was := p.OtpLen(), p.HeaderLen(), old(t[..]);
              t[..] == was[..o] + Hash(p, c, was[..o], was[h..n]) + was[h..]
    {
      hide Zeros;
      var o, h := p.OtpLen(), p.HeaderLen();
      if p.hash.None? {
        assert t[..] == t[..][..o] + [] + t[..][h..];
      } else {
        var digest := BlankAndHash(p, c, t, n);
        Middle(t[..], old(t[..])[..o], Zeros(p.HashLen()), old(t[..])[h..]);
        Overwrite(t, o, digest);
      }
    }

    /** Header in front of a payload that is already in place. */
    method WritePlain(t: array<byte>, inLen: nat, seed: nat, otp: seq<byte>)
      requires Valid() && Carries(p, Packet(seed, otp, [])) && p.HeaderLen() + inLen <= t.Length
      modifies t
      ensures t[..p.HeaderLen() + inLen] ==
              Plain(p, c, Packet(seed, otp, old(t[p.HeaderLen()..p.HeaderLen() + inLen])))
    {
      hide Plain, Hash, OtpData, CipherOk, HashOk, CarrierMtu, BufferSize, Carries;
      SameCarries(p, Packet(seed, otp, t[p.HeaderLen()..p.HeaderLen() + inLen]));
      var h, n := p.HeaderLen(), p.HeaderLen() + inLen;
      ghost var d := Packet(seed, otp, t[h..n]);
      ghost var was := t[..];
      WriteOtp(t, seed, otp);
      ghost var named := t[..];
      WriteHash(t, n);
      PlainFrom(p, c, d, was, named, t[..]);
      assert t[..][..n] == t[..n];
    }

    /** The padding loop. */
    method WritePad(t: array<byte>, n: nat) returns (m: nat)
      requires Valid() && p.block.Some? && AlignUp(n + 1, p.block.value) <= t.Length
      modifies t
      ensures m <= t.Length && t[..m] == Pad(p.block.value, old(t[..n]))
    {
      AlignUpIs(n + 1, p.block.value);
      m := AlignUp(n + 1, p.block.value);
      t[n] := 1;
      var i := n + 1;
      while i < m
        invariant n + 1 <= i <= m
        invariant t[..n] == old(t[..n]) && t[n] == 1
        invariant forall k :: n + 1 <= k < i ==> t[k] == 0
      {
        t[i] := 0;
        i := i + 1;
      }
    }

    /** The plaintext is built in the buffer, or in the output packet itself if it is not to be encrypted. */
    method EncodeWork(out: array<byte>, inLen: nat, seed: nat, otp: seq<byte>, iv: seq<byte>) returns (outLen: nat)
      requires Valid() && out != buf && out.Length >= CarrierMtu(p, inputMtu) && inLen <= inputMtu
      requires Carries(p, Packet(seed, otp, [])) && (p.block.Some? ==> |iv| == p.block.value)
      modifies buf, out
      ensures outLen <= CarrierMtu(p, inputMtu)
      ensures var t, h := if p.block.Some? then buf else out, p.HeaderLen();
              h + inLen <= t.Length && out[..outLen] == Encode(p, c, iv, Packet(seed, otp, old(t[h..h + inLen])))
    {
      hide Plain, HashOk, CipherOk, Pad, CarrierMtu, BufferSize, Carries;
      var t := if p.block.Some? then buf else out;
      var h := p.HeaderLen();
      Fits(p, inLen, inputMtu);
      ghost var d := Packet(seed, otp, t[h..h + inLen]);
      SameCarries(p, d);
      EncodedSize(p, c, iv, d, inputMtu);
      WritePlain(t, inLen, seed, otp);
      if p.block.Some? {
        var m := WritePad(t, h + inLen);
        outLen := Seal(t[..m], iv, out);
      } else {
        outLen := h + inLen;
      }
    }

    /** Vector and ciphertext into the output packet. */
    method Seal(text: seq<byte>, iv: seq<byte>, out: array<byte>) returns (outLen: nat)
      requires |iv| + |c.encrypt(iv, text)| <= out.Length
      modifies out
      ensures outLen <= out.Length && out[..outLen] == iv + c.encrypt(iv, text)
    {
      var cipher := c.encrypt(iv, text);
      CopyTo(out, 0, iv);
      CopyTo(out, |iv|, cipher);
      outLen := |iv| + |cipher|;
    }
  }

  /** The plaintext of a packet within the MTU, padded, fits the buffer; unpadded it fits the output. */
  lemma Fits(p: Params, inLen: nat, mtu: nat)
    requires p.Valid() && inLen <= mtu && CarrierMtu(p, mtu) >= 0
    ensures p.block.Some? ==>
              p.HeaderLen() + inLen < AlignUp(p.HeaderLen() + inLen + 1, p.block.value) <= BufferSize(p, mtu)
    ensures p.block.None? ==> p.HeaderLen() + inLen <= CarrierMtu(p, mtu)
  {
    if p.block.Some? {
      AlignUpIs(p.HeaderLen() + inLen + 1, p.block.value);
      AlignUpIs(p.HeaderLen() + mtu + 1, p.block.value);
    }
  }

  lemma SameCarries(p: Params, d: Packet)
    ensures Carries(p, d) <==> Carries(p, Packet(d.seed, d.otp, []))
  {
  }

  /** The hash field of a packet with this password and payload. */
  function Hash(p: Params, c: Crypto, o: seq<byte>, payload: seq<byte>): seq<byte> {
    if p.hash.Some? then c.hash(o + Zeros(p.HashLen()) + payload) else []
  }

  lemma Middle(s: seq<byte>, x: seq<byte>, y: seq<byte>, z: seq<byte>)
    requires |s| == |x| + |y| + |z|
    ensures s == x + y + z <==> s[..|x|] == x && s[|x|..|x| + |y|] == y && s[|x| + |y|..] == z
  {
    assert s == s[..|x|] + s[|x|..|x| + |y|] + s[|x| + |y|..];
  }

  /** Password and hash written in turn in front of the payload make the plaintext. */
  lemma PlainFrom(p: Params, c: Crypto, d: Packet, was: seq<byte>, named: seq<byte>, done: seq<byte>)
    requires HashOk(p, c) && Carries(p, d)
    requires var o, h, n := p.OtpLen(), p.HeaderLen(), p.HeaderLen() + |d.payload|;
             && n <= |was| && was[h..n] == d.payload
             && named == OtpData(p, Packet(d.seed, d.otp, [])) + was[o..]
             && done == named[..o] + Hash(p, c, named[..o], named[h..n]) + named[h..]
    ensures |done| == |was| && done[..p.HeaderLen() + |d.payload|] == Plain(p, c, d)
  {
    hide Zeros, OtpData;
    var o, h, n := p.OtpLen(), p.HeaderLen(), p.HeaderLen() + |d.payload|;
    SameOtp(p, d);
    var x := OtpData(p, d);
    Renamed(x, was, named, h, n);
    var y := Hash(p, c, x, d.payload);
    assert |y| == p.HashLen();
    hide Hash;
    Rehashed(x, y, was, done, h, n);
  }

  lemma Renamed(x: seq<byte>, was: seq<byte>, named: seq<byte>, h: nat, n: nat)
    requires |x| <= h <= n <= |was| && named == x + was[|x|..]
    ensures |named| == |was| && named[..|x|] == x && named[h..] == was[h..] && named[h..n] == was[h..n]
  {
  }

  lemma Rehashed(x: seq<byte>, y: seq<byte>, was: seq<byte>, done: seq<byte>, h: nat, n: nat)
    requires |x| + |y| == h <= n <= |was| && done == x + y + was[h..]
    ensures |done| == |was| && done[..n] == x + y + was[h..n]
  {
    assert was[h..][..n - h] == was[h..n];
  }

  lemma SameOtp(p: Params, d: Packet)
    requires Carries(p, d)
    ensures OtpData(p, Packet(d.seed, d.otp, [])) == OtpData(p, d)
  {
  }

  class Decoder {
    const p: Params
    const c: Crypto
    const outputMtu: nat
    const buf: array<byte>

    constructor (p: Params, c: Crypto, outputMtu: nat)
      requires p.Valid() && HashOk(p, c) && CipherOk(c) && CarrierMtu(p, outputMtu) >= 0
      ensures Valid() && fresh(buf) && this.p == p && this.c == c && this.outputMtu == outputMtu
    {
      this.p := p;
      this.c := c;
      this.outputMtu := outputMtu;
      buf := new byte[BufferSize(p, outputMtu)];
    }

    ghost predicate Valid() {
      p.Valid() && HashOk(p, c) && CipherOk(c) && CarrierMtu(p, outputMtu) >= 0 && buf.Length == BufferSize(p, outputMtu)
    }

    /** The backward scan of the last block. */
    method FindPad(t: array<byte>, n: nat) returns (i: Option<nat>)
      requires p.Valid() && p.block.Some? && p.block.value <= n <= t.Length
      ensures i == Scan(t[..n], n - p.block.value, n)
    {
      var low, k := n - p.block.value, n;
      while k > low
        invariant low <= k <= n && Scan(t[..n], low, n) == Scan(t[..n], low, k)
      {
        if t[k - 1] == 1 {
          return Some(k - 1);
        }
        if t[k - 1] != 0 {
          return None;
        }
        k := k - 1;
      }
      return None;
    }

    /** Compare the hash; the packet is left as it was. */
    method CheckHash(t: array<byte>, n: nat) returns (ok: bool)
      requires HashOk(p, c) && p.HeaderLen() <= n <= t.Length
      modifies t
      ensures t[..] == old(t[..])
      ensures var o, h, was := p.OtpLen(), p.HeaderLen(), old(t[..]);
              ok <==> p.hash.None? || Hash(p, c, was[..o], was[h..n]) == was[o..h]
    {
      hide Zeros;
      if p.hash.None? {
        return true;
      }
      var o, h := p.OtpLen(), p.HeaderLen();
      var field := t[..][o..h];
      ghost var was := t[..];
      var digest := BlankAndHash(p, c, t, n);
      Middle(t[..], was[..o], Zeros(p.HashLen()), was[h..]);
      Overwrite(t, o, field);
      Middle(was, was[..o], field, was[h..]);
      ok := field == digest;
    }

    /** Header and hash of a plaintext. */
    method ReadPlain(t: array<byte>, n: nat) returns (r: Option<Packet>)
      requires HashOk(p, c) && n <= t.Length
      modifies t
      ensures t[..] == old(t[..]) && r == Open(p, c, outputMtu, old(t[..n]))
    {
      hide Hash, HashOk, Open;
      var o, h := p.OtpLen(), p.HeaderLen();
      ghost var s := t[..n];
      OpenIs(p, c, outputMtu, s);
      if n < h || n - h > outputMtu {
        return None;
      }
      SliceOfSlice(t[..], 0, n, o, h);
      SliceOfSlice(t[..], 0, n, h, n);
      assert s[..o] == t[..][..o] && s[h..] == t[h..n];
      var seed, otp := 0, [];
      if p.otp {
        assert s[..SEED_LEN] == t[..SEED_LEN] && s[SEED_LEN..SEED_LEN + OTP_LEN] == t[SEED_LEN..SEED_LEN + OTP_LEN];
        seed, otp := FromLe(t[..SEED_LEN]), t[SEED_LEN..SEED_LEN + OTP_LEN];
      }
      var payload := t[h..n];
      var ok := CheckHash(t, n);
      return if ok then Some(Packet(seed, otp, payload)) else None;
    }

    /** decode_work_func: the datagram itself is left as it was. */
    method DecodeWork(input: array<byte>, inLen: nat, key: bool) returns (r: Option<Packet>)
      requires Valid() && input != buf && inLen <= input.Length && inLen <= CarrierMtu(p, outputMtu)
      modifies buf, input
      ensures input[..] == old(input[..])
      ensures r == Decode(p, c, key, outputMtu, old(input[..inLen]))
    {
      hide Open, HashOk, CarrierMtu, BufferSize, Scan;
      if p.block.None? {
        r := ReadPlain(input, inLen);
        return;
      }
      var b := p.block.value;
      if inLen % b != 0 || inLen < b || !key {
        return None;
      }
      var text := c.decrypt(input[..b], input[b..inLen]);
      ghost var s := input[..inLen];
      assert s[..b] == input[..b] && s[b..] == input[b..inLen];
      Room(p, outputMtu);
      CopyTo(buf, 0, text);
      assert buf[..|text|] == text;
      if |text| < b {
        return None;
      }
      var i := FindPad(buf, |text|);
      if i.None? {
        return None;
      }
      ScanIs(text, |text| - b, |text|, i.value);
      assert buf[..i.value] == text[..i.value];
      r := ReadPlain(buf, i.value);
    }
  }

  /** A datagram of the largest size decrypts into the buffer. */
  lemma Room(p: Params, mtu: nat)
    requires p.Valid() && p.block.Some? && CarrierMtu(p, mtu) >= 0
    ensures CarrierMtu(p, mtu) == p.block.value + BufferSize(p, mtu)
  {
  }

  lemma OpenIs(p: Params, c: Crypto, mtu: nat, t: seq<byte>)
    ensures var o, h := p.OtpLen(), p.HeaderLen();
            Open(p, c, mtu, t) ==
            if |t| < h || |t| - h > mtu then None
            else if !(p.hash.None? || Hash(p, c, t[..o], t[h..]) == t[o..h]) then None
            else if p.otp then Some(Packet(FromLe(t[..SEED_LEN]), t[SEED_LEN..SEED_LEN + OTP_LEN], t[h..]))
            else Some(Packet(0, [], t[h..]))
  {
  }
}
