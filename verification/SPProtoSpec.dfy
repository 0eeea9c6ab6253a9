/** SPProto: datagrams with a one-time password, a hash, padding and encryption, each of them optional. */
module SPProtoSpec {
  import opened Align
  import opened Bytes

  const SEED_LEN: nat := 2
  const OTP_LEN: nat := 4

  /** `hash` and `block` are the sizes of the hash and of the cipher block, if there are such. */
  datatype Params = Params(otp: bool, hash: Option<nat>, block: Option<nat>) {
    predicate Valid() { block.Some? ==> block.value > 0 }
    function OtpLen(): nat { if otp then SEED_LEN + OTP_LEN else 0 }
    function HashLen(): nat { if hash.Some? then hash.value else 0 }
    function HeaderLen(): nat { OtpLen() + HashLen() }
  }

  /** The hash and the cipher, the latter under a fixed key: a function of the initialisation vector and the text. */
  datatype Crypto = Crypto(
    hash: seq<byte> -> seq<byte>,
    encrypt: (seq<byte>, seq<byte>) -> seq<byte>,
    decrypt: (seq<byte>, seq<byte>) -> seq<byte>)

  ghost predicate HashOk(p: Params, c: Crypto) {
    p.hash.Some? ==> forall x :: |c.hash(x)| == p.HashLen()
  }

  /** Encryption and decryption keep the length and are inverse to each other. */
  ghost predicate CipherOk(c: Crypto) {
    && (forall iv, x :: |c.encrypt(iv, x)| == |x| && c.decrypt(iv, c.encrypt(iv, x)) == x)
    && (forall iv, x :: |c.decrypt(iv, x)| == |x| && c.encrypt(iv, c.decrypt(iv, x)) == x)
  }

  // ---- padding ----

  function Zeros(n: nat): (s: seq<byte>)
    ensures |s| == n
  {
    seq(n, i => 0)
  }

  function Pad(b: nat, x: seq<byte>): seq<byte>
    requires b > 0
  {
    AlignUpIs(|x| + 1, b);
    x + [1] + Zeros(AlignUp(|x| + 1, b) - |x| - 1)
  }

  /** The backward scan: the position of the 1 that only zeros follow, not below `low`. */
  function Scan(y: seq<byte>, low: nat, i: nat): Option<nat>
    requires low <= i <= |y|
  {
    if i == low then None
    else if y[i - 1] == 1 then Some(i - 1)
    else if y[i - 1] != 0 then None
    else Scan(y, low, i - 1)
  }

  ghost predicate PadAt(y: seq<byte>, low: nat, k: nat) {
    low <= k < |y| && y[k] == 1 && forall j :: k < j < |y| ==> y[j] == 0
  }

  lemma {:induction false} ScanIs(y: seq<byte>, low: nat, i: nat, k: nat)
    requires low <= i <= |y| && forall j :: i <= j < |y| ==> y[j] == 0
    ensures Scan(y, low, i) == Some(k) <==> k < i && PadAt(y, low, k)
  {
    if i > low && y[i - 1] == 0 {
      ScanIs(y, low, i - 1, k);
    }
  }

  lemma PadFound(b: nat, x: seq<byte>)
    requires b > 0
    ensures var y := Pad(b, x);
            |y| >= b && |y| % b == 0 && |x| < |y| < |x| + 1 + b && x <= y && Scan(y, |y| - b, |y|) == Some(|x|)
  {
    AlignUpIs(|x| + 1, b);
    var y := Pad(b, x);
    assert |y| >= b by {
      if |y| < b { DivUnique(|y|, b, 0, |y|); }
    }
    ScanIs(y, |y| - b, |y|, |x|);
  }

  /** The scan finds the written pad whatever the text, and finds a pad only where one could have been written. */
  lemma PadScan(b: nat, x: seq<byte>, y: seq<byte>)
    requires b > 0
    ensures y == Pad(b, x) <==> |y| >= b && |y| % b == 0 && x <= y && Scan(y, |y| - b, |y|) == Some(|x|)
  {
    hide Scan;
    PadFound(b, x);
    if |y| >= b && |y| % b == 0 && x <= y && Scan(y, |y| - b, |y|) == Some(|x|) {
      ScanIs(y, |y| - b, |y|, |x|);
      MultiplesApart(|y|, |Pad(b, x)|, b);
    }
  }

  // ---- packets ----

  /** What a datagram carries; without one-time passwords the first two are empty. */
  datatype Packet = Packet(seed: nat, otp: seq<byte>, payload: seq<byte>)

  predicate Carries(p: Params, d: Packet) {
    if p.otp then d.seed < 0x1_0000 && |d.otp| == OTP_LEN else d.seed == 0 && d.otp == []
  }

  function OtpData(p: Params, d: Packet): (s: seq<byte>)
    requires Carries(p, d)
    ensures |s| == p.OtpLen()
  {
    if p.otp then ToLe(d.seed, SEED_LEN) + d.otp else []
  }

  /** Header and payload; the hash is taken over the packet with zeros in its own place. */
  function Plain(p: Params, c: Crypto, d: Packet): seq<byte>
    requires Carries(p, d)
  {
    var o := OtpData(p, d);
    o + (if p.hash.Some? then c.hash(o + Zeros(p.HashLen()) + d.payload) else []) + d.payload
  }

  function Encode(p: Params, c: Crypto, iv: seq<byte>, d: Packet): seq<byte>
    requires p.Valid() && Carries(p, d)
  {
    if p.block.Some? then iv + c.encrypt(iv, Pad(p.block.value, Plain(p, c, d))) else Plain(p, c, d)
  }

  /** Reading a plain packet. */
  function Open(p: Params, c: Crypto, mtu: nat, t: seq<byte>): Option<Packet> {
    var h := p.HeaderLen();
    if |t| < h || |t| - h > mtu then None
    else if p.hash.Some? && c.hash(t[..p.OtpLen()] + Zeros(p.HashLen()) + t[h..]) != t[p.OtpLen()..h] then None
    else if p.otp then Some(Packet(FromLe(t[..SEED_LEN]), t[SEED_LEN..SEED_LEN + OTP_LEN], t[h..]))
    else Some(Packet(0, [], t[h..]))
  }

  ghost function Unlock(p: Params, c: Crypto, key: bool, s: seq<byte>): Option<seq<byte>>
    requires p.Valid() && p.block.Some?
    requires CipherOk(c)
  {
    var b := p.block.value;
    if |s| % b != 0 || |s| < b || !key then None
    else
      var y := c.decrypt(s[..b], s[b..]);
      if |y| < b then None
      else
        var i := Scan(y, |y| - b, |y|);
        ScanIs(y, |y| - b, |y|, if i.Some? then i.value else 0);
        if i.None? then None else Some(y[..i.value])
  }

  ghost function Decode(p: Params, c: Crypto, key: bool, mtu: nat, s: seq<byte>): Option<Packet>
    requires p.Valid()
    requires CipherOk(c)
  {
    if p.block.None? then Open(p, c, mtu, s)
    else
      var t := Unlock(p, c, key, s);
      if t.None? then None else Open(p, c, mtu, t.value)
  }
}
