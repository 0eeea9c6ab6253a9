/** The options of a DHCP reply: the format of section 3 of RFC 2132, and the loop that reads it. */
module DhcpOptions {
  import opened Bytes
  import opened DhcpSpec

  const PAD: byte := 0
  const END: byte := 255
  const SUBNET_MASK: byte := 1
  const ROUTER: byte := 3
  const DNS: byte := 6
  const LEASE_TIME: byte := 51
  const MESSAGE_TYPE: byte := 53
  const SERVER_ID: byte := 54

  const ADDR_LEN: nat := 4
  const MAX_DNS: nat := 16

  datatype Opt = Opt(typ: byte, val: seq<byte>)

  // ---- the format ----

  function Cons(o: Opt, os: Option<seq<Opt>>): Option<seq<Opt>> { if os.None? then None else Some([o] + os.value) }

  /** The options of a buffer: padding anywhere, one end mark, nothing but padding behind it. */
  function Split(s: seq<byte>, ended: bool): Option<seq<Opt>>
    decreases |s|
  {
    if s == [] then (if ended then Some([]) else None)
    else if s[0] == PAD then Split(s[1..], ended)
    else if ended then None
    else if s[0] == END then Split(s[1..], true)
    else if |s| < 2 || |s| - 2 < s[1] then None
    else Cons(Opt(s[0], s[2..2 + s[1]]), Split(s[2 + s[1]..], false))
  }

  function EncodeOpt(o: Opt): seq<byte>
    requires |o.val| < 256
  {
    [o.typ, |o.val|] + o.val
  }

  predicate Encodable(os: seq<Opt>) { forall k :: 0 <= k < |os| ==> |os[k].val| < 256 && os[k].typ != PAD && os[k].typ != END }

  /** Options, end mark, padding. */
  function Encode(os: seq<Opt>, pad: nat): seq<byte>
    requires Encodable(os)
  {
    if os == [] then [END] + seq(pad, i => PAD) else EncodeOpt(os[0]) + Encode(os[1..], pad)
  }

  lemma {:induction false} SplitPadding(pad: nat)
    ensures Split(seq(pad, i => PAD), true) == Some([])
  {
    if pad > 0 {
      assert seq(pad, i => PAD)[1..] == seq(pad - 1, i => PAD);
      SplitPadding(pad - 1);
    }
  }

  /** Any list of options is read back as it was written. */
  lemma {:induction false} SplitEncoded(os: seq<Opt>, pad: nat)
    requires Encodable(os)
    ensures Split(Encode(os, pad), false) == Some(os)
  {
    if os == [] {
      assert ([END] + seq(pad, i => PAD))[1..] == seq(pad, i => PAD);
      SplitPadding(pad);
    } else {
      var o, rest := os[0], Encode(os[1..], pad);
      var s := EncodeOpt(o) + rest;
      assert s[0] == o.typ && s[1] == |o.val| && s[2..2 + |o.val|] == o.val && s[2 + |o.val|..] == rest;
      SplitEncoded(os[1..], pad);
      assert os == [o] + os[1..];
    }
  }

  // ---- what is kept of them ----

  /** The value of the last option of a type. */
  function LastOf(os: seq<Opt>, typ: byte): Option<seq<byte>> {
    if os == [] then None
    else if os[|os| - 1].typ == typ then Some(os[|os| - 1].val)
    else LastOf(os[..|os| - 1], typ)
  }

  /** The known options have a fixed size, or a multiple of one. */
  predicate SizeOk(o: Opt) {
    if o.typ == MESSAGE_TYPE then |o.val| == 1
    else if o.typ in [SERVER_ID, LEASE_TIME, SUBNET_MASK, ROUTER] then |o.val| == ADDR_LEN
    else if o.typ == DNS then |o.val| % ADDR_LEN == 0
    else true
  }

  /** At most sixteen name servers are kept. */
  function Servers(val: seq<byte>): seq<seq<byte>> {
    var n := |val| / ADDR_LEN;
    seq(if n < MAX_DNS then n else MAX_DNS, i requires 0 <= i < n => val[i * ADDR_LEN..i * ADDR_LEN + ADDR_LEN])
  }

  datatype Fields = Fields(
    kind: Option<seq<byte>>, server: Option<seq<byte>>, lease: Option<seq<byte>>, mask: Option<seq<byte>>,
    router: Option<seq<byte>>, dns: seq<seq<byte>>)

  function FieldsOf(os: seq<Opt>): Fields {
    var d := LastOf(os, DNS);
    Fields(LastOf(os, MESSAGE_TYPE), LastOf(os, SERVER_ID), LastOf(os, LEASE_TIME), LastOf(os, SUBNET_MASK), LastOf(os, ROUTER),
           if d.Some? then Servers(d.value) else [])
  }

  ghost predicate AllSized(os: seq<Opt>) { forall k :: 0 <= k < |os| ==> SizeOk(os[k]) }

  /** What a reply's options amount to; none if they are malformed. */
  ghost function Parse(s: seq<byte>): Option<Fields> {
    var os := Split(s, false);
    if os.Some? && AllSized(os.value) then Some(FieldsOf(os.value)) else None
  }

  // ---- the loop ----

  /** Options already read in front of what is still to come. */
  function After(done: seq<Opt>, rest: Option<seq<Opt>>): Option<seq<Opt>> { if rest.None? then None else Some(done + rest.value) }

  lemma AfterCons(done: seq<Opt>, o: Opt, rest: Option<seq<Opt>>)
    ensures After(done, Cons(o, rest)) == After(done + [o], rest)
  {
    if rest.Some? {
      assert done + ([o] + rest.value) == (done + [o]) + rest.value;
    }
  }

  lemma LastAppend(done: seq<Opt>, o: Opt, typ: byte)
    ensures LastOf(done + [o], typ) == if o.typ == typ then Some(o.val) else LastOf(done, typ)
  {
    assert (done + [o])[..|done|] == done;
  }

  /** One more option: its field is replaced, the others stay. */
  function Taken(f: Fields, o: Opt): Fields {
    if o.typ == MESSAGE_TYPE then f.(kind := Some(o.val))
    else if o.typ == SERVER_ID then f.(server := Some(o.val))
    else if o.typ == LEASE_TIME then f.(lease := Some(o.val))
    else if o.typ == SUBNET_MASK then f.(mask := Some(o.val))
    else if o.typ == ROUTER then f.(router := Some(o.val))
    else if o.typ == DNS then f.(dns := Servers(o.val))
    else f
  }

  lemma TakenIs(done: seq<Opt>, o: Opt)
    ensures FieldsOf(done + [o]) == Taken(FieldsOf(done), o)
  {
    hide LastOf, Servers;
    LastAppend(done, o, MESSAGE_TYPE);
    LastAppend(done, o, SERVER_ID);
    LastAppend(done, o, LEASE_TIME);
    LastAppend(done, o, SUBNET_MASK);
    LastAppend(done, o, ROUTER);
    LastAppend(done, o, DNS);
  }

  method ReadServers(val: seq<byte>) returns (r: seq<seq<byte>>)
    ensures r == Servers(val)
  {
    var n := |val| / ADDR_LEN;
    r := [];
    var i := 0;
    while i < n && i < MAX_DNS
      invariant 0 <= i <= n && i <= MAX_DNS && |r| == i
      invariant forall k :: 0 <= k < i ==> r[k] == val[k * ADDR_LEN..k * ADDR_LEN + ADDR_LEN]
    {
      r := r + [val[i * ADDR_LEN..i * ADDR_LEN + ADDR_LEN]];
      i := i + 1;
    }
  }

  /** One option into the fields, if its size is right. */
  method TakeOption(f: Fields, o: Opt) returns (ok: bool, g: Fields)
    ensures ok <==> SizeOk(o)
    ensures ok ==> g == Taken(f, o)
  {
    g := f;
    if o.typ == MESSAGE_TYPE {
      if |o.val| != 1 { return false, f; }
      g := f.(kind := Some(o.val));
    } else if o.typ == SERVER_ID {
      if |o.val| != ADDR_LEN { return false, f; }
      g := f.(server := Some(o.val));
    } else if o.typ == LEASE_TIME {
      if |o.val| != ADDR_LEN { return false, f; }
      g := f.(lease := Some(o.val));
    } else if o.typ == SUBNET_MASK {
      if |o.val| != ADDR_LEN { return false, f; }
      g := f.(mask := Some(o.val));
    } else if o.typ == ROUTER {
      if |o.val| != ADDR_LEN { return false, f; }
      g := f.(router := Some(o.val));
    } else if o.typ == DNS {
      if |o.val| % ADDR_LEN != 0 { return false, f; }
      var servers := ReadServers(o.val);
      g := f.(dns := servers);
    }
    ok := true;
  }

  lemma NotAllSized(done: seq<Opt>, o: Opt, rest: Option<seq<Opt>>)
    requires !SizeOk(o)
    ensures After(done + [o], rest).Some? ==> !AllSized(After(done + [o], rest).value)
  {
    if rest.Some? {
      assert (done + [o] + rest.value)[|done|] == o;
    }
  }

  method ParseOptions(s: seq<byte>) returns (r: Option<Fields>)
    ensures r == Parse(s)
  {
    hide FieldsOf, Taken, SizeOk, Split, After, Cons, AllSized;
    var pos, ended := 0, false;
    var f := Fields(None, None, None, None, None, []);
    ghost var done: seq<Opt> := [];
    assert s[0..] == s;
    NoFields();
    NoneSized();
    AfterNothing(Split(s, false));
    while pos < |s|
      invariant 0 <= pos <= |s|
      invariant Split(s, false) == After(done, Split(s[pos..], ended)) && AllSized(done) && f == FieldsOf(done)
    {
      SplitAt(s, pos, ended);
      if s[pos] == PAD {
        pos := pos + 1;
        continue;
      }
      if ended {
        AfterNone(done);
        return None;
      }
      if s[pos] == END {
        pos := pos + 1;
        ended := true;
        continue;
      }
      if |s| - pos < 2 {
        AfterNone(done);
        return None;
      }
      var n := s[pos + 1];
      if n > |s| - pos - 2 {
        AfterNone(done);
        return None;
      }
      var o := Opt(s[pos], s[pos + 2..pos + 2 + n]);
      pos := pos + 2 + n;
      AfterCons(done, o, Split(s[pos..], false));
      var ok, g := TakeOption(f, o);
      if !ok {
        NotAllSized(done, o, Split(s[pos..], false));
        return None;
      }
      TakenIs(done, o);
      OneMoreSized(done, o);
      f := g;
      done := done + [o];
    }
    SplitEnd(s, pos, ended, done);
    return if ended then Some(f) else None;
  }

  /** What comes next decides what the rest amounts to. */
  lemma SplitAt(s: seq<byte>, pos: nat, ended: bool)
    requires pos < |s|
    ensures Split(s[pos..], ended) ==
            if s[pos] == PAD then Split(s[pos + 1..], ended)
            else if ended then None
            else if s[pos] == END then Split(s[pos + 1..], true)
            else if |s| - pos < 2 || s[pos + 1] > |s| - pos - 2 then None
            else Cons(Opt(s[pos], s[pos + 2..pos + 2 + s[pos + 1]]), Split(s[pos + 2 + s[pos + 1]..], false))
  {
    var t := s[pos..];
    assert t[1..] == s[pos + 1..];
    if |t| >= 2 && s[pos + 1] <= |t| - 2 {
      var n := s[pos + 1];
      assert t[2..2 + n] == s[pos + 2..pos + 2 + n] && t[2 + n..] == s[pos + 2 + n..];
    }
  }

  lemma SplitEnd(s: seq<byte>, pos: nat, ended: bool, done: seq<Opt>)
    requires pos == |s|
    ensures After(done, Split(s[pos..], ended)) == if ended then Some(done) else None
  {
    assert s[pos..] == [] && done + [] == done;
  }

  lemma AfterNone(done: seq<Opt>)
    ensures After(done, None) == None
  {
  }

  lemma NoneSized()
    ensures AllSized([])
  {
  }

  lemma OneMoreSized(done: seq<Opt>, o: Opt)
    requires AllSized(done) && SizeOk(o)
    ensures AllSized(done + [o])
  {
    hide SizeOk;
  }

  lemma NoFields()
    ensures FieldsOf([]) == Fields(None, None, None, None, None, [])
  {
  }

  lemma AfterNothing(os: Option<seq<Opt>>)
    ensures After([], os) == os
  {
    if os.Some? { assert [] + os.value == os.value; }
  }

  // ---- the reply ----

  function Be32(s: seq<byte>): nat
    requires |s| == ADDR_LEN
  {
    var a: nat, b: nat, c: nat, d: nat := s[0], s[1], s[2], s[3];
    ((a * 256 + b) * 256 + c) * 256 + d
  }

  predicate Read(f: Fields) {
    && (f.kind.Some? ==> |f.kind.value| == 1) && (f.server.Some? ==> |f.server.value| == ADDR_LEN)
    && (f.lease.Some? ==> |f.lease.value| == ADDR_LEN) && (f.mask.Some? ==> |f.mask.value| == ADDR_LEN)
  }

  function KindOf(k: byte): Option<Kind> {
    if k == 2 then Some(Offer) else if k == 5 then Some(Ack) else if k == 6 then Some(Nak) else None
  }

  /** A reply must say what it is and whose it is. */
  function ToReply(f: Fields, address: nat): Option<Reply>
    requires Read(f)
  {
    if f.kind.None? || KindOf(f.kind.value[0]).None? || f.server.None? then None
    else Some(Reply(KindOf(f.kind.value[0]).value, Be32(f.server.value), address,
                    if f.lease.Some? then Some(Be32(f.lease.value)) else None,
                    if f.mask.Some? then Some(Be32(f.mask.value)) else None))
  }

  lemma {:induction false} LastSized(os: seq<Opt>, typ: byte)
    requires AllSized(os) && LastOf(os, typ).Some?
    ensures SizeOk(Opt(typ, LastOf(os, typ).value))
  {
    if os[|os| - 1].typ != typ { LastSized(os[..|os| - 1], typ); }
  }

  /** Fields that were parsed have the sizes the conversion relies on. */
  lemma ParsedRead(s: seq<byte>)
    requires Parse(s).Some?
    ensures Read(Parse(s).value)
  {
    hide Split, LastOf, Servers;
    var os := Split(s, false).value;
    if LastOf(os, MESSAGE_TYPE).Some? { LastSized(os, MESSAGE_TYPE); }
    if LastOf(os, SERVER_ID).Some? { LastSized(os, SERVER_ID); }
    if LastOf(os, LEASE_TIME).Some? { LastSized(os, LEASE_TIME); }
    if LastOf(os, SUBNET_MASK).Some? { LastSized(os, SUBNET_MASK); }
  }
}
