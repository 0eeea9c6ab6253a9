/** PacketProto: packets over a byte stream, each a 16-bit length and its payload. */
module PacketProtoSpec {
  import opened Bytes

  const HEADER: nat := 2
  const MAX_PAYLOAD: nat := 0xFFFF

  function Encode(p: seq<byte>): seq<byte> { ToLe(|p|, HEADER) + p }

  function EncodeAll(ps: seq<seq<byte>>): seq<byte> {
    if ps == [] then [] else Encode(ps[0]) + EncodeAll(ps[1..])
  }

  predicate AllWithin(ps: seq<seq<byte>>, n: nat) { forall k :: 0 <= k < |ps| ==> |ps[k]| <= n }

  // ---- one look at the buffered bytes ----

  datatype Outcome = Packet(data: seq<byte>, rest: seq<byte>) | TooLarge | Incomplete

  function Process(mtu: nat, s: seq<byte>): Outcome {
    if |s| < HEADER then Incomplete
    else
      var n := FromLe(s[..HEADER]);
      if n > mtu then TooLarge
      else if |s| - HEADER < n then Incomplete
      else Packet(s[HEADER..HEADER + n], s[HEADER + n..])
  }

  // ---- a whole stream at once ----

  datatype Parsed = Parsed(packets: seq<seq<byte>>, rest: seq<byte>, ok: bool)

  function Parse(mtu: nat, s: seq<byte>): Parsed
    decreases |s|
  {
    match Process(mtu, s)
    case Packet(p, rest) =>
      var t := Parse(mtu, rest);
      t.(packets := [p] + t.packets)
    case TooLarge => Parsed([], s, false)
    case Incomplete => Parsed([], s, true)
  }

  lemma ProcessAppend(mtu: nat, s: seq<byte>, t: seq<byte>)
    requires !Process(mtu, s).Incomplete?
    ensures match Process(mtu, s)
            case Packet(p, rest) => Process(mtu, s + t) == Packet(p, rest + t)
            case _ => Process(mtu, s + t).TooLarge?
  {
    assert (s + t)[..HEADER] == s[..HEADER];
    if Process(mtu, s).Packet? {
      var n := FromLe(s[..HEADER]);
      assert (s + t)[HEADER..HEADER + n] == s[HEADER..HEADER + n];
      assert (s + t)[HEADER + n..] == s[HEADER + n..] + t;
    }
  }

  lemma RestShorter(mtu: nat, s: seq<byte>)
    requires Process(mtu, s).Packet?
    ensures |Process(mtu, s).rest| < |s|
  {
  }

  /** Parsing a stream in two parts, carrying the rest over, is parsing it whole. */
  lemma {:induction false} ParseAppend(mtu: nat, s: seq<byte>, t: seq<byte>)
    requires Parse(mtu, s).ok
    ensures var a, b := Parse(mtu, s), Parse(mtu, Parse(mtu, s).rest + t);
            Parse(mtu, s + t) == Parsed(a.packets + b.packets, b.rest, b.ok)
    decreases |s|
  {
    hide Process;
    var o := Process(mtu, s);
    if o.Packet? {
      ProcessAppend(mtu, s, t);
      assert |o.rest| < |s| by { RestShorter(mtu, s); }
      ParseAppend(mtu, o.rest, t);
      var a, b := Parse(mtu, o.rest), Parse(mtu, Parse(mtu, o.rest).rest + t);
      assert [o.data] + (a.packets + b.packets) == [o.data] + a.packets + b.packets;
    }
  }

  /** A stream that has gone wrong stays wrong. */
  lemma {:induction false} ParseFailed(mtu: nat, s: seq<byte>, t: seq<byte>)
    requires !Parse(mtu, s).ok
    ensures !Parse(mtu, s + t).ok
    decreases |s|
  {
    ProcessAppend(mtu, s, t);
    var o := Process(mtu, s);
    if o.Packet? {
      ParseFailed(mtu, o.rest, t);
    }
  }

  lemma ProcessEncoded(mtu: nat, p: seq<byte>, t: seq<byte>)
    requires |p| <= MAX_PAYLOAD
    ensures Process(mtu, Encode(p) + t) == if |p| <= mtu then Packet(p, t) else TooLarge
  {
    Range16();
    FromToLe(|p|, HEADER);
    var s := Encode(p) + t;
    assert s[..HEADER] == ToLe(|p|, HEADER);
    assert s[HEADER..HEADER + |p|] == p;
    assert s[HEADER + |p|..] == t;
  }

  /** A stream of packets parses without error exactly if all of them fit, and then into those packets. */
  lemma {:induction false} ParseEncoded(mtu: nat, ps: seq<seq<byte>>)
    requires AllWithin(ps, MAX_PAYLOAD)
    ensures Parse(mtu, EncodeAll(ps)).ok <==> AllWithin(ps, mtu)
    ensures AllWithin(ps, mtu) ==> Parse(mtu, EncodeAll(ps)) == Parsed(ps, [], true)
  {
    hide Process, Encode;
    if ps != [] {
      ProcessEncoded(mtu, ps[0], EncodeAll(ps[1..]));
      ParseEncoded(mtu, ps[1..]);
      assert ps == [ps[0]] + ps[1..];
    } else {
      assert Process(mtu, []).Incomplete? by { ProcessNothing(mtu); }
    }
  }

  lemma ProcessNothing(mtu: nat)
    ensures Process(mtu, []).Incomplete?
  {
  }

  // ---- the decoder as a machine ----

  /** `sending`: a packet is with the output; otherwise a receive is outstanding. */
  datatype State = State(pending: seq<byte>, sending: bool)

  datatype Event = Received(data: seq<byte>) | Sent | Reset

  predicate Possible(st: State, e: Event) {
    match e
    case Received(data) => !st.sending && data != []
    case Sent => st.sending
    case Reset => true
  }

  function After(mtu: nat, s: seq<byte>): State {
    match Process(mtu, s)
    case Packet(_, rest) => State(rest, true)
    case TooLarge => State([], false)
    case Incomplete => State(s, false)
  }

  function Emitted(mtu: nat, s: seq<byte>): seq<seq<byte>> {
    var o := Process(mtu, s);
    if o.Packet? then [o.data] else []
  }

  function Step(mtu: nat, st: State, e: Event): State {
    match e
    case Received(data) => After(mtu, st.pending + data)
    case Sent => After(mtu, st.pending)
    case Reset => State([], st.sending)
  }

  function StepOut(mtu: nat, st: State, e: Event): seq<seq<byte>> {
    match e
    case Received(data) => Emitted(mtu, st.pending + data)
    case Sent => Emitted(mtu, st.pending)
    case Reset => []
  }

  ghost predicate PossibleRun(mtu: nat, st: State, es: seq<Event>)
    decreases |es|
  {
    es == [] || (Possible(st, es[0]) && PossibleRun(mtu, Step(mtu, st, es[0]), es[1..]))
  }

  function Run(mtu: nat, st: State, es: seq<Event>): State
    decreases |es|
  {
    if es == [] then st else Run(mtu, Step(mtu, st, es[0]), es[1..])
  }

  function Outputs(mtu: nat, st: State, es: seq<Event>): seq<seq<byte>>
    decreases |es|
  {
    if es == [] then [] else StepOut(mtu, st, es[0]) + Outputs(mtu, Step(mtu, st, es[0]), es[1..])
  }

  /** The bytes a run takes in. */
  function Fed(es: seq<Event>): seq<byte> {
    if es == [] then [] else (if es[0].Received? then es[0].data else []) + Fed(es[1..])
  }

  ghost predicate NoReset(es: seq<Event>) { forall k :: 0 <= k < |es| ==> !es[k].Reset? }

  /** While a receive is outstanding no whole packet is buffered. */
  ghost predicate Settled(mtu: nat, st: State) { !st.sending ==> Process(mtu, st.pending).Incomplete? }

  lemma StepSettled(mtu: nat, st: State, e: Event)
    requires Settled(mtu, st) && Possible(st, e)
    ensures Settled(mtu, Step(mtu, st, e))
  {
  }

  lemma FedOne(e: Event)
    ensures Fed([e]) == if e.Received? then e.data else []
  {
    assert Fed([e][1..]) == [];
  }

  /** One step moves packets from what is buffered to what is emitted, and loses none. */
  lemma StepParses(mtu: nat, st: State, e: Event)
    requires !e.Reset? && Settled(mtu, st)
    requires Parse(mtu, st.pending + Fed([e])).ok
    ensures var st' := Step(mtu, st, e);
            var b, a := Parse(mtu, st.pending + Fed([e])), Parse(mtu, st'.pending);
            b.packets == StepOut(mtu, st, e) + a.packets && b.rest == a.rest && a.ok
  {
    hide Process;
    FedOne(e);
    assert st.pending + [] == st.pending;
    var s := st.pending + Fed([e]);
    assert Step(mtu, st, e) == After(mtu, s);
  }

  lemma {:induction false} RunParses(mtu: nat, st: State, es: seq<Event>)
    requires NoReset(es) && PossibleRun(mtu, st, es) && Settled(mtu, st)
    requires Parse(mtu, st.pending + Fed(es)).ok
    ensures var st' := Run(mtu, st, es);
            var a, b := Parse(mtu, st.pending + Fed(es)), Parse(mtu, st'.pending);
            && Settled(mtu, st')
            && a.packets == Outputs(mtu, st, es) + b.packets && a.rest == b.rest && b.ok
    decreases |es|
  {
    hide Process, Parse, Step, StepOut;
    if es == [] {
      assert st.pending + [] == st.pending;
      assert [] + Parse(mtu, st.pending).packets == Parse(mtu, st.pending).packets;
    } else {
      var e, rest := es[0], es[1..];
      var st' := Step(mtu, st, e);
      var s := st.pending + Fed([e]);
      FedOne(e);
      assert st.pending + Fed(es) == s + Fed(rest);
      if !Parse(mtu, s).ok {
        ParseFailed(mtu, s, Fed(rest));
      }
      StepParses(mtu, st, e);
      StepSettled(mtu, st, e);
      ParseAppend(mtu, s, Fed(rest));
      ParseAppend(mtu, st'.pending, Fed(rest));
      RunParses(mtu, st', rest);
      var b := Parse(mtu, Run(mtu, st', rest).pending).packets;
      var x, y := Parse(mtu, st'.pending).packets, Parse(mtu, Parse(mtu, s).rest + Fed(rest)).packets;
      calc {
        Parse(mtu, s + Fed(rest)).packets;
        (StepOut(mtu, st, e) + x) + y;
        StepOut(mtu, st, e) + (x + y);
        StepOut(mtu, st, e) + (Outputs(mtu, st', rest) + b);
        (StepOut(mtu, st, e) + Outputs(mtu, st', rest)) + b;
      }
    }
  }

  /** Nothing longer than the MTU is ever handed out. */
  lemma {:induction false} OutputsFit(mtu: nat, st: State, es: seq<Event>)
    ensures AllWithin(Outputs(mtu, st, es), mtu)
    decreases |es|
  {
    if es != [] {
      OutputsFit(mtu, Step(mtu, st, es[0]), es[1..]);
    }
  }

  /**
   * Output does not depend on how the stream was cut: whatever the receives were, if all packets fit then those handed
   * out are a prefix of those sent; and once the decoder is waiting for more, they are just those sent, if and only if
   * all fit.
   */
  lemma StreamDelivers(mtu: nat, ps: seq<seq<byte>>, es: seq<Event>)
    requires AllWithin(ps, MAX_PAYLOAD)
    requires NoReset(es) && PossibleRun(mtu, State([], false), es) && Fed(es) == EncodeAll(ps)
    ensures AllWithin(ps, mtu) ==> Outputs(mtu, State([], false), es) <= ps
    ensures !Run(mtu, State([], false), es).sending ==> (Outputs(mtu, State([], false), es) == ps <==> AllWithin(ps, mtu))
  {
    hide Parse, PossibleRun, Run, Outputs, EncodeAll;
    var st := State([], false);
    OutputsFit(mtu, st, es);
    if AllWithin(ps, mtu) {
      ProcessNothing(mtu);
      ParseEncoded(mtu, ps);
      assert [] + Fed(es) == Fed(es);
      RunParses(mtu, st, es);
      var last := Run(mtu, st, es);
      if !last.sending {
        WaitingParses(mtu, last.pending);
      }
    }
  }

  /** With a packet that does not fit, how the stream was cut does matter: a longer receive loses what follows it. */
  lemma CutMattersAfterError()
    ensures var st := State([], false);
            var whole, cut := [Received([4, 0, 0, 0])], [Received([4, 0]), Received([0, 0])];
            && PossibleRun(3, st, whole) && PossibleRun(3, st, cut) && Fed(whole) == Fed(cut) == EncodeBad()
            && Outputs(3, st, whole) == [] && Outputs(3, st, cut) == [[]]
  {
    hide Process, EncodeBad;
    BadProcessed();
    OneReceive(3, [4, 0, 0, 0]);
    var cut := [Received([4, 0]), Received([0, 0])];
    OneReceive(3, [0, 0]);
    assert cut[1..] == [Received([0, 0])];
    assert [] + [4, 0] == [4, 0];
    var none: seq<seq<byte>> := [];
    assert none + [[]] == [[]];
    BadFed();
  }

  lemma OneReceive(mtu: nat, data: seq<byte>)
    requires data != []
    ensures PossibleRun(mtu, State([], false), [Received(data)])
    ensures Outputs(mtu, State([], false), [Received(data)]) == Emitted(mtu, data) && Fed([Received(data)]) == data
  {
    hide Process, Emitted, After;
    var es := [Received(data)];
    assert es[1..] == [] && [] + data == data;
    assert Emitted(mtu, data) + [] == Emitted(mtu, data) && data + [] == data;
  }

  lemma BadFed()
    ensures Fed([Received([4, 0, 0, 0])]) == Fed([Received([4, 0]), Received([0, 0])]) == EncodeBad()
  {
    OneReceive(3, [4, 0, 0, 0]);
    OneReceive(3, [0, 0]);
    assert [Received([4, 0]), Received([0, 0])][1..] == [Received([0, 0])];
  }

  lemma BadProcessed()
    ensures Process(3, [4, 0, 0, 0]).TooLarge? && Process(3, [4, 0]).TooLarge? && Process(3, [0, 0]) == Packet([], [])
  {
    Lengths();
    var e: seq<byte> := [0, 0];
    assert e[..HEADER] == e && e[HEADER..HEADER + 0] == [] && e[HEADER + 0..] == [];
  }

  /** The length of a packet one byte longer than fits, then an empty packet. */
  function EncodeBad(): seq<byte> { [4, 0] + [0, 0] }

  lemma Lengths()
    ensures FromLe([4, 0]) == 4 && FromLe([0, 0]) == 0 && [4, 0, 0, 0][..HEADER] == [4, 0]
  {
    assert [4, 0][1..] == [0] && [0, 0][1..] == [0] && [0][1..] == [];
    assert FromLe([0]) == 0;
  }

  lemma WaitingParses(mtu: nat, s: seq<byte>)
    requires Process(mtu, s).Incomplete?
    ensures Parse(mtu, s) == Parsed([], s, true)
  {
  }
}
