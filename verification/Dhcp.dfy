/** The DHCP client with its fields and handlers. */
module Dhcp {
  import opened Bytes
  import opened DhcpSpec
  import opened DhcpOptions

  const OP_REPLY: byte := 2
  const ETHERNET: byte := 1
  const MAC_LEN: nat := 6
  const MAGIC: nat := 0x63825363

  /** What is looked at of the fixed header; `chaddr` is its sixteen bytes. */
  datatype Header = Header(op: byte, htype: byte, hlen: byte, xid: nat, yiaddr: nat, chaddr: seq<byte>, magic: nat)

  /** A received packet, if it is long enough for a header. */
  datatype Packet = Packet(header: Header, options: seq<byte>)

  predicate ForUs(h: Header, mac: seq<byte>) {
    h.op == OP_REPLY && h.htype == ETHERNET && h.hlen == MAC_LEN && mac <= h.chaddr && h.magic == MAGIC
  }

  /** What a packet says to the client with address `mac`, if it is well-formed and for it. */
  ghost function Meant(pkt: Option<Packet>, mac: seq<byte>): Option<Reply> {
    if pkt.None? || !ForUs(pkt.value.header, mac) || Parse(pkt.value.options).None? then None
    else
      ParsedRead(pkt.value.options);
      ToReply(Parse(pkt.value.options).value, pkt.value.header.yiaddr)
  }

  class Client {
    const mac: seq<byte>
    ghost const late: nat
    var now: nat
    var mode: Mode
    var reset: Option<nat>
    var request: Option<nat>
    var renew: Option<nat>
    var renewRequest: Option<nat>
    var lease: Option<nat>
    var requests: nat
    var xid: nat
    var xidUses: nat
    var address: nat
    var server: nat
    var leaseTime: nat
    var sending: bool
    ghost var hist: History

    constructor (mac: seq<byte>, now: nat, newXid: nat, ghost late: nat)
      requires |mac| == MAC_LEN
      ensures Valid() && Abs() == Start(now, newXid).0 && !hist.up && this.late == late && this.mac == mac
    {
      this.mac := mac;
      this.late := late;
      this.now := now;
      mode := SentDiscover;
      reset, request, renew, renewRequest, lease := Some(now + RESET_TIMEOUT), None, None, None, None;
      requests, xid, xidUses := 0, newXid, 1;
      address, server, leaseTime := 0, 0, 0;
      sending := true;
      hist := History(0, 0, false);
    }

    ghost function Abs(): State
      reads this
    {
      State(now, mode, Timers(reset, request, renew, renewRequest, lease), requests, xid, xidUses, address, server, leaseTime, sending)
    }

    /** Timers, counters, reports and lease are as they have to be after this history, with timers at most `late` late. */
    ghost predicate Valid()
      reads this
    {
      |mac| == MAC_LEN && Inv(late, Abs(), hist)
    }

    /** From state `st` and history `h`, event `e` was handled and `out` put out, which reports nothing but a change. */
    ghost predicate Handled(st: State, h: History, e: Event, out: seq<Output>)
      reads this
    {
      (Abs(), out) == Step(st, e) && hist == Record(h, st, e) && Alternates(h.up, Reports(out))
    }

    /** Time passes, though not past a running timer by more than `late`. */
    method AdvanceTo(t: nat)
      requires Valid() && now <= t && OnTime(late, Abs().timers, t)
      modifies this`now, this`hist
      ensures Valid() && Handled(old(Abs()), old(hist), Advance(t), [])
      ensures IsUp(mode) ==> t <= hist.ackAt + 1000 * leaseTime + 2 * late
    {
      StepKeeps(late, Abs(), hist, Advance(t));
      hist := Record(hist, Abs(), Advance(t));
      now := t;
    }

    // ---- timers ----

    /** The reset timer only ever fires while resetting or discovering, and starts a transaction. */
    method ResetTimerHandler(newXid: nat) returns (out: seq<Output>)
      requires Valid() && Due(reset, now)
      modifies this
      ensures Valid() && Handled(old(Abs()), old(hist), ResetExpired(newXid), out)
      ensures !old(hist).up && !hist.up && mode.SentDiscover? && (old(mode).Resetting? ==> xid == newXid)
    {
      hide Record, Reports, Alternates;
      StepKeeps(late, Abs(), hist, ResetExpired(newXid));
      assert mode.Resetting? || mode.SentDiscover?;
      hist := Record(hist, Abs(), ResetExpired(newXid));
      reset := None;
      out := StartProcess(mode.Resetting?, newXid);
    }

    /** A request has gone unanswered: repeat it, or start over once four have. */
    method RequestTimerHandler(newXid: nat) returns (out: seq<Output>)
      requires Valid() && Due(request, now)
      modifies this
      ensures Valid() && Handled(old(Abs()), old(hist), RequestExpired(newXid), out)
      ensures !old(hist).up && !hist.up && (if old(requests) == MAX_REQUESTS then mode.SentDiscover? else mode.SentRequest?)
      ensures now >= old(hist).offerAt + REQUEST_TIMEOUT * old(requests)
    {
      hide Record, Reports, Alternates, Inv;
      StepKeeps(late, Abs(), hist, RequestExpired(newXid));
      RequestFacts(late, Abs(), hist, newXid);
      assert mode.SentRequest? && 1 <= requests <= MAX_REQUESTS;
      hist := Record(hist, Abs(), RequestExpired(newXid));
      request := None;
      if requests == MAX_REQUESTS {
        out := StartProcess(false, newXid);
        return;
      }
      out := SendMessage(Request(xid, address, Some(server)));
      AwaitAnswer(requests + 1);
    }

    /** Give the request that was just sent its time. */
    method AwaitAnswer(n: nat)
      modifies this`request, this`requests
      ensures request == Some(now + REQUEST_TIMEOUT) && requests == n
      ensures Abs() == old(Abs()).(timers := old(Abs()).timers.(request := Some(now + REQUEST_TIMEOUT)), requests := n)
    {
      request := Some(now + REQUEST_TIMEOUT);
      requests := n;
    }

    /** Half the lease is over: renew it, and be ready to give it up when it ends. */
    method RenewTimerHandler() returns (out: seq<Output>)
      requires Valid() && Due(renew, now)
      modifies this
      ensures Valid() && Handled(old(Abs()), old(hist), RenewExpired, out)
      ensures hist == old(hist) && hist.up && mode.Renewing? && hist.ackAt + 500 * leaseTime <= now
      ensures lease.Some? && hist.ackAt + 1000 * leaseTime <= lease.value <= hist.ackAt + 1000 * leaseTime + late
    {
      hide Reports, Alternates, Inv, Record;
      StepKeeps(late, Abs(), hist, RenewExpired);
      RenewFacts(late, Abs(), hist);
      assert mode.Finished?;
      hist := Record(hist, Abs(), RenewExpired);
      renew := None;
      out := SendMessage(Request(xid, address, None));
      AwaitRenewal();
    }

    /** Give the renewal its time, and the lease what is left of it. */
    method AwaitRenewal()
      modifies this`renewRequest, this`lease, this`mode
      ensures lease == Some(now + LeaseTimeout(leaseTime)) && mode == Renewing
      ensures Abs() == old(Abs()).(timers := old(Abs()).timers.(renewRequest := Some(now + RENEW_REQUEST_TIMEOUT),
                                                                lease := Some(now + LeaseTimeout(leaseTime))), mode := Renewing)
    {
      renewRequest := Some(now + RENEW_REQUEST_TIMEOUT);
      lease := Some(now + LeaseTimeout(leaseTime));
      mode := Renewing;
    }

    /** The renewal has gone unanswered: repeat it. */
    method RenewRequestTimerHandler() returns (out: seq<Output>)
      requires Valid() && Due(renewRequest, now)
      modifies this
      ensures Valid() && Handled(old(Abs()), old(hist), RenewRequestExpired, out)
      ensures hist == old(hist) && hist.up && mode.Renewing? && lease == old(lease)
    {
      hide Reports, Alternates;
      StepKeeps(late, Abs(), hist, RenewRequestExpired);
      NoReport(Request(xid, address, None));
      assert mode.Renewing?;
      hist := Record(hist, Abs(), RenewRequestExpired);
      out := SendMessage(Request(xid, address, None));
      renewRequest := Some(now + RENEW_REQUEST_TIMEOUT);
    }

    /** The lease is over, not before its time and at most twice `late` after: report it and start over. */
    method LeaseTimerHandler(newXid: nat) returns (out: seq<Output>)
      requires Valid() && Due(lease, now)
      modifies this
      ensures Valid() && Handled(old(Abs()), old(hist), LeaseExpired(newXid), out)
      ensures old(hist).up && !hist.up && Reports(out) == [Down] && xid == newXid && mode.SentDiscover?
      ensures hist.ackAt + 1000 * leaseTime <= now <= hist.ackAt + 1000 * leaseTime + 2 * late
    {
      hide Reports, Alternates;
      StepKeeps(late, Abs(), hist, LeaseExpired(newXid));
      NoReport(Discover(newXid));
      assert mode.Renewing?;
      hist := Record(hist, Abs(), LeaseExpired(newXid));
      lease := None;
      renewRequest := None;
      out := StartProcess(true, newXid);
      out := out + [Down];
    }

    // ---- packets ----

    method SendDone()
      requires Valid() && sending
      modifies this`sending, this`hist
      ensures Valid() && Handled(old(Abs()), old(hist), Sent, [])
    {
      StepKeeps(late, Abs(), hist, Sent);
      hist := Record(hist, Abs(), Sent);
      sending := false;
    }

    /** A packet changes nothing unless it is a well-formed reply to this client and to its current transaction. */
    method Receive(pkt: Option<Packet>) returns (out: seq<Output>)
      requires Valid()
      modifies this
      ensures Valid() && Alternates(old(hist).up, Reports(out))
      ensures var m := Meant(pkt, mac);
              if m.None? then Abs() == old(Abs()) && hist == old(hist) && out == []
              else Handled(old(Abs()), old(hist), Received(pkt.value.header.xid, m.value), out)
    {
      hide Inv, Step, Record, Reports, Alternates, Parse, Read, ToReply;
      out := [];
      QuietOutput(hist.up);
      ghost var m := Meant(pkt, mac);
      if m.Some? { StepKeeps(late, Abs(), hist, Received(pkt.value.header.xid, m.value)); }
      if pkt.None? {
        return;
      }
      var h := pkt.value.header;
      if mode.Resetting? {
        IgnoredReply(h.xid, m);
        return;
      }
      if h.op != OP_REPLY || h.htype != ETHERNET || h.hlen != MAC_LEN {
        return;
      }
      if h.xid != xid {
        IgnoredReply(h.xid, m);
        return;
      }
      if !(mac <= h.chaddr) || h.magic != MAGIC {
        return;
      }
      var f := ParseOptions(pkt.value.options);
      if f.None? {
        return;
      }
      ParsedRead(pkt.value.options);
      var r := ToReply(f.value, h.yiaddr);
      if r.Some? {
        TakenReply(r.value);
        hist := Record(hist, Abs(), Received(xid, r.value));
        out := HandleReply(r.value);
      }
    }

    lemma IgnoredReply(x: nat, m: Option<Reply>)
      requires mode.Resetting? || x != xid
      ensures m.Some? ==> Step(Abs(), Received(x, m.value)) == (Abs(), []) && Record(hist, Abs(), Received(x, m.value)) == hist
    {
    }

    lemma TakenReply(m: Reply)
      requires !mode.Resetting?
      ensures Step(Abs(), Received(xid, m)) == ReplyHandled(Abs(), m)
    {
    }

    // ---- parts of the handlers ----

    method SendMessage(m: Output) returns (out: seq<Output>)
      modifies this`sending
      ensures (Abs(), out) == Send(old(Abs()), m)
    {
      if sending {
        return [];
      }
      sending := true;
      return [m];
    }

    method StartProcess(force: bool, newXid: nat) returns (out: seq<Output>)
      modifies this`xid, this`xidUses, this`sending, this`reset, this`mode
      ensures (Abs(), out) == DhcpSpec.StartProcess(old(Abs()), force, newXid)
    {
      if force || xidUses == XID_REUSE_MAX {
        xid := newXid;
        xidUses := 0;
      }
      xidUses := xidUses + 1;
      out := SendMessage(Discover(xid));
      reset := Some(now + RESET_TIMEOUT);
      mode := SentDiscover;
    }

    method Nak(m: Reply) returns (out: seq<Output>)
      modifies this`request, this`renew, this`renewRequest, this`lease, this`reset, this`mode
      ensures (Abs(), out) == NakHandled(old(Abs()), m)
    {
      out := [];
      if !mode.SentRequest? && !mode.Finished? && !mode.Renewing? {
        return;
      }
      if m.server != server {
        return;
      }
      if mode.SentRequest? {
        request := None;
      } else if mode.Finished? {
        renew := None;
        out := [Down];
      } else {
        renewRequest := None;
        lease := None;
        out := [Down];
      }
      reset := Some(now + RESET_TIMEOUT);
      mode := Resetting;
    }

    /** A reply whose header and options have been read: the checks in the order of the code come to the same. */
    method HandleReply(m: Reply) returns (out: seq<Output>)
      modifies this
      ensures (Abs(), out) == ReplyHandled(old(Abs()), m) && hist == old(hist)
    {
      hide OfferHandled, AckHandled, NakHandled;
      if m.kind.Nak? {
        out := Nak(m);
        return;
      }
      out := [];
      if m.address == 0 || m.lease.None? || m.mask.None? {
        return;
      }
      if mode.SentDiscover? && m.kind.Offer? {
        out := HandleOffer(m);
      } else if (mode.SentRequest? || mode.Renewing?) && m.kind.Ack? {
        if m.address != address || m.server != server {
          return;
        }
        out := HandleAck(m.lease.value);
      }
    }

    method HandleOffer(m: Reply) returns (out: seq<Output>)
      modifies this`address, this`server, this`sending, this`reset, this`request, this`mode, this`requests
      ensures (Abs(), out) == OfferHandled(old(Abs()), m)
    {
      address := m.address;
      server := m.server;
      out := SendMessage(Request(xid, address, Some(server)));
      reset := None;
      mode := SentRequest;
      AwaitAnswer(1);
    }

    method HandleAck(time: nat) returns (out: seq<Output>)
      modifies this`leaseTime, this`renew, this`request, this`renewRequest, this`lease, this`mode
      ensures (Abs(), out) == AckHandled(old(Abs()), time)
    {
      leaseTime := time;
      renew := Some(now + RenewTimeout(leaseTime));
      if mode.SentRequest? {
        request := None;
        mode := Finished;
        out := [Up];
      } else {
        renewRequest := None;
        lease := None;
        mode := Finished;
        out := [];
      }
    }
  }

  lemma QuietOutput(up: bool)
    ensures Reports([]) == [] && Alternates(up, [])
  {
  }
}
