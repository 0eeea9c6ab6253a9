/** One peer's side of the negotiation, as the client keeps it. */
module Bind {
  import opened Bytes
  import opened BindSpec

  class PeerData {
    const addrs: seq<Addr>
    const myId: nat
    const id: nat
    var binding: bool
    var addrPos: nat
    var via: Option<nat>
    var relay: bool

    constructor (addrs: seq<Addr>, myId: nat, id: nat)
      ensures Valid() && Abs() == Fresh && this.addrs == addrs && this.myId == myId && this.id == id
    {
      this.addrs := addrs;
      this.myId := myId;
      this.id := id;
      binding := false;
      addrPos := 0;
      via := None;
      relay := false;
    }

    ghost predicate Valid()
      reads this
    {
      addrPos <= |addrs|
    }

    ghost function Abs(): Side
      reads this
    {
      Side(binding, addrPos, via, relay)
    }

    /** The two peers see this opposite ways. */
    predicate AmMaster() { myId > id }

    /** Offer the next address that can be bound and that has external addresses; without one, give up. */
    method Bind() returns (sent: Msg)
      requires Valid() && binding
      modifies this
      ensures Valid() && (Abs(), sent) == Bound(addrs, AmMaster(), old(Abs()))
    {
      while addrPos < |addrs|
        invariant Valid() && binding == old(binding) && via == old(via) && relay == old(relay)
        invariant NextOffer(addrs, addrPos) == NextOffer(addrs, old(addrPos))
      {
        var a := addrs[addrPos];
        if a.ext == [] {
          addrPos := addrPos + 1;
          continue;
        }
        var more := !a.binds;
        addrPos := addrPos + 1;
        if !more {
          return YouConnect(addrPos - 1, a.ext);
        }
      }
      binding := false;
      sent := CannotBind;
      if !AmMaster() {
        relay := true;
      }
    }

    method StartBinding() returns (sent: Msg)
      requires Valid()
      modifies this
      ensures Valid() && (Abs(), sent) == Bound(addrs, AmMaster(), old(Abs()).(binding := true, pos := 0))
    {
      binding := true;
      addrPos := 0;
      sent := Bind();
    }

    /** Connect to the first usable address of an offer. */
    method MsgYouConnect(index: nat, ext: seq<bool>) returns (sent: Option<Msg>, chosen: nat)
      requires Valid()
      modifies this`via
      ensures Valid() && (Abs(), sent) == Received(addrs, AmMaster(), old(Abs()), YouConnect(index, ext))
      ensures sent.None? ==> chosen < |ext| && ext[chosen] && forall k :: 0 <= k < chosen ==> !ext[k]
    {
      chosen := 0;
      while chosen < |ext| && !ext[chosen]
        invariant chosen <= |ext| && forall k :: 0 <= k < chosen ==> !ext[k]
      {
        chosen := chosen + 1;
      }
      if chosen == |ext| {
        sent := Some(CannotConnect);
      } else {
        via := Some(index);
        sent := None;
      }
    }

    method MsgCannotConnect() returns (sent: Option<Msg>)
      requires Valid()
      modifies this
      ensures Valid() && (Abs(), sent) == Received(addrs, AmMaster(), old(Abs()), CannotConnect)
    {
      sent := None;
      if binding {
        var m := Bind();
        sent := Some(m);
      }
    }

    method MsgCannotBind() returns (sent: Option<Msg>)
      requires Valid()
      modifies this
      ensures Valid() && (Abs(), sent) == Received(addrs, AmMaster(), old(Abs()), CannotBind)
    {
      sent := None;
      if !AmMaster() {
        var m := StartBinding();
        sent := Some(m);
      } else {
        relay := true;
      }
    }
  }
}
