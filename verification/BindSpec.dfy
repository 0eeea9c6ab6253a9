/** How two peers agree on a connection: each in turn offers its addresses to the other. */
module BindSpec {
  import opened Bytes

  /**
   * A bind address: whether binding to it works, and for each of its external addresses whether the other peer knows
   * the scope and can read the address.
   */
  datatype Addr = Addr(binds: bool, ext: seq<bool>)

  datatype Msg = YouConnect(index: nat, ext: seq<bool>) | CannotConnect | CannotBind

  /** One peer's side; `via` is the address of the other that it connected to, `relay` that it asked for a relay. */
  datatype Side = Side(binding: bool, pos: nat, via: Option<nat>, relay: bool)

  const Fresh: Side := Side(false, 0, None, false)

  predicate Offered(a: Addr) { a.ext != [] && a.binds }

  predicate Good(a: Addr) { Offered(a) && true in a.ext }

  /** The next address that is offered, from `pos` on. */
  function NextOffer(addrs: seq<Addr>, pos: nat): (i: nat)
    ensures pos <= |addrs| ==> pos <= i <= |addrs|
    decreases |addrs| - pos
  {
    if pos >= |addrs| then pos else if Offered(addrs[pos]) then pos else NextOffer(addrs, pos + 1)
  }

  /** What peer_bind leads to: an offer, or the end of binding. */
  function Bound(addrs: seq<Addr>, master: bool, d: Side): (Side, Msg) {
    var i := NextOffer(addrs, d.pos);
    if i < |addrs| then (d.(pos := i + 1), YouConnect(i, addrs[i].ext))
    else (d.(binding := false, pos := i, relay := d.relay || !master), CannotBind)
  }

  /** A message comes in; at most one goes out. */
  function Received(addrs: seq<Addr>, master: bool, d: Side, m: Msg): (Side, Option<Msg>) {
    match m
    case YouConnect(i, ext) =>
      if true in ext then (d.(via := Some(i)), None) else (d, Some(CannotConnect))
    case CannotConnect =>
      if d.binding then var r := Bound(addrs, master, d); (r.0, Some(r.1)) else (d, None)
    case CannotBind =>
      if master then (d.(relay := true), None)
      else var r := Bound(addrs, master, d.(binding := true, pos := 0)); (r.0, Some(r.1))
  }

  // ---- both sides and the channels between them ----

  datatype Sys = Sys(m: Side, s: Side, toM: seq<Msg>, toS: seq<Msg>)

  datatype Conf = Conf(m: seq<Addr>, s: seq<Addr>)

  /** The master starts binding; the slave waits. */
  function Start(c: Conf): Sys {
    var r := Bound(c.m, true, Fresh.(binding := true));
    Sys(r.0, Fresh, [], [r.1])
  }

  function AsSeq(o: Option<Msg>): seq<Msg> { if o.Some? then [o.value] else [] }

  /** Delivery of the first message to the master or to the slave. */
  function Deliver(c: Conf, y: Sys, master: bool): Sys
    requires if master then y.toM != [] else y.toS != []
  {
    if master then
      var r := Received(c.m, true, y.m, y.toM[0]);
      Sys(r.0, y.s, y.toM[1..], y.toS + AsSeq(r.1))
    else
      var r := Received(c.s, false, y.s, y.toS[0]);
      Sys(y.m, r.0, y.toM + AsSeq(r.1), y.toS[1..])
  }

  // ---- who ends up how ----

  /** The first good address from `pos` on. */
  function FirstGood(addrs: seq<Addr>, pos: nat): Option<nat>
    decreases |addrs| - pos
  {
    if pos >= |addrs| then None else if Good(addrs[pos]) then Some(pos) else FirstGood(addrs, pos + 1)
  }

  lemma {:induction false} FirstGoodIs(addrs: seq<Addr>, pos: nat, i: nat)
    requires pos <= i
    ensures FirstGood(addrs, pos) == Some(i) <==> i < |addrs| && Good(addrs[i]) && forall k :: pos <= k < i ==> !Good(addrs[k])
    decreases i - pos
  {
    if pos < i && pos < |addrs| && !Good(addrs[pos]) {
      FirstGoodIs(addrs, pos + 1, i);
    } else if pos == i && pos < |addrs| && !Good(addrs[pos]) {
      GoodLater(addrs, pos + 1);
    }
  }

  lemma {:induction false} GoodLater(addrs: seq<Addr>, pos: nat)
    ensures FirstGood(addrs, pos).Some? ==> FirstGood(addrs, pos).value >= pos
    decreases |addrs| - pos
  {
    if pos < |addrs| { GoodLater(addrs, pos + 1); }
  }

  /** Addresses passed over are not good. */
  lemma {:induction false} SkippedBad(addrs: seq<Addr>, pos: nat)
    ensures FirstGood(addrs, pos) == FirstGood(addrs, NextOffer(addrs, pos))
    ensures var i := NextOffer(addrs, pos); i < |addrs| ==> Offered(addrs[i])
    decreases |addrs| - pos
  {
    if pos < |addrs| && !Offered(addrs[pos]) {
      SkippedBad(addrs, pos + 1);
    }
  }

  /** The end of the negotiation: the slave connects, or else the master does, or else both need a relay. */
  predicate Outcome(c: Conf, y: Sys) {
    var i, j := FirstGood(c.m, 0), FirstGood(c.s, 0);
    if i.Some? then y.s.via == i && y.m.via.None? && !y.m.relay && !y.s.relay
    else if j.Some? then y.m.via == j && y.s.via.None? && !y.m.relay && !y.s.relay
    else y.m.via.None? && y.s.via.None? && y.m.relay && y.s.relay
  }

  /** `d` has just offered the address before its position, or has nothing left to offer. */
  predicate Trying(addrs: seq<Addr>, d: Side) {
    d.binding && d.via.None? && !d.relay && 0 < d.pos <= |addrs| && Offered(addrs[d.pos - 1])
  }

  predicate OfferOf(addrs: seq<Addr>, d: Side, m: Msg) {
    Trying(addrs, d) && m == YouConnect(d.pos - 1, addrs[d.pos - 1].ext) && FirstGood(addrs, 0) == FirstGood(addrs, d.pos - 1)
  }

  predicate RefusalOf(addrs: seq<Addr>, d: Side, m: Msg) {
    Trying(addrs, d) && m == CannotConnect && FirstGood(addrs, 0) == FirstGood(addrs, d.pos)
  }

  predicate Exhausted(addrs: seq<Addr>, d: Side, relay: bool) {
    !d.binding && d.via.None? && d.relay == relay && d.pos == |addrs| && FirstGood(addrs, 0).None?
  }

  /** The stages of the negotiation. */
  predicate Inv(c: Conf, y: Sys) {
    // the master's turn
    || (y.s == Fresh && y.toM == [] && |y.toS| == 1 && OfferOf(c.m, y.m, y.toS[0]))
    || (y.s == Fresh && y.toS == [] && |y.toM| == 1 && RefusalOf(c.m, y.m, y.toM[0]))
    || (y.s == Fresh && y.toM == [] && y.toS == [CannotBind] && Exhausted(c.m, y.m, false))
    // the slave's turn
    || (Exhausted(c.m, y.m, false) && y.toS == [] && |y.toM| == 1 && OfferOf(c.s, y.s, y.toM[0]))
    || (Exhausted(c.m, y.m, false) && y.toM == [] && |y.toS| == 1 && RefusalOf(c.s, y.s, y.toS[0]))
    || (Exhausted(c.m, y.m, false) && y.toS == [] && y.toM == [CannotBind] && Exhausted(c.s, y.s, true))
    // the end
    || (y.toM == [] && y.toS == [] && Outcome(c, y) && y.m.pos <= |c.m| && y.s.pos <= |c.s|)
  }

  lemma BoundOffers(addrs: seq<Addr>, master: bool, d: Side)
    requires d.binding && d.via.None? && !d.relay && d.pos <= |addrs| && FirstGood(addrs, 0) == FirstGood(addrs, d.pos)
    ensures var r := Bound(addrs, master, d);
            OfferOf(addrs, r.0, r.1) || (r.1 == CannotBind && Exhausted(addrs, r.0, !master))
  {
    hide FirstGood, NextOffer, Offered;
    SkippedBad(addrs, d.pos);
    NoneLeft(addrs, NextOffer(addrs, d.pos));
  }

  lemma NoneLeft(addrs: seq<Addr>, pos: nat)
    ensures pos >= |addrs| ==> FirstGood(addrs, pos).None?
  {
  }

  lemma StartInv(c: Conf)
    ensures Inv(c, Start(c))
  {
    hide FirstGood;
    BoundOffers(c.m, true, Fresh.(binding := true));
  }

  /** An offer is taken exactly if the address is good, and then it was the first good one. */
  lemma OfferTaken(addrs: seq<Addr>, d: Side, m: Msg)
    requires OfferOf(addrs, d, m)
    ensures m.YouConnect? && (if true in m.ext then FirstGood(addrs, 0) == Some(m.index) else RefusalOf(addrs, d, CannotConnect))
  {
  }

  lemma DeliverInv(c: Conf, y: Sys, master: bool)
    requires Inv(c, y) && if master then y.toM != [] else y.toS != []
    ensures Inv(c, Deliver(c, y, master))
  {
    hide FirstGood, OfferOf, RefusalOf, Exhausted, Bound;
    if master {
      DeliverToMaster(c, y);
    } else {
      DeliverToSlave(c, y);
    }
  }

  lemma DeliverToMaster(c: Conf, y: Sys)
    requires Inv(c, y) && y.toM != []
    ensures Inv(c, Deliver(c, y, true))
  {
    hide FirstGood;
    var m := y.toM[0];
    match m
    case YouConnect(_, _) => OfferTaken(c.s, y.s, m);
    case CannotConnect => BoundOffers(c.m, true, y.m);
    case CannotBind =>
  }

  lemma DeliverToSlave(c: Conf, y: Sys)
    requires Inv(c, y) && y.toS != []
    ensures Inv(c, Deliver(c, y, false))
  {
    hide FirstGood;
    var m := y.toS[0];
    match m
    case YouConnect(_, _) => OfferTaken(c.m, y.m, m);
    case CannotConnect => BoundOffers(c.s, false, y.s);
    case CannotBind => BoundOffers(c.s, false, y.s.(binding := true, pos := 0));
  }

  // ---- every run ends ----

  function OffersLeft(addrs: seq<Addr>, d: Side): int { |addrs| - d.pos }

  /** Deliveries still to come, at most. */
  function Rank(c: Conf, y: Sys): int {
    var m, s := OffersLeft(c.m, y.m), OffersLeft(c.s, y.s);
    if y.toS != [] then
      match y.toS[0]
      case YouConnect(_, _) => 2 * m + 2 * |c.s| + 4
      case CannotConnect => 2 * s + 2
      case CannotBind => 2 * |c.s| + 2
    else if y.toM != [] then
      match y.toM[0]
      case YouConnect(_, _) => 2 * s + 3
      case CannotConnect => 2 * m + 2 * |c.s| + 3
      case CannotBind => 1
    else 0
  }

  /** Whether a delivery makes the receiver send an offer. */
  predicate Offers(c: Conf, y: Sys, master: bool)
    requires if master then y.toM != [] else y.toS != []
  {
    var r := if master then Received(c.m, true, y.m, y.toM[0]) else Received(c.s, false, y.s, y.toS[0]);
    r.1.Some? && r.1.value.YouConnect?
  }

  /** A delivery lowers the rank, and an offer uses up an address. */
  lemma DeliverDescends(c: Conf, y: Sys, master: bool)
    requires Inv(c, y) && if master then y.toM != [] else y.toS != []
    ensures var z := Deliver(c, y, master);
            && Rank(c, z) < Rank(c, y)
            && OffersLeft(c.m, z.m) + OffersLeft(c.s, z.s) + (if Offers(c, y, master) then 1 else 0)
               <= OffersLeft(c.m, y.m) + OffersLeft(c.s, y.s)
  {
    hide FirstGood, Good, Outcome;
  }

  lemma RankNatural(c: Conf, y: Sys)
    requires Inv(c, y)
    ensures Rank(c, y) >= 0 && (Rank(c, y) == 0 <==> y.toM == [] && y.toS == [])
    ensures y.toM == [] && y.toS == [] <==> !(|y.toM + y.toS| == 1)
    ensures OffersLeft(c.m, y.m) >= 0 && OffersLeft(c.s, y.s) >= 0
  {
    hide FirstGood, Good, Outcome;
  }

  ghost predicate PossibleRun(c: Conf, y: Sys, sched: seq<bool>)
    decreases |sched|
  {
    sched == [] ||
    ((if sched[0] then y.toM != [] else y.toS != []) && PossibleRun(c, Deliver(c, y, sched[0]), sched[1..]))
  }

  function Run(c: Conf, y: Sys, sched: seq<bool>): Sys
    requires PossibleRun(c, y, sched)
    decreases |sched|
  {
    if sched == [] then y else Run(c, Deliver(c, y, sched[0]), sched[1..])
  }

  function CountOffers(c: Conf, y: Sys, sched: seq<bool>): nat
    requires PossibleRun(c, y, sched)
    decreases |sched|
  {
    if sched == [] then 0
    else (if Offers(c, y, sched[0]) then 1 else 0) + CountOffers(c, Deliver(c, y, sched[0]), sched[1..])
  }

  lemma {:induction false} RunDescends(c: Conf, y: Sys, sched: seq<bool>)
    requires Inv(c, y) && PossibleRun(c, y, sched)
    ensures var z := Run(c, y, sched);
            && Inv(c, z) && Rank(c, z) + |sched| <= Rank(c, y)
            && OffersLeft(c.m, z.m) + OffersLeft(c.s, z.s) + CountOffers(c, y, sched) <= OffersLeft(c.m, y.m) + OffersLeft(c.s, y.s)
    decreases |sched|
  {
    hide Inv, Deliver, Rank, Offers;
    if sched != [] {
      DeliverInv(c, y, sched[0]);
      DeliverDescends(c, y, sched[0]);
      RunDescends(c, Deliver(c, y, sched[0]), sched[1..]);
    }
  }

  /**
   * Whatever order messages are delivered in: at most one address is offered for each address there is, after at most
   * two deliveries an address and two more nothing is left to deliver, until then exactly one message is, and in the end
   * the slave has connected to the master's first good address, or else the master to the slave's, or else both have
   * asked for a relay.
   */
  lemma Negotiation(c: Conf, sched: seq<bool>)
    requires PossibleRun(c, Start(c), sched)
    ensures var z := Run(c, Start(c), sched);
            && |sched| <= 2 * (|c.m| + |c.s|) + 2
            && (if Start(c).toS[0].YouConnect? then 1 else 0) + CountOffers(c, Start(c), sched) <= |c.m| + |c.s|
            && (if z.toM == [] && z.toS == [] then Outcome(c, z) else |z.toM + z.toS| == 1)
  {
    hide Outcome, Deliver, Offers, FirstGood;
    StartInv(c);
    RunDescends(c, Start(c), sched);
    RankNatural(c, Run(c, Start(c), sched));
  }
}
