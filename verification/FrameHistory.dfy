/** Where a frame goes, told from what has happened: who came and went, who sent from which address, who joined which group. */
module FrameHistory {
  import opened Bytes
  import opened Lists
  import G = GroupIndex
  import GS = GroupTableSpec
  import GH = GroupHistory
  import MS = MacTableSpec

  type Peer = nat

  const BROADCAST: nat := 0xFFFF_FFFF_FFFF

  /** A parsed frame: its destination address as a 48-bit number, and whether it carries IGMP. */
  datatype Frame = Frame(dest: nat, igmp: bool)

  /** The prefix 01:00:5e */
  predicate IsMulticast(mac: nat) { mac / 0x100_0000 == 0x01_005E }

  /** compute_sig_for_mac */
  function SigOfMac(mac: nat): G.Sig { mac % 0x80_0000 }

  /** `Heard` is a frame from a peer with this source address; the group events are reports, ends of membership and queries. */
  datatype Event =
    | Joined(peer: Peer) | Left(peer: Peer) | Heard(peer: Peer, mac: nat)
    | Reported(peer: Peer, group: nat, now: int) | Expired(entry: G.Entry) | Queried(group: nat, now: int)

  function AsMac(e: Event): seq<MS.Event> {
    match e
    case Joined(p) => [MS.AddPeer(p)]
    case Left(p) => [MS.RemovePeer(p)]
    case Heard(p, m) => [MS.Sent(p, m)]
    case _ => []
  }

  function AsGroup(e: Event): seq<GS.Event> {
    match e
    case Joined(p) => [GS.AddPeer(p)]
    case Left(p) => [GS.FreePeer(p)]
    case Heard(_, _) => []
    case Reported(p, g, now) => [GS.Report(p, g, now)]
    case Expired(x) => [GS.Expire(x)]
    case Queried(g, now) => [GS.Query(g, now)]
  }

  function Macs(h: seq<Event>): seq<MS.Event> { if h == [] then [] else Macs(h[..|h| - 1]) + AsMac(h[|h| - 1]) }

  function Groups(h: seq<Event>): seq<GS.Event> { if h == [] then [] else Groups(h[..|h| - 1]) + AsGroup(h[|h| - 1]) }

  predicate There(h: seq<Event>, p: Peer) {
    if h == [] then false
    else
      var e := h[|h| - 1];
      if e == Joined(p) then true else if e == Left(p) then false else There(h[..|h| - 1], p)
  }

  /** Both tables and the peer list are as they must be after this history. */
  ghost predicate Tells(max: nat, p: GS.Params, h: seq<Event>, macs: MS.Table, groups: GS.Groups, peers: seq<Peer>) {
    && 0 < max && MS.LegalRun(max, Macs(h)) && macs == MS.Run(max, Macs(h))
    && 0 < p.max && GS.Ok(p, GS.Initial) && GS.LegalRun(p, GS.Initial, Groups(h)) && groups == GS.Run(p, GS.Initial, Groups(h))
    && Distinct(peers) && forall q :: q in peers <==> There(h, q)
  }

  lemma More(h: seq<Event>, e: Event, q: Peer)
    ensures Macs(h + [e]) == Macs(h) + AsMac(e) && Groups(h + [e]) == Groups(h) + AsGroup(e)
    ensures There(h + [e], q) == if e == Joined(q) then true else if e == Left(q) then false else There(h, q)
  {
    assert (h + [e])[..|h|] == h;
  }

  lemma MacsMore(max: nat, h: seq<MS.Event>, e: MS.Event)
    requires MS.LegalRun(max, h) && MS.Legal(MS.Run(max, h), e)
    ensures MS.LegalRun(max, h + [e]) && MS.Run(max, h + [e]) == MS.Step(MS.Run(max, h), e)
  {
    hide MS.Step, MS.Legal;
    assert MS.Front(h + [e]) == h && MS.Last(h + [e]) == e;
  }

  lemma {:induction false} GroupsMore(p: GS.Params, t: GS.Groups, h: seq<GS.Event>, e: GS.Event)
    requires GS.Ok(p, t) && GS.LegalRun(p, t, h) && GS.Legal(GS.Run(p, t, h), e)
    ensures GS.LegalRun(p, t, h + [e]) && GS.Run(p, t, h + [e]) == GS.Step(p, GS.Run(p, t, h), e)
    decreases |h|
  {
    hide GS.Step, GS.Legal, GS.Ok;
    if h == [] {
      assert h + [e] == [e] && [e][1..] == [];
      GS.StepKeeps(p, t, e);
    } else {
      GS.StepKeeps(p, t, h[0]);
      GroupsMore(p, GS.Step(p, t, h[0]), h[1..], e);
      assert (h + [e])[1..] == h[1..] + [e];
    }
  }

  /** One more event, on either table or both. */
  lemma TellsMore(max: nat, p: GS.Params, h: seq<Event>, macs: MS.Table, groups: GS.Groups, peers: seq<Peer>,
                  e: Event, macs': MS.Table, groups': GS.Groups, peers': seq<Peer>)
    requires Tells(max, p, h, macs, groups, peers) && GS.Ok(p, groups)
    requires if AsMac(e) == [] then macs' == macs else MS.Legal(macs, AsMac(e)[0]) && macs' == MS.Step(macs, AsMac(e)[0])
    requires if AsGroup(e) == [] then groups' == groups
             else GS.Legal(groups, AsGroup(e)[0]) && groups' == GS.Step(p, groups, AsGroup(e)[0])
    requires Distinct(peers') && forall q :: q in peers' <==> if e == Joined(q) then true else if e == Left(q) then false else q in peers
    ensures Tells(max, p, h + [e], macs', groups', peers')
  {
    hide MS.Step, MS.Legal, MS.Run, MS.LegalRun, GS.Step, GS.Legal, GS.Run, GS.LegalRun, GS.Ok, There, Macs, Groups, Distinct;
    forall q ensures q in peers' <==> There(h + [e], q) { More(h, e, q); }
    More(h, e, 0);
    if AsMac(e) == [] { assert Macs(h) + [] == Macs(h); } else { MacsMore(max, Macs(h), AsMac(e)[0]); }
    if AsGroup(e) == [] { assert Groups(h) + [] == Groups(h); } else { GroupsMore(p, GS.Initial, Groups(h), AsGroup(e)[0]); }
  }

  lemma NothingTold(max: nat, p: GS.Params)
    requires 0 < max && 0 < p.max
    ensures Tells(max, p, [], MS.Table(max, map[]), GS.Initial, [])
  {
    GS.InitialOk(p);
  }

  // ---- where a frame goes ----

  /** Every peer that is there, once. */
  ghost predicate Everyone(h: seq<Event>, sent: seq<Peer>) { Distinct(sent) && forall q :: q in sent <==> There(h, q) }

  /**
   Broadcasts and IGMP go to everyone; a multicast to the peers that have a report for such a group which still counts; any
   other frame to the peer that last sent from its address, or to everyone if nobody has, or if that peer has since sent
   from as many other addresses as are kept.
   */
  ghost predicate Goes(max: nat, p: GS.Params, h: seq<Event>, f: Frame, sent: seq<Peer>) {
    if f.igmp || f.dest == BROADCAST then Everyone(h, sent)
    else if IsMulticast(f.dest) then
      forall q :: q in sent <==> exists g :: GH.Counts(p.max, Groups(h), q, g) && G.SigOf(g) == SigOfMac(f.dest)
    else match MS.LastSender(Macs(h), f.dest)
      case None => Everyone(h, sent)
      case Some(q) => sent == [q] || (|MS.Since(Macs(h), q, f.dest)| >= max && Everyone(h, sent))
  }

  /** The decision made from the two tables is the one the history calls for. */
  lemma DecisionGoes(max: nat, p: GS.Params, h: seq<Event>, macs: MS.Table, groups: GS.Groups, peers: seq<Peer>, f: Frame, sent: seq<Peer>)
    requires Tells(max, p, h, macs, groups, peers) && G.Inv(groups.index)
    requires if f.igmp || f.dest == BROADCAST then sent == peers
             else if IsMulticast(f.dest) then sent == GS.Destinations(groups.index, SigOfMac(f.dest))
             else (sent == peers && forall q: Peer :: !MS.Holds(macs, q, f.dest)) || (|sent| == 1 && MS.Holds(macs, sent[0], f.dest))
    ensures Goes(max, p, h, f, sent)
  {
    hide MS.Run, MS.LegalRun, GS.Run, GS.LegalRun, GS.Ok, G.Inv, There, GH.Counts, GS.Destinations, MS.LastSender, MS.Since;
    if f.igmp || f.dest == BROADCAST {
    } else if IsMulticast(f.dest) {
      forall q ensures q in sent <==> exists g :: GH.Counts(p.max, Groups(h), q, g) && G.SigOf(g) == SigOfMac(f.dest) {
        GH.DestinationsTellThePast(p, Groups(h), SigOfMac(f.dest), q);
      }
    } else {
      MS.LookupTellsThePast(max, Macs(h), f.dest);
    }
  }
}
