/** The deciding part of FrameDecider: where a frame from the device goes, one destination at a time. */
module FrameDecider {
  import opened Bytes
  import opened Lists
  import G = GroupIndex
  import GS = GroupTableSpec
  import GT = GroupTable
  import opened H = FrameHistory
  import MS = MacTableSpec
  import MT = MacTable

  /** Where a datagram for a host group is sent on Ethernet: section 6.4 of RFC 1112. */
  function MacOfGroup(g: nat): nat { 0x01_005E * 0x100_0000 + g % 0x80_0000 }

  /** The signature of a group's Ethernet address is the group's, so the index is asked about the right groups. */
  lemma SignaturesAgree(g: nat)
    ensures IsMulticast(MacOfGroup(g)) && MacOfGroup(g) != BROADCAST && SigOfMac(MacOfGroup(g)) == G.SigOf(g)
  {
    assert MacOfGroup(g) == 0x02_00BC * 0x80_0000 + g % 0x80_0000;
  }

  datatype State = Idle | Unicast(peer: Peer) | Flood(current: Option<Peer>) | Multicast(rest: seq<G.Entry>)

  /** The peer after `p` on the list. */
  function Next(peers: seq<Peer>, p: Peer): Option<Peer> {
    if |peers| <= 1 then None
    else if peers[0] == p then Some(peers[1])
    else Next(peers[1..], p)
  }

  /** The peers from `c` to the end of the list. */
  function From(peers: seq<Peer>, c: Option<Peer>): seq<Peer> {
    if c.None? || peers == [] then [] else if peers[0] == c.value then peers else From(peers[1..], c)
  }

  lemma {:induction false} FromNext(peers: seq<Peer>, p: Peer)
    requires Distinct(peers) && p in peers
    ensures From(peers, Some(p)) == [p] + From(peers, Next(peers, p))
    ensures Next(peers, p).Some? ==> Next(peers, p).value in peers
  {
    if peers[0] == p {
      if |peers| > 1 {
        assert From(peers, Some(peers[1])) == From(peers[1..], Some(peers[1]));
        assert peers == [p] + peers[1..];
      }
    } else {
      assert peers == [peers[0]] + peers[1..];
      FromNext(peers[1..], p);
      var n := Next(peers[1..], p);
      if n.Some? { assert n.value in peers[1..] && peers[0] != n.value; }
    }
  }

  lemma FromNone(peers: seq<Peer>, c: Option<Peer>)
    requires c.None?
    ensures From(peers, c) == []
  {
  }

  /** The destinations still to be handed out in a state. */
  ghost function Remaining(peers: seq<Peer>, s: State): seq<Peer> {
    match s
    case Idle => []
    case Unicast(p) => [p]
    case Flood(c) => From(peers, c)
    case Multicast(rest) => AllPeers(rest)
  }

  function AllPeers(l: seq<G.Entry>): seq<Peer> { if l == [] then [] else [l[0].peer] + AllPeers(l[1..]) }

  lemma {:induction false} SamePeers(l: seq<G.Entry>)
    ensures GS.PeersOf(l) == AllPeers(l)
  {
    if l != [] {
      SamePeers(l[1..]);
      PeersCons(l);
    }
  }

  lemma {:induction false} PeersCons(l: seq<G.Entry>)
    requires l != []
    ensures GS.PeersOf(l) == [l[0].peer] + GS.PeersOf(l[1..])
  {
    if |l| == 1 {
      assert l[..0] == [] && l[1..] == [];
    } else {
      var f := l[..|l| - 1];
      PeersCons(f);
      assert f[1..] == l[1..][..|l| - 2];
    }
  }

  /** The peer list has every peer the tables know, once. */
  ghost predicate Linked(peers: seq<Peer>, a: set<Peer>, b: set<Peer>) {
    Distinct(peers) && (forall p: Peer :: p in peers <==> p in a) && a == b
  }

  ghost predicate FloodOk(peers: seq<Peer>, s: State) {
    s.Flood? && s.current.Some? ==> s.current.value in peers
  }

  lemma LinkedAppend(peers: seq<Peer>, a: set<Peer>, b: set<Peer>, p: Peer, s: State)
    requires Linked(peers, a, b) && p !in peers && FloodOk(peers, s)
    ensures a == b && p !in a && Linked(peers + [p], a + {p}, a + {p}) && FloodOk(peers + [p], s)
  {
  }

  lemma LinkedDrop(peers: seq<Peer>, a: set<Peer>, b: set<Peer>, p: Peer, s: State)
    requires Linked(peers, a, b) && p in peers && FloodOk(peers, s)
    ensures a == b && p in a && Linked(Without(peers, p), a - {p}, a - {p})
    ensures Distinct(peers) && FloodOk(Without(peers, p), Freed(peers, s, p))
  {
    hide Next, From, Without;
    FromNext(peers, p);
    NextDiffers(peers, p);
    WithoutIs(peers, p);
  }

  lemma {:induction false} NextDiffers(s: seq<Peer>, p: Peer)
    requires Distinct(s)
    ensures Next(s, p) != Some(p)
  {
    if |s| > 1 && s[0] != p {
      NextDiffers(s[1..], p);
    }
  }

  function OthersOf(l: seq<G.Entry>, p: Peer): seq<G.Entry> {
    if l == [] then [] else if l[0].peer == p then OthersOf(l[1..], p) else [l[0]] + OthersOf(l[1..], p)
  }

  /** What becomes of a decision when a peer goes. */
  function Freed(peers: seq<Peer>, s: State, p: Peer): State {
    match s
    case Idle => Idle
    case Unicast(q) => if q == p then Idle else s
    case Flood(c) => if c == Some(p) then Flood(Next(peers, p)) else s
    case Multicast(rest) => Multicast(OthersOf(rest, p))
  }

  function Others(s: seq<Peer>, p: Peer): seq<Peer> {
    if s == [] then [] else (if s[0] == p then [] else [s[0]]) + Others(s[1..], p)
  }

  lemma {:induction false} OthersAbsent(s: seq<Peer>, p: Peer)
    requires p !in s
    ensures Others(s, p) == s
  {
    if s != [] {
      OthersAbsent(s[1..], p);
      assert s == [s[0]] + s[1..];
    }
  }

  lemma {:induction false} OthersWithout(s: seq<Peer>, p: Peer)
    requires Distinct(s)
    ensures Others(s, p) == Without(s, p)
  {
    if s != [] {
      assert s == [s[0]] + s[1..];
      if s[0] == p { OthersAbsent(s[1..], p); } else { OthersWithout(s[1..], p); }
    }
  }

  lemma {:induction false} FromIn(peers: seq<Peer>, c: Option<Peer>, p: Peer)
    ensures p in From(peers, c) ==> p in peers
  {
    if peers != [] { FromIn(peers[1..], c, p); }
  }

  lemma {:induction false} FromWithout(peers: seq<Peer>, c: Option<Peer>, p: Peer)
    requires Distinct(peers) && c != Some(p)
    ensures From(Without(peers, p), c) == Others(From(peers, c), p)
  {
    if peers != [] && c.Some? {
      var rest := peers[1..];
      assert peers == [peers[0]] + rest;
      if peers[0] == c.value {
        OthersWithout(peers, p);
      } else if peers[0] == p {
        FromIn(rest, c, p);
        OthersAbsent(From(rest, c), p);
      } else {
        FromWithout(rest, c, p);
        assert Without(peers, p)[1..] == Without(rest, p);
      }
    }
  }

  lemma {:induction false} AllPeersOthers(l: seq<G.Entry>, p: Peer)
    ensures AllPeers(OthersOf(l, p)) == Others(AllPeers(l), p)
  {
    if l != [] {
      AllPeersOthers(l[1..], p);
      assert AllPeers(l)[1..] == AllPeers(l[1..]);
      if l[0].peer != p { assert OthersOf(l, p)[1..] == OthersOf(l[1..], p); }
    }
  }

  /** What is still to be handed out is what was, without the peer that went. */
  lemma FreedRemaining(peers: seq<Peer>, s: State, p: Peer)
    requires Distinct(peers) && p in peers
    ensures Remaining(Without(peers, p), Freed(peers, s, p)) == Others(Remaining(peers, s), p)
  {
    match s
    case Idle =>
    case Unicast(q) => assert [q][1..] == [];
    case Flood(c) =>
      if c == Some(p) {
        NextDiffers(peers, p);
        FromNext(peers, p);
        FromWithout(peers, Next(peers, p), p);
        var t := From(peers, Next(peers, p));
        assert ([p] + t)[1..] == t;
      } else {
        FromWithout(peers, c, p);
      }
    case Multicast(rest) => AllPeersOthers(rest, p);
  }

  lemma FreePeerKeys(g: GT.GroupTable, q: Peer)
    requires g.Valid() && q in g.used
    ensures GS.Ok(g.P(), g.Abs()) && GS.Legal(g.Abs(), GS.FreePeer(q))
    ensures GS.Step(g.P(), g.Abs(), GS.FreePeer(q)).lists.Keys == g.used.Keys - {q}
  {
    hide G.Inv, GS.Emptied, GS.Bounded, GS.Matches;
    GS.EmptiedIs(g.P(), g.Abs(), q);
  }

  lemma GroupsOk(g: GT.GroupTable)
    requires g.Valid()
    ensures GS.Ok(g.P(), g.Abs())
  {
  }

  lemma LinkedDistinct(peers: seq<Peer>, a: set<Peer>, b: set<Peer>)
    requires Linked(peers, a, b)
    ensures Distinct(peers)
  {
  }

  /** Only peers coming and going change whose groups are kept. */
  lemma GroupKeys(g: GT.GroupTable, e: GS.Event)
    requires GS.Ok(g.P(), g.Abs()) && GS.Legal(g.Abs(), e) && !e.AddPeer? && !e.FreePeer?
    ensures GS.Step(g.P(), g.Abs(), e).lists.Keys == g.used.Keys
  {
    hide G.Inv, GS.Bounded, GS.Matches;
  }

  lemma HolderIs(m: MT.MacTable, mac: nat)
    requires m.Valid()
    ensures mac in m.tree ==> MS.Holds(m.Abs(), m.tree[mac], mac)
    ensures mac !in m.tree ==> forall q: Peer :: !MS.Holds(m.Abs(), q, mac)
  {
  }

  function Reports(p: Peer, gs: seq<nat>, now: int): seq<Event> {
    if gs == [] then [] else Reports(p, gs[..|gs| - 1], now) + [Reported(p, gs[|gs| - 1], now)]
  }

  lemma NoReports(p: Peer, gs: seq<nat>, now: int)
    ensures Reports(p, gs[..0], now) == []
  {
  }

  lemma MoreReports(p: Peer, gs: seq<nat>, i: nat, now: int)
    requires i < |gs|
    ensures Reports(p, gs[..i + 1], now) == Reports(p, gs[..i], now) + [Reported(p, gs[i], now)]
  {
    assert gs[..i + 1][..i] == gs[..i];
  }

  class Decider {
    const macs: MT.MacTable
    const groups: GT.GroupTable
    /** peers_list */
    var peers: seq<Peer>
    var state: State
    /** all that has happened */
    ghost var past: seq<Event>

    ghost predicate Valid()
      reads this, macs, groups
      ensures Valid() ==> G.Inv(groups.IndexOf())
    {
      && macs.Valid() && groups.Valid() && Linked(peers, macs.used.Keys, groups.used.Keys) && FloodOk(peers, state)
      && Tells(macs.max, groups.P(), past, macs.Abs(), groups.Abs(), peers)
    }

    constructor (macs: MT.MacTable, groups: GT.GroupTable)
      requires macs.Valid() && groups.Valid() && macs.used == map[] && groups.Abs() == GS.Initial
      ensures Valid() && state.Idle? && peers == [] && past == [] && this.macs == macs && this.groups == groups
    {
      this.macs := macs;
      this.groups := groups;
      peers := [];
      state := Idle;
      past := [];
      new;
      NothingTold(macs.max, groups.P());
    }

    /** FrameDeciderPeer_Init */
    method PeerInit(p: Peer)
      requires Valid() && p !in peers
      modifies this, macs, groups
      ensures Valid() && peers == old(peers) + [p] && past == old(past) + [Joined(p)]
      ensures macs.Abs() == MS.Step(old(macs.Abs()), MS.AddPeer(p))
      ensures groups.Abs() == GS.Step(groups.P(), old(groups.Abs()), GS.AddPeer(p))
    {
      hide MT.MacTable.Valid, GT.GroupTable.Valid, Linked, FloodOk, GS.Ok, G.Inv, Tells;
      LinkedAppend(peers, macs.used.Keys, groups.used.Keys, p, state);
      GroupsOk(groups);
      ghost var a, b := macs.used.Keys, groups.used.Keys;
      ghost var ma, ga, ps := macs.Abs(), groups.Abs(), peers;
      macs.PeerInit(p);
      groups.PeerInit(p);
      peers := peers + [p];
      assert macs.used.Keys == a + {p};
      assert groups.used.Keys == b + {p};
      LinkedDistinct(peers, macs.used.Keys, groups.used.Keys);
      TellsMore(macs.max, groups.P(), past, ma, ga, ps, Joined(p), macs.Abs(), groups.Abs(), peers);
      past := past + [Joined(p)];
    }

    /** FrameDeciderPeer_Analyze: the source address is learned, and then the groups reported, in turn. */
    method Analyze(p: Peer, source: nat, reports: seq<nat>, now: int)
      requires Valid() && p in peers
      modifies this`past, macs, groups
      ensures Valid() && past == old(past) + [Heard(p, source)] + Reports(p, reports, now)
    {
      hide Valid, Reports;
      Learn(p, source);
      var i := 0;
      NoReports(p, reports, now);
      assert past == old(past) + [Heard(p, source)] + [];
      while i < |reports|
        invariant 0 <= i <= |reports| && Valid() && past == old(past) + [Heard(p, source)] + Reports(p, reports[..i], now)
      {
        MoreReports(p, reports, i, now);
        Assoc(old(past) + [Heard(p, source)], Reports(p, reports[..i], now), [Reported(p, reports[i], now)]);
        Report(p, reports[i], now);
        i := i + 1;
      }
      assert reports[..i] == reports;
    }

    method Learn(p: Peer, source: nat)
      requires Valid() && p in peers
      modifies this`past, macs
      ensures Valid() && past == old(past) + [Heard(p, source)]
    {
      hide MT.MacTable.Valid, GT.GroupTable.Valid, FloodOk, GS.Ok, G.Inv, Tells;
      GroupsOk(groups);
      ghost var ma := macs.Abs();
      macs.AddMacToPeer(p, source);
      assert macs.used.Keys == ma.lists.Keys;
      TellsMore(macs.max, groups.P(), past, ma, groups.Abs(), peers, Heard(p, source), macs.Abs(), groups.Abs(), peers);
      past := past + [Heard(p, source)];
    }

    method Report(p: Peer, g: nat, now: int)
      requires Valid() && p in peers
      modifies this`past, groups
      ensures Valid() && past == old(past) + [Reported(p, g, now)]
    {
      hide MT.MacTable.Valid, GT.GroupTable.Valid, FloodOk, GS.Ok, G.Inv, Tells, GS.Join;
      GroupsOk(groups);
      ghost var ga := groups.Abs();
      GroupKeys(groups, GS.Report(p, g, now));
      groups.AddGroupToPeer(p, g, now);
      TellsMore(macs.max, groups.P(), past, macs.Abs(), ga, peers, Reported(p, g, now), macs.Abs(), groups.Abs(), peers);
      past := past + [Reported(p, g, now)];
    }

    /** group_entry_timer_handler */
    method Expire(e: G.Entry)
      requires Valid() && GS.Member(groups.Abs(), e)
      modifies this`past, groups
      ensures Valid() && past == old(past) + [Expired(e)]
    {
      hide MT.MacTable.Valid, GT.GroupTable.Valid, FloodOk, GS.Ok, G.Inv, Tells, GS.Leave;
      GroupsOk(groups);
      ghost var ga := groups.Abs();
      GroupKeys(groups, GS.Expire(e));
      groups.RemoveGroupEntry(e);
      TellsMore(macs.max, groups.P(), past, macs.Abs(), ga, peers, Expired(e), macs.Abs(), groups.Abs(), peers);
      past := past + [Expired(e)];
    }

    /** What a query for a group in a frame from the device does. */
    method Query(g: nat, now: int)
      requires Valid()
      modifies this`past, groups
      ensures Valid() && past == old(past) + [Queried(g, now)]
    {
      hide MT.MacTable.Valid, GT.GroupTable.Valid, FloodOk, GS.Ok, G.Inv, Tells, GS.Lower;
      GroupsOk(groups);
      ghost var ga := groups.Abs();
      GroupKeys(groups, GS.Query(g, now));
      groups.LowerGroupTimers(g, now);
      TellsMore(macs.max, groups.P(), past, macs.Abs(), ga, peers, Queried(g, now), macs.Abs(), groups.Abs(), peers);
      past := past + [Queried(g, now)];
    }

    /** FrameDeciderPeer_Free; a pending decision no longer refers to the peer. */
    method PeerFree(p: Peer)
      requires Valid() && p in peers
      modifies this, macs, groups
      ensures Valid() && peers == Without(old(peers), p) && past == old(past) + [Left(p)]
      ensures macs.Abs() == MS.Step(old(macs.Abs()), MS.RemovePeer(p))
      ensures groups.Abs() == GS.Step(groups.P(), old(groups.Abs()), GS.FreePeer(p))
      ensures Remaining(peers, state) == Others(old(Remaining(peers, state)), p)
    {
      hide MT.MacTable.Valid, GT.GroupTable.Valid, Linked, FloodOk, GS.Ok, G.Inv, GS.Step, Next, Without, Remaining, Tells;
      ghost var ma, ga, ps := macs.Abs(), groups.Abs(), peers;
      LinkedDrop(peers, macs.used.Keys, groups.used.Keys, p, state);
      FreedRemaining(peers, state, p);
      FreePeerKeys(groups, p);
      if state == Unicast(p) {
        state := Idle;
      }
      groups.PeerFree(p);
      macs.PeerFree(p);
      if state.Multicast? {
        // freeing a list node moves the iterator past it
        state := Multicast(OthersOf(state.rest, p));
      }
      if state == Flood(Some(p)) {
        state := Flood(Next(peers, p));
      }
      peers := Without(peers, p);
      WithoutIs(ps, p);
      TellsMore(macs.max, groups.P(), past, ma, ga, ps, Left(p), macs.Abs(), groups.Abs(), peers);
      past := past + [Left(p)];
    }

    /** What a frame is to be forwarded to. */
    ghost function Decision(f: Frame): seq<Peer>
      requires G.Inv(groups.IndexOf())
      reads this`peers, macs, groups
    {
      if f.igmp || f.dest == BROADCAST then peers
      else if IsMulticast(f.dest) then GS.Destinations(groups.IndexOf(), SigOfMac(f.dest))
      else if f.dest in macs.tree then [macs.tree[f.dest]]
      else peers
    }

    /** What is decided is what the history calls for. */
    lemma DecisionTells(f: Frame)
      requires Valid()
      ensures Goes(macs.max, groups.P(), past, f, Decision(f))
    {
      hide GT.GroupTable.Valid, Linked, G.Inv, Tells, Goes, IsMulticast;
      HolderIs(macs, f.dest);
      DecisionGoes(macs.max, groups.P(), past, macs.Abs(), groups.Abs(), peers, f, Decision(f));
    }

    /** The decision made by FrameDecider_AnalyzeAndDecide; an undrained multicast decision blocks it. */
    method Decide(f: Frame)
      requires Valid()
      modifies this`state
      ensures Valid()
      ensures old(state).Multicast? ==> state == old(state)
      ensures !old(state).Multicast? ==> Remaining(peers, state) == Decision(f)
    {
      hide MT.MacTable.Valid, GT.GroupTable.Valid, Linked, G.Inv, Tells, IsMulticast, SigOfMac, From;
      if state.Multicast? {
        return;
      }
      state := Idle;
      if f.igmp || f.dest == BROADCAST {
        StartFlood();
        return;
      }
      if IsMulticast(f.dest) {
        var s := SigOfMac(f.dest);
        if s in groups.tree {
          G.IndexIsMembership(groups.IndexOf(), s);
          ghost var want := G.ListOf(groups.IndexOf(), groups.tree[s]);
          var master := groups.tree[s];
          var l :| l in groups.lists && master in l;
          G.ListUnique(groups.IndexOf(), master, l);
          SamePeers(l);
          state := Multicast(l);
        }
        return;
      }
      if f.dest in macs.tree {
        state := Unicast(macs.tree[f.dest]);
        return;
      }
      StartFlood();
    }

    method StartFlood()
      requires Valid()
      modifies this`state
      ensures Valid() && state.Flood? && Remaining(peers, state) == peers
    {
      hide MT.MacTable.Valid, GT.GroupTable.Valid, Linked, G.Inv, Tells;
      state := Flood(if peers == [] then None else Some(peers[0]));
    }

    method NextDestination() returns (p: Option<Peer>)
      requires Valid()
      modifies this`state
      ensures Valid()
      ensures p.None? ==> old(Remaining(peers, state)) == [] && state.Idle?
      ensures p.Some? ==> old(Remaining(peers, state)) == [p.value] + Remaining(peers, state)
    {
      hide MT.MacTable.Valid, GT.GroupTable.Valid, G.Inv, Next, From, Tells;
      match state {
        case Idle =>
          return None;
        case Unicast(q) =>
          state := Idle;
          return Some(q);
        case Flood(c) =>
          if c.None? {
            assert From(peers, c) == [] by { FromNone(peers, c); }
            state := Idle;
            return None;
          }
          FromNext(peers, c.value);
          state := Flood(Next(peers, c.value));
          return c;
        case Multicast(rest) =>
          if rest == [] {
            state := Idle;
            return None;
          }
          state := Multicast(rest[1..]);
          return Some(rest[0].peer);
      }
    }

    /** The forwarding loop of the client: decide, then take destinations until there are none. */
    method Forward(f: Frame) returns (sent: seq<Peer>)
      requires Valid() && state.Idle?
      modifies this`state
      ensures Valid() && state.Idle? && sent == old(Decision(f)) && Goes(macs.max, groups.P(), past, f, sent)
    {
      hide Valid, Decision, Remaining, Goes;
      DecisionTells(f);
      Decide(f);
      ghost var all := Remaining(peers, state);
      sent := [];
      var p := NextDestination();
      while p.Some?
        invariant Valid() && all == sent + (if p.Some? then [p.value] + Remaining(peers, state) else [])
        invariant p.None? ==> state.Idle?
        decreases p.Some?, |Remaining(peers, state)|
      {
        var next := NextDestination();
        sent := sent + [p.value];
        p := next;
      }
    }
  }
}
