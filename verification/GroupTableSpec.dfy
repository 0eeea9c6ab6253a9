/** Group memberships of all peers, with timers, together with the multicast index that must answer for them. */
module GroupTableSpec {
  import opened GroupIndex
  import L = MacTableSpec
  import opened Lists

  datatype Params = Params(max: nat, interval: int, lmqt: int)

  /** `lists` are the groups each peer is in, earliest refreshed first; `end` is when a membership times out. */
  datatype Groups = Groups(lists: map<Peer, seq<Group>>, end: map<Entry, int>, index: Index)

  const Initial: Groups := Groups(map[], map[], Empty)

  ghost predicate Member(t: Groups, e: Entry) { e.peer in t.lists && e.group in t.lists[e.peer] }

  ghost predicate Bounded(max: nat, lists: map<Peer, seq<Group>>) {
    forall p: Peer :: p in lists ==> Distinct(lists[p]) && |lists[p]| <= max
  }

  /** The entries in use, in the index as in the timers, are exactly the memberships. */
  ghost predicate Matches(t: Groups) {
    (forall e :: Member(t, e) <==> e in t.index.used) && t.end.Keys == t.index.used
  }

  ghost predicate Ok(p: Params, t: Groups) {
    0 < p.max && Bounded(p.max, t.lists) && Matches(t) && Inv(t.index)
  }

  /** add_group_to_peer */
  ghost function Join(p: Params, t: Groups, peer: Peer, g: Group, now: int): Groups
    requires Ok(p, t) && peer in t.lists
  {
    var l, e := t.lists[peer], Entry(peer, g);
    if g in l then Groups(t.lists[peer := L.Touched(p.max, l, g)], t.end[e := now + p.interval], t.index)
    else if |l| >= p.max then
      var old_ := Entry(peer, l[0]);
      assert Member(t, old_);
      RemovedKeeps(t.index, old_);
      Groups(t.lists[peer := L.Touched(p.max, l, g)], (t.end - {old_})[e := now + p.interval], Added(Removed(t.index, old_), e))
    else
      Groups(t.lists[peer := L.Touched(p.max, l, g)], t.end[e := now + p.interval], Added(t.index, e))
  }

  /** remove_group_entry */
  ghost function Leave(p: Params, t: Groups, e: Entry): Groups
    requires Ok(p, t) && Member(t, e)
  {
    Groups(t.lists[e.peer := Without(t.lists[e.peer], e.group)], t.end - {e}, Removed(t.index, e))
  }

  /** lower_group_timers_to_lmqt, seen from the memberships: those of this very group, and no others, are shortened. */
  ghost function Lower(p: Params, t: Groups, g: Group, now: int): Groups {
    t.(end := map e | e in t.end :: if e.group == g && t.end[e] > now + p.lmqt then now + p.lmqt else t.end[e])
  }

  ghost function Emptied(p: Params, t: Groups, peer: Peer): (r: Groups)
    requires Ok(p, t) && peer in t.lists
    ensures Ok(p, r) && peer in r.lists
    decreases |t.lists[peer]|
  {
    if t.lists[peer] == [] then t
    else
      var e := Entry(peer, t.lists[peer][0]);
      LeaveKeeps(p, t, e);
      LeaveShrinks(p, t, e);
      Emptied(p, Leave(p, t, e), peer)
  }

  lemma LeaveShrinks(p: Params, t: Groups, e: Entry)
    requires Ok(p, t) && Member(t, e)
    ensures e.peer in Leave(p, t, e).lists && |Leave(p, t, e).lists[e.peer]| < |t.lists[e.peer]|
  {
    WithoutIs(t.lists[e.peer], e.group);
  }

  datatype Event = AddPeer(peer: Peer) | FreePeer(peer: Peer) | Report(peer: Peer, group: Group, now: int)
                 | Expire(entry: Entry) | Query(group: Group, now: int)

  ghost predicate Legal(t: Groups, e: Event) {
    match e
    case AddPeer(q) => q !in t.lists
    case FreePeer(q) => q in t.lists
    case Report(q, _, _) => q in t.lists
    case Expire(x) => Member(t, x)
    case Query(_, _) => true
  }

  ghost function Step(p: Params, t: Groups, e: Event): Groups
    requires Ok(p, t) && Legal(t, e)
  {
    match e
    case AddPeer(q) => t.(lists := t.lists[q := []])
    case FreePeer(q) => var r := Emptied(p, t, q); r.(lists := r.lists - {q})
    case Report(q, g, now) => Join(p, t, q, g, now)
    case Expire(x) => Leave(p, t, x)
    case Query(g, now) => Lower(p, t, g, now)
  }

  // ---- every step keeps the index exact ----

  lemma RemovedUsed(x: Index, e: Entry)
    requires Inv(x) && e in x.used
    ensures Removed(x, e).used == x.used - {e}
  {
  }

  lemma AddedUsed(x: Index, e: Entry)
    requires Inv(x)
    ensures Added(x, e).used == x.used + {e}
  {
  }

  lemma LeaveKeeps(p: Params, t: Groups, e: Entry)
    requires Ok(p, t) && Member(t, e)
    ensures Ok(p, Leave(p, t, e))
  {
    hide Inv, Removed, Without, Distinct;
    RemovedKeeps(t.index, e);
    RemovedUsed(t.index, e);
    WithoutIs(t.lists[e.peer], e.group);
    var r := Leave(p, t, e);
    forall d ensures Member(r, d) <==> d in r.index.used {
      assert Member(t, d) <==> d in t.index.used;
    }
  }

  lemma JoinKeeps(p: Params, t: Groups, peer: Peer, g: Group, now: int)
    requires Ok(p, t) && peer in t.lists
    ensures Ok(p, Join(p, t, peer, g, now))
  {
    hide Inv, Removed, Added, L.Touched, Distinct, Without;
    var l, e, r := t.lists[peer], Entry(peer, g), Join(p, t, peer, g, now);
    L.TouchedIs(p.max, l, g);
    assert Member(t, e) <==> e in t.index.used;
    if g !in l {
      if |l| >= p.max {
        var d := Entry(peer, l[0]);
        assert Member(t, d);
        RemovedKeeps(t.index, d);
        RemovedUsed(t.index, d);
        AddedKeeps(Removed(t.index, d), e);
        AddedUsed(Removed(t.index, d), e);
        JoinFull(p.max, l, g);
      } else {
        AddedKeeps(t.index, e);
        AddedUsed(t.index, e);
        JoinSpare(p.max, l, g);
      }
    } else {
      JoinAgain(p.max, l, g);
    }
    forall d ensures Member(r, d) <==> d in r.index.used {
      assert Member(t, d) <==> d in t.index.used;
    }
  }

  lemma JoinFull(max: nat, l: seq<Group>, g: Group)
    requires Distinct(l) && g !in l && |l| >= max > 0
    ensures forall x :: x in L.Touched(max, l, g) <==> (x in l && x != l[0]) || x == g
  {
    assert l == [l[0]] + l[1..];
  }

  lemma JoinSpare(max: nat, l: seq<Group>, g: Group)
    requires g !in l && |l| < max
    ensures forall x :: x in L.Touched(max, l, g) <==> x in l || x == g
  {
  }

  lemma JoinAgain(max: nat, l: seq<Group>, g: Group)
    requires Distinct(l) && g in l
    ensures forall x :: x in L.Touched(max, l, g) <==> x in l
  {
    WithoutIs(l, g);
  }

  ghost predicate OnlyLeft(t: Groups, r: Groups, peer: Peer) {
    && r.lists == t.lists[peer := []]
    && (forall e :: e in r.end <==> e in t.end && e.peer != peer)
    && (forall e :: e in r.end ==> r.end[e] == t.end[e])
  }

  lemma {:induction false} EmptiedIs(p: Params, t: Groups, peer: Peer)
    requires Ok(p, t) && peer in t.lists
    ensures OnlyLeft(t, Emptied(p, t, peer), peer)
    decreases |t.lists[peer]|
  {
    hide Leave, OnlyLeft, Bounded, Inv;
    if t.lists[peer] == [] {
      NoneLeft(p, t, peer);
    } else {
      var e := Entry(peer, t.lists[peer][0]);
      LeaveKeeps(p, t, e);
      LeaveShrinks(p, t, e);
      EmptiedIs(p, Leave(p, t, e), peer);
      OneLess(p, t, e, Emptied(p, Leave(p, t, e), peer));
    }
  }

  lemma NoneLeft(p: Params, t: Groups, peer: Peer)
    requires Ok(p, t) && peer in t.lists && t.lists[peer] == []
    ensures OnlyLeft(t, t, peer)
  {
    assert t.lists[peer := []] == t.lists;
    forall e | e in t.end ensures e.peer != peer { assert Member(t, e); }
  }

  lemma OneLess(p: Params, t: Groups, e: Entry, r: Groups)
    requires Ok(p, t) && Member(t, e) && OnlyLeft(Leave(p, t, e), r, e.peer)
    ensures OnlyLeft(t, r, e.peer)
  {
    hide Without, Removed, Inv;
  }

  lemma StepKeeps(p: Params, t: Groups, e: Event)
    requires Ok(p, t) && Legal(t, e)
    ensures Ok(p, Step(p, t, e))
  {
    hide Ok, Join, Leave, Lower, Emptied;
    match e {
      case AddPeer(q) =>
        AddPeerKeeps(p, t, q);
      case FreePeer(q) =>
        FreePeerKeeps(p, t, q);
      case Report(q, g, now) => JoinKeeps(p, t, q, g, now);
      case Expire(x) => LeaveKeeps(p, t, x);
      case Query(g, now) => LowerKeeps(p, t, g, now);
    }
  }

  lemma LowerKeeps(p: Params, t: Groups, g: Group, now: int)
    requires Ok(p, t)
    ensures Ok(p, Lower(p, t, g, now))
  {
    hide Inv;
    assert Lower(p, t, g, now).end.Keys == t.end.Keys;
    assert forall d :: Member(Lower(p, t, g, now), d) <==> Member(t, d);
  }

  lemma AddPeerKeeps(p: Params, t: Groups, q: Peer)
    requires Ok(p, t) && q !in t.lists
    ensures Ok(p, t.(lists := t.lists[q := []]))
  {
    hide Inv;
    var r := t.(lists := t.lists[q := []]);
    forall d ensures Member(r, d) <==> d in r.index.used { assert Member(t, d) <==> d in t.index.used; }
  }

  lemma FreePeerKeeps(p: Params, t: Groups, q: Peer)
    requires Ok(p, t) && q in t.lists
    ensures var r := Emptied(p, t, q); Ok(p, r.(lists := r.lists - {q}))
  {
    hide Inv, Emptied;
    EmptiedIs(p, t, q);
    var m := Emptied(p, t, q);
    var r := m.(lists := m.lists - {q});
    forall d ensures Member(r, d) <==> d in r.index.used { assert Member(m, d) <==> d in m.index.used; }
  }

  // ---- what a multicast decision yields ----

  function PeersOf(l: seq<Entry>): seq<Peer> {
    if l == [] then [] else PeersOf(l[..|l| - 1]) + [l[|l| - 1].peer]
  }

  /** The destinations of a frame to a multicast address with signature `s`, in the order they are handed out. */
  ghost function Destinations(x: Index, s: Sig): seq<Peer>
    requires Inv(x)
  {
    if s in x.tree then IndexIsMembership(x, s); PeersOf(ListOf(x, x.tree[s])) else []
  }

  /** The groups peer `q` is in that a frame with signature `s` may be meant for. */
  ghost function GroupsWith(t: Groups, q: Peer, s: Sig): set<Group> {
    if q in t.lists then set g | g in t.lists[q] && SigOf(g) == s else {}
  }

  ghost function GroupsOn(l: seq<Entry>, q: Peer): set<Group> {
    set e | e in l && e.peer == q :: e.group
  }

  lemma {:induction false} CountOnList(l: seq<Entry>, q: Peer)
    requires Distinct(l)
    ensures multiset(PeersOf(l))[q] == |GroupsOn(l, q)|
  {
    if l == [] {
      assert GroupsOn(l, q) == {};
    } else {
      var rest, e := l[..|l| - 1], l[|l| - 1];
      CountOnList(rest, q);
      assert l == rest + [e];
      assert e !in rest;
      GroupsOnMore(rest, e, q);
      hide GroupsOn;
      assert multiset(PeersOf(l)) == multiset(PeersOf(rest)) + multiset{e.peer};
    }
  }

  lemma GroupsOnMore(rest: seq<Entry>, e: Entry, q: Peer)
    requires e !in rest
    ensures |GroupsOn(rest + [e], q)| == |GroupsOn(rest, q)| + if e.peer == q then 1 else 0
  {
    if e.peer == q {
      assert GroupsOn(rest + [e], q) == GroupsOn(rest, q) + {e.group};
      forall d | d in rest && d.peer == q ensures d.group != e.group { assert d != e; }
      assert e.group !in GroupsOn(rest, q);
    } else {
      assert GroupsOn(rest + [e], q) == GroupsOn(rest, q);
    }
  }

  /** A peer is a destination once for each of its groups with the signature. */
  lemma OneDestinationPerMembership(p: Params, t: Groups, s: Sig, q: Peer)
    requires Ok(p, t)
    ensures multiset(Destinations(t.index, s))[q] == |GroupsWith(t, q, s)|
  {
    hide Inv, Bounded;
    IndexIsMembership(t.index, s);
    if s in t.index.tree {
      var l := ListOf(t.index, t.index.tree[s]);
      CountOnList(l, q);
      forall g ensures g in GroupsOn(l, q) <==> g in GroupsWith(t, q, s) {
        assert Member(t, Entry(q, g)) <==> Entry(q, g) in t.index.used;
      }
      assert GroupsOn(l, q) == GroupsWith(t, q, s);
    } else {
      forall g ensures g !in GroupsWith(t, q, s) {
        assert Member(t, Entry(q, g)) <==> Entry(q, g) in t.index.used;
      }
      assert GroupsWith(t, q, s) == {};
    }
  }

  ghost predicate LegalRun(p: Params, t: Groups, es: seq<Event>)
    requires Ok(p, t)
    decreases |es|
  {
    es == [] || (Legal(t, es[0]) && (StepKeeps(p, t, es[0]); LegalRun(p, Step(p, t, es[0]), es[1..])))
  }

  ghost function Run(p: Params, t: Groups, es: seq<Event>): (r: Groups)
    requires Ok(p, t) && LegalRun(p, t, es)
    ensures Ok(p, r)
    decreases |es|
  {
    if es == [] then t
    else
      StepKeeps(p, t, es[0]);
      Run(p, Step(p, t, es[0]), es[1..])
  }

  lemma InitialOk(p: Params)
    requires 0 < p.max
    ensures Ok(p, Initial)
  {
  }

  /**
   After any run of reports, refreshes, evictions, timeouts, queries and peers coming and going, the index gives exactly
   the current memberships: one destination per membership with the signature, and a master exactly for the signatures
   that have one.
   */
  lemma MulticastFollowsMembership(p: Params, es: seq<Event>, s: Sig, q: Peer)
    requires 0 < p.max && Ok(p, Initial) && LegalRun(p, Initial, es)
    ensures var t := Run(p, Initial, es);
            && multiset(Destinations(t.index, s))[q] == |GroupsWith(t, q, s)|
            && (s in t.index.tree <==> exists e :: Member(t, e) && SigOf(e.group) == s)
  {
    hide Step, Legal, Inv;
    var t := Run(p, Initial, es);
    OneDestinationPerMembership(p, t, s, q);
    IndexIsMembership(t.index, s);
    if s in t.index.tree {
      var e :| e in t.index.used && SigOf(e.group) == s;
      assert Member(t, e);
    }
  }
}
