/** The multicast part of FrameDecider, updated in place. */
module GroupTable {
  import opened GroupIndex
  import opened GroupTableSpec
  import L = MacTableSpec
  import opened Lists

  ghost predicate FreeOk(max: nat, used: map<Peer, seq<Group>>, free: map<Peer, nat>) {
    used.Keys == free.Keys && forall p: Peer :: p in used ==> |used[p]| + free[p] == max
  }

  class GroupTable {
    const max: nat
    const interval: int
    const lmqt: int
    /** group_entries_used of every peer, earliest first; also what the peer's groups_tree holds */
    var used: map<Peer, seq<Group>>
    /** length of group_entries_free of every peer */
    var free: map<Peer, nat>
    /** timer_endtime of every entry in use, whose timer runs until then */
    var end: map<Entry, int>
    /** multicast_tree */
    var tree: map<Sig, Entry>
    /** entries with is_master set */
    var masters: set<Entry>
    /** the linked lists formed by sig_list_node */
    var lists: set<seq<Entry>>
    /** entries that are in the index */
    ghost var entries: set<Entry>

    ghost function P(): Params { Params(max, interval, lmqt) }

    ghost function IndexOf(): Index
      reads this`entries, this`tree, this`masters, this`lists
    {
      Index(entries, tree, masters, lists)
    }

    ghost function Abs(): Groups
      reads this`used, this`end, this`entries, this`tree, this`masters, this`lists
    {
      Groups(used, end, IndexOf())
    }

    ghost predicate Valid()
      reads this
    {
      Ok(P(), Abs()) && FreeOk(max, used, free)
    }

    constructor (max: nat, interval: int, lmqt: int)
      requires 0 < max
      ensures Valid() && Abs() == Initial && P() == Params(max, interval, lmqt)
    {
      this.max := max;
      this.interval := interval;
      this.lmqt := lmqt;
      used := map[];
      free := map[];
      end := map[];
      tree := map[];
      masters := {};
      lists := {};
      entries := {};
      new;
      InitialOk(P());
    }

    method AddToMulticast(e: Entry)
      requires Inv(IndexOf()) && e !in entries
      modifies this`entries, this`tree, this`masters, this`lists
      ensures IndexOf() == Added(old(IndexOf()), e)
    {
      hide Inv, GoodList, SigOfList;
      var s := SigOf(e.group);
      if s in tree {
        var master := tree[s];
        IndexIsMembership(IndexOf(), s);
        ghost var want := ListOf(IndexOf(), master);
        masters := masters - {e};
        var l :| l in lists && master in l;
        ListUnique(old(IndexOf()), master, l);
        lists := lists - {l} + {After(l, IndexIn(l, master), e)};
      } else {
        masters := masters + {e};
        tree := tree[s := e];
        lists := lists + {[e]};
      }
      entries := entries + {e};
    }

    method RemoveFromMulticast(e: Entry)
      requires Inv(IndexOf()) && e in entries
      modifies this`entries, this`tree, this`masters, this`lists
      ensures IndexOf() == Removed(old(IndexOf()), e)
    {
      hide Inv, GoodList, SigOfList;
      var s := SigOf(e.group);
      ghost var want := ListOf(IndexOf(), e);
      var l :| l in lists && e in l;
      ListUnique(IndexOf(), e, l);
      if e in masters {
        tree := tree - {s};
        masters := masters - {e};
        if |l| > 1 {
          var n := NextOrPrev(l, e);
          masters := masters + {n};
          tree := tree[s := n];
          assert old(tree)[s := n] == tree;
        }
      }
      var rest := Without(l, e);
      lists := lists - {l} + if rest == [] then {} else {rest};
      entries := entries - {e};
    }

    /** add_group_to_peer */
    method AddGroupToPeer(p: Peer, g: Group, now: int)
      requires Valid() && p in used
      modifies this
      ensures Valid() && Abs() == Join(P(), old(Abs()), p, g, now)
    {
      hide Inv, Ok, Join, FreeOk, Added, Removed, Without;
      ghost var t := Abs();
      JoinKeeps(P(), t, p, g, now);
      JoinIs(P(), t, p, g, now);
      var e := Entry(p, g);
      var l := used[p];
      FreeAt(max, used, free, p);
      FreeAfterJoin(P(), t, free, p, g, now);
      if g in l {
        used := used[p := Without(l, g) + [g]];
      } else {
        NotMember(P(), t, e);
        if free[p] > 0 {
          free := free[p := free[p] - 1];
        } else {
          var old_ := Entry(p, l[0]);
          OldestMember(P(), t, p);
          RemovedUsed(t.index, old_);
          RemoveFromMulticast(old_);
          end := end - {old_};
          l := l[1..];
        }
        used := used[p := l + [g]];
        AddToMulticast(e);
      }
      end := end[e := now + interval];
    }

    /** remove_group_entry, which is what an expiring timer does */
    method RemoveGroupEntry(e: Entry)
      requires Valid() && Member(Abs(), e)
      modifies this
      ensures Valid() && Abs() == Leave(P(), old(Abs()), e)
    {
      hide Inv, Bounded, Removed, Distinct, Without;
      ghost var t := Abs();
      LeaveKeeps(P(), t, e);
      FreeAfterLeave(P(), t, free, e);
      RemoveFromMulticast(e);
      used := used[e.peer := Without(used[e.peer], e.group)];
      free := free[e.peer := free[e.peer] + 1];
      end := end - {e};
    }

    /** lower_group_timers_to_lmqt: walk the list of the signature, skipping other groups. */
    method LowerGroupTimers(g: Group, now: int)
      requires Valid()
      modifies this`end
      ensures Valid() && Abs() == Lower(P(), old(Abs()), g, now)
    {
      hide Inv, Bounded, Matches, FreeOk;
      var s := SigOf(g);
      ghost var before := end;
      LowerKeeps(P(), Abs(), g, now);
      IndexIsMembership(IndexOf(), s);
      EndKeys(P(), Abs());
      if s !in tree {
        assert Lower(P(), Abs(), g, now).end == end;
        return;
      }
      ghost var want := ListOf(IndexOf(), tree[s]);
      var l :| l in lists && tree[s] in l;
      ListUnique(IndexOf(), tree[s], l);
      LowerAll(l, g, now + lmqt);
      LoweredIs(P(), Groups(used, before, IndexOf()), end, l, g, now);
    }

    /** The loop over the entries of the list. */
    method LowerAll(l: seq<Entry>, g: Group, limit: int)
      requires forall e :: e in l ==> e in end
      modifies this`end
      ensures end.Keys == old(end).Keys
      ensures forall e :: e in end ==> end[e] == if e in l then LowerTime(old(end)[e], e, g, limit) else old(end)[e]
    {
      ghost var before := end;
      var i := 0;
      while i < |l|
        invariant 0 <= i <= |l| && end.Keys == before.Keys
        invariant forall e :: e in end ==> end[e] == if e in l[..i] then LowerTime(before[e], e, g, limit) else before[e]
      {
        var e := l[i];
        if e.group == g && end[e] > limit {
          end := end[e := limit];
        }
        i := i + 1;
      }
      assert l[..i] == l;
    }

    /** The group part of FrameDeciderPeer_Init. */
    method PeerInit(p: Peer)
      requires Valid() && p !in used
      modifies this
      ensures Valid() && Abs() == Step(P(), old(Abs()), AddPeer(p))
    {
      hide Ok;
      AddPeerKeeps(P(), Abs(), p);
      used := used[p := []];
      free := free[p := max];
    }

    /** The group part of FrameDeciderPeer_Free: all its entries leave the index and their timers stop. */
    method PeerFree(p: Peer)
      requires Valid() && p in used
      modifies this
      ensures Valid() && Abs() == Step(P(), old(Abs()), FreePeer(p))
    {
      hide Inv, Bounded, Removed, Distinct, Leave;
      ghost var goal := Emptied(P(), Abs(), p);
      FreePeerKeeps(P(), Abs(), p);
      while used[p] != []
        invariant Ok(P(), Abs()) && p in used && FreeOk(max, used, free) && Emptied(P(), Abs(), p) == goal
        decreases |used[p]|
      {
        var e := Entry(p, used[p][0]);
        assert Member(Abs(), e);
        LeaveShrinks(P(), Abs(), e);
        RemoveGroupEntry(e);
      }
      used := used - {p};
      free := free - {p};
    }
  }

  function LowerTime(t: int, e: Entry, g: Group, limit: int): int {
    if e.group == g && t > limit then limit else t
  }

  lemma EndKeys(p: Params, t: Groups)
    requires Ok(p, t)
    ensures t.end.Keys == t.index.used
  {
  }

  /** Whatever is of the group is on the list. */
  lemma LoweredIs(p: Params, t: Groups, end: map<Entry, int>, l: seq<Entry>, g: Group, now: int)
    requires end.Keys == t.end.Keys && forall e :: e in t.end && e.group == g ==> e in l
    requires forall e :: e in end ==> end[e] == if e in l then LowerTime(t.end[e], e, g, now + p.lmqt) else t.end[e]
    ensures end == Lower(p, t, g, now).end
  {
  }

  lemma FreeAt(max: nat, used: map<Peer, seq<Group>>, free: map<Peer, nat>, p: Peer)
    requires FreeOk(max, used, free) && p in used
    ensures p in free && |used[p]| + free[p] == max
  {
  }

  lemma NotMember(p: Params, t: Groups, e: Entry)
    requires Ok(p, t) && e.peer in t.lists && e.group !in t.lists[e.peer]
    ensures e !in t.index.used
  {
    assert !Member(t, e);
  }

  lemma OldestMember(p: Params, t: Groups, q: Peer)
    requires Ok(p, t) && q in t.lists && t.lists[q] != []
    ensures Entry(q, t.lists[q][0]) in t.index.used
  {
    assert Member(t, Entry(q, t.lists[q][0]));
  }

  /** The three ways a report goes. */
  lemma JoinIs(p: Params, t: Groups, q: Peer, g: Group, now: int)
    requires Ok(p, t) && q in t.lists
    ensures Inv(t.index) && (g !in t.lists[q] && |t.lists[q]| >= p.max ==> t.lists[q] != [])
    ensures var l, e, r := t.lists[q], Entry(q, g), Join(p, t, q, g, now);
            if g in l then r == Groups(t.lists[q := Without(l, g) + [g]], t.end[e := now + p.interval], t.index)
            else if |l| < p.max then r == Groups(t.lists[q := l + [g]], t.end[e := now + p.interval], Added(t.index, e))
            else
              var o := Entry(q, l[0]);
              && o in t.index.used && Inv(Removed(t.index, o))
              && r == Groups(t.lists[q := l[1..] + [g]], (t.end - {o})[e := now + p.interval], Added(Removed(t.index, o), e))
  {
    hide Inv, Added, Removed, Distinct, Without;
    var l := t.lists[q];
    if g !in l && |l| >= p.max {
      OldestMember(p, t, q);
      RemovedKeeps(t.index, Entry(q, l[0]));
    }
  }

  lemma FreeAfterJoin(p: Params, t: Groups, free: map<Peer, nat>, q: Peer, g: Group, now: int)
    requires Ok(p, t) && FreeOk(p.max, t.lists, free) && q in t.lists
    ensures q in free
    ensures var f := if g in t.lists[q] || free[q] == 0 then free else free[q := free[q] - 1];
            FreeOk(p.max, Join(p, t, q, g, now).lists, f)
  {
    hide Inv, Added, Removed, Distinct, Without;
    TouchedLength(p.max, t.lists[q], g);
  }

  lemma TouchedLength(max: nat, l: seq<Group>, g: Group)
    requires Distinct(l) && |l| <= max && 0 < max
    ensures |L.Touched(max, l, g)| == if g in l || |l| == max then |l| else |l| + 1
  {
    WithoutIs(l, g);
  }

  lemma FreeAfterLeave(p: Params, t: Groups, free: map<Peer, nat>, e: Entry)
    requires Ok(p, t) && FreeOk(p.max, t.lists, free) && Member(t, e)
    ensures e.peer in free && FreeOk(p.max, Leave(p, t, e).lists, free[e.peer := free[e.peer] + 1])
  {
    hide Inv, Removed;
    WithoutIs(t.lists[e.peer], e.group);
  }
}
