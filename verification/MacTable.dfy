/** The MAC part of FrameDecider: entries move between a peer's free and used lists and are found through one tree. */
module MacTable {
  import opened Bytes
  import opened Lists
  import opened MacTableSpec

  /** The tree holds exactly the addresses on the used lists, with their peers. */
  ghost predicate TreeOk(used: map<Peer, seq<Mac>>, tree: map<Mac, Peer>) {
    && (forall p: Peer, m: Mac :: p in used && m in used[p] ==> m in tree && tree[m] == p)
    && (forall m: Mac :: m in tree ==> tree[m] in used && m in used[tree[m]])
  }

  /** No address is twice on a list, and used and free entries of a peer add up. */
  ghost predicate PoolOk(max: nat, used: map<Peer, seq<Mac>>, free: map<Peer, nat>) {
    && used.Keys == free.Keys
    && forall p: Peer :: p in used ==> Distinct(used[p]) && |used[p]| + free[p] == max
  }

  /** What add_mac_to_peer amounts to when the address is on no other peer's list. */
  lemma LearnOwn(max: nat, used: map<Peer, seq<Mac>>, tree: map<Mac, Peer>, p: Peer, m: Mac)
    requires p in used && TreeOk(used, tree) && (m in tree ==> tree[m] == p)
    ensures Learn(Table(max, used), p, m) == Table(max, used[p := Touched(max, used[p], m)])
  {
    forall q: Peer | q in used && q != p ensures Without(used[q], m) == used[q] { WithoutAbsent(used[q], m); }
  }

  /** Taking the address from its holder first changes nothing in the outcome. */
  lemma LearnStolen(max: nat, used: map<Peer, seq<Mac>>, tree: map<Mac, Peer>, p: Peer, m: Mac)
    requires p in used && TreeOk(used, tree) && m in tree && tree[m] != p && PoolDistinct(used)
    ensures var u := used[tree[m] := Without(used[tree[m]], m)];
            Learn(Table(max, used), p, m) == Learn(Table(max, u), p, m)
  {
    var q := tree[m];
    WithoutIs(used[q], m);
    WithoutAbsent(Without(used[q], m), m);
    forall r: Peer | r in used && r != p && r != q ensures Without(used[r], m) == used[r] { WithoutAbsent(used[r], m); }
  }

  ghost predicate PoolDistinct(used: map<Peer, seq<Mac>>) { forall p: Peer :: p in used ==> Distinct(used[p]) }

  lemma ReleaseKeeps(max: nat, used: map<Peer, seq<Mac>>, free: map<Peer, nat>, tree: map<Mac, Peer>, m: Mac)
    requires PoolOk(max, used, free) && TreeOk(used, tree) && m in tree
    ensures var q := tree[m];
            var u := used[q := Without(used[q], m)];
            PoolOk(max, u, free[q := free[q] + 1]) && TreeOk(u, tree - {m})
  {
    var q := tree[m];
    WithoutIs(used[q], m);
    hide Without;
  }

  lemma PoolAt(max: nat, used: map<Peer, seq<Mac>>, free: map<Peer, nat>, p: Peer)
    requires PoolOk(max, used, free)
    ensures PoolDistinct(used) && used.Keys == free.Keys && (p in used ==> |used[p]| + free[p] == max)
  {
  }

  lemma TreeAt(used: map<Peer, seq<Mac>>, tree: map<Mac, Peer>, p: Peer, m: Mac)
    requires TreeOk(used, tree)
    ensures m in tree ==> tree[m] in used && m in used[tree[m]]
    ensures p in used && m in used[p] ==> m in tree && tree[m] == p
  {
  }

  /** The address is on the peer's own list: it moves to the end. */
  lemma OwnKeeps(max: nat, used: map<Peer, seq<Mac>>, free: map<Peer, nat>, tree: map<Mac, Peer>, p: Peer, m: Mac)
    requires PoolOk(max, used, free) && TreeOk(used, tree) && m in tree && tree[m] == p
    ensures p in used
    ensures var u := used[p := Without(used[p], m) + [m]];
            PoolOk(max, u, free) && TreeOk(u, tree) && Learn(Table(max, used), p, m) == Table(max, u)
  {
    hide Learn, Touched, Without, Distinct;
    TreeAt(used, tree, p, m);
    PoolAt(max, used, free, p);
    LearnOwn(max, used, tree, p, m);
    Rotated(max, used[p], m);
    var l := Touched(max, used[p], m);
    SameContents(used, tree, p, l);
  }

  lemma Rotated(max: nat, l: seq<Mac>, m: Mac)
    requires Distinct(l) && m in l
    ensures var r := Touched(max, l, m);
            r == Without(l, m) + [m] && Distinct(r) && |r| == |l| && forall x :: x in r <==> x in l
  {
    WithoutIs(l, m);
  }

  lemma SameContents(used: map<Peer, seq<Mac>>, tree: map<Mac, Peer>, p: Peer, l: seq<Mac>)
    requires TreeOk(used, tree) && p in used && forall x :: x in l <==> x in used[p]
    ensures TreeOk(used[p := l], tree)
  {
  }

  /** Appending an address that is nowhere, after dropping the oldest if `drop`. */
  lemma AssignTree(used: map<Peer, seq<Mac>>, tree: map<Mac, Peer>, p: Peer, m: Mac, drop: bool)
    requires p in used && PoolDistinct(used) && TreeOk(used, tree) && m !in tree && (drop ==> used[p] != [])
    ensures var l := if drop then used[p][1..] else used[p];
            var t := if drop then tree - {used[p][0]} else tree;
            Distinct(l + [m]) && TreeOk(used[p := l + [m]], t[m := p])
  {
    var l := if drop then used[p][1..] else used[p];
    assert m !in used[p];
    if drop {
      assert used[p] == [used[p][0]] + l;
      assert used[p][0] !in l;
    }
    var u := used[p := l + [m]];
    var t := (if drop then tree - {used[p][0]} else tree)[m := p];
    forall q: Peer, x: Mac | q in u && x in u[q] ensures x in t && t[x] == q {
      if x != m {
        assert q == p ==> x in l;
        assert x in used[q] && x in tree && tree[x] == q;
      }
    }
    forall x: Mac | x in t ensures t[x] in u && x in u[t[x]] {
      if x != m { assert x in used[tree[x]]; }
    }
  }

  lemma AssignKeeps(max: nat, used: map<Peer, seq<Mac>>, free: map<Peer, nat>, tree: map<Mac, Peer>, p: Peer, m: Mac)
    requires 0 < max && p in used && PoolOk(max, used, free) && TreeOk(used, tree) && m !in tree
    ensures p in free && (free[p] == 0 ==> used[p] != [])
    ensures var drop := free[p] == 0;
            var l := if drop then used[p][1..] else used[p];
            var t := if drop then tree - {used[p][0]} else tree;
            var u, f := used[p := l + [m]], if drop then free else free[p := free[p] - 1];
            PoolOk(max, u, f) && TreeOk(u, t[m := p]) && Learn(Table(max, used), p, m) == Table(max, u)
  {
    hide TreeOk, Learn, Without;
    PoolAt(max, used, free, p);
    TreeAt(used, tree, p, m);
    LearnOwn(max, used, tree, p, m);
    AssignTree(used, tree, p, m, free[p] == 0);
  }

  lemma FreedTree(used: map<Peer, seq<Mac>>, before: map<Mac, Peer>, after: map<Mac, Peer>, p: Peer)
    requires TreeOk(used, before) && p in used
    requires forall m: Mac :: m in after <==> m in before && m !in used[p]
    requires forall m: Mac :: m in after ==> after[m] == before[m]
    ensures TreeOk(used - {p}, after)
  {
  }

  lemma FreedPool(max: nat, used: map<Peer, seq<Mac>>, free: map<Peer, nat>, p: Peer)
    requires PoolOk(max, used, free)
    ensures PoolOk(max, used - {p}, free - {p})
  {
  }

  class MacTable {
    const max: nat
    /** mac_entries_used of every peer, oldest first */
    var used: map<Peer, seq<Mac>>
    /** length of mac_entries_free of every peer */
    var free: map<Peer, nat>
    /** macs_tree */
    var tree: map<Mac, Peer>

    ghost function Abs(): Table
      reads this
    {
      Table(max, used)
    }

    ghost predicate Valid()
      reads this
    {
      0 < max && PoolOk(max, used, free) && TreeOk(used, tree)
    }

    constructor (max: nat)
      requires 0 < max
      ensures Valid() && Abs() == Table(max, map[])
    {
      this.max := max;
      used := map[];
      free := map[];
      tree := map[];
    }

    /** add_mac_to_peer */
    method AddMacToPeer(p: Peer, m: Mac)
      requires Valid() && p in used
      modifies this
      ensures Valid() && Abs() == Learn(old(Abs()), p, m)
    {
      hide PoolOk, TreeOk, Learn, Without;
      if m in tree {
        var q := tree[m];
        TreeAt(used, tree, q, m);
        if q == p {
          OwnKeeps(max, used, free, tree, p, m);
          used := used[p := Without(used[p], m) + [m]];
          return;
        }
        PoolAt(max, used, free, q);
        LearnStolen(max, used, tree, p, m);
        ReleaseKeeps(max, used, free, tree, m);
        tree := tree - {m};
        used := used[q := Without(used[q], m)];
        free := free[q := free[q] + 1];
      }
      AssignNew(p, m);
    }

    /** The second half of add_mac_to_peer: a free entry, or the oldest used one, gets the address. */
    method AssignNew(p: Peer, m: Mac)
      requires Valid() && p in used && m !in tree
      modifies this
      ensures Valid() && Abs() == Learn(old(Abs()), p, m)
    {
      hide PoolOk, TreeOk, Learn;
      AssignKeeps(max, used, free, tree, p, m);
      var l := used[p];
      if free[p] > 0 {
        free := free[p := free[p] - 1];
      } else {
        tree := tree - {l[0]};
        l := l[1..];
      }
      used := used[p := l + [m]];
      tree := tree[m := p];
    }

    /** The MAC lookup of FrameDecider_AnalyzeAndDecide. */
    method Lookup(m: Mac) returns (r: Option<Peer>)
      requires Valid()
      ensures r.Some? ==> Holds(Abs(), r.value, m)
      ensures r.None? ==> forall p: Peer :: !Holds(Abs(), p, m)
    {
      r := if m in tree then Some(tree[m]) else None;
    }

    /** The MAC part of FrameDeciderPeer_Init. */
    method PeerInit(p: Peer)
      requires Valid() && p !in used
      modifies this
      ensures Valid() && Abs() == Step(old(Abs()), AddPeer(p))
    {
      used := used[p := []];
      free := free[p := max];
    }

    /** The MAC part of FrameDeciderPeer_Free: every used entry leaves the tree. */
    method PeerFree(p: Peer)
      requires Valid() && p in used
      modifies this
      ensures Valid() && Abs() == Step(old(Abs()), RemovePeer(p))
    {
      hide PoolOk, TreeOk;
      var l := used[p];
      var i := 0;
      while i < |l|
        invariant 0 <= i <= |l| && used == old(used) && free == old(free)
        invariant forall m: Mac :: m in tree <==> m in old(tree) && m !in l[..i]
        invariant forall m: Mac :: m in tree ==> tree[m] == old(tree)[m]
      {
        tree := tree - {l[i]};
        i := i + 1;
      }
      assert l[..i] == l;
      FreedTree(used, old(tree), tree, p);
      FreedPool(max, used, free, p);
      used := used - {p};
      free := free - {p};
    }
  }
}
