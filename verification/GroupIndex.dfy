/**
 The multicast index of FrameDecider. Group entries with the same signature (the low 23 bits of the group address, which
 is all a multicast MAC address carries: section 6.4 of RFC 1112) form a headless linked list; one of them, the master,
 is in the multicast tree.
 */
module GroupIndex {
  import opened Lists
  type Peer = nat
  type Group = nat
  type Sig = nat

  /** A group entry in use. A peer has at most one entry for a group. */
  datatype Entry = Entry(peer: Peer, group: Group)

  /** `lists` are the linked lists the entries in use form. */
  datatype Index = Index(used: set<Entry>, tree: map<Sig, Entry>, masters: set<Entry>, lists: set<seq<Entry>>)

  const Empty: Index := Index({}, map[], {}, {})

  /** compute_sig_for_group */
  function SigOf(g: Group): Sig { g % 0x80_0000 }

  /** A list consists of distinct entries in use, all with this signature, exactly one of which is its master. */
  ghost predicate GoodList(x: Index, l: seq<Entry>, s: Sig) {
    && l != [] && Distinct(l)
    && (forall i :: 0 <= i < |l| ==> l[i] in x.used && SigOf(l[i].group) == s)
    && s in x.tree && x.tree[s] in l
    && (forall i :: 0 <= i < |l| ==> (l[i] in x.masters <==> l[i] == x.tree[s]))
  }

  function SigOfList(x: Index, l: seq<Entry>): Sig {
    if l != [] && l[0] in x.used then SigOf(l[0].group) else 0
  }

  ghost predicate ListsGood(x: Index) {
    forall l :: l in x.lists ==> GoodList(x, l, SigOfList(x, l))
  }

  ghost predicate SigsDistinct(x: Index) {
    forall l, k :: l in x.lists && k in x.lists && SigOfList(x, l) == SigOfList(x, k) ==> l == k
  }

  ghost predicate EntryListed(x: Index, e: Entry) { exists l :: l in x.lists && e in l }

  ghost predicate SigListed(x: Index, s: Sig) { exists l :: l in x.lists && SigOfList(x, l) == s }

  ghost predicate AllListed(x: Index) {
    (forall e :: e in x.used ==> EntryListed(x, e)) && (forall s :: s in x.tree ==> SigListed(x, s))
  }

  ghost predicate Inv(x: Index) { ListsGood(x) && SigsDistinct(x) && AllListed(x) }

  /** The list an entry is on. */
  ghost function ListOf(x: Index, e: Entry): (l: seq<Entry>)
    requires Inv(x) && e in x.used
    ensures l in x.lists && e in l && GoodList(x, l, SigOf(e.group))
  {
    assert EntryListed(x, e);
    var l :| l in x.lists && e in l;
    l
  }

  lemma ListUnique(x: Index, e: Entry, l: seq<Entry>)
    requires Inv(x) && l in x.lists && e in l
    ensures e in x.used && ListOf(x, e) == l && GoodList(x, l, SigOf(e.group))
  {
    assert GoodList(x, l, SigOfList(x, l));
  }

  /** The index answers the membership relation: a signature is in the tree exactly if some entry in use has it, and
      the list of its master is exactly the entries that have it, each once. */
  lemma IndexIsMembership(x: Index, s: Sig)
    requires Inv(x)
    ensures s in x.tree <==> exists e :: e in x.used && SigOf(e.group) == s
    ensures s in x.tree ==>
              && x.tree[s] in x.used && x.tree[s] in x.masters
              && Distinct(ListOf(x, x.tree[s]))
              && forall e :: e in ListOf(x, x.tree[s]) <==> e in x.used && SigOf(e.group) == s
  {
    forall e | e in x.used && SigOf(e.group) == s ensures s in x.tree {
      var l := ListOf(x, e);
    }
    if s in x.tree {
      assert SigListed(x, s);
      var l :| l in x.lists && SigOfList(x, l) == s;
      assert GoodList(x, l, s);
      ListUnique(x, x.tree[s], l);
      forall e | e in x.used && SigOf(e.group) == s ensures e in l {
        var k := ListOf(x, e);
        assert SigOfList(x, k) == s;
      }
    }
  }

  function After(l: seq<Entry>, k: nat, e: Entry): seq<Entry>
    requires k < |l|
  {
    l[..k + 1] + [e] + l[k + 1..]
  }

  /** LinkedList3Node_NextOrPrev */
  function NextOrPrev(l: seq<Entry>, e: Entry): (n: Entry)
    requires e in l && |l| > 1
    ensures n in l
  {
    var k := IndexIn(l, e);
    if k + 1 < |l| then l[k + 1] else l[k - 1]
  }

  /** add_to_multicast: a further entry goes behind the master of its signature, or becomes the master. */
  ghost function Added(x: Index, e: Entry): Index
    requires Inv(x)
  {
    var s := SigOf(e.group);
    if s in x.tree then
      IndexIsMembership(x, s);
      var l := ListOf(x, x.tree[s]);
      Index(x.used + {e}, x.tree, x.masters - {e}, x.lists - {l} + {After(l, IndexIn(l, x.tree[s]), e)})
    else
      Index(x.used + {e}, x.tree[s := e], x.masters + {e}, x.lists + {[e]})
  }

  /** remove_from_multicast: the master's neighbour takes over. */
  ghost function Removed(x: Index, e: Entry): Index
    requires Inv(x) && e in x.used
  {
    var s, l := SigOf(e.group), ListOf(x, e);
    var rest := Without(l, e);
    var lists := x.lists - {l} + if rest == [] then {} else {rest};
    if e in x.masters then
      if |l| > 1 then
        var n := NextOrPrev(l, e);
        Index(x.used - {e}, x.tree[s := n], x.masters - {e} + {n}, lists)
      else Index(x.used - {e}, x.tree - {s}, x.masters - {e}, lists)
    else Index(x.used - {e}, x.tree, x.masters, lists)
  }

  // ---- both operations keep the invariant ----

  ghost predicate Other(x: Index, e: Entry, s: Sig) { e in x.used && SigOf(e.group) != s }

  /** `x` and `y` differ only about signature `s`. */
  ghost predicate Agree(x: Index, y: Index, s: Sig) {
    && (forall e :: Other(x, e, s) <==> Other(y, e, s))
    && (forall e :: Other(x, e, s) ==> (e in x.masters <==> e in y.masters))
    && (forall t :: t != s ==> (t in x.tree <==> t in y.tree))
    && (forall t :: t != s && t in x.tree ==> x.tree[t] == y.tree[t])
  }

  lemma OtherList(x: Index, y: Index, s: Sig, l: seq<Entry>)
    requires Agree(x, y, s) && GoodList(x, l, SigOfList(x, l)) && SigOfList(x, l) != s
    ensures GoodList(y, l, SigOfList(x, l)) && SigOfList(y, l) == SigOfList(x, l)
  {
    forall i | 0 <= i < |l| ensures Other(y, l[i], s) && (l[i] in y.masters <==> l[i] in x.masters) {
      assert Other(x, l[i], s);
    }
    hide Agree;
    assert AgreeTree(x, y, s, SigOfList(x, l)) by { AgreeTreeOf(x, y, s, SigOfList(x, l)); }
  }

  ghost predicate AgreeTree(x: Index, y: Index, s: Sig, t: Sig) {
    (t in x.tree <==> t in y.tree) && (t in x.tree ==> x.tree[t] == y.tree[t])
  }

  lemma AgreeTreeOf(x: Index, y: Index, s: Sig, t: Sig)
    requires Agree(x, y, s) && t != s
    ensures AgreeTree(x, y, s, t)
  {
  }

  /** `m` is the list of signature `s` after the change, empty if there is none. */
  ghost predicate ListsAfter(x: Index, y: Index, s: Sig, m: seq<Entry>) {
    && (forall l :: l in y.lists <==> (l in x.lists && SigOfList(x, l) != s) || (m != [] && l == m))
    && (if m == [] then s !in y.tree else GoodList(y, m, s))
    && (forall e :: e in y.used && SigOf(e.group) == s ==> e in m)
  }

  lemma Rebuilt(x: Index, y: Index, s: Sig, m: seq<Entry>)
    requires Inv(x) && Agree(x, y, s) && ListsAfter(x, y, s, m)
    ensures Inv(y)
  {
    hide ListsGood, SigsDistinct, AllListed, Agree, ListsAfter;
    RebuiltGood(x, y, s, m);
    RebuiltDistinct(x, y, s, m);
    RebuiltAll(x, y, s, m);
  }

  lemma RebuiltList(x: Index, y: Index, s: Sig, m: seq<Entry>, l: seq<Entry>)
    requires ListsGood(x) && Agree(x, y, s) && ListsAfter(x, y, s, m) && l in y.lists
    ensures GoodList(y, l, SigOfList(y, l))
    ensures if m != [] && l == m then SigOfList(y, l) == s else l in x.lists && SigOfList(x, l) != s && SigOfList(y, l) == SigOfList(x, l)
  {
    hide Agree;
    if m == [] || l != m {
      assert GoodList(x, l, SigOfList(x, l));
      OtherList(x, y, s, l);
    }
  }

  lemma RebuiltGood(x: Index, y: Index, s: Sig, m: seq<Entry>)
    requires ListsGood(x) && Agree(x, y, s) && ListsAfter(x, y, s, m)
    ensures ListsGood(y)
  {
    forall l | l in y.lists ensures GoodList(y, l, SigOfList(y, l)) { RebuiltList(x, y, s, m, l); }
  }

  lemma RebuiltDistinct(x: Index, y: Index, s: Sig, m: seq<Entry>)
    requires ListsGood(x) && SigsDistinct(x) && Agree(x, y, s) && ListsAfter(x, y, s, m)
    ensures SigsDistinct(y)
  {
    hide ListsGood, Agree, ListsAfter, GoodList, SigOfList;
    forall l, k | l in y.lists && k in y.lists && SigOfList(y, l) == SigOfList(y, k) ensures l == k {
      RebuiltList(x, y, s, m, l);
      RebuiltList(x, y, s, m, k);
    }
  }

  lemma RebuiltAll(x: Index, y: Index, s: Sig, m: seq<Entry>)
    requires Inv(x) && Agree(x, y, s) && ListsAfter(x, y, s, m)
    ensures AllListed(y)
  {
    hide ListsGood, SigsDistinct, Agree, ListsAfter, EntryListed, SigListed;
    forall e | e in y.used ensures EntryListed(y, e) { RebuiltEntry(x, y, s, m, e); }
    forall t | t in y.tree ensures SigListed(y, t) { RebuiltTree(x, y, s, m, t); }
  }

  lemma RebuiltEntry(x: Index, y: Index, s: Sig, m: seq<Entry>, e: Entry)
    requires Inv(x) && Agree(x, y, s) && ListsAfter(x, y, s, m) && e in y.used
    ensures EntryListed(y, e)
  {
    if SigOf(e.group) == s {
      assert m in y.lists;
    } else {
      assert Other(y, e, s);
      assert Other(x, e, s);
      var l := ListOf(x, e);
      assert SigOfList(x, l) == SigOf(e.group);
      assert l in y.lists;
    }
  }

  lemma RebuiltTree(x: Index, y: Index, s: Sig, m: seq<Entry>, t: Sig)
    requires Inv(x) && Agree(x, y, s) && ListsAfter(x, y, s, m) && t in y.tree
    ensures SigListed(y, t)
  {
    hide ListsGood, SigsDistinct, Agree, GoodList, SigOfList;
    if t == s {
      assert m in y.lists;
      RebuiltList(x, y, s, m, m);
    } else {
      AgreeTreeOf(x, y, s, t);
      assert SigListed(x, t);
      var l :| l in x.lists && SigOfList(x, l) == t;
      assert l in y.lists;
      GoodAt(x, l);
      OtherList(x, y, s, l);
    }
  }

  lemma GoodAt(x: Index, l: seq<Entry>)
    requires ListsGood(x) && l in x.lists
    ensures GoodList(x, l, SigOfList(x, l))
  {
  }

  lemma AfterIs(l: seq<Entry>, k: nat, e: Entry)
    requires Distinct(l) && k < |l| && e !in l
    ensures Distinct(After(l, k, e)) && forall d :: d in After(l, k, e) <==> d in l || d == e
  {
    var r := After(l, k, e);
    assert r[k + 1] == e;
    forall d | d in l ensures d in r {
      var i :| 0 <= i < |l| && l[i] == d;
      assert r[if i <= k then i else i + 1] == d;
    }
  }

  /** The lists of other signatures, and only they, are left when the list of `s` is taken out. */
  lemma TakeOut(x: Index, l: seq<Entry>, s: Sig, k: seq<Entry>)
    requires SigsDistinct(x) && l in x.lists && SigOfList(x, l) == s
    ensures k in x.lists - {l} <==> k in x.lists && SigOfList(x, k) != s
  {
    hide SigOfList;
  }

  lemma AddedKeeps(x: Index, e: Entry)
    requires Inv(x) && e !in x.used
    ensures Inv(Added(x, e))
  {
    hide ListsGood, SigsDistinct, AllListed, GoodList;
    var s, y := SigOf(e.group), Added(x, e);
    AddedAgrees(x, e);
    if s in x.tree {
      IndexIsMembership(x, s);
      var l := ListOf(x, x.tree[s]);
      var k := IndexIn(l, x.tree[s]);
      AfterIs(l, k, e);
      SigOfGood(x, l, s);
      AddedLists(x, y, s, l, After(l, k, e), e);
      Rebuilt(x, y, s, After(l, k, e));
    } else {
      AddedAlone(x, y, s, e);
      Rebuilt(x, y, s, [e]);
    }
  }

  lemma SigOfGood(x: Index, l: seq<Entry>, s: Sig)
    requires GoodList(x, l, s)
    ensures SigOfList(x, l) == s
  {
  }

  lemma AddedAgrees(x: Index, e: Entry)
    requires Inv(x) && e !in x.used
    ensures Agree(x, Added(x, e), SigOf(e.group))
  {
    hide ListsGood, SigsDistinct, AllListed, GoodList;
  }

  lemma NoListOf(x: Index, s: Sig)
    requires Inv(x) && s !in x.tree
    ensures forall l :: l in x.lists ==> SigOfList(x, l) != s
    ensures forall e :: e in x.used ==> SigOf(e.group) != s
  {
    IndexIsMembership(x, s);
    forall l | l in x.lists ensures SigOfList(x, l) != s {
      GoodAt(x, l);
    }
  }

  lemma AddedAlone(x: Index, y: Index, s: Sig, e: Entry)
    requires Inv(x) && e !in x.used && s == SigOf(e.group) && s !in x.tree
    requires y == Index(x.used + {e}, x.tree[s := e], x.masters + {e}, x.lists + {[e]})
    ensures ListsAfter(x, y, s, [e])
  {
    hide ListsGood, SigsDistinct, AllListed, SigOfList;
    NoListOf(x, s);
    assert GoodList(y, [e], s);
  }

  lemma AddedGood(x: Index, y: Index, s: Sig, l: seq<Entry>, m: seq<Entry>, e: Entry)
    requires e !in x.used && s == SigOf(e.group) && GoodList(x, l, s)
    requires Distinct(m) && forall d :: d in m <==> d in l || d == e
    requires y.used == x.used + {e} && y.tree == x.tree && y.masters == x.masters - {e}
    ensures GoodList(y, m, s)
  {
    assert e in m;
    forall i | 0 <= i < |m| ensures m[i] in y.used && SigOf(m[i].group) == s && (m[i] in y.masters <==> m[i] == y.tree[s]) {
      assert m[i] in m;
      if m[i] != e { assert m[i] in l; }
    }
  }

  lemma AddedLists(x: Index, y: Index, s: Sig, l: seq<Entry>, m: seq<Entry>, e: Entry)
    requires Inv(x) && e !in x.used && s == SigOf(e.group) && l in x.lists && GoodList(x, l, s) && SigOfList(x, l) == s
    requires Distinct(m) && forall d :: d in m <==> d in l || d == e
    requires forall d :: d in l <==> d in x.used && SigOf(d.group) == s
    requires y == Index(x.used + {e}, x.tree, x.masters - {e}, x.lists - {l} + {m})
    ensures ListsAfter(x, y, s, m)
  {
    hide ListsGood, SigsDistinct, AllListed, GoodList, SigOfList, Distinct;
    AddedGood(x, y, s, l, m, e);
    assert m != [] by { assert e in m; }
    forall k ensures k in y.lists <==> (k in x.lists && SigOfList(x, k) != s) || k == m {
      TakeOut(x, l, s, k);
    }
  }

  // removal

  lemma RemovedAgrees(x: Index, e: Entry)
    requires Inv(x) && e in x.used
    ensures Agree(x, Removed(x, e), SigOf(e.group))
  {
    hide ListsGood, SigsDistinct, AllListed;
    var s, l, y := SigOf(e.group), ListOf(x, e), Removed(x, e);
    if e in x.masters && |l| > 1 {
      var n := NextOrPrev(l, e);
      assert n in l;
      assert n in x.used && SigOf(n.group) == s;
    }
  }

  /** The master of the entry's list is the entry itself exactly if it is marked master. */
  lemma MasterIs(x: Index, e: Entry)
    requires Inv(x) && e in x.used
    ensures SigOf(e.group) in x.tree && (e in x.masters <==> x.tree[SigOf(e.group)] == e)
  {
    var l := ListOf(x, e);
    var i :| 0 <= i < |l| && l[i] == e;
  }

  lemma RemovedGood(x: Index, y: Index, s: Sig, l: seq<Entry>, m: seq<Entry>, e: Entry, n: Entry)
    requires GoodList(x, l, s) && e in l && Distinct(m) && m != [] && (forall d :: d in m <==> d in l && d != e)
    requires y.used == x.used - {e} && n in m
    requires if e in x.masters then y.tree == x.tree[s := n] && y.masters == x.masters - {e} + {n}
             else n == x.tree[s] && y.tree == x.tree && y.masters == x.masters
    ensures GoodList(y, m, s)
  {
    assert forall d :: d in l ==> (d in x.masters <==> d == x.tree[s]) by {
      forall d | d in l ensures d in x.masters <==> d == x.tree[s] {
        var i :| 0 <= i < |l| && l[i] == d;
      }
    }
    forall i | 0 <= i < |m| ensures m[i] in y.used && SigOf(m[i].group) == s && (m[i] in y.masters <==> m[i] == y.tree[s]) {
      assert m[i] in m && m[i] in l;
      var j :| 0 <= j < |l| && l[j] == m[i];
    }
  }

  lemma RemovedLists(x: Index, y: Index, s: Sig, l: seq<Entry>, m: seq<Entry>, e: Entry)
    requires Inv(x) && l in x.lists && SigOfList(x, l) == s
    requires forall d :: d in m <==> d in l && d != e
    requires forall d :: d in x.used && SigOf(d.group) == s ==> d in l
    requires y.used == x.used - {e} && y.lists == x.lists - {l} + if m == [] then {} else {m}
    requires if m == [] then s !in y.tree else GoodList(y, m, s)
    ensures ListsAfter(x, y, s, m)
  {
    hide ListsGood, SigsDistinct, AllListed, GoodList, SigOfList;
    forall k ensures k in y.lists <==> (k in x.lists && SigOfList(x, k) != s) || (m != [] && k == m) {
      TakeOut(x, l, s, k);
    }
  }

  lemma RemovedKeeps(x: Index, e: Entry)
    requires Inv(x) && e in x.used
    ensures Inv(Removed(x, e))
  {
    hide ListsGood, SigsDistinct, AllListed, GoodList, Distinct, SigOfList;
    var s, l, y := SigOf(e.group), ListOf(x, e), Removed(x, e);
    RemovedAgrees(x, e);
    MasterIs(x, e);
    IndexIsMembership(x, s);
    GoodFacts(x, l, s);
    ListUnique(x, x.tree[s], l);
    WithoutIs(l, e);
    var m := Without(l, e);
    if m != [] {
      var n := if e in x.masters then NextOrPrev(l, e) else x.tree[s];
      NeighbourDiffers(l, e);
      RemovedGood(x, y, s, l, m, e, n);
    }
    RemovedLists(x, y, s, l, m, e);
    Rebuilt(x, y, s, m);
  }

  lemma GoodFacts(x: Index, l: seq<Entry>, s: Sig)
    requires GoodList(x, l, s)
    ensures l != [] && Distinct(l) && s in x.tree && x.tree[s] in l && SigOfList(x, l) == s
  {
  }

  lemma NeighbourDiffers(l: seq<Entry>, e: Entry)
    requires e in l && Distinct(l)
    ensures |l| > 1 ==> NextOrPrev(l, e) != e
  {
  }
}
