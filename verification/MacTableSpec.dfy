/** The MAC table of FrameDecider as a per-peer list, least recently used first, and what a lookup tells about the past. */
module MacTableSpec {
  import opened Bytes
  import opened Lists

  type Peer = nat
  type Mac = nat

  /** `max` is max_peer_macs */
  datatype Table = Table(max: nat, lists: map<Peer, seq<Mac>>)

  /** The list of the peer that sent from `m`. */
  function Touched(max: nat, l: seq<Mac>, m: Mac): seq<Mac> {
    if m in l then Without(l, m) + [m]
    else if |l| >= max && l != [] then l[1..] + [m]
    else l + [m]
  }

  /** add_mac_to_peer: whoever else has the address loses it. */
  function Learn(t: Table, p: Peer, m: Mac): Table
    requires p in t.lists
  {
    Table(t.max, map q | q in t.lists :: if q == p then Touched(t.max, t.lists[p], m) else Without(t.lists[q], m))
  }

  ghost predicate Holds(t: Table, p: Peer, m: Mac) { p in t.lists && m in t.lists[p] }

  datatype Event = Sent(p: Peer, m: Mac) | AddPeer(p: Peer) | RemovePeer(p: Peer)

  predicate Legal(t: Table, e: Event) {
    match e
    case Sent(p, _) => p in t.lists
    case AddPeer(p) => p !in t.lists
    case RemovePeer(p) => p in t.lists
  }

  function Step(t: Table, e: Event): Table
    requires Legal(t, e)
  {
    match e
    case Sent(p, m) => Learn(t, p, m)
    case AddPeer(p) => Table(t.max, t.lists[p := []])
    case RemovePeer(p) => Table(t.max, t.lists - {p})
  }

  function Front<T>(h: seq<T>): seq<T>
    requires h != []
  {
    h[..|h| - 1]
  }

  function Last<T>(h: seq<T>): T
    requires h != []
  {
    h[|h| - 1]
  }

  ghost predicate LegalRun(max: nat, h: seq<Event>)
    decreases |h|, 0
  {
    h == [] || (LegalRun(max, Front(h)) && Legal(Run(max, Front(h)), Last(h)))
  }

  ghost function Run(max: nat, h: seq<Event>): Table
    requires LegalRun(max, h)
    decreases |h|, 1
  {
    if h == [] then Table(max, map[]) else Step(Run(max, Front(h)), Last(h))
  }

  /** The last peer that sent from `m`, unless it has left since. */
  function LastSender(h: seq<Event>, m: Mac): Option<Peer> {
    if h == [] then None
    else match Last(h)
      case Sent(p, x) => if x == m then Some(p) else LastSender(Front(h), m)
      case RemovePeer(p) => if LastSender(Front(h), m) == Some(p) then None else LastSender(Front(h), m)
      case AddPeer(_) => LastSender(Front(h), m)
  }

  /** The other addresses `p` has sent from since anyone last sent from `m`. */
  function Since(h: seq<Event>, p: Peer, m: Mac): set<Mac> {
    if h == [] then {}
    else match Last(h)
      case Sent(q, x) => if x == m then {} else Since(Front(h), p, m) + if q == p then {x} else {}
      case _ => Since(Front(h), p, m)
  }

  // ---- lists ----

  /** `x` comes before `y`. */
  ghost predicate InOrder(s: seq<Mac>, x: Mac, y: Mac) {
    exists i, j :: 0 <= i < j < |s| && s[i] == x && s[j] == y
  }

  lemma {:induction false} WithoutKeepsOrder(s: seq<Mac>, m: Mac, x: Mac, y: Mac)
    requires Distinct(s) && InOrder(Without(s, m), x, y)
    ensures InOrder(s, x, y)
  {
    if s[0] == m {
      OrderCons(s, x, y);
    } else {
      var r := Without(s[1..], m);
      var t := [s[0]] + r;
      var i, j :| 0 <= i < j < |t| && t[i] == x && t[j] == y;
      assert r[j - 1] == y;
      if i == 0 {
        WithoutIs(s[1..], m);
        assert y in s[1..];
        var k :| 0 <= k < |s[1..]| && s[1..][k] == y;
        assert s[0] == x && s[k + 1] == y;
      } else {
        assert r[i - 1] == x;
        WithoutKeepsOrder(s[1..], m, x, y);
        OrderCons(s, x, y);
      }
    }
  }

  lemma OrderCons(s: seq<Mac>, x: Mac, y: Mac)
    requires s != [] && InOrder(s[1..], x, y)
    ensures InOrder(s, x, y)
  {
    var i, j :| 0 <= i < j < |s[1..]| && s[1..][i] == x && s[1..][j] == y;
    assert s[i + 1] == x && s[j + 1] == y;
  }

  /** What touching `m` does to a list. */
  lemma TouchedIs(max: nat, l: seq<Mac>, m: Mac)
    requires Distinct(l) && |l| <= max && 0 < max
    ensures var r := Touched(max, l, m);
            && Distinct(r) && |r| <= max && m in r
            && (forall x :: x in r ==> x == m || x in l)
            && (forall x :: x in l && x !in r ==> |l| == max && x == l[0] && m !in l)
  {
    WithoutIs(l, m);
  }

  lemma TouchedOrder(max: nat, l: seq<Mac>, m: Mac, x: Mac, y: Mac)
    requires Distinct(l) && |l| <= max && 0 < max && InOrder(Touched(max, l, m), x, y)
    ensures x != m && (y == m || InOrder(l, x, y))
  {
    var r := Touched(max, l, m);
    var i, j :| 0 <= i < j < |r| && r[i] == x && r[j] == y;
    TouchedIs(max, l, m);
    assert r[|r| - 1] == m;
    if y != m {
      if m in l {
        var d := Without(l, m);
        assert d[i] == x && d[j] == y;
        WithoutKeepsOrder(l, m, x, y);
      } else if |l| >= max {
        assert l[i + 1] == x && l[j + 1] == y;
      } else {
        assert l[i] == x && l[j] == y;
      }
    }
  }

  // ---- invariant ----

  ghost predicate ListsOk(t: Table) {
    forall p :: p in t.lists ==> Distinct(t.lists[p]) && |t.lists[p]| <= t.max
  }

  /** A held address was last sent from by its holder. */
  ghost predicate HoldersSent(t: Table, h: seq<Event>) {
    forall p: Peer, m: Mac :: Holds(t, p, m) ==> LastSender(h, m) == Some(p)
  }

  /** Whatever stands behind an address in a list was sent from after it. */
  ghost predicate OrderIsRecency(t: Table, h: seq<Event>) {
    forall p: Peer, x: Mac, y: Mac :: p in t.lists && InOrder(t.lists[p], x, y) ==> y in Since(h, p, x)
  }

  /** A sender that is present but no longer holds the address has sent from `max` others since. */
  ghost predicate MissesExplained(t: Table, h: seq<Event>) {
    forall p: Peer, m: Mac :: LastSender(h, m) == Some(p) ==> p in t.lists && (Holds(t, p, m) || |Since(h, p, m)| >= t.max)
  }

  ghost predicate Inv(t: Table, h: seq<Event>) {
    0 < t.max && ListsOk(t) && HoldersSent(t, h) && OrderIsRecency(t, h) && MissesExplained(t, h)
  }

  lemma AfterSent(h: seq<Event>, p: Peer, m: Mac)
    ensures var h' := h + [Sent(p, m)];
            && (forall x: Mac :: LastSender(h', x) == if x == m then Some(p) else LastSender(h, x))
            && (forall q: Peer, x: Mac :: Since(h', q, x) == if x == m then {} else Since(h, q, x) + if q == p then {m} else {})
  {
    var h' := h + [Sent(p, m)];
    assert Front(h') == h && Last(h') == Sent(p, m);
  }

  lemma SentLists(t: Table, p: Peer, m: Mac)
    requires p in t.lists && ListsOk(t) && 0 < t.max
    ensures ListsOk(Learn(t, p, m))
  {
    hide Without, Touched;
    TouchedIs(t.max, t.lists[p], m);
    forall q | q in t.lists ensures Distinct(Without(t.lists[q], m)) && |Without(t.lists[q], m)| <= t.max {
      WithoutIs(t.lists[q], m);
    }
  }

  lemma SentHolders(t: Table, h: seq<Event>, p: Peer, m: Mac)
    requires p in t.lists && Inv(t, h)
    ensures HoldersSent(Learn(t, p, m), h + [Sent(p, m)])
  {
    hide Without, Touched, LastSender, Since, OrderIsRecency, MissesExplained;
    AfterSent(h, p, m);
    var t' := Learn(t, p, m);
    forall q: Peer, x: Mac | Holds(t', q, x) ensures LastSender(h + [Sent(p, m)], x) == Some(q) {
      if q == p {
        TouchedIs(t.max, t.lists[p], m);
        if x != m { assert Holds(t, p, x); }
      } else {
        WithoutIs(t.lists[q], m);
        assert Holds(t, q, x);
      }
    }
  }

  lemma SentOrder(t: Table, h: seq<Event>, p: Peer, m: Mac)
    requires p in t.lists && Inv(t, h)
    ensures OrderIsRecency(Learn(t, p, m), h + [Sent(p, m)])
  {
    hide Without, Touched, LastSender, Since, HoldersSent, MissesExplained, InOrder;
    AfterSent(h, p, m);
    var t' := Learn(t, p, m);
    forall q: Peer, x: Mac, y: Mac | q in t'.lists && InOrder(t'.lists[q], x, y) ensures y in Since(h + [Sent(p, m)], q, x) {
      if q == p {
        TouchedOrder(t.max, t.lists[p], m, x, y);
      } else {
        WithoutKeepsOrder(t.lists[q], m, x, y);
        WithoutHasNot(t.lists[q], m, x, y);
      }
    }
  }

  lemma WithoutHasNot(s: seq<Mac>, m: Mac, x: Mac, y: Mac)
    requires Distinct(s) && InOrder(Without(s, m), x, y)
    ensures x != m
  {
    var r := Without(s, m);
    var i, j :| 0 <= i < j < |r| && r[i] == x && r[j] == y;
    WithoutIs(s, m);
    assert x in r;
  }

  /** The evicted address had the whole rest of a full list behind it. */
  lemma EvictedIsOld(t: Table, h: seq<Event>, p: Peer, m: Mac)
    requires p in t.lists && Inv(t, h) && m !in t.lists[p] && |t.lists[p]| == t.max
    ensures |Since(h + [Sent(p, m)], p, t.lists[p][0])| >= t.max
  {
    AfterSent(h, p, m);
    var l := t.lists[p];
    var behind := Elements(l[1..]);
    forall i | 1 <= i < |l| ensures l[i] in Since(h, p, l[0]) {
      assert InOrder(l, l[0], l[i]);
    }
    hide Since, LastSender, MissesExplained, HoldersSent, OrderIsRecency;
    ElementsSize(l[1..]);
    var s := Since(h + [Sent(p, m)], p, l[0]);
    assert behind + {m} <= s;
    SubsetSize(behind + {m}, s);
  }

  lemma SentMisses(t: Table, h: seq<Event>, p: Peer, m: Mac)
    requires p in t.lists && Inv(t, h)
    ensures MissesExplained(Learn(t, p, m), h + [Sent(p, m)])
  {
    hide Without, Touched, LastSender, Since, HoldersSent, OrderIsRecency;
    AfterSent(h, p, m);
    TouchedIs(t.max, t.lists[p], m);
    var t', h' := Learn(t, p, m), h + [Sent(p, m)];
    forall q: Peer, x: Mac | LastSender(h', x) == Some(q) ensures q in t'.lists && (Holds(t', q, x) || |Since(h', q, x)| >= t'.max) {
      if x != m {
        SubsetSize(Since(h, q, x), Since(h', q, x));
        if Holds(t, q, x) {
          WithoutIs(t.lists[q], m);
          if q == p && x !in t'.lists[p] { EvictedIsOld(t, h, p, m); }
        }
      }
    }
  }

  lemma StepKeeps(t: Table, h: seq<Event>, e: Event)
    requires Inv(t, h) && Legal(t, e)
    ensures Inv(Step(t, e), h + [e])
  {
    match e {
      case Sent(p, m) =>
        hide Learn, ListsOk, HoldersSent, OrderIsRecency, MissesExplained;
        SentLists(t, p, m);
        SentHolders(t, h, p, m);
        SentOrder(t, h, p, m);
        SentMisses(t, h, p, m);
        LearnMax(t, p, m);
      case AddPeer(p) =>
        PeerAdded(t, h, p);
      case RemovePeer(p) =>
        PeerRemoved(t, h, p);
    }
  }

  lemma PeerAdded(t: Table, h: seq<Event>, p: Peer)
    requires Inv(t, h) && p !in t.lists
    ensures Inv(Table(t.max, t.lists[p := []]), h + [AddPeer(p)])
  {
    var h', t' := h + [AddPeer(p)], Table(t.max, t.lists[p := []]);
    assert Front(h') == h && Last(h') == AddPeer(p);
    forall q: Peer, x: Mac | Holds(t', q, x) ensures LastSender(h', x) == Some(q) {
      assert Holds(t, q, x);
    }
    forall q: Peer, x: Mac | LastSender(h', x) == Some(q) ensures q in t'.lists && (Holds(t', q, x) || |Since(h', q, x)| >= t'.max) {
      assert LastSender(h, x) == Some(q);
    }
  }

  lemma PeerRemoved(t: Table, h: seq<Event>, p: Peer)
    requires Inv(t, h)
    ensures Inv(Table(t.max, t.lists - {p}), h + [RemovePeer(p)])
  {
    var h', t' := h + [RemovePeer(p)], Table(t.max, t.lists - {p});
    assert Front(h') == h && Last(h') == RemovePeer(p);
    forall q: Peer, x: Mac | Holds(t', q, x) ensures LastSender(h', x) == Some(q) {
      assert Holds(t, q, x);
    }
    forall q: Peer, x: Mac | LastSender(h', x) == Some(q) ensures q in t'.lists && (Holds(t', q, x) || |Since(h', q, x)| >= t'.max) {
      assert LastSender(h, x) == Some(q);
    }
  }

  lemma LearnMax(t: Table, p: Peer, m: Mac)
    requires p in t.lists
    ensures Learn(t, p, m).max == t.max
  {
  }

  lemma {:induction false} RunKeeps(max: nat, h: seq<Event>)
    requires 0 < max && LegalRun(max, h)
    ensures Inv(Run(max, h), h) && Run(max, h).max == max
    decreases |h|
  {
    hide Step, Legal;
    if h != [] {
      RunKeeps(max, Front(h));
      StepKeeps(Run(max, Front(h)), Front(h), Last(h));
      assert Front(h) + [Last(h)] == h;
      StepMax(Run(max, Front(h)), Last(h));
    }
  }

  lemma StepMax(t: Table, e: Event)
    requires Legal(t, e)
    ensures Step(t, e).max == t.max
  {
  }

  /**
   After any run: an address is found only with the peer that last sent from it and is still there; and if it is not
   found with that peer, the peer has sent from at least max_peer_macs other addresses since.
   */
  lemma LookupTellsThePast(max: nat, h: seq<Event>, m: Mac)
    requires 0 < max && LegalRun(max, h)
    ensures forall p: Peer :: Holds(Run(max, h), p, m) ==> LastSender(h, m) == Some(p)
    ensures LastSender(h, m).Some? ==>
              var p := LastSender(h, m).value; Holds(Run(max, h), p, m) || |Since(h, p, m)| >= max
  {
    RunKeeps(max, h);
  }
}
