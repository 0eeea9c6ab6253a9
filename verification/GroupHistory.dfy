/** What a multicast destination tells about the past: which reports still count, from the events alone. */
module GroupHistory {
  import opened GroupIndex
  import opened GroupTableSpec
  import L = MacTableSpec
  import opened Lists

  /** The other groups `q` has reported since it last reported `g`, without those that have expired since. */
  function Younger(h: seq<Event>, q: Peer, g: Group): set<Group> {
    if h == [] then {}
    else
      var rest := Younger(L.Front(h), q, g);
      match L.Last(h)
      case Report(p, x, _) => if p != q then rest else if x == g then {} else rest + {x}
      case Expire(e) => if e.peer == q then rest - {e.group} else rest
      case FreePeer(p) => if p == q then {} else rest
      case _ => rest
  }

  /**
   The last report of `g` by `q` still counts: since then it has not expired, `q` has not left, and there never were
   `max` other groups reported and unexpired at once.
   */
  ghost predicate Counts(max: nat, h: seq<Event>, q: Peer, g: Group) {
    if h == [] then false
    else
      var e := L.Last(h);
      if e.Report? && e.peer == q && e.group == g then true
      else if (e.Expire? && e.entry == Entry(q, g)) || (e.FreePeer? && e.peer == q) then false
      else Counts(max, L.Front(h), q, g) && |Younger(h, q, g)| < max
  }

  /** When the report runs out: an interval after it, or sooner after a query for the group. */
  function RunsOut(p: Params, h: seq<Event>, e: Entry): int {
    if h == [] then 0
    else
      var rest := RunsOut(p, L.Front(h), e);
      match L.Last(h)
      case Report(q, g, now) => if Entry(q, g) == e then now + p.interval else rest
      case Query(g, now) => if g == e.group && rest > now + p.lmqt then now + p.lmqt else rest
      case _ => rest
  }

  // ---- the list of one peer ----

  ghost function ListAt(t: Groups, q: Peer): seq<Group> { if q in t.lists then t.lists[q] else [] }

  ghost function NextList(max: nat, l: seq<Group>, q: Peer, e: Event): seq<Group> {
    match e
    case Report(p, g, _) => if p == q then L.Touched(max, l, g) else l
    case Expire(x) => if x.peer == q then Without(l, x.group) else l
    case FreePeer(p) => if p == q then [] else l
    case _ => l
  }

  lemma StepList(p: Params, t: Groups, e: Event, q: Peer)
    requires Ok(p, t) && Legal(t, e)
    ensures ListAt(Step(p, t, e), q) == NextList(p.max, ListAt(t, q), q, e)
  {
    hide Inv, Bounded, Emptied, L.Touched, Without, Added, Removed;
    if e.FreePeer? { EmptiedIs(p, t, e.peer); }
  }

  /** Behind each group are exactly those reported later, and the groups listed are those whose reports count. */
  ghost predicate Ordered(l: seq<Group>, h: seq<Event>, q: Peer) {
    forall i :: 0 <= i < |l| ==> Younger(h, q, l[i]) == Elements(l[i + 1..])
  }

  ghost predicate Told(max: nat, l: seq<Group>, h: seq<Event>, q: Peer) {
    && Distinct(l) && |l| <= max && Ordered(l, h, q)
    && forall g :: Counts(max, h, q, g) <==> g in l
  }

  lemma Few(max: nat, l: seq<Group>, h: seq<Event>, q: Peer, g: Group)
    requires Ordered(l, h, q) && |l| <= max && g in l
    ensures |Younger(h, q, g)| < max
  {
    var i := IndexIn(l, g);
    ElementsSize(l[i + 1..]);
  }

  lemma After(h: seq<Event>, e: Event)
    ensures L.Front(h + [e]) == h && L.Last(h + [e]) == e && h + [e] != []
  {
  }

  /** A report appends the group to what is left of the list: all of it, all but the group, or all but the first. */
  lemma TouchedFront(max: nat, l: seq<Group>, g: Group) returns (k: nat)
    requires Distinct(l) && |l| <= max && 0 < max
    ensures k <= |l| && (k == |l| || l[k] != g ==> g !in l)
    ensures var r := L.Touched(max, l, g);
            if k == |l| then r == l + [g] else (l[k] == g || k == 0) && r == l[..k] + l[k + 1..] + [g]
  {
    hide Without, Distinct;
    k := WithoutAt(l, g);
    if k == |l| == max {
      k := 0;
      assert l[..0] + l[1..] == l[1..];
    }
  }

  lemma ReportOrder(max: nat, l: seq<Group>, h: seq<Event>, q: Peer, g: Group, now: int)
    requires Distinct(l) && |l| <= max && 0 < max && Ordered(l, h, q)
    ensures Ordered(L.Touched(max, l, g), h + [Report(q, g, now)], q)
  {
    hide L.Touched, Younger, Elements;
    var h', r := h + [Report(q, g, now)], L.Touched(max, l, g);
    var k := TouchedFront(max, l, g);
    forall i | 0 <= i < |r| ensures Younger(h', q, r[i]) == Elements(r[i + 1..]) {
      ReportYounger(h, q, g, now, r[i]);
      if i == |r| - 1 {
        NoneBehind(r);
      } else {
        var j := if i < k then i else i + 1;
        assert r[i] == l[j];
        assert l[j] != g;
        MovedBehind(l, k, j, g, r, i);
      }
    }
  }

  lemma ReportYounger(h: seq<Event>, q: Peer, g: Group, now: int, x: Group)
    ensures Younger(h + [Report(q, g, now)], q, x) == if x == g then {} else Younger(h, q, x) + {g}
  {
    After(h, Report(q, g, now));
  }

  lemma NoneBehind(r: seq<Group>)
    requires r != []
    ensures Elements(r[|r| - 1 + 1..]) == {}
  {
  }

  lemma MovedBehind(l: seq<Group>, k: nat, j: nat, g: Group, r: seq<Group>, i: nat)
    requires j < |l| && k <= |l| && j != k && i == (if j < k then j else j - 1)
    requires if k == |l| then r == l + [g] else (l[k] == g || k == 0) && r == l[..k] + l[k + 1..] + [g]
    ensures i + 1 <= |r| && Elements(r[i + 1..]) == Elements(l[j + 1..]) + {g}
  {
    if j < k < |l| {
      assert r[i + 1..] == l[j + 1..k] + l[k + 1..] + [g];
      assert l[j + 1..] == l[j + 1..k] + [g] + l[k + 1..];
    } else {
      assert r[i + 1..] == l[j + 1..] + [g];
    }
  }

  lemma ExpireOrder(l: seq<Group>, h: seq<Event>, q: Peer, g: Group)
    requires Distinct(l) && Ordered(l, h, q)
    ensures Ordered(Without(l, g), h + [Expire(Entry(q, g))], q)
  {
    hide Without, Distinct, Younger, Elements;
    var h', r := h + [Expire(Entry(q, g))], Without(l, g);
    var k := WithoutAt(l, g);
    forall i | 0 <= i < |r| ensures Younger(h', q, r[i]) == Elements(r[i + 1..]) {
      var j := if i < k then i else i + 1;
      assert r[i] == l[j];
      ExpireYounger(h, q, g, l[j]);
      GoneBehind(l, k, j, g, r, i);
    }
  }

  lemma ExpireYounger(h: seq<Event>, q: Peer, g: Group, x: Group)
    ensures Younger(h + [Expire(Entry(q, g))], q, x) == Younger(h, q, x) - {g}
  {
    After(h, Expire(Entry(q, g)));
  }

  lemma GoneBehind(l: seq<Group>, k: nat, j: nat, g: Group, r: seq<Group>, i: nat)
    requires Distinct(l) && j < |l| && i < |r| && k <= |l| && j != k && i == (if j < k then j else j - 1)
    requires if k < |l| then l[k] == g && r == l[..k] + l[k + 1..] else g !in l && r == l
    ensures Elements(r[i + 1..]) == Elements(l[j + 1..]) - {g}
  {
    if j < k < |l| {
      assert r[i + 1..] == l[j + 1..k] + l[k + 1..];
      assert l[j + 1..] == l[j + 1..k] + [g] + l[k + 1..];
    } else {
      assert r[i + 1..] == l[j + 1..];
    }
  }

  /** Nothing this event does concerns the reports of `q`. */
  predicate Elsewhere(e: Event, q: Peer) {
    match e
    case Report(p, _, _) => p != q
    case Expire(x) => x.peer != q
    case FreePeer(p) => p != q
    case _ => true
  }

  lemma ElsewhereSame(h: seq<Event>, q: Peer, e: Event, g: Group)
    requires Elsewhere(e, q)
    ensures Younger(h + [e], q, g) == Younger(h, q, g)
  {
    After(h, e);
  }

  lemma StepOrder(max: nat, l: seq<Group>, h: seq<Event>, q: Peer, e: Event)
    requires Distinct(l) && |l| <= max && 0 < max && Ordered(l, h, q)
    ensures Ordered(NextList(max, l, q, e), h + [e], q)
  {
    hide Younger, Ordered, L.Touched, Without, Distinct;
    if Elsewhere(e, q) {
      SameOrder(l, h, q, e);
    } else {
      match e {
        case Report(_, g, now) => ReportOrder(max, l, h, q, g, now);
        case Expire(x) => ExpireOrder(l, h, q, x.group);
        case FreePeer(_) => NoneOrdered(h + [e], q);
      }
    }
  }

  lemma SameOrder(l: seq<Group>, h: seq<Event>, q: Peer, e: Event)
    requires Ordered(l, h, q) && Elsewhere(e, q)
    ensures Ordered(l, h + [e], q)
  {
    hide Younger;
    forall i | 0 <= i < |l| ensures Younger(h + [e], q, l[i]) == Elements(l[i + 1..]) { ElsewhereSame(h, q, e, l[i]); }
  }

  lemma NoneOrdered(h: seq<Event>, q: Peer)
    ensures Ordered([], h, q)
  {
  }

  lemma NextListIs(max: nat, l: seq<Group>, q: Peer, e: Event)
    requires Distinct(l) && |l| <= max && 0 < max
    ensures var r := NextList(max, l, q, e);
            && Distinct(r) && |r| <= max
            && (forall g :: g in r ==> g in l || (e.Report? && e.peer == q && e.group == g))
            && (forall g :: g in l && g !in r ==>
                  (e.Expire? && e.entry == Entry(q, g)) || (e.FreePeer? && e.peer == q)
                  || (e.Report? && e.peer == q && e.group !in l && |l| == max && g == l[0]))
  {
    hide L.Touched, Without;
    match e {
      case Report(p, g, _) => L.TouchedIs(max, l, g);
      case Expire(x) => WithoutIs(l, x.group);
      case _ =>
    }
  }

  /** The group that falls off a full list has as many others behind it as there is room for. */
  lemma Evicted(max: nat, l: seq<Group>, h: seq<Event>, q: Peer, g: Group, now: int)
    requires Distinct(l) && |l| == max && 0 < max && Ordered(l, h, q) && g !in l
    ensures |Younger(h + [Report(q, g, now)], q, l[0])| >= max
  {
    After(h, Report(q, g, now));
    ElementsSize(l[1..]);
    assert Younger(h + [Report(q, g, now)], q, l[0]) == Elements(l[1..]) + {g};
  }

  lemma StepCounts(max: nat, l: seq<Group>, h: seq<Event>, q: Peer, e: Event, g: Group)
    requires 0 < max && Told(max, l, h, q)
    ensures Counts(max, h + [e], q, g) <==> g in NextList(max, l, q, e)
  {
    hide Younger, L.Touched, Without, NextList;
    After(h, e);
    NextListIs(max, l, q, e);
    StepOrder(max, l, h, q, e);
    var r := NextList(max, l, q, e);
    assert Counts(max, h, q, g) <==> g in l;
    GoneOrNew(max, l, q, e, g);
    hide Ordered;
    if g in r {
      Few(max, r, h + [e], q, g);
    } else if g in l && e.Report? && e.peer == q && e.group !in l && |l| == max && g == l[0] {
      Evicted(max, l, h, q, e.group, e.now);
    }
  }

  lemma GoneOrNew(max: nat, l: seq<Group>, q: Peer, e: Event, g: Group)
    requires Distinct(l) && |l| <= max && 0 < max
    ensures e.Report? && e.peer == q && e.group == g ==> g in NextList(max, l, q, e)
    ensures (e.Expire? && e.entry == Entry(q, g)) || (e.FreePeer? && e.peer == q) ==> g !in NextList(max, l, q, e)
  {
    hide L.Touched, Without;
    match e {
      case Report(p, x, _) => L.TouchedIs(max, l, x);
      case Expire(x) => WithoutIs(l, x.group);
      case _ =>
    }
  }

  lemma StepTold(max: nat, l: seq<Group>, h: seq<Event>, q: Peer, e: Event)
    requires 0 < max && Told(max, l, h, q)
    ensures Told(max, NextList(max, l, q, e), h + [e], q)
  {
    hide Younger, Counts, NextList, Ordered;
    NextListIs(max, l, q, e);
    StepOrder(max, l, h, q, e);
    forall g ensures Counts(max, h + [e], q, g) <==> g in NextList(max, l, q, e) { StepCounts(max, l, h, q, e, g); }
  }

  // ---- runs ----

  lemma {:induction false} RunTold(p: Params, t: Groups, h: seq<Event>, es: seq<Event>, q: Peer)
    requires Ok(p, t) && LegalRun(p, t, es) && Told(p.max, ListAt(t, q), h, q)
    ensures Told(p.max, ListAt(Run(p, t, es), q), h + es, q)
    decreases |es|
  {
    hide Step, Legal, Ok, Told, NextList, ListAt;
    if es == [] {
      assert h + es == h;
    } else {
      Positive(p, t);
      StepKeeps(p, t, es[0]);
      StepList(p, t, es[0], q);
      StepTold(p.max, ListAt(t, q), h, q, es[0]);
      RunTold(p, Step(p, t, es[0]), h + [es[0]], es[1..], q);
      assert h + [es[0]] + es[1..] == h + es;
    }
  }

  lemma Positive(p: Params, t: Groups)
    requires Ok(p, t)
    ensures 0 < p.max
  {
  }

  /** After any run a peer is a member of exactly the groups of which its last report still counts. */
  lemma MembershipTellsThePast(p: Params, h: seq<Event>, q: Peer, g: Group)
    requires 0 < p.max && Ok(p, Initial) && LegalRun(p, Initial, h)
    ensures Member(Run(p, Initial, h), Entry(q, g)) <==> Counts(p.max, h, q, g)
  {
    hide Step, Legal, Ok, Run, LegalRun, Counts;
    assert Told(p.max, ListAt(Initial, q), [], q) by { NothingTold(p.max, q); }
    RunTold(p, Initial, [], h, q);
    assert [] + h == h;
  }

  lemma NothingTold(max: nat, q: Peer)
    ensures Told(max, [], [], q)
  {
  }

  /** So a frame goes to a peer exactly if a report of the peer for a group with that signature still counts. */
  lemma DestinationsTellThePast(p: Params, h: seq<Event>, s: Sig, q: Peer)
    requires 0 < p.max && Ok(p, Initial) && LegalRun(p, Initial, h)
    ensures q in Destinations(Run(p, Initial, h).index, s) <==> exists g :: Counts(p.max, h, q, g) && SigOf(g) == s
  {
    hide Step, Legal, Inv, LegalRun, Counts, Destinations;
    var t := Run(p, Initial, h);
    MulticastFollowsMembership(p, h, s, q);
    var gs := GroupsWith(t, q, s);
    forall g ensures g in gs <==> Counts(p.max, h, q, g) && SigOf(g) == s {
      MembershipTellsThePast(p, h, q, g);
    }
    assert q in Destinations(t.index, s) <==> multiset(Destinations(t.index, s))[q] > 0;
    if gs != {} { var g :| g in gs; }
  }

  // ---- timers ----

  ghost predicate Timed(p: Params, t: Groups, h: seq<Event>) { forall e :: e in t.end ==> t.end[e] == RunsOut(p, h, e) }

  lemma StepTimed(p: Params, t: Groups, h: seq<Event>, e: Event)
    requires Ok(p, t) && Legal(t, e) && Timed(p, t, h)
    ensures Timed(p, Step(p, t, e), h + [e])
  {
    hide Inv, Bounded, Emptied, L.Touched, Without, Added, Removed;
    After(h, e);
    if e.FreePeer? { EmptiedIs(p, t, e.peer); }
  }

  lemma {:induction false} RunTimed(p: Params, t: Groups, h: seq<Event>, es: seq<Event>)
    requires Ok(p, t) && LegalRun(p, t, es) && Timed(p, t, h)
    ensures Timed(p, Run(p, t, es), h + es)
    decreases |es|
  {
    hide Step, Legal, Ok, Timed;
    if es == [] {
      assert h + es == h;
    } else {
      StepKeeps(p, t, es[0]);
      StepTimed(p, t, h, es[0]);
      RunTimed(p, Step(p, t, es[0]), h + [es[0]], es[1..]);
      assert h + [es[0]] + es[1..] == h + es;
    }
  }

  /** The timer of a membership ends when the report behind it runs out. */
  lemma TimersTellThePast(p: Params, h: seq<Event>, e: Entry)
    requires 0 < p.max && Ok(p, Initial) && LegalRun(p, Initial, h) && Counts(p.max, h, e.peer, e.group)
    ensures e in Run(p, Initial, h).end && Run(p, Initial, h).end[e] == RunsOut(p, h, e)
  {
    hide Step, Legal, Run, LegalRun, Counts, RunsOut;
    MembershipTellsThePast(p, h, e.peer, e.group);
    RunTimed(p, Initial, [], h);
    assert [] + h == h;
    assert Entry(e.peer, e.group) == e;
  }
}
