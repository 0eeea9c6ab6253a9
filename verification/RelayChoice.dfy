/** Through whom each peer in need is reached, told from the events alone. */
module RelayChoice {
  import opened Bytes
  import opened Lists
  import opened RelaySpec
  import opened H = RelayHistory

  function First(rs: seq<Id>): Option<Id> { if rs == [] then None else Some(rs[0]) }

  /** The peers that serve, longest first. */
  function Serving(h: seq<Event>): seq<Id> {
    if h == [] then []
    else
      var e, rs := h[|h| - 1], Serving(h[..|h| - 1]);
      match e
      case Up(p, server) => if server && p !in rs then rs + [p] else rs
      case Added(_) => rs
      case NeedsRelay(_) => rs
      case _ => Without(rs, e.p)
  }

  /** It keeps the relay it has for as long as that serves and no other is asked for, and else gets the one that has served longest. */
  function Through(h: seq<Event>, q: Id): Option<Id> {
    if h == [] || !Wants(h, q) then None
    else
      var before, rs := Through(h[..|h| - 1], q), Serving(h);
      if before.Some? && before.value in rs && h[|h| - 1] != NeedsRelay(q) then before else First(rs)
  }

  // ---- the same of a state ----

  function Via(st: State, q: Id): Option<Id> { if q in st.peers then st.peers[q].relaying else None }

  function RelaysAfter(rs: seq<Id>, e: Event): seq<Id> {
    match e
    case Up(p, server) => if server && p !in rs then rs + [p] else rs
    case Added(_) => rs
    case NeedsRelay(_) => rs
    case _ => Without(rs, e.p)
  }

  /** What becomes of the relay of a peer, with the relays left by `e`. */
  function ViaAfter(before: Option<Id>, wants: bool, rs: seq<Id>, e: Event, q: Id): Option<Id> {
    if !wants then None
    else if before.Some? && before.value in rs && e != NeedsRelay(q) then before
    else First(rs)
  }

  // ---- single operations ----

  lemma AssignedVia(st: State, q: Id)
    requires Inv(st)
    ensures Assigned(st).relays == st.relays
    ensures Via(Assigned(st), q) == if q in st.waiting && st.relays != [] then First(st.relays) else Via(st, q)
  {
  }

  lemma ReleasedVia(st: State, r: Id, q: Id)
    requires Inv(st) && r in st.peers
    ensures Released(st, r).relays == st.relays
    ensures Via(Released(st, r), q) == if Via(st, q) == Some(r) then None else Via(st, q)
    ensures q in Released(st, r).waiting <==> q in st.waiting || Via(st, q) == Some(r)
  {
    if q in st.peers { assert q in st.peers[r].users <==> st.peers[q].relaying == Some(r); }
  }

  lemma DisabledVia(st: State, p: Id, q: Id)
    requires Inv(st) && Settled(st) && p in st.peers && st.peers[p].isRelay
    ensures Disabled(st, p).relays == Without(st.relays, p)
    ensures Via(Disabled(st, p), q) == if Via(st, q) == Some(p) then First(Without(st.relays, p)) else Via(st, q)
  {
    NobodyWaits(st, p);
    hide Inv, Released, Assigned, Without;
    ReleasedKeeps(st, p);
    DropRelayKeeps(Released(st, p), p);
    ReleasedVia(st, p, q);
    AssignedVia(DropRelay(Released(st, p), p), q);
  }

  lemma NobodyWaits(st: State, p: Id)
    requires Inv(st) && Settled(st) && p in st.peers && st.peers[p].isRelay
    ensures st.waiting == [] && p in st.relays
  {
  }

  lemma EnabledVia(st: State, p: Id, q: Id)
    requires Inv(st) && Settled(st) && p in st.peers && st.peers[p].haveLink && !st.peers[p].isRelay
    ensures Enabled(st, p).relays == st.relays + [p]
    ensures Via(Enabled(st, p), q) == if q in st.waiting then First(st.relays + [p]) else Via(st, q)
  {
    hide Inv, Assigned;
    AddRelayKeeps(st, p);
    AssignedVia(AddRelay(st, p), q);
  }

  lemma FreeRelayingVia(st: State, p: Id, q: Id)
    requires Relayed(st, p)
    ensures FreeRelaying(st, p).relays == st.relays && Via(FreeRelaying(st, p), q) == if q == p then None else Via(st, q)
  {
    hide Without;
  }

  lemma CleanedVia(st: State, p: Id, q: Id)
    requires Inv(st) && Settled(st) && p in st.peers
    ensures Cleaned(st, p).relays == Without(st.relays, p)
    ensures Via(Cleaned(st, p), q) ==
            if q == p then None
            else if st.peers[p].isRelay && Via(st, q) == Some(p) then First(Without(st.relays, p))
            else Via(st, q)
  {
    CaseFacts(st, p);
    var d := st.peers[p];
    if !d.isRelay { WithoutAbsent(st.relays, p); }
    hide Inv, Disabled, Without, Settled;
    if d.haveLink {
      if d.isRelay { DisabledVia(st, p, q); DisabledVia(st, p, p); }
    } else if Relayed(st, p) {
      FreeRelayingVia(st, p, q);
    }
  }

  lemma NeededVia(st: State, p: Id, q: Id)
    requires Inv(st) && Settled(st) && p in st.peers && !st.peers[p].isRelay
    ensures Needed(st, p).relays == st.relays && Via(Needed(st, p), q) == if q == p then First(st.relays) else Via(st, q)
  {
    CaseFacts(st, p);
    var d := st.peers[p];
    assert d.waiting ==> p in st.waiting;
    hide Inv, Without, Assigned;
    if !d.waiting {
      if d.haveLink { FreeLinkKeeps(st, p); } else if d.relaying.Some? { FreeRelayingKeeps(st, p); }
      var freed := if d.haveLink then FreeLink(st, p) else if Relayed(st, p) then FreeRelaying(st, p) else st;
      if Relayed(st, p) { FreeRelayingVia(st, p, q); }
      RegisterKeeps(freed, p);
      AssignedVia(Register(freed, p), q);
    }
  }

  // ---- runs ----

  lemma StepRelays(st: State, e: Event)
    requires Inv(st) && Settled(st) && Possible(st, e)
    ensures Step(st, e).relays == RelaysAfter(st.relays, e)
  {
    hide Settled, Cleaned, Enabled, Disabled, Needed, Without;
    match e {
      case Added(p) =>
      case Removed(p) => CleanedVia(st, p, p);
      case Linked(p) => CleanedVia(st, p, p);
      case Reset(p) => CleanedVia(st, p, p);
      case Up(p, server) => if server && !st.peers[p].isRelay { EnabledVia(st, p, p); }
      case Down(p) => if st.peers[p].isRelay { DisabledVia(st, p, p); } else { WithoutAbsent(st.relays, p); }
      case NeedsRelay(p) => NeededVia(st, p, p);
    }
  }

  /** What the invariant says of the relay a peer has, and of one that has none. */
  lemma ViaFacts(st: State, q: Id)
    requires Inv(st) && Settled(st)
    ensures Via(st, q).Some? ==> Via(st, q).value in st.relays && H.Has(st, q).wants
    ensures Via(st, q).None? && H.Has(st, q).wants ==> st.relays == [] && q in st.waiting
    ensures q in st.waiting ==> Via(st, q).None? && H.Has(st, q).wants
    ensures Distinct(st.relays)
    ensures forall p :: p in st.relays <==> p in st.peers && st.peers[p].isRelay
  {
    if q in st.peers { assert Flagged(st.peers[q]); }
  }

  predicate Leaves(e: Event) { e.Removed? || e.Linked? || e.Reset? || e.Down? }

  /** What an event that may end a relay's service does to a peer's relay. */
  lemma LeftVia(st: State, e: Event, q: Id)
    requires Inv(st) && Settled(st) && Possible(st, e) && Leaves(e)
    ensures Via(Step(st, e), q) ==
            if q == e.p && !e.Down? then None else if Via(st, q) == Some(e.p) then First(Without(st.relays, e.p)) else Via(st, q)
  {
    if e.Down? { DownVia(st, e.p, q); } else { GoneVia(st, e, q); }
  }

  lemma ThroughRelay(st: State, p: Id, q: Id)
    requires Inv(st) && p in st.peers && Via(st, q) == Some(p)
    ensures st.peers[p].isRelay
  {
  }

  lemma DownVia(st: State, p: Id, q: Id)
    requires Inv(st) && Settled(st) && Possible(st, Down(p))
    ensures Via(Step(st, Down(p)), q) == if Via(st, q) == Some(p) then First(Without(st.relays, p)) else Via(st, q)
  {
    hide Inv, Settled, Disabled, Without, Via, First;
    if st.peers[p].isRelay { DisabledVia(st, p, q); } else if Via(st, q) == Some(p) { ThroughRelay(st, p, q); }
  }

  lemma GoneVia(st: State, e: Event, q: Id)
    requires Inv(st) && Settled(st) && Possible(st, e) && Leaves(e) && !e.Down?
    ensures Via(Step(st, e), q) ==
            if q == e.p then None else if Via(st, q) == Some(e.p) then First(Without(st.relays, e.p)) else Via(st, q)
  {
    hide Inv, Settled, Cleaned, Without, First;
    CleanedVia(st, e.p, q);
    if Via(st, q) == Some(e.p) { ThroughRelay(st, e.p, q); }
  }

  /** One that does not. */
  lemma OtherVia(st: State, e: Event, q: Id)
    requires Inv(st) && Settled(st) && Possible(st, e) && !Leaves(e)
    ensures Via(Step(st, e), q) ==
            if e == NeedsRelay(q) then First(st.relays)
            else if q in st.waiting then First(RelaysAfter(st.relays, e))
            else if e == Added(q) then None
            else Via(st, q)
  {
    ViaFacts(st, q);
    hide Inv, Enabled, Needed, Without;
    match e {
      case Added(p) =>
      case Up(p, server) => if server && !st.peers[p].isRelay { EnabledVia(st, p, q); }
      case NeedsRelay(p) => NeededVia(st, p, q);
    }
  }

  lemma StepVia(st: State, e: Event, q: Id)
    requires Inv(st) && Settled(st) && Possible(st, e)
    ensures Via(Step(st, e), q) == ViaAfter(Via(st, q), H.Has(Step(st, e), q).wants, Step(st, e).relays, e, q)
  {
    hide Inv, Settled, Step, Without, H.Has, Via;
    StepKeeps(st, e);
    StepHas(st, e, q);
    StepRelays(st, e);
    ViaFacts(st, q);
    ViaFacts(Step(st, e), q);
    WithoutIs(st.relays, e.p);
    if Leaves(e) { LeftVia(st, e, q); } else { OtherVia(st, e, q); }
  }

  lemma {:induction false} RunVia(st: State, h: seq<Event>, es: seq<Event>, q: Id)
    requires Inv(st) && Settled(st) && PossibleRun(st, es)
    requires st.relays == Serving(h) && Via(st, q) == Through(h, q) && H.Has(st, q) == Told(h, q)
    ensures Run(st, es).relays == Serving(h + es) && Via(Run(st, es), q) == Through(h + es, q)
    decreases |es|
  {
    hide Inv, Settled, Step, Possible, Told, H.Has, Via, Without;
    if es == [] {
      assert h + es == h;
    } else {
      StepKeeps(st, es[0]);
      StepHas(st, es[0], q);
      ToldMore(h, es[0], q);
      StepRelays(st, es[0]);
      StepVia(st, es[0], q);
      ThroughMore(h, es[0], q);
      RunVia(Step(st, es[0]), h + [es[0]], es[1..], q);
      assert h + [es[0]] + es[1..] == h + es;
    }
  }

  lemma ThroughMore(h: seq<Event>, e: Event, q: Id)
    ensures Serving(h + [e]) == RelaysAfter(Serving(h), e)
    ensures Through(h + [e], q) == ViaAfter(Through(h, q), Told(h + [e], q).wants, Serving(h + [e]), e, q)
  {
    assert (h + [e])[..|h|] == h;
  }

  /**
   After any run: the relays are the peers that serve, in the order in which they began to; and a peer in need is reached
   through the relay it had, for as long as that one serves, and otherwise through the one that has served longest.
   */
  lemma RelayChosen(h: seq<Event>, q: Id)
    requires PossibleRun(Nobody, h)
    ensures Run(Nobody, h).relays == Serving(h) && Via(Run(Nobody, h), q) == Through(h, q)
  {
    hide Inv, Settled, Run, PossibleRun;
    StartKeeps();
    NobodyTold(q);
    RunVia(Nobody, [], h, q);
    assert [] + h == h;
  }
}
