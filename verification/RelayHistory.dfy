/** What each peer has, told from the events alone: a link, a relay's duties, or the need for a relay. */
module RelayHistory {
  import opened Bytes
  import opened Lists
  import opened RelaySpec

  predicate About(e: Event, p: Id) { e.p == p }

  /** It has been added and not removed since. */
  predicate There(h: seq<Event>, p: Id) {
    if h == [] then false
    else
      var e, before := h[|h| - 1], There(h[..|h| - 1], p);
      if !About(e, p) then before else if e.Added? then true else if e.Removed? then false else before
  }

  /** Of all that gives it a link or takes one away, a link came last. */
  predicate HasLink(h: seq<Event>, p: Id) {
    if h == [] then false
    else
      var e, before := h[|h| - 1], HasLink(h[..|h| - 1], p);
      if !About(e, p) then before
      else if e.Linked? then true
      else if e.Added? || e.Removed? || e.Reset? || e.NeedsRelay? then false
      else before
  }

  /** Its link came up as one to a possible relay, and nothing has ended that since. */
  predicate Serves(h: seq<Event>, p: Id) {
    if h == [] then false
    else
      var e, before := h[|h| - 1], Serves(h[..|h| - 1], p);
      if !About(e, p) then before
      else if e.Up? then before || e.server
      else if e.Added? || e.Linked? || e.Reset? || e.Removed? || e.Down? then false
      else before
  }

  /** It has been found to need a relay, and got nothing else since. */
  predicate Wants(h: seq<Event>, p: Id) {
    if h == [] then false
    else
      var e, before := h[|h| - 1], Wants(h[..|h| - 1], p);
      if !About(e, p) then before
      else if e.NeedsRelay? then true
      else if e.Added? || e.Linked? || e.Reset? || e.Removed? then false
      else before
  }

  /** What is told of one peer. */
  datatype Standing = Standing(there: bool, link: bool, serves: bool, wants: bool)

  function Told(h: seq<Event>, p: Id): Standing { Standing(There(h, p), HasLink(h, p), Serves(h, p), Wants(h, p)) }

  /** What it has. */
  function Has(st: State, p: Id): Standing {
    if p !in st.peers then Standing(false, false, false, false)
    else var d := st.peers[p]; Standing(true, d.haveLink, d.isRelay, d.relaying.Some? || d.waiting)
  }

  function After(s: Standing, e: Event): Standing {
    match e
    case Added(_) => Standing(true, false, false, false)
    case Removed(_) => Standing(false, false, false, false)
    case Linked(_) => Standing(s.there, true, false, false)
    case Reset(_) => Standing(s.there, false, false, false)
    case Up(_, server) => s.(serves := s.serves || server)
    case Down(_) => s.(serves := false)
    case NeedsRelay(_) => s.(link := false, wants := true)
  }

  lemma ToldMore(h: seq<Event>, e: Event, p: Id)
    ensures Told(h + [e], p) == if About(e, p) then After(Told(h, p), e) else Told(h, p)
  {
    assert (h + [e])[..|h|] == h;
  }

  // ---- no operation touches what another peer has ----

  lemma AssignedHas(st: State, q: Id)
    requires Inv(st)
    ensures Has(Assigned(st), q) == Has(st, q)
  {
  }

  lemma ReleasedHas(st: State, r: Id, q: Id)
    requires Inv(st) && r in st.peers
    ensures Has(Released(st, r), q) == Has(st, q)
  {
    if q in st.peers[r].users { assert st.peers[q].relaying == Some(r); }
  }

  lemma DisabledHas(st: State, p: Id, q: Id)
    requires Inv(st) && p in st.peers && st.peers[p].isRelay
    ensures Has(Disabled(st, p), q) == if q == p then Has(st, p).(serves := false) else Has(st, q)
  {
    hide Inv, Released, Assigned;
    ReleasedKeeps(st, p);
    DropRelayKeeps(Released(st, p), p);
    ReleasedHas(st, p, q);
    AssignedHas(DropRelay(Released(st, p), p), q);
  }

  lemma EnabledHas(st: State, p: Id, q: Id)
    requires Inv(st) && p in st.peers && st.peers[p].haveLink && !st.peers[p].isRelay
    ensures Has(Enabled(st, p), q) == if q == p then Has(st, p).(serves := true) else Has(st, q)
  {
    hide Inv, Assigned;
    AddRelayKeeps(st, p);
    AssignedHas(AddRelay(st, p), q);
  }

  lemma FreeRelayingHas(st: State, p: Id, q: Id)
    requires Relayed(st, p) && q != p
    ensures Has(FreeRelaying(st, p), q) == Has(st, q)
  {
    hide Without;
  }

  lemma CleanedHas(st: State, p: Id, q: Id)
    requires Inv(st) && Settled(st) && p in st.peers
    ensures Has(Cleaned(st, p), q) == if q == p then Standing(true, false, false, false) else Has(st, q)
  {
    hide Inv, Disabled, Without, Settled;
    CleanedKeeps(st, p);
    CaseFacts(st, p);
    var d := st.peers[p];
    if d.haveLink {
      if d.isRelay { DisabledHas(st, p, q); }
    } else if Relayed(st, p) {
      if q != p { FreeRelayingHas(st, p, q); }
    }
  }

  lemma NeededHas(st: State, p: Id, q: Id)
    requires Inv(st) && Settled(st) && p in st.peers && !st.peers[p].isRelay
    ensures Has(Needed(st, p), q) == if q == p then Standing(true, false, false, true) else Has(st, q)
  {
    hide Inv, Without, Settled, Assigned;
    CaseFacts(st, p);
    var d := st.peers[p];
    if !d.waiting {
      if d.haveLink { FreeLinkKeeps(st, p); } else if d.relaying.Some? { FreeRelayingKeeps(st, p); }
      var freed := if d.haveLink then FreeLink(st, p) else if Relayed(st, p) then FreeRelaying(st, p) else st;
      RegisterKeeps(freed, p);
      AssignedHas(Register(freed, p), q);
      if Relayed(st, p) && q != p { FreeRelayingHas(st, p, q); }
    }
  }

  lemma StepHas(st: State, e: Event, q: Id)
    requires Inv(st) && Settled(st) && Possible(st, e)
    ensures Has(Step(st, e), q) == if About(e, q) then After(Has(st, q), e) else Has(st, q)
  {
    hide Inv, Settled, Cleaned, Enabled, Disabled, Needed;
    match e {
      case Added(p) =>
      case Removed(p) =>
        CleanedKeeps(st, p);
        CleanedHas(st, p, q);
      case Linked(p) =>
        CleanedKeeps(st, p);
        CleanedHas(st, p, q);
      case Reset(p) => CleanedHas(st, p, q);
      case Up(p, server) => if server && !st.peers[p].isRelay { EnabledHas(st, p, q); }
      case Down(p) => if st.peers[p].isRelay { DisabledHas(st, p, q); }
      case NeedsRelay(p) => NeededHas(st, p, q);
    }
  }

  lemma {:induction false} RunHas(st: State, h: seq<Event>, es: seq<Event>, q: Id)
    requires Inv(st) && Settled(st) && PossibleRun(st, es) && Has(st, q) == Told(h, q)
    ensures Has(Run(st, es), q) == Told(h + es, q)
    decreases |es|
  {
    hide Inv, Settled, Step, Possible, Told, Has;
    if es == [] {
      assert h + es == h;
    } else {
      StepKeeps(st, es[0]);
      StepHas(st, es[0], q);
      ToldMore(h, es[0], q);
      RunHas(Step(st, es[0]), h + [es[0]], es[1..], q);
      assert h + [es[0]] + es[1..] == h + es;
    }
  }

  const Nobody: State := State(map[], [], [])

  /**
   After any run: who is there, has a link, is a relay and is in need of one is just what the events say. A peer in need is
   reached through a peer whose own link is up, or waits, and it waits only if there is no such peer.
   */
  lemma RelaysTellThePast(h: seq<Event>, q: Id)
    requires PossibleRun(Nobody, h)
    ensures var st := Run(Nobody, h);
            && (q in st.peers <==> There(h, q))
            && (q in st.peers ==>
                && (st.peers[q].haveLink <==> HasLink(h, q)) && (st.peers[q].isRelay <==> Serves(h, q))
                && (Wants(h, q) <==> st.peers[q].relaying.Some? || st.peers[q].waiting)
                && (st.peers[q].relaying.Some? ==> st.peers[q].relaying.value != q && Serves(h, st.peers[q].relaying.value))
                && (st.peers[q].waiting ==> st.peers[q].relaying.None? && forall r :: !Serves(h, r)))
  {
    hide Run, PossibleRun, There, HasLink, Serves, Wants;
    var st := Run(Nobody, h);
    HasIsTold(h, q);
    if q in st.peers {
      assert Flagged(st.peers[q]);
      if st.peers[q].relaying.Some? { HasIsTold(h, st.peers[q].relaying.value); }
      if st.peers[q].waiting {
        assert q in st.waiting;
        forall r ensures !Serves(h, r) {
          HasIsTold(h, r);
          assert r in st.relays <==> r in st.peers && st.peers[r].isRelay;
        }
      }
    }
  }

  lemma HasIsTold(h: seq<Event>, q: Id)
    requires PossibleRun(Nobody, h)
    ensures Has(Run(Nobody, h), q) == Told(h, q) && Inv(Run(Nobody, h)) && Settled(Run(Nobody, h))
  {
    hide Inv, Settled, Run, PossibleRun, Has, Told;
    StartKeeps();
    RunKeeps(Nobody, h);
    NobodyTold(q);
    RunHas(Nobody, [], h, q);
    assert [] + h == h;
  }

  lemma NobodyTold(r: Id)
    ensures Has(Nobody, r) == Told([], r)
  {
  }

  /** Once its link is down nobody is reached through a peer; whoever was has another relay, or waits for one. */
  lemma NobodyThroughDown(h: seq<Event>, p: Id, q: Id)
    requires PossibleRun(Nobody, h) && Possible(Run(Nobody, h), Down(p)) && q in Run(Nobody, h).peers
    ensures var st, t := Run(Nobody, h), Step(Run(Nobody, h), Down(p));
            && q in t.peers && t.peers[q].relaying != Some(p) && !t.peers[p].isRelay
            && (st.peers[q].relaying == Some(p) ==> t.peers[q].waiting || t.peers[q].relaying.Some?)
  {
    hide Inv, Settled, Run, PossibleRun, Step;
    var st := Run(Nobody, h);
    StartKeeps();
    RunKeeps(Nobody, h);
    StepKeeps(st, Down(p));
    StepHas(st, Down(p), q);
    StepHas(st, Down(p), p);
    NotThrough(Step(st, Down(p)), p, q);
  }

  lemma NotThrough(st: State, p: Id, q: Id)
    requires Inv(st) && p in st.peers && !st.peers[p].isRelay && q in st.peers
    ensures st.peers[q].relaying != Some(p)
  {
  }
}
