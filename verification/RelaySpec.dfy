/** Relay assignment: which peers are reached directly, through another peer, or not yet. */
module RelaySpec {
  import opened Bytes
  import opened Lists

  type Id = nat

  datatype Peer = Peer(haveLink: bool, isRelay: bool, relaying: Option<Id>, waiting: bool, users: seq<Id>)

  const NewPeer: Peer := Peer(false, false, None, false, [])

  /** The peers, the list of relays and the list of peers in need of one. */
  datatype State = State(peers: map<Id, Peer>, relays: seq<Id>, waiting: seq<Id>)

  // ---- the invariant ----

  predicate Flagged(d: Peer) {
    && !(d.haveLink && d.relaying.Some?) && !(d.haveLink && d.waiting) && !(d.relaying.Some? && d.waiting)
    && (d.isRelay ==> d.haveLink)
  }

  ghost predicate Flags(st: State) { forall p :: p in st.peers ==> Flagged(st.peers[p]) }

  ghost predicate Listed(st: State) {
    && Distinct(st.relays) && (forall p :: p in st.relays <==> p in st.peers && st.peers[p].isRelay)
    && Distinct(st.waiting) && (forall p :: p in st.waiting <==> p in st.peers && st.peers[p].waiting)
  }

  /** The users lists and the relaying pointers are inverse to each other. */
  ghost predicate Users(st: State) {
    && (forall p :: p in st.peers ==> Distinct(st.peers[p].users))
    && (forall p, q :: p in st.peers && q in st.peers ==> (q in st.peers[p].users <==> st.peers[q].relaying == Some(p)))
    && (forall p, q :: p in st.peers && q in st.peers[p].users ==> q in st.peers)
  }

  /** Nobody is relayed through itself, through a removed peer, or through one that is not a relay. */
  ghost predicate Targets(st: State) {
    forall q :: q in st.peers && st.peers[q].relaying.Some? ==>
      var p := st.peers[q].relaying.value; p != q && p in st.peers && st.peers[p].isRelay
  }

  ghost predicate Inv(st: State) { Flags(st) && Listed(st) && Users(st) && Targets(st) }

  /** A peer waits only while there are no relays. */
  ghost predicate Settled(st: State) { st.waiting == [] || st.relays == [] }

  // ---- single steps ----

  function With(st: State, p: Id, d: Peer): State { st.(peers := st.peers[p := d]) }

  /** A peer with neither link nor relay nor place in the queue. */
  predicate Idle(st: State, p: Id) {
    p in st.peers && var d := st.peers[p]; !d.haveLink && d.relaying.None? && !d.waiting
  }

  function InitLink(st: State, p: Id): State
    requires Idle(st, p)
  {
    With(st, p, st.peers[p].(haveLink := true))
  }

  function FreeLink(st: State, p: Id): State
    requires p in st.peers
  {
    With(st, p, st.peers[p].(haveLink := false))
  }

  function Register(st: State, p: Id): State
    requires Idle(st, p)
  {
    With(st, p, st.peers[p].(waiting := true)).(waiting := st.waiting + [p])
  }

  function Unregister(st: State, p: Id): State
    requires p in st.peers
  {
    With(st, p, st.peers[p].(waiting := false)).(waiting := Without(st.waiting, p))
  }

  function Install(st: State, p: Id, r: Id): State
    requires Idle(st, p) && r in st.peers && r != p
  {
    With(With(st, r, st.peers[r].(users := st.peers[r].users + [p])), p, st.peers[p].(relaying := Some(r)))
  }

  function FreeRelaying(st: State, p: Id): State
    requires p in st.peers && st.peers[p].relaying.Some? && st.peers[p].relaying.value in st.peers
    requires st.peers[p].relaying.value != p
  {
    var r := st.peers[p].relaying.value;
    With(With(st, r, st.peers[r].(users := Without(st.peers[r].users, p))), p, st.peers[p].(relaying := None))
  }

  function AddRelay(st: State, p: Id): State
    requires p in st.peers
  {
    With(st, p, st.peers[p].(isRelay := true, users := [])).(relays := st.relays + [p])
  }

  function DropRelay(st: State, p: Id): State
    requires p in st.peers
  {
    With(st, p, st.peers[p].(isRelay := false)).(relays := Without(st.relays, p))
  }

  // ---- each keeps the invariant ----

  lemma InitLinkKeeps(st: State, p: Id)
    requires Inv(st) && Idle(st, p)
    ensures Inv(InitLink(st, p))
  {
  }

  lemma FreeLinkKeeps(st: State, p: Id)
    requires Inv(st) && p in st.peers && st.peers[p].haveLink && !st.peers[p].isRelay
    ensures Inv(FreeLink(st, p)) && Idle(FreeLink(st, p), p)
  {
  }

  lemma RegisterKeeps(st: State, p: Id)
    requires Inv(st) && Idle(st, p)
    ensures Inv(Register(st, p))
  {
  }

  lemma UnregisterKeeps(st: State, p: Id)
    requires Inv(st) && p in st.peers && st.peers[p].waiting
    ensures Inv(Unregister(st, p)) && Idle(Unregister(st, p), p)
  {
    WithoutIs(st.waiting, p);
  }

  lemma InstallKeeps(st: State, p: Id, r: Id)
    requires Inv(st) && Idle(st, p) && r in st.peers && st.peers[r].isRelay
    ensures r != p && Inv(Install(st, p, r))
  {
    hide Users;
    assert Flagged(st.peers[p]) && Flagged(st.peers[r]);
    NotUser(st, p, r);
    InstallUsers(st, p, r);
  }

  lemma NotUser(st: State, p: Id, r: Id)
    requires Users(st) && Idle(st, p) && r in st.peers
    ensures p !in st.peers[r].users
  {
  }

  lemma InstallUsers(st: State, p: Id, r: Id)
    requires Users(st) && Idle(st, p) && r in st.peers && r != p && p !in st.peers[r].users
    ensures Users(Install(st, p, r))
  {
    var t := Install(st, p, r);
    forall x, y | x in t.peers && y in t.peers ensures y in t.peers[x].users <==> t.peers[y].relaying == Some(x) {
      assert y in st.peers[x].users <==> st.peers[y].relaying == Some(x);
    }
  }

  lemma FreeRelayingKeeps(st: State, p: Id)
    requires Inv(st) && p in st.peers && st.peers[p].relaying.Some?
    ensures st.peers[p].relaying.value in st.peers && st.peers[p].relaying.value != p
    ensures Inv(FreeRelaying(st, p)) && Idle(FreeRelaying(st, p), p)
  {
    hide Users, Listed, Flags, Without, Idle;
    var r := st.peers[p].relaying.value;
    assert r != p && r in st.peers;
    FreeUsers(st, p, r);
    FreeFlags(st, p, r);
  }

  lemma FreeFlags(st: State, p: Id, r: Id)
    requires Flags(st) && Listed(st) && p in st.peers && r in st.peers && r != p && st.peers[p].relaying == Some(r)
    ensures Flags(FreeRelaying(st, p)) && Listed(FreeRelaying(st, p)) && Idle(FreeRelaying(st, p), p)
  {
    hide Without;
    assert Flagged(st.peers[p]);
  }

  lemma FreeUsers(st: State, p: Id, r: Id)
    requires Users(st) && p in st.peers && r in st.peers && r != p && st.peers[p].relaying == Some(r)
    ensures Users(FreeRelaying(st, p))
  {
    hide Without;
    WithoutIs(st.peers[r].users, p);
    var t := FreeRelaying(st, p);
    forall x, y | x in t.peers && y in t.peers ensures y in t.peers[x].users <==> t.peers[y].relaying == Some(x) {
      assert y in st.peers[x].users <==> st.peers[y].relaying == Some(x);
    }
  }

  lemma AddRelayKeeps(st: State, p: Id)
    requires Inv(st) && p in st.peers && st.peers[p].haveLink && !st.peers[p].isRelay
    ensures Inv(AddRelay(st, p))
  {
    NoUsers(st, p);
    assert st.peers[p].users == [];
    hide Users;
    SameUsers(st, AddRelay(st, p));
  }

  lemma SameUsers(st: State, t: State)
    requires Users(st) && t.peers.Keys == st.peers.Keys
    requires forall p :: p in st.peers ==> t.peers[p].users == st.peers[p].users && t.peers[p].relaying == st.peers[p].relaying
    ensures Users(t)
  {
  }

  lemma DropRelayKeeps(st: State, p: Id)
    requires Inv(st) && p in st.peers && st.peers[p].isRelay && st.peers[p].users == []
    ensures Inv(DropRelay(st, p))
  {
    WithoutIs(st.relays, p);
  }

  /** Only a relay has users. */
  lemma NoUsers(st: State, p: Id)
    requires Inv(st) && p in st.peers && !st.peers[p].isRelay
    ensures st.peers[p].users == []
  {
    if st.peers[p].users != [] {
      UserHasRelay(st, p, st.peers[p].users[0]);
    }
  }

  lemma UserHasRelay(st: State, p: Id, q: Id)
    requires Inv(st) && p in st.peers && q in st.peers[p].users
    ensures st.peers[p].isRelay
  {
    assert st.peers[q].relaying == Some(p);
  }

  // ---- the two loops, in closed form ----

  function AssignedPeer(st: State, r: Id, p: Id): Peer
    requires p in st.peers
  {
    var d := st.peers[p];
    if d.waiting then d.(waiting := false, relaying := Some(r))
    else if p == r then d.(users := d.users + st.waiting)
    else d
  }

  /** Everyone waiting goes to the first relay, in turn; without relays everyone goes on waiting. */
  function Assigned(st: State): State {
    if st.relays == [] then st
    else State(map p | p in st.peers :: AssignedPeer(st, st.relays[0], p), st.relays, [])
  }

  function ReleasedPeer(st: State, r: Id, p: Id): Peer
    requires p in st.peers && r in st.peers
  {
    var d := st.peers[p];
    if p in st.peers[r].users then d.(relaying := None, waiting := true)
    else if p == r then d.(users := [])
    else d
  }

  /** All users of `r` go to the queue, in turn. */
  function Released(st: State, r: Id): State
    requires r in st.peers
  {
    State(map p | p in st.peers :: ReleasedPeer(st, r, p), st.relays, st.waiting + st.peers[r].users)
  }

  /** One round of the assigning loop brings its result no nearer and no farther. */
  lemma AssignOne(st: State)
    requires Inv(st) && st.relays != [] && st.waiting != []
    ensures var p, r := st.waiting[0], st.relays[0];
            && p in st.peers && r in st.peers && r != p && Idle(Unregister(st, p), p)
            && var t := Install(Unregister(st, p), p, r);
               Inv(t) && Assigned(t) == Assigned(st) && t.waiting == st.waiting[1..] && t.relays == st.relays
  {
    var p, r := st.waiting[0], st.relays[0];
    assert p in st.waiting && r in st.relays;
    assert Flagged(st.peers[p]) && Flagged(st.peers[r]);
    UnregisterKeeps(st, p);
    InstallKeeps(Unregister(st, p), p, r);
    WithoutFirst(st.waiting);
    AssignSame(st, p, r);
  }

  lemma AssignSame(st: State, p: Id, r: Id)
    requires st.relays != [] && r == st.relays[0] && st.waiting != [] && p == st.waiting[0] && p != r
    requires p in st.peers && Without(st.waiting, p) == st.waiting[1..] && Idle(Unregister(st, p), p)
    requires r in st.peers && st.peers[p].waiting && !st.peers[r].waiting && !st.peers[r].relaying.Some?
    ensures Assigned(Install(Unregister(st, p), p, r)) == Assigned(st)
  {
    var t := Install(Unregister(st, p), p, r);
    assert st.peers[r].users + st.waiting == (st.peers[r].users + [p]) + st.waiting[1..];
    forall q | q in st.peers ensures AssignedPeer(t, r, q) == AssignedPeer(st, r, q) {
    }
    assert t.peers.Keys == st.peers.Keys;
  }

  /** One round of the releasing loop, likewise. */
  lemma ReleaseOne(st: State, r: Id)
    requires Inv(st) && r in st.peers && st.peers[r].users != []
    ensures var p := st.peers[r].users[0];
            && p in st.peers && p != r && st.peers[p].relaying == Some(r) && Idle(FreeRelaying(st, p), p)
            && var t := Register(FreeRelaying(st, p), p);
               Inv(t) && r in t.peers && Released(t, r) == Released(st, r) && t.peers[r] == st.peers[r].(users := st.peers[r].users[1..])
  {
    var p := st.peers[r].users[0];
    assert p in st.peers[r].users;
    FreeRelayingKeeps(st, p);
    RegisterKeeps(FreeRelaying(st, p), p);
    WithoutFirst(st.peers[r].users);
    assert p !in st.peers[r].users[1..];
    ReleaseSame(st, r, p);
  }

  lemma ReleaseSame(st: State, r: Id, p: Id)
    requires p in st.peers && r in st.peers && p != r && st.peers[p].relaying == Some(r) && Idle(FreeRelaying(st, p), p)
    requires st.peers[r].users != [] && p == st.peers[r].users[0] && Without(st.peers[r].users, p) == st.peers[r].users[1..]
    requires r !in st.peers[r].users && p !in st.peers[r].users[1..]
    ensures Released(Register(FreeRelaying(st, p), p), r) == Released(st, r)
  {
    var t := Register(FreeRelaying(st, p), p);
    var us := st.peers[r].users;
    assert us == [p] + us[1..];
    assert st.waiting + us == (st.waiting + [p]) + us[1..];
    assert t.peers[r].users == us[1..];
    forall q | q in st.peers ensures ReleasedPeer(t, r, q) == ReleasedPeer(st, r, q) {
    }
    assert t.peers.Keys == st.peers.Keys;
  }

  lemma NothingReleased(st: State, r: Id)
    requires r in st.peers && st.peers[r].users == []
    ensures Released(st, r) == st
  {
    assert st.waiting + [] == st.waiting;
    assert Released(st, r).peers == st.peers;
  }

  lemma NothingAssigned(st: State)
    requires Inv(st) && (st.relays == [] || st.waiting == [])
    ensures Assigned(st) == st && Settled(st)
  {
    if st.relays != [] {
      forall p | p in st.peers ensures AssignedPeer(st, st.relays[0], p) == st.peers[p] {
        assert p !in st.waiting;
        assert st.peers[p].users + [] == st.peers[p].users;
      }
    }
  }

  /** After assigning, nobody waits while there is a relay. */
  lemma {:induction false} AssignedKeeps(st: State)
    requires Inv(st)
    ensures Inv(Assigned(st)) && Settled(Assigned(st))
    decreases |st.waiting|
  {
    hide Inv, Assigned, Install, Idle;
    if st.relays == [] || st.waiting == [] {
      NothingAssigned(st);
    } else {
      AssignOne(st);
      AssignedKeeps(Install(Unregister(st, st.waiting[0]), st.waiting[0], st.relays[0]));
    }
  }

  lemma {:induction false} ReleasedKeeps(st: State, r: Id)
    requires Inv(st) && r in st.peers
    ensures Inv(Released(st, r)) && r in Released(st, r).peers && Released(st, r).peers[r] == st.peers[r].(users := [])
    decreases |st.peers[r].users|
  {
    hide Inv, Register, Idle;
    if st.peers[r].users == [] {
      NothingReleased(st, r);
    } else {
      ReleaseOne(st, r);
      ReleasedKeeps(Register(FreeRelaying(st, st.peers[r].users[0]), st.peers[r].users[0]), r);
    }
  }

  // ---- the operations ----

  function Enabled(st: State, p: Id): State
    requires p in st.peers
  {
    Assigned(AddRelay(st, p))
  }

  function Disabled(st: State, p: Id): State
    requires p in st.peers
  {
    Assigned(DropRelay(Released(st, p), p))
  }

  predicate Relayed(st: State, p: Id) {
    && p in st.peers && st.peers[p].relaying.Some?
    && st.peers[p].relaying.value in st.peers && st.peers[p].relaying.value != p
  }

  /** peer_cleanup_connections */
  function Cleaned(st: State, p: Id): State
    requires p in st.peers
  {
    var d := st.peers[p];
    if d.haveLink then FreeLink(if d.isRelay then Disabled(st, p) else st, p)
    else if Relayed(st, p) then FreeRelaying(st, p)
    else if d.waiting then Unregister(st, p)
    else st
  }

  /** peer_need_relay */
  function Needed(st: State, p: Id): State
    requires p in st.peers
  {
    var d := st.peers[p];
    if d.waiting then st
    else
      var freed := if d.haveLink then FreeLink(st, p) else if Relayed(st, p) then FreeRelaying(st, p) else st;
      if Idle(freed, p) then Assigned(Register(freed, p)) else st
  }

  lemma EnabledKeeps(st: State, p: Id)
    requires Inv(st) && p in st.peers && st.peers[p].haveLink && !st.peers[p].isRelay
    ensures Inv(Enabled(st, p)) && Settled(Enabled(st, p))
  {
    hide Inv, Assigned;
    AddRelayKeeps(st, p);
    AssignedKeeps(AddRelay(st, p));
  }

  lemma DisabledKeeps(st: State, p: Id)
    requires Inv(st) && p in st.peers && st.peers[p].isRelay
    ensures Inv(Disabled(st, p)) && Settled(Disabled(st, p))
    ensures p in Disabled(st, p).peers && !Disabled(st, p).peers[p].isRelay
    ensures Disabled(st, p).peers[p].haveLink == st.peers[p].haveLink
  {
    hide Inv, Released;
    ReleasedKeeps(st, p);
    DropRelayKeeps(Released(st, p), p);
    AssignedKeeps(DropRelay(Released(st, p), p));
  }

  /** Where the users of a disabled relay end up: with the first relay left, or in the queue if none is. */
  lemma DisabledOutcome(st: State, p: Id, q: Id)
    requires Inv(st) && p in st.peers && st.peers[p].isRelay && q in st.peers[p].users
    ensures q in st.peers && q in Disabled(st, p).peers
    ensures var rest := Without(st.relays, p);
            Disabled(st, p).peers[q] ==
            if rest == [] then st.peers[q].(relaying := None, waiting := true) else st.peers[q].(relaying := Some(rest[0]), waiting := false)
  {
    assert q in st.peers && st.peers[q].relaying == Some(p);
    var t := DropRelay(Released(st, p), p);
    assert t.peers[q] == st.peers[q].(relaying := None, waiting := true);
  }

  lemma CleanedKeeps(st: State, p: Id)
    requires Inv(st) && Settled(st) && p in st.peers
    ensures Inv(Cleaned(st, p)) && Settled(Cleaned(st, p))
    ensures Idle(Cleaned(st, p), p) && !Cleaned(st, p).peers[p].isRelay
  {
    hide Inv, Disabled, Without;
    CaseFacts(st, p);
    var d := st.peers[p];
    if d.haveLink {
      if d.isRelay { DisabledKeeps(st, p); }
      FreeLinkKeeps(if d.isRelay then Disabled(st, p) else st, p);
    } else if d.relaying.Some? {
      FreeRelayingKeeps(st, p);
    } else if d.waiting {
      UnregisterKeeps(st, p);
      WithoutShorter(st.waiting, p);
    }
  }

  lemma CaseFacts(st: State, p: Id)
    requires Inv(st) && p in st.peers
    ensures Flagged(st.peers[p]) && (st.peers[p].relaying.Some? ==> Relayed(st, p))
  {
  }

  lemma NeededKeeps(st: State, p: Id)
    requires Inv(st) && Settled(st) && p in st.peers && !st.peers[p].isRelay
    ensures Inv(Needed(st, p)) && Settled(Needed(st, p))
    ensures p in Needed(st, p).peers && var d := Needed(st, p).peers[p]; d.waiting || d.relaying.Some?
  {
    hide Inv, Without, Settled;
    CaseFacts(st, p);
    var d := st.peers[p];
    if !d.waiting {
      if d.haveLink { FreeLinkKeeps(st, p); } else if d.relaying.Some? { FreeRelayingKeeps(st, p); }
      var freed := if d.haveLink then FreeLink(st, p) else if Relayed(st, p) then FreeRelaying(st, p) else st;
      RegisterKeeps(freed, p);
      AssignedKeeps(Register(freed, p));
    }
  }

  // ---- whole runs ----

  /** What can happen; `Linked` is a fresh link, as on binding or connecting. */
  datatype Event = Added(p: Id) | Removed(p: Id) | Linked(p: Id) | Reset(p: Id) | Up(p: Id, server: bool) | Down(p: Id) | NeedsRelay(p: Id)

  predicate Possible(st: State, e: Event) {
    match e
    case Added(p) => p !in st.peers
    case Up(p, _) => p in st.peers && st.peers[p].haveLink
    case Down(p) => p in st.peers && st.peers[p].haveLink
    case NeedsRelay(p) => p in st.peers && !st.peers[p].isRelay
    case _ => e.p in st.peers
  }

  function Step(st: State, e: Event): State
    requires Possible(st, e)
  {
    match e
    case Added(p) => With(st, p, NewPeer)
    case Removed(p) => var c := Cleaned(st, p); c.(peers := c.peers - {p})
    case Linked(p) => var c := Cleaned(st, p); if Idle(c, p) then InitLink(c, p) else c
    case Reset(p) => Cleaned(st, p)
    case Up(p, server) => if server && !st.peers[p].isRelay then Enabled(st, p) else st
    case Down(p) => if st.peers[p].isRelay then Disabled(st, p) else st
    case NeedsRelay(p) => Needed(st, p)
  }

  lemma AddedKeeps(st: State, p: Id)
    requires Inv(st) && p !in st.peers
    ensures Inv(With(st, p, NewPeer))
  {
    assert forall q :: q in st.peers ==> p !in st.peers[q].users;
    assert p !in st.relays && p !in st.waiting;
  }

  lemma RemovedKeeps(st: State, p: Id)
    requires Inv(st) && Idle(st, p) && !st.peers[p].isRelay
    ensures Inv(st.(peers := st.peers - {p}))
  {
    NoUsers(st, p);
    var t := st.(peers := st.peers - {p});
    assert forall q :: q in t.peers <==> q in st.peers && q != p;
    assert Users(t) by {
      assert forall q :: q in st.peers ==> p !in st.peers[q].users;
    }
  }

  lemma StepKeeps(st: State, e: Event)
    requires Inv(st) && Settled(st) && Possible(st, e)
    ensures Inv(Step(st, e)) && Settled(Step(st, e))
  {
    hide Inv, Cleaned, Enabled, Disabled, Needed;
    match e
    case Added(p) => AddedKeeps(st, p);
    case Removed(p) =>
      CleanedKeeps(st, p);
      RemovedKeeps(Cleaned(st, p), p);
    case Linked(p) =>
      CleanedKeeps(st, p);
      InitLinkKeeps(Cleaned(st, p), p);
    case Reset(p) => CleanedKeeps(st, p);
    case Up(p, server) => if server && !st.peers[p].isRelay { EnabledKeeps(st, p); }
    case Down(p) => if st.peers[p].isRelay { DisabledKeeps(st, p); }
    case NeedsRelay(p) => NeededKeeps(st, p);
  }

  ghost predicate PossibleRun(st: State, es: seq<Event>)
    decreases |es|
  {
    es == [] || (Possible(st, es[0]) && PossibleRun(Step(st, es[0]), es[1..]))
  }

  function Run(st: State, es: seq<Event>): State
    requires PossibleRun(st, es)
    decreases |es|
  {
    if es == [] then st else Run(Step(st, es[0]), es[1..])
  }

  /** The invariant holds in every state the client can get into. */
  lemma {:induction false} RunKeeps(st: State, es: seq<Event>)
    requires Inv(st) && Settled(st) && PossibleRun(st, es)
    ensures Inv(Run(st, es)) && Settled(Run(st, es))
    decreases |es|
  {
    hide Inv, Step, Settled;
    if es != [] {
      StepKeeps(st, es[0]);
      RunKeeps(Step(st, es[0]), es[1..]);
    }
  }

  lemma StartKeeps()
    ensures Inv(State(map[], [], [])) && Settled(State(map[], [], []))
  {
  }
}
