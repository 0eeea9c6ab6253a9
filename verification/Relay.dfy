/** The relay assignment of the client, over its peer table and lists. */
module Relay {
  import opened Bytes
  import opened Lists
  import opened RelaySpec

  class Client {
    var peers: map<Id, Peer>
    var relays: seq<Id>
    var waiting: seq<Id>

    constructor ()
      ensures Inv(Abs()) && Settled(Abs()) && peers == map[]
    {
      peers := map[];
      relays := [];
      waiting := [];
    }

    ghost function Abs(): State
      reads this
    {
      State(peers, relays, waiting)
    }

    /** A whole operation starts and ends with nobody waiting while there is a relay. */
    ghost predicate Valid()
      reads this
    {
      Inv(Abs()) && Settled(Abs())
    }

    method AddPeer(p: Id)
      requires Valid() && p !in peers
      modifies this
      ensures Valid() && Abs() == Step(old(Abs()), Added(p))
    {
      StepKeeps(Abs(), Added(p));
      peers := peers[p := NewPeer];
    }

    method RemovePeer(p: Id)
      requires Valid() && p in peers
      modifies this
      ensures Valid() && Abs() == Step(old(Abs()), Removed(p))
    {
      hide Inv, Cleaned;
      StepKeeps(Abs(), Removed(p));
      CleanupConnections(p);
      peers := peers - {p};
    }

    /** A fresh link; the start of binding and of connecting. */
    method GetLink(p: Id)
      requires Valid() && p in peers
      modifies this
      ensures Valid() && Abs() == Step(old(Abs()), Linked(p)) && p in peers && peers[p].haveLink
    {
      hide Inv, Cleaned;
      StepKeeps(Abs(), Linked(p));
      CleanupConnections(p);
      peers := peers[p := peers[p].(haveLink := true)];
    }

    method CleanupConnections(p: Id)
      requires Valid() && p in peers
      modifies this
      ensures Valid() && Abs() == Cleaned(old(Abs()), p)
      ensures p in peers && Idle(Abs(), p) && !peers[p].isRelay
    {
      hide Inv, Settled;
      CleanedKeeps(Abs(), p);
      CaseFacts(Abs(), p);
      if peers[p].haveLink {
        if peers[p].isRelay {
          DisabledKeeps(Abs(), p);
          DisableRelayProvider(p);
        }
        FreeLink(p);
      } else if peers[p].relaying.Some? {
        FreeRelaying(p);
      } else if peers[p].waiting {
        UnregisterNeedRelay(p);
      }
    }

    method FreeLink(p: Id)
      requires Inv(Abs()) && p in peers && peers[p].haveLink && !peers[p].isRelay
      modifies this`peers
      ensures Inv(Abs()) && Abs() == RelaySpec.FreeLink(old(Abs()), p)
    {
      FreeLinkKeeps(Abs(), p);
      peers := peers[p := peers[p].(haveLink := false)];
    }

    /** The link has come up or gone down. */
    method DataProtoHandler(p: Id, server: bool, up: bool)
      requires Valid() && p in peers && peers[p].haveLink
      modifies this
      ensures Valid() && Abs() == Step(old(Abs()), if up then Up(p, server) else Down(p))
    {
      hide Inv, Settled, Enabled, Disabled;
      StepKeeps(Abs(), if up then Up(p, server) else Down(p));
      if up {
        if server && !peers[p].isRelay {
          EnableRelayProvider(p);
        }
      } else if peers[p].isRelay {
        DisableRelayProvider(p);
      }
    }

    method EnableRelayProvider(p: Id)
      requires Inv(Abs()) && p in peers && peers[p].haveLink && !peers[p].isRelay
      modifies this
      ensures Valid() && Abs() == Enabled(old(Abs()), p)
    {
      hide Inv, Settled, Assigned;
      AddRelayKeeps(Abs(), p);
      relays := relays + [p];
      peers := peers[p := peers[p].(isRelay := true, users := [])];
      AssignRelays();
    }

    method DisableRelayProvider(p: Id)
      requires Inv(Abs()) && p in peers && peers[p].isRelay
      modifies this
      ensures Valid() && Abs() == Disabled(old(Abs()), p)
    {
      hide Inv, Settled, Assigned, Released;
      ReleaseUsers(p);
      DropRelayKeeps(Abs(), p);
      relays := Without(relays, p);
      peers := peers[p := peers[p].(isRelay := false)];
      AssignRelays();
    }

    /** The loop that sends the users of a relay to the queue. */
    method ReleaseUsers(p: Id)
      requires Inv(Abs()) && p in peers && peers[p].isRelay
      modifies this`peers, this`waiting
      ensures Inv(Abs()) && Abs() == Released(old(Abs()), p)
      ensures p in peers && peers[p].isRelay && peers[p].users == []
    {
      hide Inv, Released, RelaySpec.FreeRelaying, Register, Idle;
      while peers[p].users != []
        invariant Inv(Abs()) && p in peers && peers[p].isRelay && Released(Abs(), p) == Released(old(Abs()), p)
        decreases |peers[p].users|
      {
        ReleaseOne(Abs(), p);
        var u := peers[p].users[0];
        FreeRelaying(u);
        RegisterNeedRelay(u);
      }
      NothingReleased(Abs(), p);
    }

    method InstallRelaying(p: Id, r: Id)
      requires Inv(Abs()) && Idle(Abs(), p) && r in peers && peers[r].isRelay && p != r
      modifies this`peers
      ensures Inv(Abs()) && Abs() == Install(old(Abs()), p, r)
    {
      InstallKeeps(Abs(), p, r);
      peers := peers[r := peers[r].(users := peers[r].users + [p])];
      peers := peers[p := peers[p].(relaying := Some(r))];
    }

    method FreeRelaying(p: Id)
      requires Inv(Abs()) && p in peers && peers[p].relaying.Some?
      modifies this`peers
      ensures Relayed(old(Abs()), p) && Abs() == RelaySpec.FreeRelaying(old(Abs()), p)
      ensures Inv(Abs()) && Idle(Abs(), p)
    {
      hide Inv;
      FreeRelayingKeeps(Abs(), p);
      var r := peers[p].relaying.value;
      peers := peers[r := peers[r].(users := Without(peers[r].users, p))];
      peers := peers[p := peers[p].(relaying := None)];
    }

    /** Ask for a relay in place of whatever the peer has. */
    method NeedRelay(p: Id)
      requires Valid() && p in peers && !peers[p].isRelay
      modifies this
      ensures Valid() && Abs() == Step(old(Abs()), NeedsRelay(p))
      ensures p in peers && (peers[p].waiting || peers[p].relaying.Some?)
    {
      hide Inv, Settled, Assigned;
      NeededKeeps(Abs(), p);
      CaseFacts(Abs(), p);
      if peers[p].waiting {
        return;
      }
      if peers[p].haveLink {
        FreeLink(p);
      } else if peers[p].relaying.Some? {
        FreeRelaying(p);
      }
      RegisterNeedRelay(p);
      AssignRelays();
    }

    method RegisterNeedRelay(p: Id)
      requires Inv(Abs()) && Idle(Abs(), p)
      modifies this`peers, this`waiting
      ensures Inv(Abs()) && Abs() == Register(old(Abs()), p)
    {
      RegisterKeeps(Abs(), p);
      waiting := waiting + [p];
      peers := peers[p := peers[p].(waiting := true)];
    }

    method UnregisterNeedRelay(p: Id)
      requires Inv(Abs()) && p in peers && peers[p].waiting
      modifies this`peers, this`waiting
      ensures Inv(Abs()) && Idle(Abs(), p) && Abs() == Unregister(old(Abs()), p)
    {
      UnregisterKeeps(Abs(), p);
      waiting := Without(waiting, p);
      peers := peers[p := peers[p].(waiting := false)];
    }

    /** The assigning loop. */
    method AssignRelays()
      requires Inv(Abs())
      modifies this`peers, this`waiting
      ensures Valid() && Abs() == Assigned(old(Abs()))
    {
      hide Inv, Settled, Assigned, Install, Idle;
      while waiting != []
        invariant Inv(Abs()) && relays == old(relays) && Assigned(Abs()) == Assigned(old(Abs()))
        decreases |waiting|
      {
        var p := waiting[0];
        if relays == [] {
          NothingAssigned(Abs());
          return;
        }
        var r := relays[0];
        AssignOne(Abs());
        FirstRelay(Abs());
        UnregisterNeedRelay(p);
        InstallRelaying(p, r);
      }
      NothingAssigned(Abs());
    }
  }

  lemma FirstRelay(st: State)
    requires Inv(st) && st.relays != [] && st.waiting != []
    ensures st.waiting[0] in st.peers && st.peers[st.waiting[0]].waiting
    ensures st.relays[0] in st.peers && st.peers[st.relays[0]].isRelay
  {
    assert st.waiting[0] in st.waiting && st.relays[0] in st.relays;
  }
}
