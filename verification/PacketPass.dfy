/** One packet-pass interface and its three jobs. */
module PacketPass {
  import opened Bytes
  import opened Lists
  import opened Pending
  import opened PacketPassSpec

  class PacketPassInterface {
    const id: nat
    const mtu: nat
    const pg: PendingGroup
    var phase: Phase
    var cancelRequested: bool
    var hasCancel: bool
    var data: seq<byte>

    constructor (id: nat, mtu: nat, pg: PendingGroup)
      requires pg.Valid() && forall j :: j in pg.jobs && !j.Other? ==> j.i != id
      ensures Valid() && this.id == id && this.mtu == mtu && this.pg == pg && phase == Nothing && !hasCancel
    {
      this.id := id;
      this.mtu := mtu;
      this.pg := pg;
      phase := Nothing;
      cancelRequested := false;
      hasCancel := false;
      data := [];
    }

    ghost function Abs(): Ppi
      reads this
    {
      Ppi(phase, cancelRequested, hasCancel, data)
    }

    ghost predicate Valid()
      reads this, pg
    {
      pg.Valid() && Fits(Abs(), pg.jobs, id)
    }

    method EnableCancel()
      requires Valid() && !hasCancel
      modifies this`hasCancel
      ensures Valid() && Abs() == old(Abs()).(hasCancel := true)
    {
      hasCancel := true;
    }

    /** The sender hands over a packet. */
    method Send(packet: seq<byte>)
      requires Valid() && phase == Nothing && |packet| <= mtu
      modifies this, pg
      ensures Valid() && (Abs(), pg.jobs) == Sent(old(Abs()), old(pg.jobs), id, packet)
    {
      hide Apply, Pending.Run, Ordered;
      JobsDistinct(pg.ops);
      SentMoves(Abs(), pg.jobs, id, packet);
      data := packet;
      pg.SetJob(Operation(id));
      phase := OperationPending;
      cancelRequested := false;
    }

    /** The sender would rather not. */
    method RequestCancel()
      requires Valid() && phase != Nothing && hasCancel
      modifies this, pg
      ensures Valid() && (Abs(), pg.jobs) == Cancelled(old(Abs()), old(pg.jobs), id)
    {
      hide Apply, Pending.Run, Ordered;
      JobsDistinct(pg.ops);
      CancelledMoves(Abs(), pg.jobs, id);
      if cancelRequested {
        return;
      }
      cancelRequested := true;
      if phase == OperationPending {
        pg.UnsetJob(Operation(id));
        pg.SetJob(Pending.Done(id));
        phase := DonePending;
      } else if phase == Busy {
        pg.SetJob(Pending.RequestCancel(id));
      }
    }

    /** The provider is done with the packet. */
    method Done()
      requires Valid() && phase == Busy
      modifies this, pg
      ensures Valid() && (Abs(), pg.jobs) == Completed(old(Abs()), old(pg.jobs), id)
    {
      hide Apply, Pending.Run, Ordered;
      JobsDistinct(pg.ops);
      CompletedMoves(Abs(), pg.jobs, id);
      pg.UnsetJob(Pending.RequestCancel(id));
      pg.SetJob(Pending.Done(id));
      phase := DonePending;
    }

    /** A job of this interface is first on the list and runs; what its handler asserts holds. */
    method RunOwnJob() returns (seen: Obs)
      requires Valid() && pg.jobs != [] && !pg.jobs[0].Other? && pg.jobs[0].i == id
      modifies this, pg
      ensures Valid() && (Abs(), pg.jobs) == RanOn(old(Abs()), old(pg.jobs))
      ensures Follow(ViewOf(old(Abs()), old(pg.jobs), id), [seen]) == Some(ViewOf(Abs(), pg.jobs, id))
    {
      hide Apply, Pending.Run, Ordered, Follow;
      JobsDistinct(pg.ops);
      RanMoves(Abs(), pg.jobs, id);
      assert pg.jobs[0] in pg.jobs;
      var j := pg.ExecuteJob();
      match j
      case Operation(_) =>
        assert phase == OperationPending;
        phase := Busy;
        seen := Starts(data);
      case RequestCancel(_) =>
        assert phase == Busy && cancelRequested && hasCancel;
        seen := ToldToCancel;
      case Done(_) =>
        assert phase == DonePending;
        phase := Nothing;
        seen := Finishes;
    }
  }

  lemma JobsDistinct(ops: seq<Op>)
    ensures Distinct(Pending.Run(ops))
  {
    RunOrdered(ops);
  }
}
