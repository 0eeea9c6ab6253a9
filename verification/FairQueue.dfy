/** PacketPassFairQueue: the flow list, the queued tree and the 64-bit clock, updated in place. */
module FairQueue {
  import opened Bytes
  import opened FairQueueSpec
  import opened FairQueueProofs
  import opened FairQueueFairness
  import C = FairQueueControl
  import opened Lists

  class FairQueue {
    const weight: nat
    const mtu: nat
    /** flows_list */
    var flows: seq<Flow>
    /** the time field of every flow */
    var time: map<Flow, int>
    /** queued_tree, with the length of the packet each queued flow holds */
    var queued: map<Flow, nat>
    var sending: Option<Flow>
    var sendingLen: nat
    var previous: Option<Flow>
    /** whether schedule_job is set */
    var scheduleJob: bool
    /** flows whose busy handler is set */
    var handlers: set<Flow>
    /** how often the output has been asked to cancel the packet being sent */
    var cancels: nat
    var freeing: bool

    function P(): Params { Params(weight, mtu) }

    ghost function Abs(): Queue
      reads this`time, this`queued, this`sending, this`sendingLen, this`previous, this`scheduleJob
    {
      Queue(time, queued, sending, sendingLen, previous, scheduleJob)
    }

    ghost function Control(): C.Control
      reads this`time, this`queued, this`sending, this`sendingLen, this`previous, this`scheduleJob, this`handlers, this`cancels
    {
      C.Control(Abs(), handlers, cancels)
    }

    ghost predicate Valid()
      reads this
    {
      Running() && Handled() && !freeing
    }

    ghost predicate Running()
      reads this`flows, this`time, this`queued, this`sending, this`sendingLen, this`previous, this`scheduleJob
    {
      Inv(P(), Abs()) && RangeOk(Some(MAX_TIME), P(), Abs()) && Listed(flows, time)
    }

    ghost predicate Handled()
      reads this`time, this`queued, this`sending, this`sendingLen, this`previous, this`scheduleJob, this`handlers, this`cancels
    {
      C.OnlySending(Control())
    }

    /** What is left of validity while the queue is being freed. */
    ghost predicate Shape()
      reads this
    {
      Listed(flows, time) && queued.Keys <= time.Keys &&
      (sending.Some? ==> sending.value in time) && (previous.Some? ==> previous.value in time)
    }

    /** PacketPassFairQueue_Init, which fails if a packet could cost more than the clock can count. */
    constructor (weight: nat, mtu: nat)
      requires mtu <= MAX_TIME && weight <= MAX_TIME - mtu
      ensures Valid() && Abs() == Initial && P() == Params(weight, mtu)
    {
      this.weight := weight;
      this.mtu := mtu;
      flows := [];
      time := map[];
      queued := map[];
      sending := None;
      sendingLen := 0;
      previous := None;
      scheduleJob := false;
      handlers := {};
      cancels := 0;
      freeing := false;
    }

    /** First flow of the tree. */
    method GetFirst() returns (f: Flow)
      requires WellFormed(Abs()) && queued != map[]
      ensures f == First(Abs())
    {
      hide Before;
      var q := Queue(time, queued, sending, sendingLen, previous, scheduleJob);
      assert IsFirst(q, First(q));
      f :| f in queued && IsFirst(q, f);
      FirstUnique(q, f);
    }

    method GetCurrentTime() returns (t: int)
      requires WellFormed(Abs())
      ensures t == Current(Abs())
    {
      if sending.Some? {
        return time[sending.value];
      }
      t := 0;
      var have := false;
      if queued != map[] {
        var f := GetFirst();
        t := time[f];
        have := true;
      }
      if previous.Some? {
        if !have || time[previous.value] < t {
          t := time[previous.value];
          have := true;
        }
      }
      return if have then t else 0;
    }

    /** The loop of increment_sent_flow: take `s` off every flow of the list, allowing only `f` to wrap around. */
    method SubtractFromAll(f: Flow, s: int)
      requires Listed(flows, time) && f in time
      modifies this`time
      ensures time == Rebased(old(time), f, s, MAX_TIME) && time.Keys == old(time).Keys
    {
      ghost var before := time;
      var i := 0;
      while i < |flows|
        invariant 0 <= i <= |flows| && time.Keys == before.Keys
        invariant forall k :: 0 <= k < i ==> time[flows[k]] == RebasedTime(before, f, s, flows[k])
        invariant forall k :: i <= k < |flows| ==> time[flows[k]] == before[flows[k]]
      {
        var g := flows[i];
        if s > time[g] && g != f {
          time := time[g := 0];
        } else {
          time := time[g := (time[g] - s) % (MAX_TIME + 1)];
        }
        i := i + 1;
      }
      assert forall g :: g in before ==> g in flows && time[g] == RebasedTime(before, f, s, g);
    }

    method IncrementSentFlow(f: Flow, amount: nat)
      requires WellFormed(Abs()) && Listed(flows, time) && f in time
      modifies this`time
      ensures time == Charge(Some(MAX_TIME), old(Abs()), f, amount)
    {
      hide Rebased, First;
      if amount > MAX_TIME - time[f] {
        var s := time[f];
        if queued != map[] {
          var first := GetFirst();
          s := time[first];
        }
        SubtractFromAll(f, s);
      }
      time := time[f := (time[f] + amount) % (MAX_TIME + 1)];
    }

    method ScheduleNext()
      requires queued.Keys <= time.Keys && queued != map[] && sending.None? && !scheduleJob && previous.None?
      modifies this`queued, this`sending, this`sendingLen
      ensures Abs() == Schedule(old(Abs()))
    {
      hide Before;
      var q := Queue(time, queued, sending, sendingLen, previous, scheduleJob);
      assert IsFirst(q, First(q));
      var f :| f in queued && IsFirst(q, f);
      FirstUnique(q, f);
      sendingLen := queued[f];
      queued := queued - {f};
      sending := Some(f);
    }

    method ScheduleJobHandler()
      requires Valid() && scheduleJob
      modifies this`queued, this`sending, this`sendingLen, this`previous, this`scheduleJob
      ensures Valid() && Abs() == Step(Some(MAX_TIME), P(), old(Abs()), ScheduleJob)
    {
      StepKeeps(Some(MAX_TIME), P(), Abs(), ScheduleJob);
      scheduleJob := false;
      previous := None;
      if queued != map[] {
        ScheduleNext();
      }
    }

    /** input_handler_send */
    method InputSend(f: Flow, len: nat)
      requires Valid() && Legal(P(), Abs(), Send(f, len))
      modifies this`time, this`queued, this`sending, this`sendingLen, this`previous
      ensures Valid() && Abs() == Step(Some(MAX_TIME), P(), old(Abs()), Send(f, len))
    {
      hide Current, Ordered, NonNegative, Lengths, RangeOk, First, IsFirst, Before, Listed;
      StepKeeps(Some(MAX_TIME), P(), Abs(), Send(f, len));
      SameFlows(flows, time, f, Max(time[f], Current(Abs())));
      if previous == Some(f) {
        previous := None;
      } else {
        var t := GetCurrentTime();
        time := time[f := Max(time[f], t)];
      }
      queued := queued[f := len];
      if sending.None? && !scheduleJob {
        assert f in queued;
        ScheduleNext();
      }
    }

    /** output_handler_done; a cancelled packet is charged like a sent one. A busy handler is called, once. */
    method OutputDone() returns (called: Option<Flow>)
      requires Valid() && sending.Some?
      modifies this`time, this`sending, this`previous, this`scheduleJob, this`handlers, this`cancels
      ensures Valid() && Legal(P(), old(Abs()), Done) && Abs() == Step(Some(MAX_TIME), P(), old(Abs()), Done)
      ensures WellFormed(old(Abs())) && (Control(), called) == C.Finished(P(), old(Control())) && handlers == {}
    {
      hide Running, Step, Inv;
      var f := sending.value;
      ChargeSent();
      cancels := 0;
      called := None;
      assert f !in handlers ==> handlers == {} && handlers - {f} == handlers;
      if f in handlers {
        handlers := handlers - {f};
        called := Some(f);
      }
    }

    /** The flow has sent: it is remembered, charged and the schedule job set. */
    method ChargeSent()
      requires Running() && sending.Some?
      modifies this`time, this`sending, this`previous, this`scheduleJob
      ensures WellFormed(old(Abs())) && Running() && Abs() == Step(Some(MAX_TIME), P(), old(Abs()), Done) && sending.None?
    {
      hide Ordered, NonNegative, Lengths, RangeOk, Charge;
      StepKeeps(Some(MAX_TIME), P(), Abs(), Done);
      var f := sending.value;
      ChargeKeys(Some(MAX_TIME), Abs(), f, weight + sendingLen);
      IncrementSentFlow(f, weight + sendingLen);
      sending := None;
      previous := Some(f);
      scheduleJob := true;
    }

    /** PacketPassFairQueueFlow_RequestCancel */
    method RequestCancel(f: Flow)
      requires Valid() && sending == Some(f)
      modifies this`cancels
      ensures Valid() && Control() == C.CancelAsked(old(Control()))
    {
      cancels := cancels + 1;
    }

    /** PacketPassFairQueueFlow_SetBusyHandler */
    method SetBusyHandler(f: Flow)
      requires Valid() && sending == Some(f)
      modifies this`handlers
      ensures Valid() && Control() == C.HandlerSet(old(Control()), f) && handlers == {f}
    {
      handlers := handlers + {f};
    }

    /** PacketPassFairQueue_PrepareFree */
    method PrepareFree()
      requires Valid()
      modifies this`freeing
      ensures freeing && Shape()
    {
      freeing := true;
    }

    /** PacketPassFairQueueFlow_Init */
    method FlowInit(f: Flow)
      requires Valid() && f !in time
      modifies this`time, this`flows
      ensures Valid() && Abs() == Step(Some(MAX_TIME), P(), old(Abs()), NewFlow(f))
    {
      hide Ordered, NonNegative, Lengths, RangeOk, Listed;
      StepKeeps(Some(MAX_TIME), P(), Abs(), NewFlow(f));
      ListedAppend(flows, time, f);
      time := time[f := 0];
      flows := flows + [f];
    }

    /** PacketPassFairQueueFlow_Free: the flow being sent only goes while the queue itself is being freed. */
    method FlowFree(f: Flow)
      requires (if freeing then Shape() else Valid() && sending != Some(f)) && f in time
      modifies this`time, this`queued, this`flows, this`previous, this`sending, this`handlers
      ensures !freeing ==> Valid() && Abs() == Step(Some(MAX_TIME), P(), old(Abs()), FreeFlow(f))
      ensures Shape() && Control() == C.Dropped(old(Control()), f)
    {
      hide Inv, RangeOk, Listed, Step, C.OnlySending, C.Dropped;
      if !freeing {
        ValidShape();
        C.SaneWellFormed(P(), Control());
        C.DroppedIdle(P(), Control(), f);
        C.DroppedSane(P(), Control(), f);
      }
      UnlinkFlow(f);
    }

    lemma ValidShape()
      requires Valid()
      ensures Shape()
    {
    }

    method UnlinkFlow(f: Flow)
      requires Shape() && f in time
      modifies this`time, this`queued, this`flows, this`previous, this`sending, this`handlers
      ensures Shape() && Control() == C.Dropped(old(Control()), f)
    {
      hide Listed;
      ListedRemove(flows, time, f);
      if sending == Some(f) {
        sending := None;
      }
      if previous == Some(f) {
        previous := None;
      }
      queued := queued - {f};
      handlers := handlers - {f};
      flows := Without(flows, f);
      time := time - {f};
    }

    /** PacketPassFairQueue_Free: with the last flow gone nothing is queued, being sent or remembered. */
    method Free()
      requires Shape() && flows == []
      ensures queued == map[] && sending.None? && previous.None?
    {
      assert time.Keys == {};
      assert queued.Keys == {};
    }
  }

  lemma SameFlows(flows: seq<Flow>, time: map<Flow, int>, f: Flow, t: int)
    requires Listed(flows, time) && f in time
    ensures Listed(flows, time[f := t])
  {
  }

  lemma ListedAppend(flows: seq<Flow>, time: map<Flow, int>, f: Flow)
    requires Listed(flows, time) && f !in time
    ensures Listed(flows + [f], time[f := 0])
  {
    forall g | g in time[f := 0] ensures g in flows + [f] {
    }
  }

  lemma ListedRemove(flows: seq<Flow>, time: map<Flow, int>, f: Flow)
    requires Listed(flows, time)
    ensures Listed(Without(flows, f), time - {f})
  {
    WithoutIs(flows, f);
    var r := Without(flows, f);
    forall i | 0 <= i < |r| ensures r[i] in time - {f} { assert r[i] in r; }
  }

  /** The flow list holds every flow exactly once. */
  ghost predicate Listed(flows: seq<Flow>, time: map<Flow, int>) {
    && Distinct(flows)
    && (forall i :: 0 <= i < |flows| ==> flows[i] in time)
    && (forall f :: f in time ==> f in flows)
  }

  function RebasedTime(time: map<Flow, int>, f: Flow, s: int, g: Flow): int
    requires g in time
  {
    if s > time[g] && g != f then 0 else (time[g] - s) % (MAX_TIME + 1)
  }
}
