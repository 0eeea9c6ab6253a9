/**
 The same operations with the queue of each sink in full: whether a buffer is busy, its busy handler and the cancel
 requests are those of the queue, and a queue flow comes and goes with each attachment.
 */
module DataProtoQueue {
  import opened Bytes
  import S = DataProtoSpec
  import Q = FairQueueSpec
  import opened FairQueueControl

  type Id = S.Id

  datatype Port = Port(control: Control, detaching: Option<Id>)

  datatype Buf = Buf(flow: Option<Id>, sink: Option<Id>)

  /** `ports` are the sinks; the queue flow of a buffer has the buffer's name. */
  datatype Net = Net(ports: map<Id, Port>, flows: map<Id, S.Flow>, bufs: map<Id, Buf>)

  // ---- what the sinks and flows see of the queues ----

  function AsSink(k: Port): S.Sink { S.Sink(k.control.queue.sending, k.control.cancels, k.detaching) }

  predicate Plugged(n: Net, b: Id) { b in n.bufs && n.bufs[b].sink.Some? && n.bufs[b].sink.value in n.ports }

  function AsBuffer(n: Net, b: Id): S.Buffer
    requires b in n.bufs
  {
    S.Buffer(n.bufs[b].flow, n.bufs[b].sink, Plugged(n, b) && b in n.ports[n.bufs[b].sink.value].control.handlers)
  }

  function AsState(n: Net): S.State {
    S.State(map s | s in n.ports :: AsSink(n.ports[s]), n.flows, map b | b in n.bufs :: AsBuffer(n, b))
  }

  /** The flows of a queue are those of the buffers attached to its sink. */
  ghost predicate Linked(n: Net) {
    forall s, b :: s in n.ports ==> (b in n.ports[s].control.queue.time <==> b in n.bufs && n.bufs[b].sink == Some(s))
  }

  ghost predicate AllSane(p: Q.Params, n: Net) { forall s :: s in n.ports ==> Sane(p, n.ports[s].control) }

  ghost predicate NetOk(p: Q.Params, n: Net) { p.Cost() <= Q.MAX_TIME && Linked(n) && AllSane(p, n) && S.Inv(AsState(n)) }

  // ---- one buffer ----

  /** PacketPassFairQueueFlow_IsBusy */
  predicate Busy(n: Net, b: Id) { Plugged(n, b) && n.ports[n.bufs[b].sink.value].control.queue.sending == Some(b) }

  /** A new queue flow. */
  ghost function Plug(p: Q.Params, n: Net, b: Id, s: Id): Net
    requires b in n.bufs && s in n.ports && Q.WellFormed(n.ports[s].control.queue) && b !in n.ports[s].control.queue.time
  {
    n.(ports := n.ports[s := n.ports[s].(control := Moved(p, n.ports[s].control, Q.NewFlow(b)))],
       bufs := n.bufs[b := n.bufs[b].(sink := Some(s))])
  }

  /** The queue flow is freed, which the queue allows for the flow being sent only if it is itself being freed. */
  function Unplug(n: Net, b: Id, freeing: bool): Net
    requires Plugged(n, b) && (freeing || !Busy(n, b))
  {
    var s := n.bufs[b].sink.value;
    var k := n.ports[s];
    n.(ports := n.ports[s := Port(Dropped(k.control, b), if k.detaching == Some(b) then None else k.detaching)],
       bufs := n.bufs[b := n.bufs[b].(sink := None)])
  }

  /** A cancel may be asked for, and a handler set, for the flow being sent only. */
  function Scheduled(n: Net, b: Id): Net
    requires Busy(n, b)
  {
    var s := n.bufs[b].sink.value;
    var k := n.ports[s];
    if k.detaching == Some(b) then n
    else n.(ports := n.ports[s := Port(HandlerSet(CancelAsked(k.control), b), Some(b))])
  }

  ghost predicate Wanted(n: Net, b: Id, freeing: bool) {
    && Plugged(n, b) && (freeing || !Busy(n, b))
    && (n.bufs[b].flow.Some? ==>
        && n.bufs[b].flow.value in n.flows
        && var d := n.flows[n.bufs[b].flow.value].desired;
           d.Some? ==> d.value in n.ports && (freeing ==> d != n.bufs[b].sink))
  }

  /** What was in the way is gone. */
  ghost function Settle(p: Q.Params, n: Net, b: Id, freeing: bool): Net
    requires Wanted(n, b, freeing) && Linked(n) && AllSane(p, n)
  {
    var m := Unplug(n, b, freeing);
    match n.bufs[b].flow
    case None => m.(bufs := m.bufs - {b})
    case Some(f) =>
      if n.flows[f].desired.Some? then
        UnplugAs(p, n, b, freeing);
        ReadyAgain(p, n, b, freeing, n.flows[f].desired.value);
        Plug(p, m, b, n.flows[f].desired.value)
      else m
  }

  // ---- a change to one sink and one buffer ----

  function Changed(n: Net, s: Id, k: Port, b: Id, v: Buf): Net { n.(ports := n.ports[s := k], bufs := n.bufs[b := v]) }

  lemma ChangedSinks(n: Net, s: Id, k: Port, b: Id, v: Buf)
    ensures AsState(Changed(n, s, k, b, v)).sinks == AsState(n).sinks[s := AsSink(k)]
  {
    hide AsSink;
  }

  lemma ChangedBuffers(n: Net, s: Id, k: Port, b: Id, v: Buf)
    requires s in n.ports && b in n.bufs
    requires forall x :: x != b ==> (x in k.control.handlers <==> x in n.ports[s].control.handlers)
    ensures AsState(Changed(n, s, k, b, v)).buffers == AsState(n).buffers[b := AsBuffer(Changed(n, s, k, b, v), b)]
  {
    var m := Changed(n, s, k, b, v);
    forall x | x in n.bufs && x != b ensures AsBuffer(m, x) == AsBuffer(n, x) { }
    hide AsBuffer;
  }

  ghost predicate Here(v: Buf, s: Id) { v.sink.None? || v.sink == Some(s) }

  lemma ChangedLinks(n: Net, s: Id, k: Port, b: Id, v: Buf)
    requires s in n.ports && b in n.bufs && Linked(n) && Here(n.bufs[b], s) && Here(v, s)
    requires forall x :: x != b ==> (x in k.control.queue.time <==> x in n.ports[s].control.queue.time)
    requires b in k.control.queue.time <==> v.sink == Some(s)
    ensures Linked(Changed(n, s, k, b, v))
  {
    var m := Changed(n, s, k, b, v);
    forall r, x | r in m.ports ensures x in m.ports[r].control.queue.time <==> x in m.bufs && m.bufs[x].sink == Some(r) {
      assert r in n.ports ==> (x in n.ports[r].control.queue.time <==> x in n.bufs && n.bufs[x].sink == Some(r));
    }
  }

  lemma PlugAs(p: Q.Params, n: Net, b: Id, s: Id)
    requires b in n.bufs && s in n.ports && n.bufs[b].sink.None? && Linked(n) && Sane(p, n.ports[s].control)
    ensures Q.WellFormed(n.ports[s].control.queue) && b !in n.ports[s].control.queue.time
    ensures Linked(Plug(p, n, b, s)) && Sane(p, Plug(p, n, b, s).ports[s].control)
    ensures AsState(Plug(p, n, b, s)) == S.AttachBuffer(AsState(n), b, s)
  {
    var c := n.ports[s].control;
    SaneWellFormed(p, c);
    assert b !in c.queue.time;
    MovedSane(p, c, Q.NewFlow(b));
    NotHandled(c, b);
    hide Sane, Linked, AsState;
    var k, v := n.ports[s].(control := Moved(p, c, Q.NewFlow(b))), n.bufs[b].(sink := Some(s));
    ChangedSinks(n, s, k, b, v);
    ChangedBuffers(n, s, k, b, v);
    ChangedLinks(n, s, k, b, v);
    AsStateAt(n, s, b);
  }

  lemma AsStateAt(n: Net, s: Id, b: Id)
    requires s in n.ports && b in n.bufs
    ensures s in AsState(n).sinks && AsState(n).sinks[s] == AsSink(n.ports[s]) && AsState(n).sinks == AsState(n).sinks[s := AsSink(n.ports[s])]
    ensures b in AsState(n).buffers && AsState(n).buffers[b] == AsBuffer(n, b)
    ensures AsState(n).flows == n.flows && AsState(n).sinks.Keys == n.ports.Keys && AsState(n).buffers.Keys == n.bufs.Keys
  {
  }

  lemma NotHandled(c: Control, b: Id)
    requires Q.WellFormed(c.queue) && OnlySending(c) && b !in c.queue.time
    ensures b !in c.handlers
  {
  }

  lemma UnplugAs(p: Q.Params, n: Net, b: Id, freeing: bool)
    requires Plugged(n, b) && (freeing || !Busy(n, b)) && Linked(n)
    ensures Linked(Unplug(n, b, freeing)) && AsState(Unplug(n, b, freeing)) == S.DetachBuffer(AsState(n), b)
    ensures !freeing && Sane(p, n.ports[n.bufs[b].sink.value].control) ==> Sane(p, Unplug(n, b, freeing).ports[n.bufs[b].sink.value].control)
  {
    var s := n.bufs[b].sink.value;
    var c := n.ports[s].control;
    assert b in c.queue.time;
    hide Sane, Linked, AsState;
    if !freeing && Sane(p, c) { DroppedSane(p, c, b); }
    var k := Port(Dropped(c, b), if n.ports[s].detaching == Some(b) then None else n.ports[s].detaching);
    var v := n.bufs[b].(sink := None);
    ChangedSinks(n, s, k, b, v);
    ChangedBuffers(n, s, k, b, v);
    ChangedLinks(n, s, k, b, v);
    AsStateAt(n, s, b);
  }

  lemma ScheduledAs(p: Q.Params, n: Net, b: Id)
    requires Busy(n, b) && Linked(n) && AllSane(p, n)
    ensures Linked(Scheduled(n, b)) && AllSane(p, Scheduled(n, b)) && AsState(Scheduled(n, b)) == S.ScheduleDetach(AsState(n), b)
    ensures Scheduled(n, b).bufs == n.bufs
  {
    hide Sane, AsState, Linked;
    var s := n.bufs[b].sink.value;
    AsStateAt(n, s, b);
    if n.ports[s].detaching != Some(b) {
      ScheduledSane(p, n.ports[s].control, b);
      ScheduledOnce(n, b);
    }
  }

  lemma ScheduledOnce(n: Net, b: Id)
    requires Busy(n, b) && Linked(n) && n.ports[n.bufs[b].sink.value].detaching != Some(b)
    ensures Linked(Scheduled(n, b)) && AsState(Scheduled(n, b)) == S.ScheduleDetach(AsState(n), b)
  {
    var s := n.bufs[b].sink.value;
    var k, v := Port(HandlerSet(CancelAsked(n.ports[s].control), b), Some(b)), n.bufs[b];
    assert b in n.ports[s].control.queue.time;
    hide AsState, Linked;
    assert n.bufs[b := v] == n.bufs;
    var m := Changed(n, s, k, b, v);
    assert m == Scheduled(n, b);
    AsStateAt(n, s, b);
    ChangedSinks(n, s, k, b, v);
    ChangedBuffers(n, s, k, b, v);
    ChangedLinks(n, s, k, b, v);
    AsStateAt(m, s, b);
  }

  lemma ReadyAgain(p: Q.Params, n: Net, b: Id, freeing: bool, d: Id)
    requires Wanted(n, b, freeing) && Linked(n) && AllSane(p, n) && d in n.ports && (freeing ==> Some(d) != n.bufs[b].sink)
    ensures var m := Unplug(n, b, freeing);
            && b in m.bufs && d in m.ports && Sane(p, m.ports[d].control)
            && Q.WellFormed(m.ports[d].control.queue) && b !in m.ports[d].control.queue.time
  {
    hide Sane, Dropped;
    UnplugAs(p, n, b, freeing);
    var m := Unplug(n, b, freeing);
    SaneWellFormed(p, m.ports[d].control);
    assert b in m.ports[d].control.queue.time <==> b in m.bufs && m.bufs[b].sink == Some(d);
  }

  lemma SettleAs(p: Q.Params, n: Net, b: Id, freeing: bool)
    requires Wanted(n, b, freeing) && Linked(n) && AllSane(p, n)
    ensures var m := Settle(p, n, b, freeing);
            && Linked(m) && m.ports.Keys == n.ports.Keys && m.flows == n.flows
            && AsState(m) == S.FinishDetach(AsState(n), b)
            && (forall s :: s in n.ports && (!freeing || Some(s) != n.bufs[b].sink) ==> Sane(p, m.ports[s].control))
  {
    hide Sane, Dropped, Moved, S.AttachBuffer, S.DetachBuffer, AsState, Linked;
    var m := Unplug(n, b, freeing);
    AsPlugged(n, b);
    UnplugAs(p, n, b, freeing);
    AsStateSizes(m);
    AsFlow(m, b);
    match n.bufs[b].flow {
      case None =>
        Forget(m, b);
      case Some(f) =>
        if n.flows[f].desired.Some? {
          ReadyAgain(p, n, b, freeing, n.flows[f].desired.value);
          PlugAs(p, m, b, n.flows[f].desired.value);
        }
    }
  }

  lemma AsFlow(n: Net, b: Id)
    requires b in n.bufs
    ensures b in AsState(n).buffers && AsState(n).buffers[b].flow == n.bufs[b].flow && AsState(n).buffers[b].sink == n.bufs[b].sink
  {
  }

  /** A buffer that is attached to nothing goes. */
  lemma Forget(n: Net, b: Id)
    requires b in n.bufs && n.bufs[b].sink.None? && Linked(n)
    ensures var m := n.(bufs := n.bufs - {b});
            Linked(m) && AsState(m) == AsState(n).(buffers := AsState(n).buffers - {b})
  {
    var m := n.(bufs := n.bufs - {b});
    assert AsState(m).buffers == AsState(n).buffers - {b};
  }

  // ---- operations ----

  /** What the user of the sinks and flows does, and what the queues do. */
  datatype Event = User(e: S.Event) | Submit(b: Id, len: nat) | RunJob(s: Id) | OutputDone(s: Id)

  ghost predicate Possible(p: Q.Params, n: Net, e: Event) {
    match e
    case User(u) => !u.SendStarts? && !u.SendEnds? && S.Possible(AsState(n), u)
    case Submit(b, len) => Plugged(n, b) && Q.Legal(p, n.ports[n.bufs[b].sink.value].control.queue, Q.Send(b, len))
    case RunJob(s) => s in n.ports && n.ports[s].control.queue.job
    case OutputDone(s) => s in n.ports && n.ports[s].control.queue.sending.Some?
  }

  ghost function FreePort(p: Q.Params, n: Net, s: Id): Net
    requires NetOk(p, n) && Possible(p, n, User(S.SinkFree(s)))
  {
    var d := n.ports[s].detaching;
    var m := if d.Some? then LeavingWanted(p, n, s); Settle(p, n, d.value, true) else n;
    m.(ports := m.ports - {s})
  }

  lemma LeavingWanted(p: Q.Params, n: Net, s: Id)
    requires NetOk(p, n) && s in n.ports && n.ports[s].detaching.Some?
    requires forall f :: f in n.flows ==> n.flows[f].desired != Some(s)
    ensures Wanted(n, n.ports[s].detaching.value, true) && n.bufs[n.ports[s].detaching.value].sink == Some(s)
  {
    hide S.Inv, Sane;
    S.DetachingFacts(AsState(n), s);
    var b := n.ports[s].detaching.value;
    assert AsState(n).buffers[b] == AsBuffer(n, b);
  }

  ghost function FreeFlow(p: Q.Params, n: Net, f: Id): Net
    requires f in n.flows && n.flows[f].buffer in n.bufs
  {
    var b := n.flows[f].buffer;
    var m := n.(flows := n.flows - {f});
    if !Plugged(n, b) then m.(bufs := m.bufs - {b})
    else if Busy(n, b) then
      var u := Scheduled(m, b);
      u.(bufs := u.bufs[b := u.bufs[b].(flow := None)])
    else
      var u := Unplug(m, b, false);
      u.(bufs := u.bufs - {b})
  }

  ghost function AttachFlow(p: Q.Params, n: Net, f: Id, s: Id): Net
    requires NetOk(p, n) && Possible(p, n, User(S.Attach(f, s)))
  {
    AttachMeets(p, n, f, s);
    var b := n.flows[f].buffer;
    var m := if !Plugged(n, b) then Plug(p, n, b, s) else Scheduled(n, b);
    m.(flows := m.flows[f := n.flows[f].(desired := Some(s))])
  }

  /** A buffer whose flow desires nothing is unattached, or is being sent from. */
  lemma AttachMeets(p: Q.Params, n: Net, f: Id, s: Id)
    requires NetOk(p, n) && Possible(p, n, User(S.Attach(f, s)))
    ensures var b := n.flows[f].buffer;
            && b in n.bufs && s in n.ports
            && (if Plugged(n, b) then Busy(n, b)
                else n.bufs[b].sink.None? && Q.WellFormed(n.ports[s].control.queue) && b !in n.ports[s].control.queue.time)
  {
    hide S.Inv, Sane;
    S.FlowFacts(AsState(n), f);
    S.FlowPlace(AsState(n), f);
    var b := n.flows[f].buffer;
    assert AsState(n).buffers[b] == AsBuffer(n, b);
    SaneWellFormed(p, n.ports[s].control);
  }

  function DetachFlow(n: Net, f: Id): Net
    requires f in n.flows && Plugged(n, n.flows[f].buffer)
  {
    var b := n.flows[f].buffer;
    var m := if Busy(n, b) then Scheduled(n, b) else Unplug(n, b, false);
    m.(flows := m.flows[f := n.flows[f].(desired := None)])
  }

  ghost function OnPort(p: Q.Params, n: Net, s: Id, e: Q.Event): Net
    requires s in n.ports && Q.WellFormed(n.ports[s].control.queue) && Q.Legal(p, n.ports[s].control.queue, e)
  {
    n.(ports := n.ports[s := n.ports[s].(control := Moved(p, n.ports[s].control, e))])
  }

  /** The packet is out; the busy handler of its flow is called if it was set. */
  ghost function EndSend(p: Q.Params, n: Net, s: Id): Net
    requires NetOk(p, n) && Possible(p, n, OutputDone(s))
  {
    SaneWellFormed(p, n.ports[s].control);
    var (c, called) := Finished(p, n.ports[s].control);
    var m := n.(ports := n.ports[s := n.ports[s].(control := c)]);
    if called.Some? then CalledWanted(p, n, s); Settle(p, m, called.value, false) else m
  }

  /** What the busy handler asserts, over the queue as it calls it. */
  lemma CalledWanted(p: Q.Params, n: Net, s: Id)
    requires NetOk(p, n) && Possible(p, n, OutputDone(s))
    ensures Q.WellFormed(n.ports[s].control.queue)
    ensures var (c, called) := Finished(p, n.ports[s].control);
            var m := n.(ports := n.ports[s := n.ports[s].(control := c)]);
            && Linked(m) && AllSane(p, m)
            && (called.Some? ==> n.ports[s].detaching == called && Wanted(m, called.value, false))
  {
    hide S.Inv, Sane, AsState, Linked;
    var k := n.ports[s].control;
    SaneWellFormed(p, k);
    FinishedSane(p, k);
    DoneKeys(p, k);
    SameTimes(n, s, n.ports[s].(control := Finished(p, k).0));
    CalledLeaving(p, n, s);
  }

  lemma CalledLeaving(p: Q.Params, n: Net, s: Id)
    requires NetOk(p, n) && Possible(p, n, OutputDone(s))
    ensures var b := n.ports[s].control.queue.sending.value;
            && b in n.bufs && n.bufs[b].sink == Some(s)
            && (b in n.ports[s].control.handlers ==>
                && n.ports[s].detaching == Some(b)
                && var f := n.bufs[b].flow;
                   f.Some? ==> f.value in n.flows && (n.flows[f.value].desired.Some? ==> n.flows[f.value].desired.value in n.ports))
  {
    hide S.Inv, Sane, AsState, Linked;
    AsSinkAt(n, s);
    AsStateSizes(n);
    S.BusyFacts(AsState(n), s);
    AsStateAt(n, s, n.ports[s].control.queue.sending.value);
  }

  lemma DoneKeys(p: Q.Params, c: Control)
    requires Q.WellFormed(c.queue) && c.queue.sending.Some?
    ensures Finished(p, c).0.queue.time.Keys == c.queue.time.Keys
  {
    Q.ChargeKeys(Some(Q.MAX_TIME), c.queue, c.queue.sending.value, p.weight + c.queue.sendingLen);
  }

  ghost function Step(p: Q.Params, n: Net, e: Event): Net
    requires NetOk(p, n) && Possible(p, n, e)
  {
    match e
    case User(u) => UserStep(p, n, u)
    case Submit(b, len) => SaneWellFormed(p, n.ports[n.bufs[b].sink.value].control); OnPort(p, n, n.bufs[b].sink.value, Q.Send(b, len))
    case RunJob(s) => SaneWellFormed(p, n.ports[s].control); OnPort(p, n, s, Q.ScheduleJob)
    case OutputDone(s) => EndSend(p, n, s)
  }

  ghost function UserStep(p: Q.Params, n: Net, u: S.Event): Net
    requires NetOk(p, n) && Possible(p, n, User(u))
  {
    match u
    case SinkInit(s) => n.(ports := n.ports[s := Port(Idle, None)])
    case SinkFree(s) => FreePort(p, n, s)
    case FlowInit(f, b) => n.(flows := n.flows[f := S.Flow(b, None)], bufs := n.bufs[b := Buf(Some(f), None)])
    case FlowFree(f) => FreeFlow(p, n, f)
    case Attach(f, s) => AttachFlow(p, n, f, s)
    case Detach(f) => DetachFlow(n, f)
  }

  // ---- the operations are those over the queues ----

  /** `m` is in order and shows the sinks and flows as `t`. */
  ghost predicate Shows(p: Q.Params, m: Net, t: S.State) { Linked(m) && AllSane(p, m) && AsState(m) == t }

  lemma SinkInitAs(p: Q.Params, n: Net, s: Id)
    requires NetOk(p, n) && Possible(p, n, User(S.SinkInit(s)))
    ensures Shows(p, UserStep(p, n, S.SinkInit(s)), S.Step(AsState(n), S.SinkInit(s)))
  {
    hide S.Inv, Sane;
    IdleSane(p);
    forall b | b in n.bufs ensures n.bufs[b].sink != Some(s) {
      S.SinkThere(AsState(n), b);
      assert AsState(n).buffers[b] == AsBuffer(n, b);
    }
    hide AsState, Linked;
    AsStateSizes(n);
    NewPort(n, s, Port(Idle, None));
  }

  lemma NewPort(n: Net, s: Id, k: Port)
    requires Linked(n) && s !in n.ports && k.control == Idle && forall b :: b in n.bufs ==> n.bufs[b].sink != Some(s)
    ensures var m := n.(ports := n.ports[s := k]);
            Linked(m) && AsState(m) == AsState(n).(sinks := AsState(n).sinks[s := AsSink(k)])
  {
    var m := n.(ports := n.ports[s := k]);
    forall b | b in n.bufs ensures AsBuffer(m, b) == AsBuffer(n, b) { }
    NewLinks(n, s, k);
    hide AsBuffer, AsSink, Linked;
    assert AsState(m).buffers == AsState(n).buffers;
    assert AsState(m).sinks == AsState(n).sinks[s := AsSink(k)];
  }

  lemma NewLinks(n: Net, s: Id, k: Port)
    requires Linked(n) && s !in n.ports && k.control == Idle && forall b :: b in n.bufs ==> n.bufs[b].sink != Some(s)
    ensures Linked(n.(ports := n.ports[s := k]))
  {
  }

  lemma FlowInitAs(p: Q.Params, n: Net, f: Id, b: Id)
    requires NetOk(p, n) && Possible(p, n, User(S.FlowInit(f, b)))
    ensures Shows(p, UserStep(p, n, S.FlowInit(f, b)), S.Step(AsState(n), S.FlowInit(f, b)))
  {
    hide S.Inv, Sane;
    var m := UserStep(p, n, S.FlowInit(f, b));
    forall x | x in n.bufs ensures AsBuffer(m, x) == AsBuffer(n, x) { }
    assert AsBuffer(m, b) == S.Buffer(Some(f), None, false);
    hide AsBuffer;
    assert AsState(m).buffers == S.Step(AsState(n), S.FlowInit(f, b)).buffers;
    assert AsState(m).sinks == AsState(n).sinks;
  }

  lemma SinkFreeAs(p: Q.Params, n: Net, s: Id)
    requires NetOk(p, n) && Possible(p, n, User(S.SinkFree(s)))
    ensures Shows(p, FreePort(p, n, s), S.Step(AsState(n), S.SinkFree(s)))
  {
    hide S.Inv, Sane, S.FinishDetach, Settle, AsState, Linked;
    AsStateSizes(n);
    var d := n.ports[s].detaching;
    AsSinkAt(n, s);
    S.SinkFreeKeeps(AsState(n), s);
    if d.Some? {
      LeavingWanted(p, n, s);
      SettleAs(p, n, d.value, true);
      AsPlugged(n, d.value);
      WithoutPort(Settle(p, n, d.value, true), s);
    } else {
      WithoutPort(n, s);
    }
  }

  lemma AsSinkAt(n: Net, s: Id)
    requires s in n.ports
    ensures s in AsState(n).sinks && AsState(n).sinks[s] == AsSink(n.ports[s])
  {
  }

  lemma WithoutPort(n: Net, s: Id)
    requires Linked(n) && forall b :: b in AsState(n).buffers ==> AsState(n).buffers[b].sink != Some(s)
    ensures var m := n.(ports := n.ports - {s});
            Linked(m) && AsState(m) == AsState(n).(sinks := AsState(n).sinks - {s})
  {
    var m := n.(ports := n.ports - {s});
    forall b | b in n.bufs ensures AsBuffer(m, b) == AsBuffer(n, b) {
      assert AsState(n).buffers[b].sink != Some(s);
    }
    hide AsBuffer;
    assert AsState(m).buffers == AsState(n).buffers;
    assert AsState(m).sinks == AsState(n).sinks - {s};
  }

  /** Flows are only looked up. */
  lemma OtherFlows(p: Q.Params, n: Net, fs: map<Id, S.Flow>)
    ensures var m := n.(flows := fs);
            AsState(m) == AsState(n).(flows := fs) && (Linked(n) ==> Linked(m)) && (AllSane(p, n) ==> AllSane(p, m))
    ensures forall b :: (Plugged(n, b) <==> Plugged(n.(flows := fs), b)) && (Busy(n, b) <==> Busy(n.(flows := fs), b))
  {
    hide Sane;
    var m := n.(flows := fs);
    assert AsState(m).buffers == AsState(n).buffers;
  }

  lemma FlowFreeAs(p: Q.Params, n: Net, f: Id)
    requires NetOk(p, n) && Possible(p, n, User(S.FlowFree(f)))
    ensures Shows(p, FreeFlow(p, n, f), S.Step(AsState(n), S.FlowFree(f)))
  {
    hide S.Inv, Sane, S.ScheduleDetach, S.DetachBuffer, Linked, AsState, Scheduled, Unplug;
    AsStateSizes(n);
    var b := n.flows[f].buffer;
    AsPlugged(n, b);
    var m := n.(flows := n.flows - {f});
    OtherFlows(p, n, n.flows - {f});
    AsPlugged(m, b);
    if !Plugged(n, b) {
      Unattached(p, n, b);
      Forget(m, b);
    } else if Busy(n, b) {
      ScheduledAs(p, m, b);
      Orphaned(p, Scheduled(m, b), b);
    } else {
      UnplugAs(p, m, b, false);
      UnplugSane(p, m, b);
      Forget(Unplug(m, b, false), b);
    }
  }

  lemma AsStateSizes(n: Net)
    ensures AsState(n).flows == n.flows && AsState(n).sinks.Keys == n.ports.Keys && AsState(n).buffers.Keys == n.bufs.Keys
  {
  }

  lemma AsPlugged(n: Net, b: Id)
    ensures S.Attached(AsState(n), b) <==> Plugged(n, b)
    ensures S.Busy(AsState(n), b) <==> Busy(n, b)
  {
  }

  lemma Unattached(p: Q.Params, n: Net, b: Id)
    requires NetOk(p, n) && b in n.bufs && !Plugged(n, b)
    ensures n.bufs[b].sink.None?
  {
    S.SinkThere(AsState(n), b);
    assert AsState(n).buffers[b] == AsBuffer(n, b);
  }

  lemma UnplugSane(p: Q.Params, n: Net, b: Id)
    requires Plugged(n, b) && !Busy(n, b) && Linked(n) && AllSane(p, n)
    ensures AllSane(p, Unplug(n, b, false)) && b in Unplug(n, b, false).bufs && Unplug(n, b, false).bufs[b].sink.None?
  {
    hide Sane, Dropped, AsState;
    UnplugAs(p, n, b, false);
  }

  lemma Orphaned(p: Q.Params, n: Net, b: Id)
    requires b in n.bufs && Linked(n) && AllSane(p, n)
    ensures b in AsState(n).buffers
    ensures Shows(p, n.(bufs := n.bufs[b := n.bufs[b].(flow := None)]),
                  AsState(n).(buffers := AsState(n).buffers[b := AsState(n).buffers[b].(flow := None)]))
  {
    hide Sane;
    var m := n.(bufs := n.bufs[b := n.bufs[b].(flow := None)]);
    assert AsState(m).buffers == AsState(n).buffers[b := AsState(n).buffers[b].(flow := None)];
    assert AsState(m).sinks == AsState(n).sinks;
  }

  lemma AttachAs(p: Q.Params, n: Net, f: Id, s: Id)
    requires NetOk(p, n) && Possible(p, n, User(S.Attach(f, s)))
    ensures Shows(p, AttachFlow(p, n, f, s), S.Step(AsState(n), S.Attach(f, s)))
  {
    hide S.Inv, Sane, S.ScheduleDetach, S.DetachBuffer, S.AttachBuffer, Linked, AsState, Scheduled;
    AsStateSizes(n);
    AttachMeets(p, n, f, s);
    var b := n.flows[f].buffer;
    AsPlugged(n, b);
    var m;
    if Plugged(n, b) {
      ScheduledAs(p, n, b);
      m := Scheduled(n, b);
    } else {
      PlugAs(p, n, b, s);
      m := Plug(p, n, b, s);
    }
    AsStateSizes(m);
    OtherFlows(p, m, m.flows[f := n.flows[f].(desired := Some(s))]);
  }

  lemma DetachAs(p: Q.Params, n: Net, f: Id)
    requires NetOk(p, n) && Possible(p, n, User(S.Detach(f)))
    ensures Plugged(n, n.flows[f].buffer) && Shows(p, DetachFlow(n, f), S.Step(AsState(n), S.Detach(f)))
  {
    hide S.Inv, Sane, S.ScheduleDetach, S.DetachBuffer, Linked, AsState, Scheduled, Unplug;
    AsStateSizes(n);
    var b := n.flows[f].buffer;
    AsPlugged(n, b);
    var m;
    if Busy(n, b) {
      ScheduledAs(p, n, b);
      m := Scheduled(n, b);
    } else {
      UnplugAs(p, n, b, false);
      UnplugSane(p, n, b);
      m := Unplug(n, b, false);
    }
    AsStateSizes(m);
    OtherFlows(p, m, m.flows[f := n.flows[f].(desired := None)]);
  }

  lemma UserAs(p: Q.Params, n: Net, u: S.Event)
    requires NetOk(p, n) && Possible(p, n, User(u))
    ensures Shows(p, UserStep(p, n, u), S.Step(AsState(n), u))
  {
    hide NetOk, FreePort, FreeFlow, AttachFlow, DetachFlow, S.Step, Shows;
    match u {
      case SinkInit(s) => SinkInitAs(p, n, s);
      case SinkFree(s) => SinkFreeAs(p, n, s);
      case FlowInit(f, b) => FlowInitAs(p, n, f, b);
      case FlowFree(f) => FlowFreeAs(p, n, f);
      case Attach(f, s) => AttachAs(p, n, f, s);
      case Detach(f) => DetachAs(p, n, f);
    }
  }

  /** A queue that takes a packet or schedules shows nothing of it but the packet it is sending. */
  lemma OnPortAs(p: Q.Params, n: Net, s: Id, e: Q.Event)
    requires Linked(n) && AllSane(p, n) && s in n.ports && Q.Legal(p, n.ports[s].control.queue, e) && (e.Send? || e.ScheduleJob?)
    ensures Q.WellFormed(n.ports[s].control.queue)
    ensures var c, st := n.ports[s].control, AsState(n);
            && s in st.sinks && st.sinks[s].busy == c.queue.sending && (c.queue.sending.None? ==> st.sinks[s].cancels == 0)
            && Shows(p, OnPort(p, n, s, e), st.(sinks := st.sinks[s := st.sinks[s].(busy := Moved(p, c, e).queue.sending)]))
  {
    hide Sane, Linked, Moved, AsState;
    var c := n.ports[s].control;
    SaneWellFormed(p, c);
    MovedSane(p, c, e);
    MovedKeys(p, c, e);
    var k := n.ports[s].(control := Moved(p, c, e));
    OnePort(n, s, k);
    AsSinkAt(n, s);
  }

  lemma MovedKeys(p: Q.Params, c: Control, e: Q.Event)
    requires Q.WellFormed(c.queue) && Q.Legal(p, c.queue, e) && (e.Send? || e.ScheduleJob?)
    ensures var d := Moved(p, c, e);
            && d.queue.time.Keys == c.queue.time.Keys && d.handlers == c.handlers && d.cancels == c.cancels
            && (c.queue.sending.Some? ==> d.queue.sending == c.queue.sending)
            && (d.queue.sending.Some? ==> d.queue.sending.value in c.queue.time)
  {
    hide Q.Current, Q.Before;
  }

  lemma OnePort(n: Net, s: Id, k: Port)
    requires Linked(n) && s in n.ports && k.control.queue.time.Keys == n.ports[s].control.queue.time.Keys
    requires k.control.handlers == n.ports[s].control.handlers
    ensures var m := n.(ports := n.ports[s := k]);
            Linked(m) && AsState(m) == AsState(n).(sinks := AsState(n).sinks[s := AsSink(k)])
  {
    var m := n.(ports := n.ports[s := k]);
    SameTimes(n, s, k);
    forall b | b in n.bufs ensures AsBuffer(m, b) == AsBuffer(n, b) { }
    hide AsBuffer, AsSink;
    assert AsState(m).buffers == AsState(n).buffers;
    assert AsState(m).sinks == AsState(n).sinks[s := AsSink(k)];
  }

  lemma SameTimes(n: Net, s: Id, k: Port)
    requires Linked(n) && s in n.ports && k.control.queue.time.Keys == n.ports[s].control.queue.time.Keys
    ensures Linked(n.(ports := n.ports[s := k]))
  {
    assert forall b :: b in k.control.queue.time <==> b in n.ports[s].control.queue.time;
  }

  /** What an event means for the sinks and flows; a queue that goes on as it was means nothing to them. */
  ghost function Meaning(p: Q.Params, n: Net, e: Event): Option<S.Event>
    requires NetOk(p, n) && Possible(p, n, e)
  {
    match e
    case User(u) => Some(u)
    case OutputDone(s) => Some(S.SendEnds(s))
    case Submit(b, len) => var s := n.bufs[b].sink.value; Started(n, Step(p, n, e), s)
    case RunJob(s) => Started(n, Step(p, n, e), s)
  }

  function Started(n: Net, m: Net, s: Id): Option<S.Event>
    requires s in n.ports && s in m.ports
  {
    var was, now := n.ports[s].control.queue.sending, m.ports[s].control.queue.sending;
    if was.None? && now.Some? then Some(S.SendStarts(s, now.value)) else None
  }

  lemma SendingAs(p: Q.Params, n: Net, s: Id, e: Q.Event)
    requires NetOk(p, n) && s in n.ports && Q.Legal(p, n.ports[s].control.queue, e) && (e.Send? || e.ScheduleJob?)
    ensures Q.WellFormed(n.ports[s].control.queue)
    ensures var m := OnPort(p, n, s, e);
            var u := Started(n, m, s);
            && (u.Some? ==> S.Possible(AsState(n), u.value))
            && Shows(p, m, if u.Some? then S.Step(AsState(n), u.value) else AsState(n))
  {
    hide S.Inv, AllSane, Moved, AsState;
    OnPortAs(p, n, s, e);
    MovedKeys(p, n.ports[s].control, e);
    var c := n.ports[s].control;
    var now := Moved(p, c, e).queue.sending;
    if now.Some? {
      assert now.value in n.bufs && n.bufs[now.value].sink == Some(s);
      AsStateAt(n, s, now.value);
    }
    var st := AsState(n);
    assert st.sinks[s := st.sinks[s]] == st.sinks;
  }

  lemma OutputDoneAs(p: Q.Params, n: Net, s: Id)
    requires NetOk(p, n) && Possible(p, n, OutputDone(s))
    ensures S.Possible(AsState(n), S.SendEnds(s)) && Shows(p, EndSend(p, n, s), S.Step(AsState(n), S.SendEnds(s)))
  {
    hide S.Inv, Sane, Settle, S.FinishDetach, Finished, Linked;
    var k := n.ports[s];
    SaneWellFormed(p, k.control);
    CalledWanted(p, n, s);
    var (c, called) := Finished(p, k.control);
    var m := n.(ports := n.ports[s := k.(control := c)]);
    FinishedAs(p, n, s);
    AsSinkAt(n, s);
    if called.Some? {
      SettleAs(p, m, called.value, false);
    }
  }

  /** The queue has let go of the packet and has unset the handler. */
  lemma FinishedAs(p: Q.Params, n: Net, s: Id)
    requires NetOk(p, n) && Possible(p, n, OutputDone(s)) && Q.WellFormed(n.ports[s].control.queue)
    ensures var (c, called) := Finished(p, n.ports[s].control);
            var m := n.(ports := n.ports[s := n.ports[s].(control := c)]);
            var st, b := AsState(n), n.ports[s].control.queue.sending.value;
            && s in st.sinks && b in st.buffers && b in n.bufs && n.bufs[b].sink == Some(s)
            && (called.Some? <==> st.buffers[b].handler) && (called.Some? ==> called.value == b)
            && AsState(m) == S.State(st.sinks[s := st.sinks[s].(busy := None, cancels := 0)], st.flows,
                                     st.buffers[b := st.buffers[b].(handler := false)])
  {
    hide S.Inv;
    var (c, called) := Finished(p, n.ports[s].control);
    var b := n.ports[s].control.queue.sending.value;
    S.BusyFacts(AsState(n), s);
    FinishedSane(p, n.ports[s].control);
    hide Finished, Sane;
    var k, v := n.ports[s].(control := c), n.bufs[b];
    assert n.bufs[b := v] == n.bufs;
    ChangedSinks(n, s, k, b, v);
    ChangedBuffers(n, s, k, b, v);
    AsStateAt(n, s, b);
  }

  // ---- runs ----

  /** Every step over the queues is one on the sinks and flows, or none. */
  lemma StepAs(p: Q.Params, n: Net, e: Event)
    requires NetOk(p, n) && Possible(p, n, e)
    ensures NetOk(p, Step(p, n, e))
    ensures var u := Meaning(p, n, e);
            && (u.Some? ==> S.Possible(AsState(n), u.value))
            && AsState(Step(p, n, e)) == if u.Some? then S.Step(AsState(n), u.value) else AsState(n)
  {
    hide S.Inv, Sane, Linked, UserStep, OnPort, EndSend, S.Step, AsState;
    match e {
      case User(u) => UserAs(p, n, u);
      case Submit(b, len) => SendingAs(p, n, n.bufs[b].sink.value, Q.Send(b, len));
      case RunJob(s) => SendingAs(p, n, s, Q.ScheduleJob);
      case OutputDone(s) => OutputDoneAs(p, n, s);
    }
    var u := Meaning(p, n, e);
    if u.Some? { S.StepKeeps(AsState(n), u.value); }
  }

  ghost predicate PossibleRun(p: Q.Params, n: Net, es: seq<Event>)
    requires NetOk(p, n)
    decreases |es|
  {
    es == [] || (Possible(p, n, es[0]) && (StepAs(p, n, es[0]); PossibleRun(p, Step(p, n, es[0]), es[1..])))
  }

  ghost function Run(p: Q.Params, n: Net, es: seq<Event>): (m: Net)
    requires NetOk(p, n) && PossibleRun(p, n, es)
    ensures NetOk(p, m)
    decreases |es|
  {
    if es == [] then n
    else
      StepAs(p, n, es[0]);
      Run(p, Step(p, n, es[0]), es[1..])
  }

  const Nothing: Net := Net(map[], map[], map[])

  lemma NothingOk(p: Q.Params)
    requires p.Cost() <= Q.MAX_TIME
    ensures NetOk(p, Nothing)
  {
    assert AsState(Nothing) == S.Nothing;
  }

  /**
   In every reachable state the deferred detaching rests on the queues alone: the buffer a sink remembers as leaving is
   the flow its queue is sending, is the only one with a busy handler and has had its packet cancelled once; a queue that
   no buffer is leaving has no handler set and no cancel pending; and a queue has just the flows of the buffers attached.
   */
  lemma QueuesAgree(p: Q.Params, es: seq<Event>, s: Id)
    requires p.Cost() <= Q.MAX_TIME && NetOk(p, Nothing) && PossibleRun(p, Nothing, es) && s in Run(p, Nothing, es).ports
    ensures var n := Run(p, Nothing, es);
            var c, d := n.ports[s].control, n.ports[s].detaching;
            && (d.Some? ==> c.queue.sending == d && c.handlers == {d.value} && c.cancels == 1)
            && (d.None? ==> c.handlers == {} && c.cancels == 0)
            && (forall b :: b in c.queue.time <==> b in n.bufs && n.bufs[b].sink == Some(s))
  {
    hide Step, Possible, PossibleRun;
    var n := Run(p, Nothing, es);
    Agreement(p, n, s);
  }

  lemma Agreement(p: Q.Params, n: Net, s: Id)
    requires NetOk(p, n) && s in n.ports
    ensures var c, d := n.ports[s].control, n.ports[s].detaching;
            && (d.Some? ==> c.queue.sending == d && c.handlers == {d.value} && c.cancels == 1)
            && (d.None? ==> c.handlers == {} && c.cancels == 0)
  {
    hide S.Placed;
    var st := AsState(n);
    var c, d := n.ports[s].control, n.ports[s].detaching;
    SaneWellFormed(p, c);
    AsSinkAt(n, s);
    hide Sane, Linked;
    if c.queue.sending.Some? {
      var b := c.queue.sending.value;
      S.BusyFacts(st, s);
      AsStateAt(n, s, b);
      assert c.handlers == if b in c.handlers then {b} else {};
      if d.Some? { S.DetachingFacts(st, s); }
    }
  }
}
