/** Flow buffers and the sinks they are attached to; a buffer that is being sent from leaves its sink only later. */
module DataProtoSpec {
  import opened Bytes

  type Id = nat

  /**
   `busy` is the buffer whose packet the sink's queue is sending, and `cancels` how often the output was asked to cancel
   that packet; `detaching` is the buffer the sink remembers as leaving.
   */
  datatype Sink = Sink(busy: Option<Id>, cancels: nat, detaching: Option<Id>)

  datatype Flow = Flow(buffer: Id, desired: Option<Id>)

  /** A buffer outlives its flow if it has to wait for its sink; `handler` tells that its queue flow has a busy handler. */
  datatype Buffer = Buffer(flow: Option<Id>, sink: Option<Id>, handler: bool)

  datatype State = State(sinks: map<Id, Sink>, flows: map<Id, Flow>, buffers: map<Id, Buffer>)

  // ---- the invariant ----

  ghost predicate SinksOk(st: State) {
    forall s :: s in st.sinks ==>
      && (st.sinks[s].busy.Some? ==> st.sinks[s].busy.value in st.buffers && st.buffers[st.sinks[s].busy.value].sink == Some(s))
      && (st.sinks[s].detaching.Some? ==> st.sinks[s].detaching == st.sinks[s].busy)
      && (st.sinks[s].busy.Some? ==> st.sinks[s].cancels == if st.sinks[s].detaching.Some? then 1 else 0)
  }

  predicate Leaving(st: State, b: Id) {
    && b in st.buffers && st.buffers[b].sink.Some? && st.buffers[b].sink.value in st.sinks
    && st.sinks[st.buffers[b].sink.value].detaching == Some(b)
  }

  /** A buffer is where its flow wants it, or is leaving the sink it is attached to. */
  predicate Placed(st: State, b: Id) {
    && b in st.buffers
    && match st.buffers[b].flow
       case None => Leaving(st, b)
       case Some(f) => f in st.flows && st.flows[f].buffer == b && (st.buffers[b].sink == st.flows[f].desired || Leaving(st, b))
  }

  /** The busy handler is set exactly for the buffer its sink remembers as leaving. */
  ghost predicate BuffersOk(st: State) { forall b :: b in st.buffers ==> Placed(st, b) && (st.buffers[b].handler <==> Leaving(st, b)) }

  ghost predicate FlowsOk(st: State) {
    forall f :: f in st.flows ==>
      && st.flows[f].buffer in st.buffers && st.buffers[st.flows[f].buffer].flow == Some(f)
      && (st.flows[f].desired.Some? ==> st.flows[f].desired.value in st.sinks)
  }

  ghost predicate Inv(st: State) { SinksOk(st) && BuffersOk(st) && FlowsOk(st) }

  // ---- steps on one buffer ----

  function Busy(st: State, b: Id): bool {
    && b in st.buffers && st.buffers[b].sink.Some? && st.buffers[b].sink.value in st.sinks
    && st.sinks[st.buffers[b].sink.value].busy == Some(b)
  }

  /** The buffer gets a new queue flow at the sink. */
  function AttachBuffer(st: State, b: Id, s: Id): State
    requires b in st.buffers
  {
    st.(buffers := st.buffers[b := st.buffers[b].(sink := Some(s), handler := false)])
  }

  predicate Attached(st: State, b: Id) { b in st.buffers && st.buffers[b].sink.Some? && st.buffers[b].sink.value in st.sinks }

  /** The queue flow goes, and with it its place in the queue and its handler. */
  function DetachBuffer(st: State, b: Id): State
    requires Attached(st, b)
  {
    var s := st.buffers[b].sink.value;
    var k := st.sinks[s];
    var k1 := if k.busy == Some(b) then k.(busy := None) else k;
    var k2 := if k1.detaching == Some(b) then k1.(detaching := None) else k1;
    st.(sinks := st.sinks[s := k2], buffers := st.buffers[b := st.buffers[b].(sink := None, handler := false)])
  }

  /** Cancel the packet, set the handler and remember the buffer, unless that has been done. */
  function ScheduleDetach(st: State, b: Id): State
    requires Attached(st, b)
  {
    var s := st.buffers[b].sink.value;
    var k := st.sinks[s];
    if k.detaching == Some(b) then st
    else st.(sinks := st.sinks[s := k.(cancels := k.cancels + 1, detaching := Some(b))],
             buffers := st.buffers[b := st.buffers[b].(handler := true)])
  }

  function FinishDetach(st: State, b: Id): State
    requires Attached(st, b)
  {
    var t := DetachBuffer(st, b);
    match t.buffers[b].flow
    case None => t.(buffers := t.buffers - {b})
    case Some(f) => if f in t.flows && t.flows[f].desired.Some? then AttachBuffer(t, b, t.flows[f].desired.value) else t
  }

  /** Leave now, or later if busy. */
  function Leave(st: State, b: Id): State
    requires Attached(st, b)
  {
    if Busy(st, b) then ScheduleDetach(st, b) else DetachBuffer(st, b)
  }

  // ---- operations ----

  datatype Event =
    | SinkInit(s: Id) | SinkFree(s: Id)
    | FlowInit(f: Id, b: Id) | FlowFree(f: Id)
    | Attach(f: Id, s: Id) | Detach(f: Id)
    | SendStarts(s: Id, b: Id) | SendEnds(s: Id)

  /** A sink may go once no flow desires it. */
  ghost predicate Possible(st: State, e: Event) {
    match e
    case SinkInit(s) => s !in st.sinks
    case SinkFree(s) => s in st.sinks && forall f :: f in st.flows ==> st.flows[f].desired != Some(s)
    case FlowInit(f, b) => f !in st.flows && b !in st.buffers
    case FlowFree(f) => f in st.flows && st.flows[f].desired.None? && st.flows[f].buffer in st.buffers
    case Attach(f, s) => f in st.flows && st.flows[f].desired.None? && st.flows[f].buffer in st.buffers && s in st.sinks
    case Detach(f) => f in st.flows && st.flows[f].desired.Some? && Attached(st, st.flows[f].buffer)
    case SendStarts(s, b) => s in st.sinks && st.sinks[s].busy.None? && b in st.buffers && st.buffers[b].sink == Some(s)
    case SendEnds(s) => s in st.sinks && st.sinks[s].busy.Some?
  }

  function FreeFlow(st: State, f: Id): State
    requires f in st.flows && st.flows[f].buffer in st.buffers
  {
    var b := st.flows[f].buffer;
    var t := st.(flows := st.flows - {f});
    if !Attached(st, b) then t.(buffers := t.buffers - {b})
    else
      var u := Leave(t, b);
      if Busy(st, b) then u.(buffers := u.buffers[b := u.buffers[b].(flow := None)]) else u.(buffers := u.buffers - {b})
  }

  function AttachFlow(st: State, f: Id, s: Id): State
    requires f in st.flows && st.flows[f].buffer in st.buffers
  {
    var b := st.flows[f].buffer;
    var t := if !Attached(st, b) then AttachBuffer(st, b, s)
             else if Busy(st, b) then ScheduleDetach(st, b)
             else AttachBuffer(DetachBuffer(st, b), b, s);
    t.(flows := t.flows[f := st.flows[f].(desired := Some(s))])
  }

  function DetachFlow(st: State, f: Id): State
    requires f in st.flows && Attached(st, st.flows[f].buffer)
  {
    var t := Leave(st, st.flows[f].buffer);
    t.(flows := t.flows[f := st.flows[f].(desired := None)])
  }

  /** The packet is out: the queue is free again and calls the busy handler of the flow, if set, after unsetting it. */
  function EndSend(st: State, s: Id): State
    requires s in st.sinks && st.sinks[s].busy.Some?
  {
    var b := st.sinks[s].busy.value;
    var t := st.(sinks := st.sinks[s := st.sinks[s].(busy := None, cancels := 0)]);
    if b in st.buffers && st.buffers[b].handler && Attached(t, b) then
      FinishDetach(t.(buffers := t.buffers[b := t.buffers[b].(handler := false)]), b)
    else t
  }

  /** The queue is told to let go, and the buffer remembered as leaving leaves. */
  function FreeSink(st: State, s: Id): State
    requires s in st.sinks
  {
    var d := st.sinks[s].detaching;
    var t := if d.Some? && Attached(st, d.value) then FinishDetach(st, d.value) else st;
    t.(sinks := t.sinks - {s})
  }

  function Step(st: State, e: Event): State
    requires Possible(st, e)
  {
    match e
    case SinkInit(s) => st.(sinks := st.sinks[s := Sink(None, 0, None)])
    case SinkFree(s) => FreeSink(st, s)
    case FlowInit(f, b) => st.(flows := st.flows[f := Flow(b, None)], buffers := st.buffers[b := Buffer(Some(f), None, false)])
    case FlowFree(f) => FreeFlow(st, f)
    case Attach(f, s) => AttachFlow(st, f, s)
    case Detach(f) => DetachFlow(st, f)
    case SendStarts(s, b) => st.(sinks := st.sinks[s := st.sinks[s].(busy := Some(b), cancels := 0)])
    case SendEnds(s) => EndSend(st, s)
  }

  // ---- the invariant is kept ----

  lemma SinkInitKeeps(st: State, s: Id)
    requires Inv(st) && Possible(st, SinkInit(s))
    ensures Inv(Step(st, SinkInit(s)))
  {
    var t := Step(st, SinkInit(s));
    forall c | c in t.buffers ensures Placed(t, c) && (t.buffers[c].handler <==> Leaving(t, c)) {
      assert Placed(st, c);
    }
  }

  lemma FlowInitKeeps(st: State, f: Id, b: Id)
    requires Inv(st) && Possible(st, FlowInit(f, b))
    ensures Inv(Step(st, FlowInit(f, b)))
  {
    var t := Step(st, FlowInit(f, b));
    forall c | c in t.buffers ensures Placed(t, c) && (t.buffers[c].handler <==> Leaving(t, c)) {
      if c != b { assert Placed(st, c); }
    }
  }

  lemma SendStartsKeeps(st: State, s: Id, b: Id)
    requires Inv(st) && Possible(st, SendStarts(s, b))
    ensures Inv(Step(st, SendStarts(s, b)))
  {
    var t := Step(st, SendStarts(s, b));
    forall c | c in t.buffers ensures Placed(t, c) && (t.buffers[c].handler <==> Leaving(t, c)) {
      assert Placed(st, c);
    }
  }

  /** What the code asserts of a flow and its buffer. */
  lemma FlowFacts(st: State, f: Id)
    requires Inv(st) && f in st.flows
    ensures st.flows[f].buffer in st.buffers && st.buffers[st.flows[f].buffer].flow == Some(f)
    ensures st.flows[f].desired.Some? ==> Attached(st, st.flows[f].buffer)
    ensures st.buffers[st.flows[f].buffer].sink.Some? ==> Attached(st, st.flows[f].buffer)
    ensures Busy(st, st.flows[f].buffer) ==>
              var d := st.sinks[st.buffers[st.flows[f].buffer].sink.value].detaching; d.None? || d == Some(st.flows[f].buffer)
  {
    assert Placed(st, st.flows[f].buffer);
  }

  /** A buffer is attached to a sink that is there. */
  lemma SinkThere(st: State, b: Id)
    requires Inv(st) && b in st.buffers
    ensures st.buffers[b].sink.Some? ==> Attached(st, b)
  {
    assert Placed(st, b);
  }

  /** A buffer is busy and has its handler set while it is leaving, and is where its flow wants it otherwise. */
  lemma FlowPlace(st: State, f: Id)
    requires Inv(st) && f in st.flows
    ensures var b := st.flows[f].buffer;
            b in st.buffers && if Leaving(st, b) then Busy(st, b) && st.buffers[b].handler else st.buffers[b].sink == st.flows[f].desired
  {
    assert Placed(st, st.flows[f].buffer);
  }

  /** What leaving does: at once to a buffer that is not busy, by a mark, a handler and one cancel request to a busy one. */
  lemma LeaveIs(st: State, f: Id)
    requires Inv(st) && f in st.flows && st.flows[f].buffer in st.buffers && Attached(st, st.flows[f].buffer)
    ensures var b := st.flows[f].buffer;
            var s := st.buffers[b].sink.value;
            var t := Leave(st, b);
            && t.flows == st.flows
            && (if Busy(st, b) then
                  && t.buffers == st.buffers[b := Buffer(Some(f), Some(s), true)]
                  && t.sinks == st.sinks[s := Sink(Some(b), 1, Some(b))]
                else t.buffers == st.buffers[b := Buffer(Some(f), None, false)] && t.sinks == st.sinks)
  {
    FlowFacts(st, f);
    FlowPlace(st, f);
    var b := st.flows[f].buffer;
    assert Placed(st, b);
  }

  /** From `st` to `t` nothing changes but flow `f`, its buffer `b` and, if that is being sent from, its sink `s`. */
  ghost predicate OnlyOne(st: State, t: State, f: Id, b: Id, s: Id) {
    && f in st.flows && b == st.flows[f].buffer && b in st.buffers && st.buffers[b].sink == Some(s) && s in st.sinks
    && t.buffers.Keys == st.buffers.Keys && t.sinks.Keys == st.sinks.Keys && t.flows.Keys == st.flows.Keys
    && (forall c :: c in st.buffers && c != b ==> t.buffers[c] == st.buffers[c])
    && (forall k :: k in st.sinks && k != s ==> t.sinks[k] == st.sinks[k])
    && (forall g :: g in st.flows && g != f ==> t.flows[g] == st.flows[g])
    && (t.sinks[s] == st.sinks[s] || (Busy(st, b) && t.sinks[s] == Sink(Some(b), 1, Some(b))))
    && t.buffers[b].flow == Some(f) && t.flows[f].buffer == b && (t.buffers[b].sink == Some(s) || !Busy(st, b))
  }

  /** The part of a state that one buffer's leaving leaves alone. */
  lemma LeftKeeps(st: State, t: State, f: Id, b: Id, s: Id)
    requires Inv(st) && OnlyOne(st, t, f, b, s)
    requires Placed(t, b) && (t.buffers[b].handler <==> Leaving(t, b))
    requires t.flows[f].desired.Some? ==> t.flows[f].desired.value in t.sinks
    ensures Inv(t)
  {
    LeftSinks(st, t, f, b, s);
    LeftBuffers(st, t, f, b, s);
    hide SinksOk, BuffersOk, Placed, Leaving;
  }

  lemma LeftSinks(st: State, t: State, f: Id, b: Id, s: Id)
    requires SinksOk(st) && OnlyOne(st, t, f, b, s)
    ensures SinksOk(t)
  {
    forall k | k in t.sinks && t.sinks[k].busy.Some?
      ensures t.sinks[k].busy.value in t.buffers && t.buffers[t.sinks[k].busy.value].sink == Some(k)
    {
      assert st.sinks[k].busy.Some?;
    }
  }

  lemma LeftBuffers(st: State, t: State, f: Id, b: Id, s: Id)
    requires BuffersOk(st) && SinksOk(st) && OnlyOne(st, t, f, b, s) && Placed(t, b) && (t.buffers[b].handler <==> Leaving(t, b))
    ensures BuffersOk(t)
  {
    forall c | c in t.buffers && c != b ensures Placed(t, c) && (t.buffers[c].handler <==> Leaving(t, c)) {
      assert Placed(st, c);
    }
  }

  lemma AttachKeeps(st: State, f: Id, s: Id)
    requires Inv(st) && Possible(st, Attach(f, s))
    ensures Inv(Step(st, Attach(f, s)))
  {
    hide ScheduleDetach;
    FlowFacts(st, f);
    FlowPlace(st, f);
    var b := st.flows[f].buffer;
    var t := Step(st, Attach(f, s));
    if Attached(st, b) {
      assert Busy(st, b) && Leaving(st, b);
      AlreadyScheduled(st, b);
      LeftKeeps(st, t, f, b, st.buffers[b].sink.value);
    } else {
      assert t == State(st.sinks, st.flows[f := Flow(b, Some(s))], st.buffers[b := Buffer(Some(f), Some(s), false)]);
      AttachFresh(st, t, f, b, s);
    }
  }

  lemma AlreadyScheduled(st: State, b: Id)
    requires Leaving(st, b)
    ensures ScheduleDetach(st, b) == st
  {
  }

  lemma AttachFresh(st: State, t: State, f: Id, b: Id, s: Id)
    requires Inv(st) && f in st.flows && st.flows[f].buffer == b && b in st.buffers && st.buffers[b].sink.None? && s in st.sinks
    requires t == State(st.sinks, st.flows[f := Flow(b, Some(s))], st.buffers[b := Buffer(Some(f), Some(s), false)])
    ensures Inv(t)
  {
    forall c | c in t.buffers ensures Placed(t, c) && (t.buffers[c].handler <==> Leaving(t, c)) {
      assert Placed(st, c);
    }
  }

  lemma DetachKeeps(st: State, f: Id)
    requires Inv(st) && Possible(st, Detach(f))
    ensures Inv(Step(st, Detach(f)))
  {
    hide Leave;
    FlowFacts(st, f);
    FlowPlace(st, f);
    LeaveIs(st, f);
    var b := st.flows[f].buffer;
    LeftKeeps(st, Step(st, Detach(f)), f, b, st.buffers[b].sink.value);
  }

  lemma FlowFreeKeeps(st: State, f: Id)
    requires Inv(st) && Possible(st, FlowFree(f))
    ensures Inv(Step(st, FlowFree(f)))
  {
    FlowFacts(st, f);
    FlowPlace(st, f);
    var b := st.flows[f].buffer;
    if Attached(st, b) { AlreadyScheduled(st.(flows := st.flows - {f}), b); }
    FreedFlow(st, Step(st, FlowFree(f)), f, b);
  }

  /** A flow without a desired sink goes; its buffer goes with it or stays as one that is leaving. */
  lemma FreedFlow(st: State, t: State, f: Id, b: Id)
    requires Inv(st) && f in st.flows && b == st.flows[f].buffer && st.flows[f].desired.None? && b in st.buffers
    requires t.sinks == st.sinks && t.flows == st.flows - {f}
    requires t.buffers == if Leaving(st, b) then st.buffers[b := st.buffers[b].(flow := None)] else st.buffers - {b}
    ensures Inv(t)
  {
    assert Placed(st, b);
    forall c | c in t.buffers ensures Placed(t, c) && (t.buffers[c].handler <==> Leaving(t, c)) {
      assert Placed(st, c);
    }
  }

  lemma DetachingFacts(st: State, s: Id)
    requires Inv(st) && s in st.sinks && st.sinks[s].detaching.Some?
    ensures var b := st.sinks[s].detaching.value;
            && b in st.buffers && st.buffers[b].sink == Some(s) && st.buffers[b].handler && st.sinks[s].busy == Some(b)
            && var f := st.buffers[b].flow;
               f.Some? ==> f.value in st.flows && (st.flows[f.value].desired.Some? ==> st.flows[f.value].desired.value in st.sinks)
  {
    assert Placed(st, st.sinks[s].detaching.value);
  }

  /** What the queue's call of a busy handler finds. */
  lemma BusyFacts(st: State, s: Id)
    requires Inv(st) && s in st.sinks && st.sinks[s].busy.Some?
    ensures var b := st.sinks[s].busy.value;
            && b in st.buffers && st.buffers[b].sink == Some(s)
            && (st.buffers[b].handler ==>
                && st.sinks[s].detaching == Some(b)
                && var f := st.buffers[b].flow;
                   f.Some? ==> f.value in st.flows && (st.flows[f.value].desired.Some? ==> st.flows[f.value].desired.value in st.sinks))
  {
    assert Placed(st, st.sinks[s].busy.value);
  }

  /** The buffer that is leaving goes where its flow wants it by now, or away with its flow; `k` is what is left of its sink. */
  ghost predicate Moved(st: State, t: State, s: Id, k: Sink)
    requires s in st.sinks
  {
    var d := st.sinks[s].detaching;
    && t.flows == st.flows && t.sinks == st.sinks[s := k] && k.busy.None? && k.detaching.None?
    && (d.None? ==> t.buffers == st.buffers)
    && (d.Some? ==>
        && d.value in st.buffers && st.buffers[d.value].sink == Some(s)
        && match st.buffers[d.value].flow
           case None => t.buffers == st.buffers - {d.value}
           case Some(f) => f in st.flows && t.buffers == st.buffers[d.value := Buffer(Some(f), st.flows[f].desired, false)])
  }

  /** The end of a packet, through the handler: exactly the buffer remembered as leaving leaves. */
  lemma EndSendIs(st: State, s: Id)
    requires Inv(st) && s in st.sinks && st.sinks[s].busy.Some?
    ensures Moved(st, EndSend(st, s), s, Sink(None, 0, None))
  {
    var b := st.sinks[s].busy.value;
    assert Placed(st, b);
    if st.sinks[s].detaching.Some? { DetachingFacts(st, s); }
  }

  /** The end of a sink: the same, though its packet is not out. */
  lemma FreeSinkIs(st: State, s: Id)
    requires Inv(st) && s in st.sinks
    ensures exists t :: Moved(st.(sinks := st.sinks[s := st.sinks[s].(busy := st.sinks[s].detaching)]), t, s, Sink(None, st.sinks[s].cancels, None))
                        && FreeSink(st, s) == t.(sinks := st.sinks - {s})
  {
    var u := st.(sinks := st.sinks[s := st.sinks[s].(busy := st.sinks[s].detaching)]);
    var d := st.sinks[s].detaching;
    var t := State(st.sinks[s := Sink(None, st.sinks[s].cancels, None)], st.flows, FreeSink(st, s).buffers);
    if d.Some? { DetachingFacts(st, s); }
    assert Moved(u, t, s, Sink(None, st.sinks[s].cancels, None));
    assert FreeSink(st, s).sinks == st.sinks - {s};
  }

  lemma MovedKeeps(st: State, t: State, s: Id, k: Sink)
    requires Inv(st) && s in st.sinks && Moved(st, t, s, k)
    ensures Inv(t)
  {
    MovedBuffers(st, t, s, k);
    MovedFlows(st, t, s, k);
    hide BuffersOk, FlowsOk;
    assert SinksOk(t);
  }

  lemma MovedBuffers(st: State, t: State, s: Id, k: Sink)
    requires Inv(st) && s in st.sinks && Moved(st, t, s, k)
    ensures BuffersOk(t)
  {
    forall c | c in t.buffers ensures Placed(t, c) && (t.buffers[c].handler <==> Leaving(t, c)) {
      assert Placed(st, c);
    }
  }

  lemma MovedFlows(st: State, t: State, s: Id, k: Sink)
    requires Inv(st) && s in st.sinks && Moved(st, t, s, k)
    ensures FlowsOk(t)
  {
  }

  lemma SinkFreeKeeps(st: State, s: Id)
    requires Inv(st) && Possible(st, SinkFree(s))
    ensures Inv(Step(st, SinkFree(s)))
    ensures forall b :: b in Step(st, SinkFree(s)).buffers ==> Step(st, SinkFree(s)).buffers[b].sink != Some(s)
  {
    hide FreeSink, Moved;
    FreeSinkIs(st, s);
    var k := Sink(None, st.sinks[s].cancels, None);
    var u := st.(sinks := st.sinks[s := st.sinks[s].(busy := st.sinks[s].detaching)]);
    UnbusyKeeps(st, s);
    var t :| Moved(u, t, s, k) && FreeSink(st, s) == t.(sinks := st.sinks - {s});
    MovedKeeps(u, t, s, k);
    MovedSinks(u, t, s, k);
    assert st.sinks - {s} == t.sinks - {s};
    Forgotten(t, s);
  }

  lemma MovedSinks(st: State, t: State, s: Id, k: Sink)
    requires s in st.sinks && Moved(st, t, s, k)
    ensures t.sinks == st.sinks[s := k] && t.flows == st.flows && k.busy.None? && k.detaching.None?
  {
  }

  /** A packet that no leaving buffer waits for may be forgotten. */
  lemma UnbusyKeeps(st: State, s: Id)
    requires Inv(st) && s in st.sinks
    ensures Inv(st.(sinks := st.sinks[s := st.sinks[s].(busy := st.sinks[s].detaching)]))
  {
    var t := st.(sinks := st.sinks[s := st.sinks[s].(busy := st.sinks[s].detaching)]);
    forall c | c in t.buffers ensures Placed(t, c) && (t.buffers[c].handler <==> Leaving(t, c)) {
      assert Placed(st, c);
    }
  }

  /** No buffer of any flow, nor of a freed one, points at a freed sink. */
  lemma NobodyLeft(st: State, s: Id, b: Id)
    requires Inv(st) && Possible(st, SinkFree(s)) && b in Step(st, SinkFree(s)).buffers
    ensures Step(st, SinkFree(s)).buffers[b].sink != Some(s)
  {
    SinkFreeKeeps(st, s);
  }

  lemma Forgotten(st: State, s: Id)
    requires Inv(st) && s in st.sinks && st.sinks[s].busy.None? && st.sinks[s].detaching.None?
    requires forall f :: f in st.flows ==> st.flows[f].desired != Some(s)
    ensures Inv(st.(sinks := st.sinks - {s}))
    ensures forall b :: b in st.buffers ==> st.buffers[b].sink != Some(s)
  {
    var t := st.(sinks := st.sinks - {s});
    forall c | c in t.buffers ensures Placed(t, c) && st.buffers[c].sink != Some(s) && (t.buffers[c].handler <==> Leaving(t, c)) {
      assert Placed(st, c);
    }
  }

  lemma StepKeeps(st: State, e: Event)
    requires Inv(st) && Possible(st, e)
    ensures Inv(Step(st, e))
  {
    hide Inv, FreeFlow, AttachFlow, DetachFlow, EndSend, FreeSink, Moved;
    match e
    case SinkInit(s) => SinkInitKeeps(st, s);
    case SinkFree(s) => SinkFreeKeeps(st, s);
    case FlowInit(f, b) => FlowInitKeeps(st, f, b);
    case FlowFree(f) => FlowFreeKeeps(st, f);
    case Attach(f, s) => AttachKeeps(st, f, s);
    case Detach(f) => DetachKeeps(st, f);
    case SendStarts(s, b) => SendStartsKeeps(st, s, b);
    case SendEnds(s) =>
      EndSendIs(st, s);
      MovedKeeps(st, EndSend(st, s), s, Sink(None, 0, None));
  }

  // ---- whole runs ----

  ghost predicate PossibleRun(st: State, es: seq<Event>)
    decreases |es|
  {
    es == [] || (Possible(st, es[0]) && PossibleRun(Step(st, es[0]), es[1..]))
  }

  ghost function Run(st: State, es: seq<Event>): State
    requires PossibleRun(st, es)
    decreases |es|
  {
    if es == [] then st else Run(Step(st, es[0]), es[1..])
  }

  lemma {:induction false} RunKeeps(st: State, es: seq<Event>)
    requires Inv(st) && PossibleRun(st, es)
    ensures Inv(Run(st, es))
    decreases |es|
  {
    hide Inv, Step;
    if es != [] {
      StepKeeps(st, es[0]);
      RunKeeps(Step(st, es[0]), es[1..]);
    }
  }

  const Nothing: State := State(map[], map[], map[])

  /**
   In every reachable state: a sink's detaching buffer is attached to it, is the one it is sending from, and has its
   busy handler set, as has no other; the packet being sent is asked to be cancelled once if it holds up a buffer, and
   else not at all; a flow with no desired sink has a buffer that is unattached or leaving; a buffer without a flow is
   leaving; and a buffer that is not leaving is attached to just the sink its flow desires.
   */
  lemma Reachable(es: seq<Event>)
    requires PossibleRun(Nothing, es)
    ensures var st := Run(Nothing, es);
            && (forall s :: s in st.sinks && st.sinks[s].detaching.Some? ==>
                  var b := st.sinks[s].detaching.value;
                  b in st.buffers && st.buffers[b].sink == Some(s) && st.sinks[s].busy == Some(b) && st.buffers[b].handler)
            && (forall s :: s in st.sinks && st.sinks[s].busy.Some? ==>
                  st.sinks[s].cancels == if st.sinks[s].detaching.Some? then 1 else 0)
            && (forall b :: b in st.buffers && st.buffers[b].handler ==> Leaving(st, b))
            && (forall f :: f in st.flows ==>
                  var b := st.flows[f].buffer;
                  b in st.buffers && (Leaving(st, b) || st.buffers[b].sink == st.flows[f].desired))
            && (forall b :: b in st.buffers && st.buffers[b].flow.None? ==> Leaving(st, b))
            && (forall b :: b in st.buffers && st.buffers[b].sink.Some? ==> st.buffers[b].sink.value in st.sinks)
  {
    hide Step;
    RunKeeps(Nothing, es);
    var st := Run(Nothing, es);
    forall b | b in st.buffers ensures Placed(st, b) && (st.buffers[b].handler <==> Leaving(st, b)) {
    }
  }
}
