/** Where each flow's buffer is, told from the events alone. */
module DataProtoHistory {
  import opened Bytes
  import opened DataProtoSpec

  // ---- what the events say ----

  /** The sink has been made and not freed since. */
  predicate There(h: seq<Event>, s: Id) {
    if h == [] then false
    else
      var e, before := h[|h| - 1], There(h[..|h| - 1], s);
      if e == SinkInit(s) then true else if e == SinkFree(s) then false else before
  }

  /** The flow, if it has been made and not freed since: its buffer and the sink it was attached to last and not detached from. */
  function Asked(h: seq<Event>, f: Id): Option<Flow> {
    if h == [] then None
    else
      var e, before := h[|h| - 1], Asked(h[..|h| - 1], f);
      match e
      case FlowInit(g, b) => if g == f then Some(Flow(b, None)) else before
      case FlowFree(g) => if g == f then None else before
      case Attach(g, s) => if g == f && before.Some? then Some(before.value.(desired := Some(s))) else before
      case Detach(g) => if g == f && before.Some? then Some(before.value.(desired := None)) else before
      case _ => before
  }

  /** The buffer whose packet the sink has begun to send and not ended. */
  function Sending(h: seq<Event>, s: Id): Option<Id> {
    if h == [] then None
    else
      var e, before := h[|h| - 1], Sending(h[..|h| - 1], s);
      match e
      case SendStarts(t, b) => if t == s then Some(b) else before
      case SendEnds(t) => if t == s then None else before
      case SinkInit(t) => if t == s then None else before
      case SinkFree(t) => if t == s then None else before
      case _ => before
  }

  /** The flow of the buffer being sent from has been detached since the packet began. */
  predicate Recalled(h: seq<Event>, s: Id) {
    if h == [] then false
    else
      var e, past := h[|h| - 1], h[..|h| - 1];
      match e
      case SendStarts(t, b) => if t == s then false else Recalled(past, s)
      case SendEnds(t) => if t == s then false else Recalled(past, s)
      case SinkInit(t) => if t == s then false else Recalled(past, s)
      case SinkFree(t) => if t == s then false else Recalled(past, s)
      case Detach(f) => Recalled(past, s) || (Asked(past, f).Some? && Sending(past, s) == Some(Asked(past, f).value.buffer))
      case _ => Recalled(past, s)
  }

  // ---- the same of a state ----

  function FlowOf(st: State, f: Id): Option<Flow> { if f in st.flows then Some(st.flows[f]) else None }

  function BusyOf(st: State, s: Id): Option<Id> { if s in st.sinks then st.sinks[s].busy else None }

  predicate MarkedOf(st: State, s: Id) { s in st.sinks && st.sinks[s].detaching.Some? }

  ghost predicate Tells(h: seq<Event>, st: State) {
    && (forall s :: There(h, s) <==> s in st.sinks)
    && (forall f :: Asked(h, f) == FlowOf(st, f))
    && (forall s :: Sending(h, s) == BusyOf(st, s))
    && (forall s :: Recalled(h, s) <==> MarkedOf(st, s))
  }

  // ---- one event ----

  function FlowAfter(v: Option<Flow>, e: Event, f: Id): Option<Flow> {
    match e
    case FlowInit(g, b) => if g == f then Some(Flow(b, None)) else v
    case FlowFree(g) => if g == f then None else v
    case Attach(g, s) => if g == f && v.Some? then Some(v.value.(desired := Some(s))) else v
    case Detach(g) => if g == f && v.Some? then Some(v.value.(desired := None)) else v
    case _ => v
  }

  lemma StepFlows(st: State, e: Event, f: Id)
    requires Inv(st) && Possible(st, e)
    ensures FlowOf(Step(st, e), f) == FlowAfter(FlowOf(st, f), e, f)
  {
    hide Inv, Attached, Busy;
  }

  /** The sinks after one event, at most one of them changed. */
  ghost predicate SinksAfter(st: State, e: Event, t: State)
    requires Possible(st, e)
  {
    match e
    case SinkInit(s) => t.sinks == st.sinks[s := Sink(None, 0, None)]
    case SinkFree(s) => t.sinks == st.sinks - {s}
    case SendStarts(s, b) => t.sinks == st.sinks[s := st.sinks[s].(busy := Some(b), cancels := 0)]
    case SendEnds(s) => t.sinks == st.sinks[s := Sink(None, 0, None)]
    case Detach(f) =>
      var b := st.flows[f].buffer;
      var s := st.buffers[b].sink.value;
      t.sinks == if Busy(st, b) then st.sinks[s := Sink(Some(b), 1, Some(b))] else st.sinks
    case _ => t.sinks == st.sinks
  }

  lemma StepSinks(st: State, e: Event)
    requires Inv(st) && Possible(st, e)
    ensures SinksAfter(st, e, Step(st, e))
  {
    hide Inv, FinishDetach;
    match e
    case SinkInit(s) =>
    case SinkFree(s) => FreeSinkIs(st, s);
    case FlowInit(f, b) =>
    case FlowFree(f) => FlowFreeSinks(st, f);
    case Attach(f, s) => AttachSinks(st, f, s);
    case Detach(f) => LeaveIs(st, f);
    case SendStarts(s, b) =>
    case SendEnds(s) => EndSendIs(st, s);
  }

  lemma StepThere(st: State, e: Event, s: Id)
    requires Inv(st) && Possible(st, e)
    ensures s in Step(st, e).sinks <==> if e == SinkInit(s) then true else if e == SinkFree(s) then false else s in st.sinks
  {
    hide Inv, Step;
    StepSinks(st, e);
  }

  lemma FlowFreeSinks(st: State, f: Id)
    requires Inv(st) && Possible(st, FlowFree(f))
    ensures FreeFlow(st, f).sinks == st.sinks
  {
    FlowFacts(st, f);
    FlowPlace(st, f);
    var b := st.flows[f].buffer;
    if Attached(st, b) { AlreadyScheduled(st.(flows := st.flows - {f}), b); }
  }

  lemma AttachSinks(st: State, f: Id, s: Id)
    requires Inv(st) && Possible(st, Attach(f, s))
    ensures AttachFlow(st, f, s).sinks == st.sinks
  {
    FlowFacts(st, f);
    FlowPlace(st, f);
    var b := st.flows[f].buffer;
    if Attached(st, b) { AlreadyScheduled(st, b); }
  }

  /** Whether a sink's buffer has been marked: only by detaching its flow. */
  lemma StepMarks(h: seq<Event>, st: State, e: Event, s: Id)
    requires Inv(st) && Possible(st, e) && Sending(h, s) == BusyOf(st, s) && (Recalled(h, s) <==> MarkedOf(st, s))
    requires e.Detach? ==> Asked(h, e.f) == FlowOf(st, e.f)
    ensures Sending(h + [e], s) == BusyOf(Step(st, e), s) && (Recalled(h + [e], s) <==> MarkedOf(Step(st, e), s))
  {
    hide Step, BuffersOk, FlowsOk;
    StepSinks(st, e);
    assert (h + [e])[..|h|] == h;
  }

  lemma TellsMore(h: seq<Event>, st: State, e: Event)
    requires Inv(st) && Possible(st, e) && Tells(h, st)
    ensures Tells(h + [e], Step(st, e))
  {
    hide Inv, Step, Possible;
    assert (h + [e])[..|h|] == h;
    forall s ensures There(h + [e], s) <==> s in Step(st, e).sinks { StepThere(st, e, s); }
    forall f ensures Asked(h + [e], f) == FlowOf(Step(st, e), f) {
      StepFlows(st, e, f);
      assert Asked(h, f) == FlowOf(st, f);
    }
    forall s ensures Sending(h + [e], s) == BusyOf(Step(st, e), s) && (Recalled(h + [e], s) <==> MarkedOf(Step(st, e), s)) {
      assert e.Detach? ==> Asked(h, e.f) == FlowOf(st, e.f);
      assert Sending(h, s) == BusyOf(st, s) && (Recalled(h, s) <==> MarkedOf(st, s));
      StepMarks(h, st, e, s);
    }
  }

  lemma {:induction false} RunTells(h: seq<Event>, st: State, es: seq<Event>)
    requires Inv(st) && PossibleRun(st, es) && Tells(h, st)
    ensures Inv(Run(st, es)) && Tells(h + es, Run(st, es))
    decreases |es|
  {
    hide Inv, Step, Possible, Tells;
    if es == [] {
      assert h + es == h;
    } else {
      StepKeeps(st, es[0]);
      TellsMore(h, st, es[0]);
      RunTells(h + [es[0]], Step(st, es[0]), es[1..]);
      assert h + [es[0]] + es[1..] == h + es;
    }
  }

  /** Where the buffer of flow `f` has to be: at the sink that is sending from it, and else where the flow was attached last. */
  ghost predicate At(h: seq<Event>, f: Id, sink: Option<Id>) {
    && Asked(h, f).Some?
    && var v := Asked(h, f).value;
       && (forall s: Id :: Sending(h, s) == Some(v.buffer) ==> sink == Some(s))
       && ((forall s: Id :: Sending(h, s) != Some(v.buffer)) ==> sink == v.desired)
  }

  /**
   After any run, from its events alone: which sinks and flows there are; where each flow's buffer is; which packet each
   sink is sending; and that it is asked to be cancelled, once, exactly if its flow was detached while it was being sent.
   */
  lemma PlacesTold(es: seq<Event>)
    requires PossibleRun(Nothing, es)
    ensures var st := Run(Nothing, es);
            && Tells(es, st)
            && (forall f :: f in st.flows ==> st.flows[f].buffer in st.buffers && At(es, f, st.buffers[st.flows[f].buffer].sink))
            && (forall s :: s in st.sinks && st.sinks[s].busy.Some? ==> st.sinks[s].cancels == if Recalled(es, s) then 1 else 0)
  {
    hide Step;
    RunTells([], Nothing, es);
    assert [] + es == es;
    var st := Run(Nothing, es);
    forall f | f in st.flows ensures st.flows[f].buffer in st.buffers && At(es, f, st.buffers[st.flows[f].buffer].sink) {
      BufferAt(es, st, f);
    }
  }

  lemma BufferAt(h: seq<Event>, st: State, f: Id)
    requires Inv(st) && Tells(h, st) && f in st.flows
    ensures st.flows[f].buffer in st.buffers && At(h, f, st.buffers[st.flows[f].buffer].sink)
  {
    FlowPlace(st, f);
    var b := st.flows[f].buffer;
    assert Asked(h, f) == FlowOf(st, f);
    forall s: Id | Sending(h, s) == Some(b) ensures st.buffers[b].sink == Some(s) {
      assert BusyOf(st, s) == Some(b);
    }
    if Leaving(st, b) {
      var s := st.buffers[b].sink.value;
      assert Sending(h, s) == BusyOf(st, s);
    }
  }
}
