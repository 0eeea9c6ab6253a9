/** Attaching, detaching and freeing of sinks and flows, over the table of each. */
module DataProto {
  import opened Bytes
  import Spec = DataProtoSpec

  class DataProtoTable {
    var sinks: map<Spec.Id, Spec.Sink>
    var flows: map<Spec.Id, Spec.Flow>
    var buffers: map<Spec.Id, Spec.Buffer>

    constructor ()
      ensures Valid() && Abs() == Spec.Nothing
    {
      sinks := map[];
      flows := map[];
      buffers := map[];
    }

    ghost function Abs(): Spec.State
      reads this
    {
      Spec.State(sinks, flows, buffers)
    }

    ghost predicate Valid()
      reads this
    {
      Spec.Inv(Abs())
    }

    // ---- buffers ----

    predicate IsBusy(b: Spec.Id)
      requires Spec.Attached(Abs(), b)
      reads this
    {
      sinks[buffers[b].sink.value].busy == Some(b)
    }

    method AttachBuffer(b: Spec.Id, s: Spec.Id)
      requires b in buffers && s in sinks && buffers[b].sink.None?
      modifies this`buffers
      ensures Abs() == Spec.AttachBuffer(old(Abs()), b, s)
    {
      buffers := buffers[b := buffers[b].(sink := Some(s), handler := false)];
    }

    /** The buffer's queue flow is freed, which takes it out of a queue that is still sending from it. */
    method DetachBuffer(b: Spec.Id)
      requires Spec.Attached(Abs(), b)
      modifies this`buffers, this`sinks
      ensures Abs() == Spec.DetachBuffer(old(Abs()), b) && b in buffers && buffers[b].sink.None?
    {
      var s := buffers[b].sink.value;
      if sinks[s].busy == Some(b) {
        sinks := sinks[s := sinks[s].(busy := None)];
      }
      if sinks[s].detaching == Some(b) {
        sinks := sinks[s := sinks[s].(detaching := None)];
      }
      assert sinks[s := sinks[s]] == sinks;
      buffers := buffers[b := buffers[b].(sink := None, handler := false)];
    }

    method ScheduleDetach(b: Spec.Id)
      requires Spec.Attached(Abs(), b) && IsBusy(b)
      requires var d := sinks[buffers[b].sink.value].detaching; d.None? || d == Some(b)
      modifies this`sinks, this`buffers
      ensures Abs() == Spec.ScheduleDetach(old(Abs()), b)
    {
      var s := buffers[b].sink.value;
      if sinks[s].detaching == Some(b) {
        return;
      }
      sinks := sinks[s := sinks[s].(cancels := sinks[s].cancels + 1)];
      buffers := buffers[b := buffers[b].(handler := true)];
      sinks := sinks[s := sinks[s].(detaching := Some(b))];
    }

    /** The buffer has left; it follows its flow, or goes away with it. */
    method FinishDetach(b: Spec.Id)
      requires Spec.Attached(Abs(), b) && sinks[buffers[b].sink.value].detaching == Some(b)
      requires var f := buffers[b].flow;
               f.Some? ==> f.value in flows && (flows[f.value].desired.Some? ==> flows[f.value].desired.value in sinks)
      modifies this`buffers, this`sinks
      ensures Abs() == Spec.FinishDetach(old(Abs()), b)
    {
      DetachBuffer(b);
      var f := buffers[b].flow;
      if f.None? {
        buffers := buffers - {b};
      } else if flows[f.value].desired.Some? {
        AttachBuffer(b, flows[f.value].desired.value);
      }
    }

    // ---- sinks ----

    method SinkInit(s: Spec.Id)
      requires Valid() && s !in sinks
      modifies this
      ensures Valid() && Abs() == Spec.Step(old(Abs()), Spec.SinkInit(s))
    {
      Spec.StepKeeps(Abs(), Spec.SinkInit(s));
      sinks := sinks[s := Spec.Sink(None, 0, None)];
    }

    /** The queue of a sink takes a packet of an attached buffer. */
    method SendStarts(s: Spec.Id, b: Spec.Id)
      requires Valid() && s in sinks && sinks[s].busy.None? && b in buffers && buffers[b].sink == Some(s)
      modifies this
      ensures Valid() && Abs() == Spec.Step(old(Abs()), Spec.SendStarts(s, b))
    {
      Spec.StepKeeps(Abs(), Spec.SendStarts(s, b));
      sinks := sinks[s := sinks[s].(busy := Some(b), cancels := 0)];
    }

    /** The queue is done with the packet and calls the busy handler of its flow, if one is set, after unsetting it. */
    method SendEnds(s: Spec.Id)
      requires Valid() && s in sinks && sinks[s].busy.Some?
      modifies this
      ensures Valid() && Abs() == Spec.Step(old(Abs()), Spec.SendEnds(s))
    {
      hide Spec.Inv, Spec.FinishDetach;
      Spec.StepKeeps(Abs(), Spec.SendEnds(s));
      Spec.BusyFacts(Abs(), s);
      var b := sinks[s].busy.value;
      sinks := sinks[s := sinks[s].(busy := None, cancels := 0)];
      if buffers[b].handler {
        buffers := buffers[b := buffers[b].(handler := false)];
        BusyHandler(b);
      }
    }

    /** flow_buffer_qflow_handler_busy */
    method BusyHandler(b: Spec.Id)
      requires Spec.Attached(Abs(), b) && sinks[buffers[b].sink.value].detaching == Some(b)
      requires var f := buffers[b].flow;
               f.Some? ==> f.value in flows && (flows[f.value].desired.Some? ==> flows[f.value].desired.value in sinks)
      modifies this`buffers, this`sinks
      ensures Abs() == Spec.FinishDetach(old(Abs()), b)
    {
      FinishDetach(b);
    }

    /** Freeing a sink that no flow desires leaves no buffer attached to it. */
    method SinkFree(s: Spec.Id)
      requires Valid() && s in sinks && forall f :: f in flows ==> flows[f].desired != Some(s)
      modifies this
      ensures Valid() && Abs() == Spec.Step(old(Abs()), Spec.SinkFree(s))
      ensures s !in sinks && forall b :: b in buffers ==> buffers[b].sink != Some(s)
    {
      hide Spec.Inv, Spec.FinishDetach;
      Spec.SinkFreeKeeps(Abs(), s);
      var d := sinks[s].detaching;
      if d.Some? {
        Spec.DetachingFacts(Abs(), s);
        FinishDetach(d.value);
      }
      sinks := sinks - {s};
    }

    // ---- flows ----

    method FlowInit(f: Spec.Id, b: Spec.Id)
      requires Valid() && f !in flows && b !in buffers
      modifies this
      ensures Valid() && Abs() == Spec.Step(old(Abs()), Spec.FlowInit(f, b))
    {
      Spec.StepKeeps(Abs(), Spec.FlowInit(f, b));
      flows := flows[f := Spec.Flow(b, None)];
      buffers := buffers[b := Spec.Buffer(Some(f), None, false)];
    }

    method FlowFree(f: Spec.Id)
      requires Valid() && f in flows && flows[f].desired.None?
      modifies this
      ensures Valid() && Spec.Possible(old(Abs()), Spec.FlowFree(f)) && Abs() == Spec.Step(old(Abs()), Spec.FlowFree(f))
    {
      hide Spec.Inv;
      Spec.FlowFacts(Abs(), f);
      Spec.StepKeeps(Abs(), Spec.FlowFree(f));
      var b := flows[f].buffer;
      flows := flows - {f};
      if buffers[b].sink.Some? {
        if IsBusy(b) {
          ScheduleDetach(b);
          buffers := buffers[b := buffers[b].(flow := None)];
        } else {
          DetachBuffer(b);
          buffers := buffers - {b};
        }
      } else {
        buffers := buffers - {b};
      }
    }

    method FlowAttach(f: Spec.Id, s: Spec.Id)
      requires Valid() && f in flows && flows[f].desired.None? && s in sinks
      modifies this
      ensures Valid() && Spec.Possible(old(Abs()), Spec.Attach(f, s)) && Abs() == Spec.Step(old(Abs()), Spec.Attach(f, s))
    {
      hide Spec.Inv, Spec.Placed;
      Spec.FlowFacts(Abs(), f);
      Spec.StepKeeps(Abs(), Spec.Attach(f, s));
      var b := flows[f].buffer;
      if buffers[b].sink.Some? {
        if IsBusy(b) {
          ScheduleDetach(b);
        } else {
          DetachBuffer(b);
          AttachBuffer(b, s);
        }
      } else {
        AttachBuffer(b, s);
      }
      flows := flows[f := flows[f].(desired := Some(s))];
    }

    method FlowDetach(f: Spec.Id)
      requires Valid() && f in flows && flows[f].desired.Some?
      modifies this
      ensures Valid() && Spec.Possible(old(Abs()), Spec.Detach(f)) && Abs() == Spec.Step(old(Abs()), Spec.Detach(f))
    {
      hide Spec.Inv, Spec.Placed;
      Spec.FlowFacts(Abs(), f);
      Spec.StepKeeps(Abs(), Spec.Detach(f));
      var b := flows[f].buffer;
      if IsBusy(b) {
        ScheduleDetach(b);
      } else {
        DetachBuffer(b);
      }
      flows := flows[f := flows[f].(desired := None)];
    }
  }
}
