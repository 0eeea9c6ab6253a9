/**
 What a user of the fair queue does beside sending: ask for the packet being sent to be cancelled, have a flow's busy
 handler called once that packet is out, and free flows.
 */
module FairQueueControl {
  import opened Bytes
  import opened FairQueueSpec
  import opened FairQueueProofs
  import opened FairQueueFairness

  /** `handlers` are the flows whose busy handler is set; `cancels` is how often the packet being sent was asked to be cancelled. */
  datatype Control = Control(queue: Queue, handlers: set<Flow>, cancels: nat)

  const Idle: Control := Control(Initial, {}, 0)

  /** Only the flow being sent has a busy handler, and only a packet being sent is to be cancelled. */
  ghost predicate OnlySending(c: Control) {
    (forall f :: f in c.handlers ==> c.queue.sending == Some(f)) && (c.cancels > 0 ==> c.queue.sending.Some?)
  }

  ghost predicate Sane(p: Params, c: Control) {
    Inv(p, c.queue) && RangeOk(Some(MAX_TIME), p, c.queue) && OnlySending(c)
  }

  /** PacketPassFairQueueFlow_RequestCancel */
  function CancelAsked(c: Control): Control { c.(cancels := c.cancels + 1) }

  /** PacketPassFairQueueFlow_SetBusyHandler */
  function HandlerSet(c: Control, f: Flow): Control { c.(handlers := c.handlers + {f}) }

  /** The queue's own steps. */
  ghost function Moved(p: Params, c: Control, e: Event): Control
    requires WellFormed(c.queue) && Legal(p, c.queue, e)
  {
    c.(queue := Step(Some(MAX_TIME), p, c.queue, e))
  }

  /** output_handler_done: the flow whose busy handler is called, after it was unset. */
  ghost function Finished(p: Params, c: Control): (Control, Option<Flow>)
    requires WellFormed(c.queue) && c.queue.sending.Some?
  {
    var f := c.queue.sending.value;
    (Control(Step(Some(MAX_TIME), p, c.queue, Done), c.handlers - {f}, 0), if f in c.handlers then Some(f) else None)
  }

  /** PacketPassFairQueueFlow_Free; the flow being sent may go only with the queue. */
  function Dropped(c: Control, f: Flow): Control {
    var q := c.queue;
    Control(Queue(q.time - {f}, q.queued - {f}, if q.sending == Some(f) then None else q.sending, q.sendingLen,
                  if q.previous == Some(f) then None else q.previous, q.job),
            c.handlers - {f}, c.cancels)
  }

  lemma DroppedIdle(p: Params, c: Control, f: Flow)
    requires WellFormed(c.queue) && f in c.queue.time && c.queue.sending != Some(f) && OnlySending(c)
    ensures Legal(p, c.queue, FreeFlow(f)) && Dropped(c, f) == Moved(p, c, FreeFlow(f))
  {
    assert c.handlers - {f} == c.handlers;
  }

  lemma SaneWellFormed(p: Params, c: Control)
    requires Sane(p, c)
    ensures WellFormed(c.queue) && OnlySending(c)
  {
  }

  lemma MovedSane(p: Params, c: Control, e: Event)
    requires Sane(p, c) && Legal(p, c.queue, e) && !e.Done?
    ensures Sane(p, Moved(p, c, e))
  {
    hide Ordered, NonNegative, Lengths, RangeOk, Current, Schedule;
    StepKeeps(Some(MAX_TIME), p, c.queue, e);
  }

  lemma FinishedSane(p: Params, c: Control)
    requires Sane(p, c) && c.queue.sending.Some?
    ensures Sane(p, Finished(p, c).0) && Finished(p, c).0.handlers == {} && Finished(p, c).0.queue.sending.None?
  {
    hide Ordered, NonNegative, Lengths, RangeOk, Charge;
    StepKeeps(Some(MAX_TIME), p, c.queue, Done);
  }

  lemma DroppedSane(p: Params, c: Control, f: Flow)
    requires Sane(p, c) && f in c.queue.time && c.queue.sending != Some(f)
    ensures Sane(p, Dropped(c, f))
  {
    hide Inv, RangeOk, Dropped, Moved;
    SaneWellFormed(p, c);
    DroppedIdle(p, c, f);
    MovedSane(p, c, FreeFlow(f));
  }

  lemma ScheduledSane(p: Params, c: Control, f: Flow)
    requires Sane(p, c) && c.queue.sending == Some(f)
    ensures Sane(p, HandlerSet(CancelAsked(c), f))
  {
    hide Inv, RangeOk;
  }

  lemma IdleSane(p: Params)
    requires p.Cost() <= MAX_TIME
    ensures Sane(p, Idle)
  {
  }
}
