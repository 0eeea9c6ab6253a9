/** What flows are charged is what they send: every packet is charged once, for its own length, when it is done. */
module FairQueueAccount {
  import opened Bytes
  import opened FairQueueSpec
  import opened FairQueueProofs
  import opened FairQueueFairness

  ghost predicate LegalRun(limit: Option<nat>, p: Params, q: Queue, es: seq<Event>)
    requires Inv(p, q) && RangeOk(limit, p, q)
    decreases |es|
  {
    es == [] || (Legal(p, q, es[0]) && (StepKeeps(limit, p, q, es[0]); LegalRun(limit, p, Step(limit, p, q, es[0]), es[1..])))
  }

  ghost function After(limit: Option<nat>, p: Params, q: Queue, es: seq<Event>): Queue
    requires Inv(p, q) && RangeOk(limit, p, q) && LegalRun(limit, p, q, es)
    decreases |es|
  {
    if es == [] then q
    else
      StepKeeps(limit, p, q, es[0]);
      After(limit, p, Step(limit, p, q, es[0]), es[1..])
  }

  /** What `f` is charged, and what it forfeits by being freed with a packet still queued. */
  ghost function Paid(limit: Option<nat>, p: Params, q: Queue, es: seq<Event>, f: Flow): nat
    requires Inv(p, q) && RangeOk(limit, p, q) && LegalRun(limit, p, q, es)
    decreases |es|
  {
    if es == [] then 0
    else
      StepKeeps(limit, p, q, es[0]);
      ChargeOf(p, q, es[0], f) + (if es[0] == FreeFlow(f) then Owed(p, q, f) else 0)
      + Paid(limit, p, Step(limit, p, q, es[0]), es[1..], f)
  }

  /** What the packets given to the queue cost, by their lengths alone. */
  function Given(p: Params, es: seq<Event>, f: Flow): nat {
    if es == [] then 0
    else (if es[0].Send? && es[0].f == f then p.weight + es[0].len else 0) + Given(p, es[1..], f)
  }

  /** What the packet that is queued or being sent costs. */
  function Owed(p: Params, q: Queue, f: Flow): nat {
    if f in q.queued then p.weight + q.queued[f] else if q.sending == Some(f) then p.weight + q.sendingLen else 0
  }

  lemma ScheduleOwed(p: Params, q: Queue, f: Flow)
    requires q.queued.Keys <= q.time.Keys && q.queued != map[] && q.sending.None?
    ensures Owed(p, Schedule(q), f) == Owed(p, q, f)
  {
    hide Before;
  }

  lemma StepOwed(limit: Option<nat>, p: Params, q: Queue, e: Event, f: Flow)
    requires Inv(p, q) && Legal(p, q, e)
    ensures ChargeOf(p, q, e, f) + (if e == FreeFlow(f) then Owed(p, q, f) else 0) + Owed(p, Step(limit, p, q, e), f)
            == Owed(p, q, f) + if e.Send? && e.f == f then p.weight + e.len else 0
  {
    hide Schedule, Current, Charge, Ordered, NonNegative, Lengths;
    match e {
      case NewFlow(g) =>
      case FreeFlow(g) =>
      case Send(g, len) =>
        var q1 := if q.previous == Some(g) then q.(previous := None) else q.(time := q.time[g := Max(q.time[g], Current(q))]);
        var q2 := q1.(queued := q1.queued[g := len]);
        assert g in q2.queued;
        if q2.sending.None? && !q2.job { ScheduleOwed(p, q2, f); }
      case Done =>
      case ScheduleJob =>
        var q1 := q.(previous := None, job := false);
        if q1.queued != map[] { ScheduleOwed(p, q1, f); }
    }
  }

  /**
   Over any run, idle spells included: what a flow has been charged or forfeited, with what it still owes, is what it owed
   and what it has sent since, packet by packet and length by length.
   */
  lemma {:induction false} Accounts(limit: Option<nat>, p: Params, q: Queue, es: seq<Event>, f: Flow)
    requires Inv(p, q) && RangeOk(limit, p, q) && LegalRun(limit, p, q, es)
    ensures Paid(limit, p, q, es, f) + Owed(p, After(limit, p, q, es), f) == Owed(p, q, f) + Given(p, es, f)
    decreases |es|
  {
    hide WellFormed, Ordered, NonNegative, Lengths, RangeOk, Step, Legal, Owed, ChargeOf;
    if es != [] {
      StepKeeps(limit, p, q, es[0]);
      StepOwed(limit, p, q, es[0], f);
      Accounts(limit, p, Step(limit, p, q, es[0]), es[1..], f);
    }
  }
}
