/** Whole busy periods of the fair queue. */
module FairQueueFairness {
  import opened Bytes
  import opened FairQueueSpec
  import opened FairQueueProofs

  ghost predicate RangeOk(limit: Option<nat>, p: Params, q: Queue) {
    limit.Some? ==> p.Cost() <= limit.value && InRange(limit.value, q.time)
  }

  lemma CurrentInRange(m: nat, q: Queue)
    requires WellFormed(q) && InRange(m, q.time)
    ensures 0 <= Current(q) <= m
  {
  }

  lemma SendRange(limit: Option<nat>, p: Params, q: Queue, f: Flow, len: nat)
    requires Inv(p, q) && RangeOk(limit, p, q) && Legal(p, q, Send(f, len))
    ensures RangeOk(limit, p, SendStep(q, f, len))
  {
    if limit.Some? {
      CurrentInRange(limit.value, q);
      hide Current;
      var q' := SendStep(q, f, len);
      forall g | g in q'.time ensures 0 <= q'.time[g] <= limit.value {
        assert g in q.time;
      }
    }
  }

  lemma DoneKeeps(limit: Option<nat>, p: Params, q: Queue)
    requires Inv(p, q) && RangeOk(limit, p, q) && q.sending.Some?
    ensures Inv(p, DoneStep(limit, p, q)) && RangeOk(limit, p, DoneStep(limit, p, q))
  {
    hide Rebased, Subtrahend, Lowered;
    var f, amount := q.sending.value, p.weight + q.sendingLen;
    StepWellFormed(limit, p, q, Done);
    DoneReady(p, q);
    if limit.Some? {
      ChargeExact(limit.value, q, f, amount);
    } else {
      ChargeNone(q, f, amount);
    }
    hide Charge;
  }

  /** Every legal step keeps the order, the signs and the ranges. */
  lemma StepKeeps(limit: Option<nat>, p: Params, q: Queue, e: Event)
    requires Inv(p, q) && RangeOk(limit, p, q) && Legal(p, q, e)
    ensures Inv(p, Step(limit, p, q, e)) && RangeOk(limit, p, Step(limit, p, q, e))
  {
    match e {
      case NewFlow(f) =>
      case FreeFlow(f) =>
        StepWellFormed(limit, p, q, e);
      case Send(f, len) =>
        SendKeeps(p, q, f, len);
        SendRange(limit, p, q, f, len);
      case Done =>
        DoneKeeps(limit, p, q);
      case ScheduleJob =>
        JobKeeps(p, q);
    }
  }

  /** A packet handed to the output: its flow and its length. */
  datatype Pick = Pick(flow: Flow, len: nat)

  function Picked(q: Queue, q': Queue): seq<Pick> {
    if q.sending.None? && q'.sending.Some? then [Pick(q'.sending.value, q'.sendingLen)] else []
  }

  /** Legal throughout, and busy before every event. */
  ghost predicate BusyRun(limit: Option<nat>, p: Params, q: Queue, es: seq<Event>)
    requires Inv(p, q) && RangeOk(limit, p, q)
    decreases |es|
  {
    es == [] || (Busy(q) && Legal(p, q, es[0]) &&
                 (StepKeeps(limit, p, q, es[0]); BusyRun(limit, p, Step(limit, p, q, es[0]), es[1..])))
  }

  ghost function Final(limit: Option<nat>, p: Params, q: Queue, es: seq<Event>): (r: Queue)
    requires Inv(p, q) && RangeOk(limit, p, q) && BusyRun(limit, p, q, es)
    ensures Inv(p, r) && RangeOk(limit, p, r)
    decreases |es|
  {
    if es == [] then q
    else
      StepKeeps(limit, p, q, es[0]);
      Final(limit, p, Step(limit, p, q, es[0]), es[1..])
  }

  ghost function Picks(limit: Option<nat>, p: Params, q: Queue, es: seq<Event>): seq<Pick>
    requires Inv(p, q) && RangeOk(limit, p, q) && BusyRun(limit, p, q, es)
    decreases |es|
  {
    if es == [] then []
    else
      StepKeeps(limit, p, q, es[0]);
      var q' := Step(limit, p, q, es[0]);
      Picked(q, q') + Picks(limit, p, q', es[1..])
  }

  /** What flow `f` was charged over the run. */
  ghost function Served(limit: Option<nat>, p: Params, q: Queue, es: seq<Event>, f: Flow): nat
    requires Inv(p, q) && RangeOk(limit, p, q) && BusyRun(limit, p, q, es)
    decreases |es|
  {
    if es == [] then 0
    else
      StepKeeps(limit, p, q, es[0]);
      (if es[0].Done? && q.sending == Some(f) then p.weight + q.sendingLen else 0)
      + Served(limit, p, Step(limit, p, q, es[0]), es[1..], f)
  }

  /** `f` has a packet queued, in flight or just finished in every state of the run. */
  ghost predicate Backlogged(limit: Option<nat>, p: Params, q: Queue, es: seq<Event>, f: Flow)
    requires Inv(p, q) && RangeOk(limit, p, q) && BusyRun(limit, p, q, es)
    decreases |es|
  {
    Active(q, f) &&
    (es != [] ==> (StepKeeps(limit, p, q, es[0]); Backlogged(limit, p, Step(limit, p, q, es[0]), es[1..], f)))
  }

  lemma RelStep(p: Params, m: nat, b: Queue, u: Queue, base: int, e: Event) returns (base': int)
    requires Inv(p, b) && RangeOk(Some(m), p, b) && Inv(p, u) && Rel(b, u, base) && Busy(b) && Legal(p, b, e)
    ensures Legal(p, u, e) && Rel(Step(Some(m), p, b, e), Step(None, p, u, e), base')
  {
    base' := base;
    match e {
      case NewFlow(f) =>
        NewFlowRel(b, u, base, f);
      case FreeFlow(f) =>
        FreeFlowRel(p, b, u, base, f);
      case Send(f, len) =>
        RelSend(p, b, u, base, f, len);
      case Done =>
        RelDone(p, m, b, u, base);
        base' := base + Move(p, m, b);
      case ScheduleJob =>
        RelJob(p, b, u, base);
    }
  }

  lemma NewFlowRel(b: Queue, u: Queue, base: int, f: Flow)
    requires Rel(b, u, base) && WellFormed(b) && f !in b.time
    ensures Rel(b.(time := b.time[f := 0]), u.(time := u.time[f := 0]), base)
  {
    assert f !in ActiveSet(b);
  }

  lemma FreeFlowRel(p: Params, b: Queue, u: Queue, base: int, f: Flow)
    requires Rel(b, u, base) && WellFormed(b) && WellFormed(u) && Legal(p, b, FreeFlow(f))
    ensures Legal(p, u, FreeFlow(f)) && Rel(Step(None, p, b, FreeFlow(f)), Step(None, p, u, FreeFlow(f)), base)
  {
    var b' := Step(None, p, b, FreeFlow(f));
    assert ActiveSet(b') <= ActiveSet(b);
  }

  // ---- rebasing is invisible ----

  /** The unbounded machine can follow the bounded one, picks the same packets and charges the same flows. */
  ghost predicate Follows(m: nat, p: Params, b: Queue, u: Queue, es: seq<Event>)
    requires Inv(p, b) && RangeOk(Some(m), p, b) && BusyRun(Some(m), p, b, es) && Inv(p, u)
  {
    && BusyRun(None, p, u, es)
    && Picks(Some(m), p, b, es) == Picks(None, p, u, es)
    && (exists base :: Rel(Final(Some(m), p, b, es), Final(None, p, u, es), base))
    && (forall f :: Served(Some(m), p, b, es, f) == Served(None, p, u, es, f))
    && (forall f :: Backlogged(Some(m), p, b, es, f) ==> Backlogged(None, p, u, es, f))
  }

  lemma SameFacts(b: Queue, u: Queue, base: int)
    requires Rel(b, u, base)
    ensures Same(b, u) && Busy(b) == Busy(u) && forall f :: Active(b, f) == Active(u, f)
  {
  }

  lemma {:induction false} RunFollows(m: nat, p: Params, b: Queue, u: Queue, base: int, es: seq<Event>)
    requires Inv(p, b) && RangeOk(Some(m), p, b) && BusyRun(Some(m), p, b, es) && Inv(p, u) && Rel(b, u, base)
    ensures Follows(m, p, b, u, es)
    decreases |es|
  {
    hide WellFormed, Ordered, NonNegative, Lengths, RangeOk, Rel, Step, Legal, Busy, Active;
    SameFacts(b, u, base);
    NoRange(p, u);
    if es == [] {
      assert Rel(Final(Some(m), p, b, es), Final(None, p, u, es), base);
    } else {
      var base' := RelStep(p, m, b, u, base, es[0]);
      StepKeeps(Some(m), p, b, es[0]);
      StepKeeps(None, p, u, es[0]);
      var b', u' := Step(Some(m), p, b, es[0]), Step(None, p, u, es[0]);
      SameFacts(b', u', base');
      RunFollows(m, p, b', u', base', es[1..]);
      assert BusyRun(None, p, u, es);
      var z :| Rel(Final(Some(m), p, b', es[1..]), Final(None, p, u', es[1..]), z);
      assert Rel(Final(Some(m), p, b, es), Final(None, p, u, es), z);
      assert Picks(Some(m), p, b, es) == Picks(None, p, u, es);
      forall f ensures Served(Some(m), p, b, es, f) == Served(None, p, u, es, f) {
        assert Served(Some(m), p, b', es[1..], f) == Served(None, p, u', es[1..], f);
      }
      forall f | Backlogged(Some(m), p, b, es, f) ensures Backlogged(None, p, u, es, f) {
        assert Backlogged(None, p, u', es[1..], f);
      }
    }
  }

  lemma NoRange(p: Params, u: Queue)
    ensures RangeOk(None, p, u)
  {
  }

  lemma RelRefl(p: Params, q: Queue)
    requires Inv(p, q)
    ensures Rel(q, q, 0)
  {
  }

  /**
   Over any busy period, whatever its length, a queue whose clock is rebased on overflow sends the same packets in the
   same order as one whose clock never overflows.
   */
  lemma RebasingInvisible(m: nat, p: Params, q: Queue, es: seq<Event>)
    requires Inv(p, q) && RangeOk(Some(m), p, q) && BusyRun(Some(m), p, q, es)
    ensures Follows(m, p, q, q, es)
  {
    RelRefl(p, q);
    RunFollows(m, p, q, q, 0, es);
  }

  // ---- fairness ----

  /** No flow is ahead of virtual time by more than the cost of one packet. */
  ghost predicate Spread(p: Params, q: Queue)
    requires WellFormed(q)
  {
    forall f :: f in q.time ==> q.time[f] <= Current(q) + p.Cost()
  }

  lemma CurrentAtLeast(q: Queue, v: int)
    requires WellFormed(q) && Busy(q) && forall f :: f in q.time && Active(q, f) ==> v <= q.time[f]
    ensures v <= Current(q)
  {
    if q.queued != map[] { assert Active(q, First(q)); }
    if q.sending.Some? { assert Active(q, q.sending.value); }
    if q.previous.Some? { assert Active(q, q.previous.value); }
    hide IsFirst;
  }

  /** What a step of the unbounded queue does to the time of a flow. */
  ghost predicate TimesAfter(p: Params, q: Queue, e: Event, q': Queue)
    requires WellFormed(q)
  {
    forall f :: f in q'.time ==>
      if f !in q.time then q'.time[f] == 0 && !Active(q', f)
      else if e.Done? && q.sending == Some(f) then q'.time[f] == q.time[f] + p.weight + q.sendingLen
      else if e.Send? && e.f == f && q.previous != Some(f) then q'.time[f] == Max(q.time[f], Current(q))
      else q'.time[f] == q.time[f] && (Active(q', f) ==> Active(q, f))
  }

  lemma StepTimes(p: Params, q: Queue, e: Event)
    requires Inv(p, q) && Legal(p, q, e)
    ensures TimesAfter(p, q, e, Step(None, p, q, e))
  {
    hide Current;
    if q.queued != map[] { assert IsFirst(q, First(q)); }
    match e {
      case NewFlow(f) =>
      case FreeFlow(f) =>
      case Send(f, len) =>
      case Done => ChargeNone(q, q.sending.value, p.weight + q.sendingLen);
      case ScheduleJob =>
    }
  }

  /** Virtual time never goes back while the queue is busy. */
  lemma CurrentMonotone(p: Params, q: Queue, e: Event)
    requires Inv(p, q) && Legal(p, q, e) && Busy(q) && Busy(Step(None, p, q, e))
    ensures WellFormed(Step(None, p, q, e)) && Current(q) <= Current(Step(None, p, q, e))
  {
    StepWellFormed(None, p, q, e);
    StepTimes(p, q, e);
    hide Step, Current, Legal;
    var q' := Step(None, p, q, e);
    forall f | f in q'.time && Active(q', f) ensures Current(q) <= q'.time[f] {
      if Active(q, f) { CurrentIsLeast(q, f); }
    }
    CurrentAtLeast(q', Current(q));
  }

  lemma SpreadKeeps(p: Params, q: Queue, e: Event)
    requires Inv(p, q) && Legal(p, q, e) && Busy(q) && Busy(Step(None, p, q, e)) && Spread(p, q)
    ensures WellFormed(Step(None, p, q, e)) && Spread(p, Step(None, p, q, e))
  {
    hide Step, Current, Legal, Before;
    StepTimes(p, q, e);
    CurrentMonotone(p, q, e);
    CurrentNonNegative(p, q);
    SendingIsCurrent(p, q);
    var q' := Step(None, p, q, e);
    forall f | f in q'.time ensures q'.time[f] <= Current(q') + p.Cost() {
    }
  }

  lemma CurrentNonNegative(p: Params, q: Queue)
    requires Inv(p, q)
    ensures 0 <= Current(q)
  {
  }

  lemma SendingIsCurrent(p: Params, q: Queue)
    requires Inv(p, q)
    ensures q.sending.Some? ==> q.time[q.sending.value] == Current(q) && q.sendingLen <= p.mtu
  {
  }

  lemma ActiveIsBusy(q: Queue, f: Flow)
    requires Active(q, f)
    ensures Busy(q)
  {
    if f in q.queued { assert q.queued != map[]; }
  }

  /** The bound on the spread lasts as long as the queue is busy. */
  lemma {:induction false} SpreadRun(p: Params, q: Queue, es: seq<Event>)
    requires Inv(p, q) && RangeOk(None, p, q) && BusyRun(None, p, q, es) && Spread(p, q) && Busy(Final(None, p, q, es))
    ensures Spread(p, Final(None, p, q, es))
    decreases |es|
  {
    hide Step, Current, Legal, Ordered, NonNegative, Lengths, RangeOk, Spread;
    if es != [] {
      var q' := Step(None, p, q, es[0]);
      StepKeeps(None, p, q, es[0]);
      SpreadKeeps(p, q, es[0]);
      SpreadRun(p, q', es[1..]);
    }
  }

  /** While a flow stays backlogged its time grows by exactly what it is charged. */
  lemma {:induction false} BackloggedRun(p: Params, q: Queue, es: seq<Event>, f: Flow)
    requires Inv(p, q) && RangeOk(None, p, q) && BusyRun(None, p, q, es) && Backlogged(None, p, q, es, f)
    ensures var r := Final(None, p, q, es);
            && Active(q, f) && Active(r, f) && f in q.time && f in r.time
            && r.time[f] - q.time[f] == Served(None, p, q, es, f)
    decreases |es|
  {
    hide Step, Current, Legal, Ordered, NonNegative, Lengths, RangeOk;
    CurrentIsLeast(q, f);
    if es != [] {
      StepKeeps(None, p, q, es[0]);
      StepTimes(p, q, es[0]);
      BackloggedRun(p, Step(None, p, q, es[0]), es[1..], f);
      assert es[0].Send? && es[0].f == f ==> q.previous == Some(f) by { SendOfActive(p, q, es[0], f); }
    }
  }

  lemma SendOfActive(p: Params, q: Queue, e: Event, f: Flow)
    requires Legal(p, q, e) && Active(q, f)
    ensures e.Send? && e.f == f ==> q.previous == Some(f)
  {
  }

  // ---- two flows ----

  /** What an event charges flow `f`. */
  function ChargeOf(p: Params, q: Queue, e: Event, f: Flow): nat {
    if e.Done? && q.sending == Some(f) then p.weight + q.sendingLen else 0
  }

  /** By how much `f` is behind `g`. */
  function Gap(q: Queue, f: Flow, g: Flow): int
    requires f in q.time && g in q.time
  {
    q.time[g] - q.time[f]
  }

  lemma ActiveIsTimed(q: Queue, f: Flow)
    requires WellFormed(q) && Active(q, f)
    ensures f in q.time
  {
  }

  /** Between two flows that stay active only charges count, rebased or not. */
  lemma GapStep(limit: Option<nat>, p: Params, q: Queue, e: Event, f: Flow, g: Flow)
    requires Inv(p, q) && RangeOk(limit, p, q) && Legal(p, q, e) && Active(q, f) && Active(q, g)
    requires var q' := Step(limit, p, q, e); Active(q', f) && Active(q', g)
    ensures var q' := Step(limit, p, q, e);
            && f in q.time && g in q.time && f in q'.time && g in q'.time
            && Gap(q', f, g) == Gap(q, f, g) - ChargeOf(p, q, e, f) + ChargeOf(p, q, e, g)
  {
    hide Charge, Current, Ordered, NonNegative, Lengths, RangeOk;
    StepWellFormed(limit, p, q, e);
    ActiveIsTimed(Step(limit, p, q, e), f);
    ActiveIsTimed(Step(limit, p, q, e), g);
    if e.Done? { DoneGap(limit, p, q, f, g); }
  }

  lemma DoneGap(limit: Option<nat>, p: Params, q: Queue, f: Flow, g: Flow)
    requires Inv(p, q) && RangeOk(limit, p, q) && q.sending.Some? && Active(q, f) && Active(q, g)
    ensures var t := DoneStep(limit, p, q).time;
            && f in q.time && g in q.time && f in t && g in t
            && t[g] - t[f] == Gap(q, f, g) - ChargeOf(p, q, Done, f) + ChargeOf(p, q, Done, g)
  {
    hide Charge, Charged, Inv, RangeOk;
    var s := DoneCharged(limit, p, q);
    ChargedGap(q.queued.Keys, q.time, DoneStep(limit, p, q).time, q.sending.value, p.weight + q.sendingLen, s, f, g);
  }

  /** The end of a packet charges its flow, and may take the same off all times. */
  lemma DoneCharged(limit: Option<nat>, p: Params, q: Queue) returns (s: int)
    requires Inv(p, q) && RangeOk(limit, p, q) && q.sending.Some?
    ensures q.queued.Keys <= q.time.Keys && WellFormed(q) && q.sending.value in q.time && q.sending.value !in q.queued
    ensures Charged(q.queued.Keys, q.time, DoneStep(limit, p, q).time, q.sending.value, p.weight + q.sendingLen, s)
  {
    hide Inv, RangeOk, Charged, Charge, Subtrahend;
    DoneReady(p, q);
    InvFacts(p, q);
    if limit.Some? {
      s := DoneChargedLimit(limit.value, p, q);
    } else {
      DoneChargedFree(p, q);
      s := 0;
    }
  }

  lemma InvFacts(p: Params, q: Queue)
    requires Inv(p, q)
    ensures WellFormed(q) && NonNegative(q)
  {
  }

  lemma DoneChargedLimit(m: nat, p: Params, q: Queue) returns (s: int)
    requires Inv(p, q) && RangeOk(Some(m), p, q) && q.sending.Some? && WellFormed(q)
    ensures Charged(q.queued.Keys, q.time, DoneStep(Some(m), p, q).time, q.sending.value, p.weight + q.sendingLen, s)
  {
    hide Inv, Charge, Charged, Subtrahend, InRange;
    DoneReady(p, q);
    var h, c := q.sending.value, p.weight + q.sendingLen;
    s := if c > m - q.time[h] then Subtrahend(q, h) else 0;
    ChargeExact(m, q, h, c);
  }

  lemma DoneChargedFree(p: Params, q: Queue)
    requires Inv(p, q) && q.sending.Some? && WellFormed(q) && NonNegative(q)
    ensures Charged(q.queued.Keys, q.time, DoneStep(None, p, q).time, q.sending.value, p.weight + q.sendingLen, 0)
  {
    hide Inv, Charge;
    DoneReady(p, q);
    ChargeNone(q, q.sending.value, p.weight + q.sendingLen);
  }

  lemma ChargedGap(queued: set<Flow>, was: map<Flow, int>, t: map<Flow, int>, h: Flow, c: nat, s: int, f: Flow, g: Flow)
    requires Charged(queued, was, t, h, c, s) && queued <= was.Keys && h !in queued && f in queued + {h} && g in queued + {h}
    ensures f in was && g in was && f in t && g in t
    ensures t[g] - t[f] == was[g] - was[f] - (if f == h then c else 0) + (if g == h then c else 0)
  {
  }

  /** A flow whose packet is done was not ahead of the other. */
  lemma DoneIsBehind(p: Params, q: Queue, f: Flow, g: Flow)
    requires Inv(p, q) && q.sending == Some(f) && Active(q, g)
    ensures f in q.time && g in q.time && Gap(q, f, g) >= 0 && p.weight + q.sendingLen <= p.Cost()
  {
  }

  /**
   However long the interval and whatever the other flows do, of two flows backlogged throughout one is charged more
   than the other by at most what it was behind at the start and the cost of one packet.
   */
  lemma {:induction false} ChargeBound(limit: Option<nat>, p: Params, q: Queue, es: seq<Event>, f: Flow, g: Flow)
    requires Inv(p, q) && RangeOk(limit, p, q) && BusyRun(limit, p, q, es)
    requires Backlogged(limit, p, q, es, f) && Backlogged(limit, p, q, es, g)
    ensures f in q.time && g in q.time
    ensures Served(limit, p, q, es, f) - Served(limit, p, q, es, g) <= Max(0, Gap(q, f, g) + p.Cost())
    decreases |es|
  {
    hide Step, Legal, WellFormed, Ordered, NonNegative, Lengths, RangeOk, Active;
    ActiveIsTimed(q, f);
    ActiveIsTimed(q, g);
    if es != [] {
      StepKeeps(limit, p, q, es[0]);
      ChargeBound(limit, p, Step(limit, p, q, es[0]), es[1..], f, g);
      GapStep(limit, p, q, es[0], f, g);
      if q.sending == Some(f) { DoneIsBehind(p, q, f, g); }
    }
  }

  /**
   Fairness of the queue with its 64-bit clock: two flows backlogged over the same interval that start within one packet
   of each other are charged amounts that differ by at most two packets.
   */
  lemma Fair(m: nat, p: Params, q: Queue, es: seq<Event>, f: Flow, g: Flow)
    requires Inv(p, q) && RangeOk(Some(m), p, q) && BusyRun(Some(m), p, q, es)
    requires Backlogged(Some(m), p, q, es, f) && Backlogged(Some(m), p, q, es, g)
    ensures f in q.time && g in q.time
    ensures var more := Served(Some(m), p, q, es, f) - Served(Some(m), p, q, es, g);
            && more <= Max(0, Gap(q, f, g) + p.Cost())
            && (Gap(q, f, g) <= p.Cost() && Gap(q, g, f) <= p.Cost() ==> more <= 2 * p.Cost() && -more <= 2 * p.Cost())
  {
    hide Inv, RangeOk, BusyRun, Backlogged, Served;
    ChargeBound(Some(m), p, q, es, f, g);
    ChargeBound(Some(m), p, q, es, g, f);
  }

  // ---- the bound is met ----

  /** Over busy run `es` both flows stay backlogged and `f` is charged at least `v` more than `g`. */
  ghost predicate Gives(limit: Option<nat>, p: Params, q: Queue, es: seq<Event>, f: Flow, g: Flow, v: int)
    requires Inv(p, q) && RangeOk(limit, p, q)
  {
    && BusyRun(limit, p, q, es) && Backlogged(limit, p, q, es, f) && Backlogged(limit, p, q, es, g)
    && Served(limit, p, q, es, f) - Served(limit, p, q, es, g) >= v
  }

  lemma GivesNothing(limit: Option<nat>, p: Params, q: Queue, f: Flow, g: Flow, v: int)
    requires Inv(p, q) && RangeOk(limit, p, q) && Active(q, f) && Active(q, g) && v <= 0
    ensures Gives(limit, p, q, [], f, g, v)
  {
  }

  lemma GivesVia(limit: Option<nat>, p: Params, q: Queue, e: Event, es: seq<Event>, f: Flow, g: Flow, v: int)
    requires Inv(p, q) && RangeOk(limit, p, q) && Legal(p, q, e) && Active(q, f) && Active(q, g)
    requires var q' := Step(limit, p, q, e); Inv(p, q') && RangeOk(limit, p, q') && Gives(limit, p, q', es, f, g, v)
    ensures Gives(limit, p, q, [e] + es, f, g, v + ChargeOf(p, q, e, f) - ChargeOf(p, q, e, g))
  {
    hide Step, Legal, Inv, RangeOk, Active;
    ActiveIsBusy(q, f);
    assert ([e] + es)[1..] == es;
  }

  /** `f` is being sent and only `g` waits. */
  ghost predicate Duel(q: Queue, f: Flow, g: Flow) {
    q.time.Keys == {f, g} && q.sending == Some(f) && q.queued.Keys == {g}
  }

  /** The packet of `f` is done, `f` sends again and is still behind: it goes on. */
  lemma DuelRound(limit: Option<nat>, p: Params, q: Queue, f: Flow, g: Flow) returns (q1: Queue, q2: Queue, q3: Queue)
    requires Inv(p, q) && RangeOk(limit, p, q) && f != g && Duel(q, f, g)
    ensures Legal(p, q, Done) && q1 == Step(limit, p, q, Done)
    ensures Inv(p, q1) && RangeOk(limit, p, q1) && Active(q1, f) && Active(q1, g)
    ensures f in q.time && g in q.time && f in q1.time && g in q1.time
    ensures Gap(q1, f, g) == Gap(q, f, g) - (p.weight + q.sendingLen)
    ensures Legal(p, q1, Send(f, p.mtu)) && q2 == Step(limit, p, q1, Send(f, p.mtu))
    ensures Inv(p, q2) && RangeOk(limit, p, q2) && Active(q2, f) && Active(q2, g)
    ensures Legal(p, q2, ScheduleJob) && q3 == Step(limit, p, q2, ScheduleJob) && Inv(p, q3) && RangeOk(limit, p, q3)
    ensures Gap(q1, f, g) > 0 ==> Duel(q3, f, g) && q3.sendingLen == p.mtu && Gap(q3, f, g) == Gap(q1, f, g)
  {
    hide Charge, Ordered, NonNegative, Lengths, RangeOk;
    assert f in q.time.Keys && g in q.time.Keys && g in q.queued.Keys;
    ChargeKeys(limit, q, f, p.weight + q.sendingLen);
    q1 := Step(limit, p, q, Done);
    StepKeeps(limit, p, q, Done);
    GapStep(limit, p, q, Done, f, g);
    q2 := Step(limit, p, q1, Send(f, p.mtu));
    assert q2 == q1.(previous := None, queued := q1.queued[f := p.mtu]);
    StepKeeps(limit, p, q1, Send(f, p.mtu));
    q3 := Step(limit, p, q2, ScheduleJob);
    StepKeeps(limit, p, q2, ScheduleJob);
    assert f in q2.queued;
    if Gap(q1, f, g) > 0 {
      var s := q2.(job := false);
      assert IsFirst(s, f);
      FirstUnique(s, f);
      assert q3.queued.Keys == {g};
    }
  }

  /** As long as `f` is behind `g`, `f` alone is served. */
  lemma {:induction false} DuelLag(limit: Option<nat>, p: Params, q: Queue, f: Flow, g: Flow) returns (es: seq<Event>)
    requires Inv(p, q) && RangeOk(limit, p, q) && f != g && Duel(q, f, g) && p.Cost() > 0
    ensures f in q.time && g in q.time && Gives(limit, p, q, es, f, g, Gap(q, f, g))
    decreases if f in q.time && g in q.time then Max(0, Gap(q, f, g)) else 0, if p.weight + q.sendingLen == 0 then 1 else 0
  {
    hide Step, Legal, Inv, RangeOk, Gives;
    DuelActive(q, f, g);
    if Gap(q, f, g) <= 0 {
      es := [];
      GivesNothing(limit, p, q, f, g, Gap(q, f, g));
    } else {
      var q1, q2, q3 := DuelRound(limit, p, q, f, g);
      var c := p.weight + q.sendingLen;
      if Gap(q1, f, g) <= 0 {
        GivesNothing(limit, p, q1, f, g, Gap(q1, f, g));
        es := [Done] + [];
        GivesVia(limit, p, q, Done, [], f, g, Gap(q1, f, g));
      } else {
        var rest := DuelLag(limit, p, q3, f, g);
        GivesVia(limit, p, q2, ScheduleJob, rest, f, g, Gap(q1, f, g));
        GivesVia(limit, p, q1, Send(f, p.mtu), [ScheduleJob] + rest, f, g, Gap(q1, f, g));
        es := [Done] + ([Send(f, p.mtu)] + ([ScheduleJob] + rest));
        GivesVia(limit, p, q, Done, [Send(f, p.mtu)] + ([ScheduleJob] + rest), f, g, Gap(q1, f, g));
      }
    }
  }

  lemma DuelActive(q: Queue, f: Flow, g: Flow)
    requires Duel(q, f, g)
    ensures Active(q, f) && Active(q, g) && f in q.time && g in q.time
  {
    assert f in q.time.Keys && g in q.time.Keys && g in q.queued.Keys;
  }

  /** Nothing is being sent: whoever has just finished sends again, and the flow behind is picked. */
  lemma {:induction false} QueueLag(limit: Option<nat>, p: Params, q: Queue, f: Flow, g: Flow) returns (es: seq<Event>)
    requires Inv(p, q) && RangeOk(limit, p, q) && f != g && Active(q, f) && Active(q, g) && p.Cost() > 0
    requires q.time.Keys == {f, g} && q.sending.None? && f in q.time && g in q.time && Gap(q, f, g) > 0
    ensures Gives(limit, p, q, es, f, g, Gap(q, f, g))
    decreases q.previous.Some?
  {
    hide Ordered, NonNegative, Lengths, RangeOk, Gives;
    if q.previous.Some? {
      var h := q.previous.value;
      assert h in q.time.Keys;
      var e := Send(h, p.mtu);
      var q' := Step(limit, p, q, e);
      assert q' == q.(previous := None, queued := q.queued[h := p.mtu]);
      StepKeeps(limit, p, q, e);
      var rest := QueueLag(limit, p, q', f, g);
      es := [e] + rest;
      GivesVia(limit, p, q, e, rest, f, g, Gap(q, f, g));
    } else {
      var q' := Step(limit, p, q, ScheduleJob);
      StepKeeps(limit, p, q, ScheduleJob);
      var s := q.(job := false);
      assert q.queued.Keys == {f, g};
      assert IsFirst(s, f);
      FirstUnique(s, f);
      assert q'.queued.Keys == {g};
      var rest := DuelLag(limit, p, q', f, g);
      es := [ScheduleJob] + rest;
      GivesVia(limit, p, q, ScheduleJob, rest, f, g, Gap(q, f, g));
    }
  }

  /** A flow other than the two is taken out of the way. */
  lemma FreeThird(limit: Option<nat>, p: Params, q: Queue, f: Flow, g: Flow, h: Flow)
    requires Inv(p, q) && RangeOk(limit, p, q) && Active(q, f) && Active(q, g)
    requires h in q.time && h != f && h != g && q.sending != Some(h)
    ensures Legal(p, q, FreeFlow(h))
    ensures var q' := Step(limit, p, q, FreeFlow(h));
            && Inv(p, q') && RangeOk(limit, p, q') && Active(q', f) && Active(q', g) && |q'.time| < |q.time|
            && f in q.time && g in q.time && f in q'.time && g in q'.time && Gap(q', f, g) == Gap(q, f, g)
  {
    StepKeeps(limit, p, q, FreeFlow(h));
    hide Ordered, NonNegative, Lengths, RangeOk;
    var q' := Step(limit, p, q, FreeFlow(h));
    assert q'.time.Keys == q.time.Keys - {h};
    assert |q'.time| == |q'.time.Keys| && |q.time| == |q.time.Keys|;
  }

  /** A third flow's packet is done. */
  lemma ThirdDone(limit: Option<nat>, p: Params, q: Queue, f: Flow, g: Flow)
    requires Inv(p, q) && RangeOk(limit, p, q) && Active(q, f) && Active(q, g)
    requires q.sending.Some? && q.sending != Some(f) && q.sending != Some(g)
    ensures var q' := Step(limit, p, q, Done);
            && Inv(p, q') && RangeOk(limit, p, q') && Active(q', f) && Active(q', g) && |q'.time| == |q.time| && q'.sending.None?
            && f in q.time && g in q.time && f in q'.time && g in q'.time && Gap(q', f, g) == Gap(q, f, g)
  {
    hide Ordered, NonNegative, Lengths, RangeOk, Charge;
    StepKeeps(limit, p, q, Done);
    GapStep(limit, p, q, Done, f, g);
    ChargeKeys(limit, q, q.sending.value, p.weight + q.sendingLen);
    var q' := Step(limit, p, q, Done);
    assert |q'.time| == |q'.time.Keys| && |q.time| == |q.time.Keys|;
  }

  /** From any state in which both are active, some busy run charges `f` more than `g` by all it is behind. */
  lemma {:induction false} Lag(limit: Option<nat>, p: Params, q: Queue, f: Flow, g: Flow) returns (es: seq<Event>)
    requires Inv(p, q) && RangeOk(limit, p, q) && f != g && Active(q, f) && Active(q, g) && p.Cost() > 0
    ensures f in q.time && g in q.time && Gives(limit, p, q, es, f, g, Gap(q, f, g))
    decreases |q.time|, q.sending.Some?
  {
    hide Step, Legal, Ordered, NonNegative, Lengths, RangeOk, Gives;
    ActiveIsTimed(q, f);
    ActiveIsTimed(q, g);
    if Gap(q, f, g) <= 0 {
      es := [];
      GivesNothing(limit, p, q, f, g, Gap(q, f, g));
    } else if h :| h in q.time && h != f && h != g && q.sending != Some(h) {
      FreeThird(limit, p, q, f, g, h);
      var rest := Lag(limit, p, Step(limit, p, q, FreeFlow(h)), f, g);
      es := [FreeFlow(h)] + rest;
      GivesVia(limit, p, q, FreeFlow(h), rest, f, g, Gap(q, f, g));
    } else if q.sending.Some? && q.sending != Some(f) && q.sending != Some(g) {
      ThirdDone(limit, p, q, f, g);
      assert Legal(p, q, Done) by { DoneLegal(p, q); }
      var rest := Lag(limit, p, Step(limit, p, q, Done), f, g);
      es := [Done] + rest;
      GivesVia(limit, p, q, Done, rest, f, g, Gap(q, f, g));
    } else {
      assert q.time.Keys == {f, g};
      if q.sending.None? {
        es := QueueLag(limit, p, q, f, g);
      } else {
        BehindIsSending(p, q, f, g);
        es := DuelLag(limit, p, q, f, g);
      }
    }
  }

  lemma DoneLegal(p: Params, q: Queue)
    requires q.sending.Some?
    ensures Legal(p, q, Done)
  {
  }

  lemma BehindIsSending(p: Params, q: Queue, f: Flow, g: Flow)
    requires Inv(p, q) && f != g && Active(q, f) && Active(q, g) && q.time.Keys == {f, g} && q.sending.Some?
    requires f in q.time && g in q.time && Gap(q, f, g) > 0
    ensures Duel(q, f, g)
  {
    if q.sending == Some(g) { DoneIsBehind(p, q, g, f); }
    assert q.sending.value in q.time.Keys;
  }

  /** Every busy run keeps `f` within `bound` of `g`. */
  ghost predicate WithinBound(limit: Option<nat>, p: Params, q: Queue, f: Flow, g: Flow, bound: nat)
    requires Inv(p, q) && RangeOk(limit, p, q)
  {
    forall es :: BusyRun(limit, p, q, es) && Backlogged(limit, p, q, es, f) && Backlogged(limit, p, q, es, g) ==>
      Served(limit, p, q, es, f) - Served(limit, p, q, es, g) <= bound
  }

  /**
   What a flow is behind at the start decides, to within one packet, by how much it can be favoured: a bound holds over
   all busy runs if the lag and one packet are within it, and only if the lag is.
   */
  lemma LagDecides(limit: Option<nat>, p: Params, q: Queue, f: Flow, g: Flow, bound: nat)
    requires Inv(p, q) && RangeOk(limit, p, q) && f != g && Active(q, f) && Active(q, g) && p.Cost() > 0
    ensures f in q.time && g in q.time
    ensures Gap(q, f, g) + p.Cost() <= bound ==> WithinBound(limit, p, q, f, g, bound)
    ensures WithinBound(limit, p, q, f, g, bound) ==> Gap(q, f, g) <= bound
  {
    hide WellFormed, Ordered, NonNegative, Lengths, RangeOk, BusyRun, Backlogged, Served, Active;
    ActiveIsTimed(q, f);
    ActiveIsTimed(q, g);
    forall es | BusyRun(limit, p, q, es) && Backlogged(limit, p, q, es, f) && Backlogged(limit, p, q, es, g)
      ensures Served(limit, p, q, es, f) - Served(limit, p, q, es, g) <= Max(0, Gap(q, f, g) + p.Cost())
    {
      ChargeBound(limit, p, q, es, f, g);
    }
    var es := Lag(limit, p, q, f, g);
  }

  // ---- through an idle spell ----

  ghost predicate Reaches(m: nat, p: Params, q: Queue, es: seq<Event>, r: Queue)
    requires WellFormed(q)
    decreases |es|
  {
    if es == [] then q == r
    else Legal(p, q, es[0]) && (StepWellFormed(Some(m), p, q, es[0]); Reaches(m, p, Step(Some(m), p, q, es[0]), es[1..], r))
  }

  function Idle(time: map<Flow, int>, len: nat): Queue { Queue(time, map[], None, len, None, false) }

  lemma ReachesVia(m: nat, p: Params, q: Queue, e: Event, q': Queue, es: seq<Event>, r: Queue)
    requires WellFormed(q) && WellFormed(q') && Legal(p, q, e) && Step(Some(m), p, q, e) == q' && Reaches(m, p, q', es, r)
    ensures Reaches(m, p, q, [e] + es, r)
  {
    hide Step, WellFormed, Legal;
    assert ([e] + es)[1..] == es;
  }

  lemma LoneSend(time: map<Flow, int>, last: nat, f: Flow, len: nat)
    requires f in time && 0 <= time[f]
    ensures WellFormed(Idle(time, last))
    ensures SendStep(Idle(time, last), f, len) == Queue(time, map[], Some(f), len, None, false)
  {
    var q := Idle(time, last);
    var q2 := q.(queued := map[f := len]);
    assert time[f := Max(time[f], 0)] == time;
    assert map[][f := len] == map[f := len];
    assert IsFirst(q2, f);
    FirstUnique(q2, f);
    assert map[f := len] - {f} == map[];
  }

  lemma LoneDone(m: nat, p: Params, time: map<Flow, int>, f: Flow)
    requires f in time && 0 <= time[f] && time[f] + p.Cost() <= m
    ensures DoneStep(Some(m), p, Queue(time, map[], Some(f), p.mtu, None, false)) ==
            Queue(time[f := time[f] + p.Cost()], map[], None, p.mtu, Some(f), true)
  {
    hide Rebased, Subtrahend, First;
    ModIsIdentity(time[f] + p.Cost(), m);
  }

  /** Flow 1 stands at `t`, flow 2 at zero. */
  function Times(t: int): map<Flow, int> { map[1 := t, 2 := 0] }

  /** A lone flow sends one packet and the queue goes idle again; the flow's time stays where it got to. */
  lemma LoneRound(m: nat, p: Params, t: nat, last: nat, es: seq<Event>, r: Queue)
    requires t + p.Cost() <= m
    requires var q := Idle(Times(t + p.Cost()), p.mtu); WellFormed(q) && Reaches(m, p, q, es, r)
    ensures WellFormed(Idle(Times(t), last)) && Reaches(m, p, Idle(Times(t), last), [Send(1, p.mtu)] + ([Done] + ([ScheduleJob] + es)), r)
  {
    hide Reaches, SendStep, DoneStep;
    var time, time' := Times(t), Times(t + p.Cost());
    assert time[1 := t + p.Cost()] == time';
    LoneSend(time, last, 1, p.mtu);
    LoneDone(m, p, time, 1);
    var s1 := Queue(time, map[], Some(1), p.mtu, None, false);
    var s2 := Queue(time', map[], None, p.mtu, Some(1), true);
    ReachesVia(m, p, s2, ScheduleJob, Idle(time', p.mtu), es, r);
    ReachesVia(m, p, s1, Done, s2, [ScheduleJob] + es, r);
    ReachesVia(m, p, Idle(time, last), Send(1, p.mtu), s1, [Done] + ([ScheduleJob] + es), r);
  }

  lemma {:induction false} LoneRounds(m: nat, p: Params, t: nat, last: nat, n: nat) returns (es: seq<Event>, r: Queue)
    requires t + n * p.Cost() <= m
    ensures WellFormed(Idle(Times(t), last)) && Reaches(m, p, Idle(Times(t), last), es, r)
    ensures r == Idle(Times(t + n * p.Cost()), r.sendingLen)
    decreases n
  {
    hide Reaches;
    if n == 0 {
      es, r := [], Idle(Times(t), last);
      ReachesEnd(m, p, r);
    } else {
      Multiply(n, p.Cost());
      var rest, r' := LoneRounds(m, p, t + p.Cost(), p.mtu, n - 1);
      LoneRound(m, p, t, last, rest, r');
      es, r := [Send(1, p.mtu)] + ([Done] + ([ScheduleJob] + rest)), r';
    }
  }

  lemma Multiply(n: nat, c: nat)
    requires n > 0
    ensures n * c == c + (n - 1) * c && (n - 1) * c >= 0
  {
  }

  /** `before` leads to an idle queue; then two flows start to send and over busy run `es` one is charged `v` more. */
  ghost predicate UnfairRun(m: nat, p: Params, before: seq<Event>, idle: Queue, start: seq<Event>, q: Queue, es: seq<Event>, v: int) {
    && Reaches(m, p, Initial, before, idle) && WellFormed(idle) && !Busy(idle)
    && Reaches(m, p, idle, start, q) && Inv(p, q) && RangeOk(Some(m), p, q)
    && Gives(Some(m), p, q, es, 2, 1, v)
  }

  /**
   Virtual time restarts at zero when the queue goes idle and flows keep their times. So after an idle spell two flows
   can be backlogged together and be charged amounts that differ by any number of packets the clock can count.
   */
  lemma UnfairAfterIdle(m: nat, p: Params, n: nat)
    requires 0 < p.Cost() <= m && n * p.Cost() <= m
    ensures exists before, idle, start, q, es :: UnfairRun(m, p, before, idle, start, q, es, n * p.Cost())
  {
    hide Reaches, SendStep, DoneStep, Charge, Gives;
    var t := n * p.Cost();
    var rounds, idle := LoneRounds(m, p, 0, 0, n);
    var s1 := Idle(map[1 := 0], 0);
    assert map[1 := 0][2 := 0] == Times(0);
    ReachesVia(m, p, s1, NewFlow(2), Idle(Times(0), 0), rounds, idle);
    ReachesVia(m, p, Initial, NewFlow(1), s1, [NewFlow(2)] + rounds, idle);
    var before := [NewFlow(1)] + ([NewFlow(2)] + rounds);
    var q1 := Queue(Times(t), map[], Some(2), p.mtu, None, false);
    var q := Queue(Times(t), map[1 := p.mtu], Some(2), p.mtu, None, false);
    LoneSend(Times(t), idle.sendingLen, 2, p.mtu);
    SecondSend(p, t);
    ReachesEnd(m, p, q);
    ReachesVia(m, p, q1, Send(1, p.mtu), q, [], q);
    ReachesVia(m, p, idle, Send(2, p.mtu), q1, [Send(1, p.mtu)] + [], q);
    var es := Lag(Some(m), p, q, 2, 1);
    assert UnfairRun(m, p, before, idle, [Send(2, p.mtu)] + ([Send(1, p.mtu)] + []), q, es, t);
  }

  lemma SecondSend(p: Params, t: nat)
    ensures var q1 := Queue(Times(t), map[], Some(2), p.mtu, None, false);
            WellFormed(q1) && SendStep(q1, 1, p.mtu) == Queue(Times(t), map[1 := p.mtu], Some(2), p.mtu, None, false)
  {
    assert Times(t)[1 := Max(t, 0)] == Times(t);
    assert map[][1 := p.mtu] == map[1 := p.mtu];
  }

  lemma ReachesEnd(m: nat, p: Params, q: Queue)
    requires WellFormed(q)
    ensures Reaches(m, p, q, [], q)
  {
  }
}
