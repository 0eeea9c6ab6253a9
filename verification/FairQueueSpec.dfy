/**
 PacketPassFairQueue as a value. Flows are named by their address, which breaks ties. With `limit` the clock is that of
 the code: times are at most the limit and are rebased, modulo limit + 1, when one would exceed it. Without a limit
 times are plain integers; that machine is the reference.
 */
module FairQueueSpec {
  import opened Bytes

  type Flow = nat

  /** FAIRQUEUE_MAX_TIME */
  const MAX_TIME: nat := 0xFFFF_FFFF_FFFF_FFFF

  datatype Params = Params(weight: nat, mtu: nat) {
    /** What a packet costs at most. */
    function Cost(): nat { weight + mtu }
  }

  /** `queued` maps a queued flow to the length of its packet; `job` tells that the schedule job is set. */
  datatype Queue = Queue(time: map<Flow, int>, queued: map<Flow, nat>, sending: Option<Flow>, sendingLen: nat,
                         previous: Option<Flow>, job: bool)

  const Initial: Queue := Queue(map[], map[], None, 0, None, false)

  ghost predicate WellFormed(q: Queue) {
    && q.queued.Keys <= q.time.Keys
    && (q.sending.Some? ==> q.sending.value in q.time && q.sending.value !in q.queued && !q.job)
    && (q.previous.Some? ==> q.previous.value in q.time && q.previous.value !in q.queued && q.job)
    && (q.sending.None? && !q.job ==> q.queued == map[])
  }

  /** compare_flows */
  predicate Before(q: Queue, f: Flow, g: Flow)
    requires f in q.time && g in q.time
  {
    q.time[f] < q.time[g] || (q.time[f] == q.time[g] && f <= g)
  }

  predicate IsFirst(q: Queue, f: Flow)
    requires q.queued.Keys <= q.time.Keys
  {
    f in q.queued && forall g :: g in q.queued ==> Before(q, f, g)
  }

  lemma BeforeOrder(q: Queue, f: Flow, g: Flow, h: Flow)
    requires f in q.time && g in q.time && h in q.time
    ensures Before(q, f, f)
    ensures Before(q, f, g) || Before(q, g, f)
    ensures Before(q, f, g) && Before(q, g, h) ==> Before(q, f, h)
  {
  }

  ghost predicate Least(q: Queue, s: set<Flow>, f: Flow)
    requires s <= q.time.Keys
  {
    f in s && forall g :: g in s ==> Before(q, f, g)
  }

  lemma {:induction false} FirstExists(q: Queue, s: set<Flow>)
    requires s <= q.time.Keys && s != {}
    ensures exists f :: Least(q, s, f)
    decreases |s|
  {
    hide Before;
    var x :| x in s;
    var rest := s - {x};
    if rest == {} {
      assert s == {x};
      BeforeOrder(q, x, x, x);
      assert Least(q, s, x);
    } else {
      FirstExists(q, rest);
      var y :| Least(q, rest, y);
      var f := if Before(q, x, y) then x else y;
      forall g | g in s ensures Before(q, f, g) {
        BeforeOrder(q, x, y, g);
      }
      assert Least(q, s, f);
    }
  }

  /** The first flow of the queued tree. */
  ghost function First(q: Queue): (f: Flow)
    requires q.queued.Keys <= q.time.Keys && q.queued != map[]
    ensures IsFirst(q, f)
  {
    NonEmptyKeys(q.queued);
    FirstExists(q, q.queued.Keys);
    var f :| Least(q, q.queued.Keys, f);
    f
  }

  lemma NonEmptyKeys(m: map<Flow, nat>)
    requires m != map[]
    ensures m.Keys != {}
  {
    var k :| k in m;
    assert k in m.Keys;
  }

  lemma FirstUnique(q: Queue, f: Flow)
    requires q.queued.Keys <= q.time.Keys && IsFirst(q, f)
    ensures q.queued != map[] && First(q) == f
  {
    assert f in q.queued;
    assert Before(q, f, First(q)) && Before(q, First(q), f);
  }

  /** The queue is working: something is queued, being sent or just finished. */
  predicate Busy(q: Queue) { q.sending.Some? || q.queued != map[] || q.previous.Some? }

  predicate Active(q: Queue, f: Flow) { f in q.queued || q.sending == Some(f) || q.previous == Some(f) }

  /** get_current_time: virtual time, zero when idle. */
  ghost function Current(q: Queue): int
    requires WellFormed(q)
  {
    if q.sending.Some? then q.time[q.sending.value]
    else if q.queued != map[] then
      var t := q.time[First(q)];
      if q.previous.Some? && q.time[q.previous.value] < t then q.time[q.previous.value] else t
    else if q.previous.Some? then q.time[q.previous.value]
    else 0
  }

  function Max(a: int, b: int): int { if a >= b then a else b }

  /** schedule */
  ghost function Schedule(q: Queue): Queue
    requires q.queued.Keys <= q.time.Keys && q.queued != map[]
  {
    var f := First(q);
    q.(queued := q.queued - {f}, sending := Some(f), sendingLen := q.queued[f])
  }

  /** How much increment_sent_flow takes off all times. */
  ghost function Subtrahend(q: Queue, f: Flow): int
    requires q.queued.Keys <= q.time.Keys && f in q.time
  {
    if q.queued == map[] then q.time[f] else q.time[First(q)]
  }

  /** The rebasing loop: the finished flow may underflow and wraps around, others stop at zero. */
  function Rebased(time: map<Flow, int>, f: Flow, s: int, limit: nat): map<Flow, int> {
    map g | g in time :: if s > time[g] && g != f then 0 else (time[g] - s) % (limit + 1)
  }

  /** increment_sent_flow */
  ghost function Charge(limit: Option<nat>, q: Queue, f: Flow, amount: nat): map<Flow, int>
    requires q.queued.Keys <= q.time.Keys && f in q.time
  {
    match limit
    case None => q.time[f := q.time[f] + amount]
    case Some(m) =>
      var time := if amount > m - q.time[f] then Rebased(q.time, f, Subtrahend(q, f), m) else q.time;
      time[f := (time[f] + amount) % (m + 1)]
  }

  datatype Event = NewFlow(f: Flow) | FreeFlow(f: Flow) | Send(f: Flow, len: nat) | Done | ScheduleJob

  predicate Legal(p: Params, q: Queue, e: Event) {
    match e
    case NewFlow(f) => f !in q.time
    case FreeFlow(f) => f in q.time && q.sending != Some(f)
    case Send(f, len) => f in q.time && f !in q.queued && q.sending != Some(f) && len <= p.mtu
    case Done => q.sending.Some?
    case ScheduleJob => q.job
  }

  ghost function SendStep(q: Queue, f: Flow, len: nat): Queue
    requires WellFormed(q) && f in q.time && f !in q.queued && q.sending != Some(f)
  {
    var q1 := if q.previous == Some(f) then q.(previous := None) else q.(time := q.time[f := Max(q.time[f], Current(q))]);
    var q2 := q1.(queued := q1.queued[f := len]);
    if q2.sending.None? && !q2.job then Schedule(q2) else q2
  }

  ghost function DoneStep(limit: Option<nat>, p: Params, q: Queue): Queue
    requires WellFormed(q) && q.sending.Some?
  {
    var f := q.sending.value;
    Queue(Charge(limit, q, f, p.weight + q.sendingLen), q.queued, None, q.sendingLen, Some(f), true)
  }

  ghost function JobStep(q: Queue): Queue
    requires WellFormed(q) && q.job
  {
    var q1 := q.(previous := None, job := false);
    if q1.queued != map[] then Schedule(q1) else q1
  }

  ghost function Step(limit: Option<nat>, p: Params, q: Queue, e: Event): Queue
    requires WellFormed(q) && Legal(p, q, e)
  {
    match e
    case NewFlow(f) => q.(time := q.time[f := 0])
    case FreeFlow(f) =>
      q.(time := q.time - {f}, queued := q.queued - {f}, previous := if q.previous == Some(f) then None else q.previous)
    case Send(f, len) => SendStep(q, f, len)
    case Done => DoneStep(limit, p, q)
    case ScheduleJob => JobStep(q)
  }

  lemma ScheduleWellFormed(q: Queue)
    requires q.queued.Keys <= q.time.Keys && q.queued != map[] && q.sending.None? && q.previous.None? && !q.job
    ensures WellFormed(Schedule(q))
  {
  }

  lemma StepWellFormed(limit: Option<nat>, p: Params, q: Queue, e: Event)
    requires WellFormed(q) && Legal(p, q, e)
    ensures WellFormed(Step(limit, p, q, e))
  {
    hide Before;
    match e {
      case NewFlow(f) =>
      case FreeFlow(f) =>
        if q.queued == map[] { assert q.queued - {f} == map[]; }
      case Send(f, len) =>
        assert f in q.queued[f := len];
      case Done =>
        hide Rebased;
        assert Charge(limit, q, q.sending.value, p.weight + q.sendingLen).Keys == q.time.Keys by { ChargeKeys(limit, q, q.sending.value, p.weight + q.sendingLen); }
      case ScheduleJob =>
    }
  }

  lemma ChargeKeys(limit: Option<nat>, q: Queue, f: Flow, amount: nat)
    requires q.queued.Keys <= q.time.Keys && f in q.time
    ensures Charge(limit, q, f, amount).Keys == q.time.Keys
  {
  }
}
