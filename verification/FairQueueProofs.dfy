/** What every step of the fair queue keeps, and how the rebased clock follows the unbounded one. */
module FairQueueProofs {
  import opened Bytes
  import opened Align
  import opened FairQueueSpec

  // ---- what every step keeps ----

  /** The flow being sent was the first and no queued flow has come before it since. */
  ghost predicate Ordered(q: Queue) {
    q.sending.Some? && q.sending.value in q.time ==>
      forall g :: g in q.queued && g in q.time ==> q.time[q.sending.value] <= q.time[g]
  }

  ghost predicate NonNegative(q: Queue) {
    forall f :: f in q.time ==> 0 <= q.time[f]
  }

  /** Everything a packet in flight costs is within bounds. */
  ghost predicate Lengths(p: Params, q: Queue) {
    && (q.sending.Some? ==> q.sendingLen <= p.mtu)
    && (forall f :: f in q.queued ==> q.queued[f] <= p.mtu)
  }

  ghost predicate Inv(p: Params, q: Queue) {
    WellFormed(q) && Ordered(q) && NonNegative(q) && Lengths(p, q)
  }

  lemma ScheduleKeeps(p: Params, q: Queue)
    requires q.queued.Keys <= q.time.Keys && q.queued != map[] && q.sending.None? && q.previous.None? && !q.job
    requires NonNegative(q) && Lengths(p, q)
    ensures Inv(p, Schedule(q))
  {
    ScheduleWellFormed(q);
    var f := First(q);
    forall g | g in q.queued ensures q.time[f] <= q.time[g] { assert Before(q, f, g); }
  }

  /** Virtual time is at most the time of every active flow. */
  lemma CurrentIsLeast(q: Queue, f: Flow)
    requires WellFormed(q) && Ordered(q) && Active(q, f)
    ensures f in q.time && Current(q) <= q.time[f]
  {
    if q.sending.None? && q.queued != map[] && f in q.queued {
      assert Before(q, First(q), f);
    }
  }

  lemma SendKeeps(p: Params, q: Queue, f: Flow, len: nat)
    requires Inv(p, q) && Legal(p, q, Send(f, len))
    ensures Inv(p, SendStep(q, f, len))
  {
    var q1 := if q.previous == Some(f) then q.(previous := None) else q.(time := q.time[f := Max(q.time[f], Current(q))]);
    var q2 := q1.(queued := q1.queued[f := len]);
    assert f in q2.queued;
    if q2.sending.None? && !q2.job {
      ScheduleKeeps(p, q2);
    }
  }

  lemma JobKeeps(p: Params, q: Queue)
    requires Inv(p, q) && q.job
    ensures Inv(p, JobStep(q))
  {
    var q1 := q.(previous := None, job := false);
    if q1.queued != map[] {
      ScheduleKeeps(p, q1);
    }
  }

  ghost predicate InRange(m: nat, time: map<Flow, int>) {
    forall f :: f in time ==> 0 <= time[f] <= m
  }

  lemma ModIsIdentity(x: int, m: nat)
    requires 0 <= x <= m
    ensures x % (m + 1) == x
  {
  }

  /** A wrap-around below and one above cancel: only the final value has to be in range. */
  lemma WrapBack(x: int, r: int, k: int, n: nat, a: nat)
    requires x == k * n + r
    ensures r + a == (x + a) - k * n
  {
  }

  lemma UnderflowThenOverflow(t: int, s: int, a: nat, m: nat)
    requires 0 <= t - s + a <= m
    ensures ((t - s) % (m + 1) + a) % (m + 1) == t - s + a
  {
    var n := m + 1;
    var x := t - s;
    var k, r := x / n, x % n;
    EuclidIs(x, n);
    WrapBack(x, r, k, n, a);
    assert (r + a) % n == (x + a) % n by { ModShift(x + a, k, n); }
    ModIsIdentity(x + a, m);
  }

  /** What the rebased times are, without any modulus. */
  function Lowered(t: int, s: int): int { if s > t then 0 else t - s }

  /** From `old_` to `new_`, `f` was charged `amount` and `s` was taken off all times, cutting off at zero only flows
      that are not queued. */
  ghost predicate Charged(queued: set<Flow>, old_: map<Flow, int>, new_: map<Flow, int>, f: Flow, amount: nat, s: int) {
    && s >= 0 && new_.Keys == old_.Keys && f in old_
    && new_[f] == old_[f] + amount - s >= 0
    && (forall g :: g in queued && g in old_ ==> new_[g] == old_[g] - s)
    && (forall g :: g in old_ && g != f ==> new_[g] == Lowered(old_[g], s))
  }

  /**
   Rebasing with deliberate underflow: the finished flow ends up charged exactly, every queued flow keeps its distance
   to it, only flows that are not queued are cut off at zero, and all times are in range.
   */
  lemma ChargeExact(m: nat, q: Queue, f: Flow, amount: nat)
    requires q.queued.Keys <= q.time.Keys && f in q.time && f !in q.queued && InRange(m, q.time) && amount <= m
    requires forall g :: g in q.queued ==> q.time[f] <= q.time[g]
    ensures InRange(m, Charge(Some(m), q, f, amount))
    ensures Charged(q.queued.Keys, q.time, Charge(Some(m), q, f, amount), f, amount,
                    if amount > m - q.time[f] then Subtrahend(q, f) else 0)
  {
    hide Subtrahend;
    if amount > m - q.time[f] {
      var s := Subtrahend(q, f);
      SubtrahendBounds(m, q, f);
      SubtrahendLeast(q, f);
      ChargeRebased(m, q.time, q.queued.Keys, f, amount, s);
    } else {
      ModIsIdentity(q.time[f] + amount, m);
    }
  }

  lemma SubtrahendLeast(q: Queue, f: Flow)
    requires q.queued.Keys <= q.time.Keys && f in q.time
    ensures forall g :: g in q.queued ==> Subtrahend(q, f) <= q.time[g]
  {
    forall g | g in q.queued ensures Subtrahend(q, f) <= q.time[g] {
      assert Before(q, First(q), g);
    }
  }

  /** Rebasing by `s`, then the charge. */
  lemma ChargeRebased(m: nat, was: map<Flow, int>, queued: set<Flow>, f: Flow, amount: nat, s: int)
    requires f in was && f !in queued && queued <= was.Keys && InRange(m, was) && 0 <= s && 0 <= was[f] - s + amount <= m
    requires forall g :: g in queued ==> s <= was[g]
    ensures var r := Rebased(was, f, s, m);
            var t := r[f := (r[f] + amount) % (m + 1)];
            InRange(m, t) && Charged(queued, was, t, f, amount, s)
  {
    hide Rebased, Lowered, Charged, InRange;
    RebasedIs(m, was, f, s);
    UnderflowThenOverflow(was[f], s, amount, m);
    var r := Rebased(was, f, s, m);
    LoweredCharged(m, was, r[f := (r[f] + amount) % (m + 1)], queued, f, amount, s);
  }

  lemma LoweredCharged(m: nat, was: map<Flow, int>, t: map<Flow, int>, queued: set<Flow>, f: Flow, amount: nat, s: int)
    requires f in was && f !in queued && queued <= was.Keys && InRange(m, was) && 0 <= s && t.Keys == was.Keys
    requires 0 <= t[f] == was[f] - s + amount <= m && forall g :: g in was && g != f ==> t[g] == Lowered(was[g], s)
    requires forall g :: g in queued ==> s <= was[g]
    ensures InRange(m, t) && Charged(queued, was, t, f, amount, s)
  {
    hide Lowered;
    forall g | g in queued ensures Lowered(was[g], s) == was[g] - s { LoweredIs(was[g], s, m); }
    forall g | g in was ensures 0 <= Lowered(was[g], s) <= m { LoweredIs(was[g], s, m); }
  }

  lemma LoweredIs(t: int, s: int, m: nat)
    requires 0 <= t <= m && 0 <= s
    ensures 0 <= Lowered(t, s) <= m && (s <= t ==> Lowered(t, s) == t - s)
  {
  }

  lemma RebasedIs(m: nat, was: map<Flow, int>, f: Flow, s: int)
    requires f in was && InRange(m, was) && 0 <= s
    ensures var r := Rebased(was, f, s, m);
            && r.Keys == was.Keys && r[f] == (was[f] - s) % (m + 1)
            && forall g :: g in was && g != f ==> r[g] == Lowered(was[g], s)
  {
    forall g | g in was && s <= was[g] ensures (was[g] - s) % (m + 1) == was[g] - s { ModIsIdentity(was[g] - s, m); }
  }

  lemma SubtrahendBounds(m: nat, q: Queue, f: Flow)
    requires q.queued.Keys <= q.time.Keys && f in q.time && InRange(m, q.time)
    requires forall g :: g in q.queued ==> q.time[f] <= q.time[g]
    ensures q.time[f] <= Subtrahend(q, f) <= m
  {
  }

  // ---- refinement of the unbounded clock ----

  function AsSet(o: Option<Flow>): set<Flow> { if o.Some? then {o.value} else {} }

  function ActiveSet(q: Queue): set<Flow> { q.queued.Keys + AsSet(q.sending) + AsSet(q.previous) }

  /** Both machines queue, send and remember the same flows. */
  ghost predicate Same(b: Queue, u: Queue) {
    b.queued == u.queued && b.sending == u.sending && b.sendingLen == u.sendingLen && b.previous == u.previous && b.job == u.job
  }

  /** `base` is off every time; times of flows not in `act` were cut off at zero. */
  ghost predicate Shifted(act: set<Flow>, bt: map<Flow, int>, ut: map<Flow, int>, base: int) {
    && base >= 0
    && bt.Keys == ut.Keys
    && (forall f :: f in act && f in bt ==> bt[f] == ut[f] - base)
    && (forall f :: f in bt ==> bt[f] == Max(0, ut[f] - base))
  }

  /** `b` runs on rebased times; `base` has been taken off since it was equal to the unbounded `u`. */
  ghost predicate Rel(b: Queue, u: Queue, base: int) {
    Same(b, u) && Shifted(ActiveSet(b), b.time, u.time, base)
  }

  lemma ShiftedBefore(b: Queue, u: Queue, act: set<Flow>, base: int, f: Flow, g: Flow)
    requires Shifted(act, b.time, u.time, base) && f in act && g in act && f in b.time && g in b.time
    ensures Before(b, f, g) <==> Before(u, f, g)
  {
  }

  lemma RelFirst(b: Queue, u: Queue, base: int)
    requires b.queued.Keys <= b.time.Keys && Rel(b, u, base) && b.queued != map[]
    ensures u.queued.Keys <= u.time.Keys && First(b) == First(u)
  {
    var f := First(u);
    forall g | g in b.queued ensures Before(b, f, g) {
      assert Before(u, f, g);
      ShiftedBefore(b, u, ActiveSet(b), base, f, g);
    }
    FirstUnique(b, f);
  }

  lemma RelCurrent(b: Queue, u: Queue, base: int)
    requires WellFormed(b) && WellFormed(u) && Rel(b, u, base) && Busy(b)
    ensures Current(b) == Current(u) - base
  {
    if b.queued != map[] {
      RelFirst(b, u, base);
      assert First(b) in ActiveSet(b);
    }
    assert b.sending.Some? ==> b.sending.value in ActiveSet(b);
    assert b.previous.Some? ==> b.previous.value in ActiveSet(b);
    hide IsFirst;
  }

  lemma ShiftedSub(a: set<Flow>, a': set<Flow>, bt: map<Flow, int>, ut: map<Flow, int>, base: int)
    requires Shifted(a, bt, ut, base) && a' <= a
    ensures Shifted(a', bt, ut, base)
  {
  }

  lemma ShiftedPut(a: set<Flow>, bt: map<Flow, int>, ut: map<Flow, int>, base: int, f: Flow, x: int, y: int)
    requires Shifted(a, bt, ut, base) && x == y - base && x >= 0
    ensures Shifted(a + {f}, bt[f := x], ut[f := y], base)
  {
  }

  lemma RelSchedule(b: Queue, u: Queue, base: int)
    requires b.queued.Keys <= b.time.Keys && Rel(b, u, base) && b.queued != map[] && b.sending.None?
    ensures u.queued.Keys <= u.time.Keys && Rel(Schedule(b), Schedule(u), base)
  {
    RelFirst(b, u, base);
    assert ActiveSet(Schedule(b)) <= ActiveSet(b);
    hide IsFirst;
    ShiftedSub(ActiveSet(b), ActiveSet(Schedule(b)), b.time, u.time, base);
    hide Shifted;
  }

  lemma RelSend(p: Params, b: Queue, u: Queue, base: int, f: Flow, len: nat)
    requires Inv(p, b) && Inv(p, u) && Rel(b, u, base) && Busy(b) && Legal(p, b, Send(f, len))
    ensures Rel(SendStep(b, f, len), SendStep(u, f, len), base)
  {
    RelCurrent(b, u, base);
    assert b.sending.Some? || b.job;
    if b.previous == Some(f) {
      var b', u' := SendStep(b, f, len), SendStep(u, f, len);
      assert ActiveSet(b') <= ActiveSet(b);
      ShiftedSub(ActiveSet(b), ActiveSet(b'), b.time, u.time, base);
    } else {
      var x, y := Max(b.time[f], Current(b)), Max(u.time[f], Current(u));
      RaiseShifted(b, u, base, f, x, y);
      hide Current;
      ShiftedPut(ActiveSet(b), b.time, u.time, base, f, x, y);
      var b' := SendStep(b, f, len);
      assert ActiveSet(b') == ActiveSet(b) + {f};
      hide Shifted;
    }
  }

  lemma RaiseShifted(b: Queue, u: Queue, base: int, f: Flow, x: int, y: int)
    requires Shifted(ActiveSet(b), b.time, u.time, base) && NonNegative(b) && f in b.time
    requires WellFormed(b) && WellFormed(u) && Busy(b) && Current(b) == Current(u) - base
    requires x == Max(b.time[f], Current(b)) && y == Max(u.time[f], Current(u))
    ensures x == y - base && x >= 0
  {
    assert Current(b) >= 0;
    hide Current;
  }

  lemma RelJob(p: Params, b: Queue, u: Queue, base: int)
    requires Inv(p, b) && Rel(b, u, base) && b.job && WellFormed(u)
    ensures Rel(JobStep(b), JobStep(u), base)
  {
    var b1, u1 := b.(previous := None, job := false), u.(previous := None, job := false);
    assert ActiveSet(b1) <= ActiveSet(b);
    ShiftedSub(ActiveSet(b), ActiveSet(b1), b.time, u.time, base);
    if b1.queued != map[] {
      RelSchedule(b1, u1, base);
    }
  }

  /** How far times are moved when the flow being sent is charged. */
  ghost function Move(p: Params, m: nat, b: Queue): int
    requires Inv(p, b) && b.sending.Some?
  {
    if p.weight + b.sendingLen > m - b.time[b.sending.value] then Subtrahend(b, b.sending.value) else 0
  }

  lemma DoneTimes(p: Params, m: nat, b: Queue, u: Queue, base: int)
    requires Inv(p, b) && Inv(p, u) && Same(b, u) && b.sending.Some? && InRange(m, b.time) && p.Cost() <= m
    requires Shifted(b.queued.Keys + {b.sending.value}, b.time, u.time, base)
    ensures Move(p, m, b) >= 0
    ensures Shifted(b.queued.Keys + {b.sending.value}, DoneStep(Some(m), p, b).time, DoneStep(None, p, u).time, base + Move(p, m, b))
  {
    hide Inv, Subtrahend, Charge, Charged, Shifted, InRange;
    DoneReady(p, b);
    DoneReady(p, u);
    var f, amount, s := b.sending.value, p.weight + b.sendingLen, Move(p, m, b);
    ChargeExact(m, b, f, amount);
    ChargeNone(u, f, amount);
    var bt, ut := Charge(Some(m), b, f, amount), Charge(None, u, f, amount);
    ShiftedCharged(b.queued.Keys, b.time, u.time, base, f, amount, s, bt, ut);
    assert s >= 0 by { ChargedBase(b.queued.Keys, b.time, bt, f, amount, s); }
  }

  lemma RelDone(p: Params, m: nat, b: Queue, u: Queue, base: int)
    requires Inv(p, b) && Inv(p, u) && Rel(b, u, base) && b.sending.Some? && InRange(m, b.time) && p.Cost() <= m
    ensures Rel(DoneStep(Some(m), p, b), DoneStep(None, p, u), base + Move(p, m, b))
  {
    hide Shifted, WellFormed, Ordered, NonNegative, Lengths, Charge, InRange, Subtrahend;
    DoneReady(p, b);
    var b' := DoneStep(Some(m), p, b);
    assert ActiveSet(b) == b.queued.Keys + {b.sending.value};
    assert ActiveSet(b') == b.queued.Keys + {b.sending.value};
    DoneTimes(p, m, b, u, base);
  }

  lemma ShiftedCharged(queued: set<Flow>, b: map<Flow, int>, u: map<Flow, int>, base: int, f: Flow, amount: nat, s: int,
                       bt: map<Flow, int>, ut: map<Flow, int>)
    requires Shifted(queued + {f}, b, u, base) && Charged(queued, b, bt, f, amount, s) && f !in queued
    requires ut.Keys == u.Keys && (forall g :: g in u ==> ut[g] == if g == f then u[f] + amount else u[g])
    ensures Shifted(queued + {f}, bt, ut, base + s)
  {
    forall g | g in queued + {f} && g in bt ensures bt[g] == ut[g] - (base + s) {
      assert b[g] == u[g] - base;
    }
    forall g | g in bt ensures bt[g] == Max(0, ut[g] - (base + s)) {
      assert b[g] == Max(0, u[g] - base);
    }
  }

  lemma DoneReady(p: Params, q: Queue)
    requires Inv(p, q) && q.sending.Some?
    ensures var f := q.sending.value;
            && q.queued.Keys <= q.time.Keys && f in q.time && f !in q.queued && p.weight + q.sendingLen <= p.Cost()
            && q.previous.None?
            && forall g :: g in q.queued ==> q.time[f] <= q.time[g]
  {
  }

  lemma ChargedBase(queued: set<Flow>, old_: map<Flow, int>, new_: map<Flow, int>, f: Flow, amount: nat, s: int)
    requires Charged(queued, old_, new_, f, amount, s)
    ensures s >= 0
  {
  }

  lemma ChargeNone(u: Queue, f: Flow, amount: nat)
    requires u.queued.Keys <= u.time.Keys && f in u.time
    ensures var ut := Charge(None, u, f, amount);
            ut.Keys == u.time.Keys && forall g :: g in u.time ==> ut[g] == if g == f then u.time[f] + amount else u.time[g]
  {
  }
}
