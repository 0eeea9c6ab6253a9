/**
 Why a flow that sends again at once stays in the running: the fair queue sets its schedule job and then reports the
 packet done, and jobs run last set first.
 */
module FairQueueJobs {
  import opened Bytes
  import opened Lists
  import opened Pending
  import opened PacketPassSpec
  import Q = FairQueueSpec
  import QP = FairQueueProofs
  import QF = FairQueueFairness

  /** The jobs in front of `x`. */
  function InFront(jobs: seq<Job>, x: Job): seq<Job> {
    if jobs == [] || jobs[0] == x then [] else [jobs[0]] + InFront(jobs[1..], x)
  }

  lemma {:induction false} InFrontIn(jobs: seq<Job>, x: Job, j: Job)
    ensures j in InFront(jobs, x) ==> j in jobs && j != x
  {
    if jobs != [] && jobs[0] != x {
      InFrontIn(jobs[1..], x, j);
      assert jobs == [jobs[0]] + jobs[1..];
    }
  }

  /** Taking another job off the list leaves the rest in front. */
  lemma {:induction false} InFrontWithout(jobs: seq<Job>, x: Job, k: Job, j: Job)
    requires k != x && j != k && j in InFront(jobs, x)
    ensures j in InFront(Without(jobs, k), x)
  {
    if jobs[0] != k && j != jobs[0] {
      InFrontWithout(jobs[1..], x, k, j);
    } else if jobs[0] == k {
      assert InFront(jobs, x) == [k] + InFront(jobs[1..], x);
    }
  }

  /** What is pending of interface `i` is in front of job `x`, and `x` is pending. */
  ghost predicate Sooner(jobs: seq<Job>, x: Job, i: nat) {
    && x in jobs
    && (forall j :: j in jobs && (j == Operation(i) || j == Done(i)) ==> j in InFront(jobs, x))
  }

  lemma SetSooner(jobs: seq<Job>, x: Job, i: nat, k: Job)
    requires Distinct(jobs) && Sooner(jobs, x, i) && k != x
    ensures Sooner(Apply(jobs, Set(k)), x, i)
  {
    SetIs(jobs, k);
    var js := Apply(jobs, Set(k));
    assert js[1..] == Without(jobs, k);
    forall j | j in js && (j == Operation(i) || j == Done(i)) ensures j in InFront(js, x) {
      if j != k { InFrontWithout(jobs, x, k, j); }
    }
  }

  lemma UnsetSooner(jobs: seq<Job>, x: Job, i: nat, k: Job)
    requires Distinct(jobs) && Sooner(jobs, x, i) && k != x
    ensures Sooner(Apply(jobs, Unset(k)), x, i)
  {
    UnsetIs(jobs, k);
    var js := Apply(jobs, Unset(k));
    forall j | j in js && (j == Operation(i) || j == Done(i)) ensures j in InFront(js, x) {
      InFrontWithout(jobs, x, k, j);
    }
  }

  lemma ExecuteSooner(jobs: seq<Job>, x: Job, i: nat)
    requires Distinct(jobs) && Sooner(jobs, x, i) && jobs[0] != x
    ensures Sooner(Apply(jobs, Execute), x, i)
  {
    WithoutFirst(jobs);
    UnsetSooner(jobs, x, i, jobs[0]);
  }

  /** An event that leaves the schedule job alone. */
  predicate Leaves(st: State, e: Event, k: nat) {
    e != SetOther(k) && e != UnsetOther(k) && (e.RunJob? ==> st.jobs != [] && st.jobs[0] != Other(k))
  }

  lemma StepSooner(st: State, e: Event, i: nat, k: nat)
    requires Inv(st) && Possible(st, e) && Leaves(st, e, k) && Sooner(st.jobs, Other(k), i)
    ensures Sooner(Step(st, e).jobs, Other(k), i)
  {
    hide Apply, Sooner, Distinct;
    match e
    case Send(n, _) => SetSooner(st.jobs, Other(k), i, Operation(n));
    case Cancel(n) =>
      UnsetIs(st.jobs, Operation(n));
      UnsetSooner(st.jobs, Other(k), i, Operation(n));
      SetSooner(Apply(st.jobs, Unset(Operation(n))), Other(k), i, Done(n));
      SetSooner(st.jobs, Other(k), i, RequestCancel(n));
    case Complete(n) =>
      UnsetIs(st.jobs, RequestCancel(n));
      UnsetSooner(st.jobs, Other(k), i, RequestCancel(n));
      SetSooner(Apply(st.jobs, Unset(RequestCancel(n))), Other(k), i, Done(n));
    case RunJob => ExecuteSooner(st.jobs, Other(k), i);
    case SetOther(n) => SetSooner(st.jobs, Other(k), i, Other(n));
    case UnsetOther(n) => UnsetSooner(st.jobs, Other(k), i, Other(n));
  }

  /** A run up to the schedule job. */
  ghost predicate RunUpTo(st: State, es: seq<Event>, k: nat)
    decreases |es|
  {
    es == [] || (Possible(st, es[0]) && Leaves(st, es[0], k) && RunUpTo(Step(st, es[0]), es[1..], k))
  }

  lemma {:induction false} RunSooner(st: State, es: seq<Event>, i: nat, k: nat)
    requires Inv(st) && i in st.ifs && RunUpTo(st, es, k) && Sooner(st.jobs, Other(k), i)
    ensures PossibleRun(st, es) && Inv(PacketPassSpec.Run(st, es)) && i in PacketPassSpec.Run(st, es).ifs
    ensures Sooner(PacketPassSpec.Run(st, es).jobs, Other(k), i)
    decreases |es|
  {
    hide Inv, Step, Possible, Sooner;
    if es != [] {
      StepFollows(st, es[0], i);
      StepSooner(st, es[0], i, k);
      RunSooner(Step(st, es[0]), es[1..], i, k);
    }
  }

  /** The end of output_handler_done: the schedule job is set, then the packet of flow `f` reported. */
  function Reported(st: State, f: nat, k: nat): State
    requires Possible(st, Complete(f))
  {
    Step(Step(st, SetOther(k)), Complete(f))
  }

  lemma DoneSooner(st: State, f: nat, k: nat)
    requires Inv(st) && Possible(st, Complete(f))
    ensures Sooner(Reported(st, f, k).jobs, Other(k), f)
  {
    hide Apply, InFront, Distinct;
    SetIs(st.jobs, Other(k));
    var js := Apply(st.jobs, Set(Other(k)));
    UnsetIs(js, RequestCancel(f));
    var ks := Apply(js, Unset(RequestCancel(f)));
    SetIs(ks, Done(f));
    FirstInFront(ks, Done(f), Other(k));
  }

  lemma ReportedSooner(st: State, f: nat, k: nat)
    requires Inv(st) && Possible(st, Complete(f))
    ensures Inv(Reported(st, f, k)) && f in Reported(st, f, k).ifs
    ensures Sooner(Reported(st, f, k).jobs, Other(k), f)
  {
    hide Apply, Inv, Sooner;
    StepFollows(st, SetOther(k), f);
    var s1 := Step(st, SetOther(k));
    StepFollows(s1, Complete(f), f);
    DoneSooner(st, f, k);
  }

  lemma FirstInFront(jobs: seq<Job>, j: Job, x: Job)
    requires j != x
    ensures j in InFront(Apply(jobs, Set(j)), x)
  {
  }

  /**
   Whatever happens between a packet being done and the schedule job running, by then the sender has had its report, and
   if it sent again the new packet has already been given to the queue.
   */
  lemma QueuedBeforeSchedule(st: State, f: nat, k: nat, es: seq<Event>)
    requires Inv(st) && Possible(st, Complete(f)) && RunUpTo(Reported(st, f, k), es, k)
    requires PossibleRun(Reported(st, f, k), es) && PacketPassSpec.Run(Reported(st, f, k), es).jobs != []
    requires PacketPassSpec.Run(Reported(st, f, k), es).jobs[0] == Other(k)
    ensures var r := PacketPassSpec.Run(Reported(st, f, k), es);
            f in r.ifs && (r.ifs[f].phase.Nothing? || r.ifs[f].phase.Busy?)
  {
    hide Step, PacketPassSpec.Run, RunUpTo, PossibleRun;
    ReportedSooner(st, f, k);
    RunSooner(Reported(st, f, k), es, f, k);
    var r := PacketPassSpec.Run(Reported(st, f, k), es);
    assert InFront(r.jobs, Other(k)) == [];
  }

  /** A flow given its next packet before the schedule job runs stays backlogged, at the time it was charged up to. */
  lemma ResendStays(limit: Option<nat>, p: Q.Params, q: Q.Queue, f: Q.Flow, len: nat)
    requires QP.Inv(p, q) && QF.RangeOk(limit, p, q) && q.sending == Some(f) && len <= p.mtu
    ensures var es := [Q.Done, Q.Send(f, len), Q.ScheduleJob];
            && QF.BusyRun(limit, p, q, es) && QF.Backlogged(limit, p, q, es, f)
            && var r := QF.Final(limit, p, q, es);
               f in r.time && f in Q.DoneStep(limit, p, q).time && r.time[f] == Q.DoneStep(limit, p, q).time[f]
  {
    hide Q.Charge, QP.Ordered, QP.NonNegative, QP.Lengths, QF.RangeOk;
    var es := [Q.Done, Q.Send(f, len), Q.ScheduleJob];
    QF.StepKeeps(limit, p, q, Q.Done);
    var q1 := Q.Step(limit, p, q, Q.Done);
    QF.StepKeeps(limit, p, q1, Q.Send(f, len));
    var q2 := Q.Step(limit, p, q1, Q.Send(f, len));
    assert q2 == q1.(previous := None, queued := q1.queued[f := len]) && f in q2.queued;
    QF.StepKeeps(limit, p, q2, Q.ScheduleJob);
    var q3 := Q.Step(limit, p, q2, Q.ScheduleJob);
    assert es[1..] == [Q.Send(f, len), Q.ScheduleJob] && es[1..][1..] == [Q.ScheduleJob] && es[1..][1..][1..] == [];
    assert Q.Active(q3, f);
    assert QF.BusyRun(limit, p, q3, []) && QF.Backlogged(limit, p, q3, [], f);
    assert QF.BusyRun(limit, p, q2, [Q.ScheduleJob]) && QF.Backlogged(limit, p, q2, [Q.ScheduleJob], f);
    assert QF.Final(limit, p, q3, []) == q3 && QF.Final(limit, p, q2, [Q.ScheduleJob]) == q3;
    assert QF.Final(limit, p, q1, es[1..]) == q3;
    assert f in q1.time && f in q3.time && q3.time[f] == q1.time[f];
  }
}
