/** Packet-pass interfaces: a sender and a provider that talk through jobs on one pending list. */
module PacketPassSpec {
  import opened Bytes
  import opened Lists
  import opened Pending

  datatype Phase = Nothing | OperationPending | Busy | DonePending

  datatype Ppi = Ppi(phase: Phase, cancelRequested: bool, hasCancel: bool, data: seq<byte>)

  // ---- the calls, on one interface and the list ----

  function Sent(p: Ppi, jobs: seq<Job>, i: nat, data: seq<byte>): (Ppi, seq<Job>) {
    (p.(phase := OperationPending, cancelRequested := false, data := data), Apply(jobs, Set(Operation(i))))
  }

  function Cancelled(p: Ppi, jobs: seq<Job>, i: nat): (Ppi, seq<Job>) {
    if p.cancelRequested then (p, jobs)
    else
      var q := p.(cancelRequested := true);
      match p.phase
      case OperationPending => (q.(phase := DonePending), Apply(Apply(jobs, Unset(Operation(i))), Set(Done(i))))
      case Busy => (q, Apply(jobs, Set(RequestCancel(i))))
      case _ => (q, jobs)
  }

  function Completed(p: Ppi, jobs: seq<Job>, i: nat): (Ppi, seq<Job>) {
    (p.(phase := DonePending), Apply(Apply(jobs, Unset(RequestCancel(i))), Set(Done(i))))
  }

  // ---- all interfaces of a list ----

  datatype State = State(ifs: map<nat, Ppi>, jobs: seq<Job>)

  datatype Event = Send(i: nat, data: seq<byte>) | Cancel(i: nat) | Complete(i: nat) | RunJob | SetOther(k: nat) | UnsetOther(k: nat)

  predicate Possible(st: State, e: Event) {
    match e
    case Send(i, _) => i in st.ifs && st.ifs[i].phase.Nothing?
    case Cancel(i) => i in st.ifs && !st.ifs[i].phase.Nothing? && st.ifs[i].hasCancel
    case Complete(i) => i in st.ifs && st.ifs[i].phase.Busy?
    case RunJob => st.jobs != []
    case _ => true
  }

  function With(st: State, i: nat, r: (Ppi, seq<Job>)): State { State(st.ifs[i := r.0], r.1) }

  /** The first job runs: an operation starts, a cancel request is passed on, or a packet is reported done. */
  function Ran(st: State): State
    requires st.jobs != []
  {
    var rest := Apply(st.jobs, Execute);
    match st.jobs[0]
    case Operation(i) => if i in st.ifs then With(st, i, (st.ifs[i].(phase := Busy), rest)) else st.(jobs := rest)
    case Done(i) => if i in st.ifs then With(st, i, (st.ifs[i].(phase := Nothing), rest)) else st.(jobs := rest)
    case _ => st.(jobs := rest)
  }

  function Step(st: State, e: Event): State
    requires Possible(st, e)
  {
    match e
    case Send(i, data) => With(st, i, Sent(st.ifs[i], st.jobs, i, data))
    case Cancel(i) => With(st, i, Cancelled(st.ifs[i], st.jobs, i))
    case Complete(i) => With(st, i, Completed(st.ifs[i], st.jobs, i))
    case RunJob => Ran(st)
    case SetOther(k) => st.(jobs := Apply(st.jobs, Set(Other(k))))
    case UnsetOther(k) => st.(jobs := Apply(st.jobs, Unset(Other(k))))
  }

  // ---- the invariant ----

  /** Which of its jobs are pending is settled by an interface's state, but for the cancel job. */
  predicate Fits(p: Ppi, jobs: seq<Job>, i: nat) {
    && (Operation(i) in jobs <==> p.phase.OperationPending?)
    && (Done(i) in jobs <==> p.phase.DonePending?)
    && (RequestCancel(i) in jobs ==> p.phase.Busy? && p.cancelRequested && p.hasCancel)
    && (p.phase.OperationPending? ==> !p.cancelRequested)
  }

  ghost predicate Inv(st: State) {
    && Distinct(st.jobs)
    && (forall i :: i in st.ifs ==> Fits(st.ifs[i], st.jobs, i))
    && (forall j :: j in st.jobs && !j.Other? ==> j.i in st.ifs)
  }

  // ---- what the two sides see ----

  datatype Obs = Sends(data: seq<byte>) | Cancels | Starts(data: seq<byte>) | ToldToCancel | Completes | Finishes

  /** What an event looks like at interface `i`. */
  function Seen(st: State, e: Event, i: nat): seq<Obs>
    requires Possible(st, e)
  {
    match e
    case Send(k, data) => if k == i then [Sends(data)] else []
    case Cancel(k) => if k == i then [Cancels] else []
    case Complete(k) => if k == i then [Completes] else []
    case RunJob =>
      if st.jobs[0] == Operation(i) && i in st.ifs then [Starts(st.ifs[i].data)]
      else if st.jobs[0] == RequestCancel(i) then [ToldToCancel]
      else if st.jobs[0] == Done(i) then [Finishes]
      else []
    case _ => []
  }

  /** The protocol as either side may rely on it. */
  datatype View = Idle | Queued(data: seq<byte>) | Working | Asked | Told | Ending

  /** `None` where the protocol does not allow what happened. */
  function Next(v: View, o: Obs): Option<View> {
    match (v, o)
    case (Idle, Sends(d)) => Some(Queued(d))
    case (Queued(d), Starts(e)) => if d == e then Some(Working) else None
    case (Queued(_), Cancels) => Some(Ending)
    case (Working, Cancels) => Some(Asked)
    case (Working, Completes) => Some(Ending)
    case (Asked, Cancels) => Some(Asked)
    case (Asked, ToldToCancel) => Some(Told)
    case (Asked, Completes) => Some(Ending)
    case (Told, Cancels) => Some(Told)
    case (Told, Completes) => Some(Ending)
    case (Ending, Cancels) => Some(Ending)
    case (Ending, Finishes) => Some(Idle)
    case _ => None
  }

  function Follow(v: View, os: seq<Obs>): Option<View>
    decreases |os|
  {
    if os == [] then Some(v)
    else var n := Next(v, os[0]); if n.None? then None else Follow(n.value, os[1..])
  }

  function ViewOf(p: Ppi, jobs: seq<Job>, i: nat): View {
    match p.phase
    case Nothing => Idle
    case OperationPending => Queued(p.data)
    case Busy => if !p.cancelRequested then Working else if RequestCancel(i) in jobs then Asked else Told
    case DonePending => Ending
  }

  // ---- one step ----

  lemma SetIs(jobs: seq<Job>, k: Job)
    requires Distinct(jobs)
    ensures var js := Apply(jobs, Set(k)); Distinct(js) && forall j :: j in js <==> j == k || j in jobs
  {
    WithoutIs(jobs, k);
    var w := Without(jobs, k);
    assert k !in w;
    assert forall j :: j in [k] + w <==> j == k || j in w;
  }

  lemma UnsetIs(jobs: seq<Job>, k: Job)
    requires Distinct(jobs)
    ensures var js := Apply(jobs, Unset(k)); Distinct(js) && forall j :: j in js <==> j != k && j in jobs
  {
    WithoutIs(jobs, k);
  }

  lemma ExecuteIs(jobs: seq<Job>)
    requires Distinct(jobs) && jobs != []
    ensures var js := Apply(jobs, Execute); Distinct(js) && forall j :: j in js <==> j != jobs[0] && j in jobs
  {
    WithoutFirst(jobs);
    WithoutIs(jobs, jobs[0]);
  }

  /** Only jobs of interface `i` came or went. */
  ghost predicate Framed(was: seq<Job>, jobs: seq<Job>, i: nat) {
    forall j: Job :: j.Other? || j.i != i ==> (j in jobs <==> j in was)
  }

  /** What a call on interface `i` must do to be a step of the protocol. */
  ghost predicate Moves(p: Ppi, jobs: seq<Job>, i: nat, r: (Ppi, seq<Job>), os: seq<Obs>) {
    && Distinct(r.1) && Framed(jobs, r.1, i) && Fits(r.0, r.1, i)
    && Follow(ViewOf(p, jobs, i), os) == Some(ViewOf(r.0, r.1, i))
  }

  lemma FollowOne(v: View, o: Obs)
    ensures Follow(v, [o]) == Next(v, o)
  {
    assert [o][1..] == [];
  }

  lemma SentMoves(p: Ppi, jobs: seq<Job>, i: nat, data: seq<byte>)
    requires Distinct(jobs) && Fits(p, jobs, i) && p.phase.Nothing?
    ensures Moves(p, jobs, i, Sent(p, jobs, i, data), [Sends(data)])
  {
    hide Apply, Distinct, Follow;
    SetIs(jobs, Operation(i));
    FollowOne(ViewOf(p, jobs, i), Sends(data));
  }

  lemma CancelledMoves(p: Ppi, jobs: seq<Job>, i: nat)
    requires Distinct(jobs) && Fits(p, jobs, i) && !p.phase.Nothing? && p.hasCancel
    ensures Moves(p, jobs, i, Cancelled(p, jobs, i), [Cancels])
  {
    hide Apply, Distinct, Follow;
    UnsetIs(jobs, Operation(i));
    SetIs(Apply(jobs, Unset(Operation(i))), Done(i));
    SetIs(jobs, RequestCancel(i));
    FollowOne(ViewOf(p, jobs, i), Cancels);
  }

  lemma CompletedMoves(p: Ppi, jobs: seq<Job>, i: nat)
    requires Distinct(jobs) && Fits(p, jobs, i) && p.phase.Busy?
    ensures Moves(p, jobs, i, Completed(p, jobs, i), [Completes])
  {
    hide Apply, Distinct, Follow;
    UnsetIs(jobs, RequestCancel(i));
    SetIs(Apply(jobs, Unset(RequestCancel(i))), Done(i));
    FollowOne(ViewOf(p, jobs, i), Completes);
  }

  /** The interface whose job runs. */
  function RanOn(p: Ppi, jobs: seq<Job>): (Ppi, seq<Job>)
    requires jobs != []
  {
    (match jobs[0] case Operation(_) => p.(phase := Busy) case Done(_) => p.(phase := Nothing) case _ => p, Apply(jobs, Execute))
  }

  lemma RanMoves(p: Ppi, jobs: seq<Job>, i: nat)
    requires Distinct(jobs) && Fits(p, jobs, i) && jobs != [] && !jobs[0].Other? && jobs[0].i == i
    ensures Moves(p, jobs, i, RanOn(p, jobs),
              [match jobs[0] case Operation(_) => Starts(p.data) case RequestCancel(_) => ToldToCancel case Done(_) => Finishes])
  {
    hide Apply, Distinct, Follow;
    ExecuteIs(jobs);
    assert jobs[0] in jobs;
    FollowOne(ViewOf(p, jobs, i), match jobs[0] case Operation(_) => Starts(p.data) case RequestCancel(_) => ToldToCancel case Done(_) => Finishes);
  }

  /** The other interfaces do not notice. */
  lemma Unmoved(p: Ppi, was: seq<Job>, jobs: seq<Job>, i: nat, k: nat)
    requires Framed(was, jobs, i) && k != i
    ensures Fits(p, was, k) <==> Fits(p, jobs, k)
    ensures ViewOf(p, was, k) == ViewOf(p, jobs, k)
  {
    assert Operation(k) in jobs <==> Operation(k) in was;
    assert Done(k) in jobs <==> Done(k) in was;
    assert RequestCancel(k) in jobs <==> RequestCancel(k) in was;
  }

  lemma WithKeeps(st: State, i: nat, r: (Ppi, seq<Job>), os: seq<Obs>)
    requires Inv(st) && i in st.ifs && Moves(st.ifs[i], st.jobs, i, r, os)
    ensures Inv(With(st, i, r))
  {
    hide Fits, Distinct, Follow, ViewOf;
    var t := With(st, i, r);
    forall k | k in t.ifs ensures Fits(t.ifs[k], t.jobs, k) {
      if k != i { Unmoved(st.ifs[k], st.jobs, r.1, i, k); }
    }
    forall j | j in t.jobs && !j.Other? ensures j.i in t.ifs {
      if j.i != i { assert j in st.jobs; }
    }
  }

  /** A job of no interface comes or goes. */
  lemma OtherKeeps(st: State, jobs: seq<Job>)
    requires Inv(st) && Distinct(jobs) && forall j: Job :: !j.Other? ==> (j in jobs <==> j in st.jobs)
    ensures Inv(st.(jobs := jobs))
    ensures forall i :: i in st.ifs ==> ViewOf(st.ifs[i], jobs, i) == ViewOf(st.ifs[i], st.jobs, i)
  {
    hide Distinct;
    forall i | i in st.ifs ensures Fits(st.ifs[i], jobs, i) && ViewOf(st.ifs[i], jobs, i) == ViewOf(st.ifs[i], st.jobs, i) {
      assert Fits(st.ifs[i], st.jobs, i);
      assert Operation(i) in jobs <==> Operation(i) in st.jobs;
      assert Done(i) in jobs <==> Done(i) in st.jobs;
      assert RequestCancel(i) in jobs <==> RequestCancel(i) in st.jobs;
    }
  }

  /** What a step does: a move of one interface, or of none. */
  lemma StepIs(st: State, e: Event) returns (i: nat, r: (Ppi, seq<Job>))
    requires Inv(st) && Possible(st, e) && !e.SetOther? && !e.UnsetOther? && !(e.RunJob? && st.jobs[0].Other?)
    ensures i in st.ifs && Step(st, e) == With(st, i, r) && Moves(st.ifs[i], st.jobs, i, r, Seen(st, e, i))
    ensures forall k :: k != i ==> Seen(st, e, k) == []
  {
    hide Apply, Distinct, Follow, ViewOf, Moves;
    match e
    case Send(k, data) =>
      i, r := k, Sent(st.ifs[k], st.jobs, k, data);
      SentMoves(st.ifs[k], st.jobs, k, data);
    case Cancel(k) =>
      i, r := k, Cancelled(st.ifs[k], st.jobs, k);
      CancelledMoves(st.ifs[k], st.jobs, k);
    case Complete(k) =>
      i, r := k, Completed(st.ifs[k], st.jobs, k);
      CompletedMoves(st.ifs[k], st.jobs, k);
    case RunJob =>
      assert st.jobs[0] in st.jobs;
      i := st.jobs[0].i;
      r := RanOn(st.ifs[i], st.jobs);
      RanMoves(st.ifs[i], st.jobs, i);
      assert st.ifs[i := st.ifs[i]] == st.ifs;
  }

  lemma OtherStep(st: State, e: Event)
    requires Inv(st) && Possible(st, e) && (e.SetOther? || e.UnsetOther? || (e.RunJob? && st.jobs[0].Other?))
    ensures Inv(Step(st, e)) && Step(st, e).ifs == st.ifs
    ensures forall i :: i in st.ifs ==> Seen(st, e, i) == [] && ViewOf(st.ifs[i], Step(st, e).jobs, i) == ViewOf(st.ifs[i], st.jobs, i)
  {
    hide Apply, Distinct, ViewOf;
    match e {
      case SetOther(k) => SetIs(st.jobs, Other(k));
      case UnsetOther(k) => UnsetIs(st.jobs, Other(k));
      case RunJob => ExecuteIs(st.jobs);
    }
    OtherKeeps(st, Step(st, e).jobs);
  }

  lemma StepFollows(st: State, e: Event, i: nat)
    requires Inv(st) && Possible(st, e) && i in st.ifs
    ensures Inv(Step(st, e)) && i in Step(st, e).ifs
    ensures Follow(ViewOf(st.ifs[i], st.jobs, i), Seen(st, e, i)) == Some(ViewOf(Step(st, e).ifs[i], Step(st, e).jobs, i))
  {
    hide Inv, Step, Seen, ViewOf, Next, Distinct, Fits;
    if e.SetOther? || e.UnsetOther? || (e.RunJob? && st.jobs[0].Other?) {
      OtherStep(st, e);
    } else {
      var k, r := StepIs(st, e);
      WithKeeps(st, k, r, Seen(st, e, k));
      if i != k { Unmoved(st.ifs[i], st.jobs, r.1, k, i); }
    }
  }

  // ---- whole runs ----

  ghost predicate PossibleRun(st: State, es: seq<Event>)
    decreases |es|
  {
    es == [] || (Possible(st, es[0]) && PossibleRun(Step(st, es[0]), es[1..]))
  }

  function Run(st: State, es: seq<Event>): State
    requires PossibleRun(st, es)
    decreases |es|
  {
    if es == [] then st else Run(Step(st, es[0]), es[1..])
  }

  function Trace(st: State, es: seq<Event>, i: nat): seq<Obs>
    requires PossibleRun(st, es)
    decreases |es|
  {
    if es == [] then [] else Seen(st, es[0], i) + Trace(Step(st, es[0]), es[1..], i)
  }

  lemma {:induction false} FollowAppend(v: View, a: seq<Obs>, b: seq<Obs>)
    ensures Follow(v, a + b) == if Follow(v, a).None? then None else Follow(Follow(v, a).value, b)
    decreases |a|
  {
    if a == [] {
      assert a + b == b;
    } else {
      assert (a + b)[1..] == a[1..] + b;
      if Next(v, a[0]).Some? { FollowAppend(Next(v, a[0]).value, a[1..], b); }
    }
  }

  /**
   * In every run, in whatever order jobs run and other interfaces act, what either side of an interface sees follows
   * the protocol: each packet sent is started at most once, with its data, and not at all after an early cancel; the
   * provider is told to cancel at most once, and only while busy; and each is finished once before the next is sent.
   */
  lemma {:induction false} RunFollows(st: State, es: seq<Event>, i: nat)
    requires Inv(st) && PossibleRun(st, es) && i in st.ifs
    ensures Inv(Run(st, es)) && i in Run(st, es).ifs
    ensures Follow(ViewOf(st.ifs[i], st.jobs, i), Trace(st, es, i)) == Some(ViewOf(Run(st, es).ifs[i], Run(st, es).jobs, i))
    decreases |es|
  {
    hide Inv, Step, Seen, ViewOf, Next, Possible;
    if es != [] {
      StepFollows(st, es[0], i);
      RunFollows(Step(st, es[0]), es[1..], i);
      FollowAppend(ViewOf(st.ifs[i], st.jobs, i), Seen(st, es[0], i), Trace(Step(st, es[0]), es[1..], i));
    }
  }
}
