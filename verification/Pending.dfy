/** The list of pending jobs. */
module Pending {
  import opened Bytes
  import opened Lists

  /** The jobs of packet-pass interfaces, and others. */
  datatype Job = Operation(i: nat) | RequestCancel(i: nat) | Done(i: nat) | Other(k: nat)

  datatype Op = Set(job: Job) | Unset(job: Job) | Execute

  // ---- the list after a run of operations ----

  function Apply(jobs: seq<Job>, op: Op): seq<Job> {
    match op
    case Set(j) => [j] + Without(jobs, j)
    case Unset(j) => Without(jobs, j)
    case Execute => if jobs == [] then [] else jobs[1..]
  }

  function Run(ops: seq<Op>): seq<Job> {
    if ops == [] then [] else Apply(Run(ops[..|ops| - 1]), ops[|ops| - 1])
  }

  // ---- the same told without a list ----

  /** When a job was last set, if it has not been unset or executed since; the job set last is the one executed. */
  ghost function SetAt(ops: seq<Op>, j: Job): Option<nat>
    decreases |ops|, 0
  {
    if ops == [] then None
    else
      var n, prev := |ops| - 1, ops[..|ops| - 1];
      match ops[n]
      case Set(k) => if k == j then Some(n) else SetAt(prev, j)
      case Unset(k) => if k == j then None else SetAt(prev, j)
      case Execute => if IsLatest(prev, j) then None else SetAt(prev, j)
  }

  ghost predicate IsLatest(ops: seq<Op>, j: Job)
    decreases |ops|, 1
  {
    SetAt(ops, j).Some? && forall k :: SetAt(ops, k).Some? ==> SetAt(ops, k).value <= SetAt(ops, j).value
  }

  /** Each pending job is on the list once, latest set first. */
  ghost predicate Ordered(jobs: seq<Job>, ops: seq<Op>) {
    && Distinct(jobs)
    && (forall j :: j in jobs <==> SetAt(ops, j).Some?)
    && Descending(jobs, ops)
  }

  ghost predicate Descending(jobs: seq<Job>, ops: seq<Op>) {
    forall a, b :: 0 <= a < b < |jobs| ==> Later(ops, jobs[a], jobs[b])
  }

  ghost predicate Later(ops: seq<Op>, j: Job, k: Job) {
    SetAt(ops, j).Some? && SetAt(ops, k).Some? && SetAt(ops, j).value > SetAt(ops, k).value
  }

  /** The first on an ordered list is the latest. */
  lemma FirstIsLatest(jobs: seq<Job>, ops: seq<Op>, j: Job)
    requires Ordered(jobs, ops)
    ensures IsLatest(ops, j) <==> jobs != [] && j == jobs[0]
  {
    hide SetAt;
    if jobs != [] {
      assert jobs[0] in jobs;
      forall k | SetAt(ops, k).Some? ensures SetAt(ops, k).value <= SetAt(ops, jobs[0]).value {
        assert k in jobs;
        var i :| 0 <= i < |jobs| && jobs[i] == k;
        if i > 0 { assert Later(ops, jobs[0], jobs[i]); }
      }
      if SetAt(ops, j).Some? && j != jobs[0] {
        var i :| 0 <= i < |jobs| && jobs[i] == j;
        assert Later(ops, jobs[0], jobs[i]);
      }
    }
  }

  lemma {:induction false} SetAtBounded(ops: seq<Op>, j: Job)
    ensures SetAt(ops, j).Some? ==> SetAt(ops, j).value < |ops|
  {
    if ops != [] { SetAtBounded(ops[..|ops| - 1], j); }
  }

  lemma LaterStill(prev: seq<Op>, ops: seq<Op>, j: Job, k: Job)
    requires Later(prev, j, k) && SetAt(ops, j) == SetAt(prev, j) && SetAt(ops, k) == SetAt(prev, k)
    ensures Later(ops, j, k)
  {
  }

  /** Dropping one job leaves the others in order. */
  lemma DropDescends(jobs: seq<Job>, prev: seq<Op>, ops: seq<Op>, x: Job)
    requires Distinct(jobs) && Descending(jobs, prev) && forall j :: j != x ==> SetAt(ops, j) == SetAt(prev, j)
    ensures Descending(Without(jobs, x), ops)
  {
    hide SetAt, Without, Later;
    var k := WithoutAt(jobs, x);
    var w := Without(jobs, x);
    forall a, b | 0 <= a < b < |w| ensures Later(ops, w[a], w[b]) {
      var a', b' := if a < k then a else a + 1, if b < k then b else b + 1;
      assert w[a] == jobs[a'] && w[b] == jobs[b'];
      assert jobs[a'] != x && jobs[b'] != x;
      LaterStill(prev, ops, jobs[a'], jobs[b']);
    }
  }

  lemma DropOrdered(jobs: seq<Job>, prev: seq<Op>, ops: seq<Op>, x: Job)
    requires Ordered(jobs, prev) && SetAt(ops, x).None? && forall j :: j != x ==> SetAt(ops, j) == SetAt(prev, j)
    ensures Ordered(Without(jobs, x), ops)
  {
    hide SetAt, Without, Descending, Distinct;
    DropDescends(jobs, prev, ops, x);
    WithoutIs(jobs, x);
  }

  lemma SetOrdered(jobs: seq<Job>, prev: seq<Op>, ops: seq<Op>, x: Job)
    requires Ordered(jobs, prev) && SetAt(ops, x) == Some(|prev|) && forall j :: j != x ==> SetAt(ops, j) == SetAt(prev, j)
    ensures Ordered([x] + Without(jobs, x), ops)
  {
    hide SetAt, Without;
    DropDescends(jobs, prev, ops, x);
    WithoutIs(jobs, x);
    var w := Without(jobs, x);
    var all := [x] + w;
    forall a, b | 0 <= a < b < |all| ensures Later(ops, all[a], all[b]) {
      assert all[b] == w[b - 1] && w[b - 1] in w;
      if a == 0 {
        SetAtBounded(prev, all[b]);
      } else {
        assert all[a] == w[a - 1];
      }
    }
    assert x !in w;
    assert forall j :: j in all <==> j == x || j in w;
  }

  /** The list always holds exactly the pending jobs, latest set first, each once. */
  lemma {:induction false} RunOrdered(ops: seq<Op>)
    ensures Ordered(Run(ops), ops)
  {
    hide Ordered, Without;
    if ops == [] {
      assert Ordered([], []) by { NothingOrdered(); }
    } else {
      var prev := ops[..|ops| - 1];
      var jobs := Run(prev);
      RunOrdered(prev);
      match ops[|ops| - 1]
      case Set(x) => SetOrdered(jobs, prev, ops, x);
      case Unset(x) => DropOrdered(jobs, prev, ops, x);
      case Execute =>
        forall j ensures IsLatest(prev, j) <==> jobs != [] && j == jobs[0] { FirstIsLatest(jobs, prev, j); }
        hide IsLatest;
        if jobs == [] {
          Same(jobs, prev, ops);
        } else {
          WithoutFirst(jobs);
          DropOrdered(jobs, prev, ops, jobs[0]);
        }
    }
  }

  lemma NothingOrdered()
    ensures Ordered([], [])
  {
  }

  lemma Same(jobs: seq<Job>, prev: seq<Op>, ops: seq<Op>)
    requires Ordered(jobs, prev) && jobs == [] && forall j :: SetAt(ops, j) == SetAt(prev, j)
    ensures Ordered(jobs, ops)
  {
    hide SetAt;
  }

  /** The job that runs next is the one set last. */
  lemma LastSetFirst(ops: seq<Op>, j: Job)
    requires Run(ops) != [] && SetAt(ops, j).Some?
    ensures var first := Run(ops)[0];
            SetAt(ops, first).Some? && (j == first || SetAt(ops, first).value > SetAt(ops, j).value)
  {
    hide SetAt, Run;
    RunOrdered(ops);
    var jobs := Run(ops);
    assert j in jobs && jobs[0] in jobs;
    var i :| 0 <= i < |jobs| && jobs[i] == j;
    if i > 0 { assert Later(ops, jobs[0], jobs[i]); }
  }

  // ---- the group ----

  class PendingGroup {
    var jobs: seq<Job>
    ghost var ops: seq<Op>

    constructor ()
      ensures Valid() && jobs == [] && ops == []
    {
      jobs := [];
      ops := [];
    }

    /** The list is what the operations so far have made of it. */
    ghost predicate Valid()
      reads this
    {
      jobs == Run(ops)
    }

    function IsSet(j: Job): bool
      reads this
    {
      j in jobs
    }

    method SetJob(j: Job)
      requires Valid()
      modifies this
      ensures Valid() && ops == old(ops) + [Set(j)] && IsSet(j) && jobs == Apply(old(jobs), Set(j))
    {
      if IsSet(j) {
        jobs := Without(jobs, j);
      } else {
        WithoutAbsent(jobs, j);
      }
      jobs := [j] + jobs;
      ops := ops + [Set(j)];
      assert ops[..|ops| - 1] == old(ops);
    }

    method UnsetJob(j: Job)
      requires Valid()
      modifies this
      ensures Valid() && ops == old(ops) + [Unset(j)] && !IsSet(j) && jobs == Apply(old(jobs), Unset(j))
    {
      RunOrdered(ops);
      WithoutIs(jobs, j);
      if IsSet(j) {
        jobs := Without(jobs, j);
      } else {
        WithoutAbsent(jobs, j);
      }
      ops := ops + [Unset(j)];
      assert ops[..|ops| - 1] == old(ops);
    }

    /** Take the first job off the list, to be run. */
    method ExecuteJob() returns (j: Job)
      requires Valid() && jobs != []
      modifies this
      ensures Valid() && ops == old(ops) + [Execute] && j == old(jobs)[0] && jobs == Apply(old(jobs), Execute) && !IsSet(j)
    {
      RunOrdered(ops);
      j := jobs[0];
      assert j !in jobs[1..];
      jobs := jobs[1..];
      ops := ops + [Execute];
      assert ops[..|ops| - 1] == old(ops);
    }
  }
}
