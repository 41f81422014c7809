/** The fan-out over one block's hosts: goroutines that share a semaphore and write each its
    own slot, in every order they can finish. */
module Fleet {
  import opened Basics

  /** `width`: at or below zero means the default, never unlimited. */
  function Width(requested: int): (w: nat)
    ensures w > 0
  {
    if requested <= 0 then 16 else requested
  }

  datatype Worker = Waiting | Working | Finished

  /** One worker per target; `slots` are the results, `dialled` the targets a session was
      opened to. */
  datatype St<T> = St(workers: seq<Worker>, slots: seq<Option<T>>, dialled: seq<string>)

  /** What a target's own run comes to; None for a request that could not be built. */
  datatype Job<T> = Job(targets: seq<string>, request: string -> bool, outcome: string -> T, width: nat)

  datatype Label = Enter(i: nat) | Leave(i: nat)

  function Init<T>(job: Job<T>): St<T> {
    St(seq(|job.targets|, i => Waiting), seq(|job.targets|, i => None), [])
  }

  function Busy(workers: seq<Worker>): nat {
    if workers == [] then 0 else (if workers[0] == Working then 1 else 0) + Busy(workers[1..])
  }

  /** A worker takes a place in the semaphore and, when its request can be built, dials; later
      it writes its slot and gives the place back. */
  function Do<T>(job: Job<T>, s: St<T>, l: Label): Option<St<T>>
    requires |s.workers| == |s.slots| == |job.targets|
  {
    match l
    case Enter(i) =>
      if i < |s.workers| && s.workers[i] == Waiting && Busy(s.workers) < job.width then
        Some(s.(workers := s.workers[i := Working],
                dialled := if job.request(job.targets[i]) then s.dialled + [job.targets[i]] else s.dialled))
      else None
    case Leave(i) =>
      if i < |s.workers| && s.workers[i] == Working then
        Some(s.(workers := s.workers[i := Finished], slots := s.slots[i := Some(job.outcome(job.targets[i]))]))
      else None
  }

  ghost predicate Inv<T>(job: Job<T>, s: St<T>) {
    && |s.workers| == |s.slots| == |job.targets|
    && Busy(s.workers) <= job.width
    && (forall i :: 0 <= i < |s.workers| ==>
          s.slots[i] == if s.workers[i] == Finished then Some(job.outcome(job.targets[i])) else None)
    && (forall t :: t in s.dialled <==>
        exists i :: 0 <= i < |s.workers| && s.workers[i] != Waiting && job.targets[i] == t && job.request(t))
  }

  lemma {:induction false} BusyUpdate(workers: seq<Worker>, i: nat, w: Worker)
    requires i < |workers|
    ensures Busy(workers[i := w]) ==
            Busy(workers) - (if workers[i] == Working then 1 else 0) + (if w == Working then 1 else 0)
    decreases |workers|
  {
    if i > 0 {
      assert workers[i := w][1..] == workers[1..][i - 1 := w];
      BusyUpdate(workers[1..], i - 1, w);
    } else {
      assert workers[0 := w][1..] == workers[1..];
    }
  }

  lemma {:induction false} BusyNone(workers: seq<Worker>)
    ensures Busy(workers) == 0 <==> forall i :: 0 <= i < |workers| ==> workers[i] != Working
    decreases |workers|
  {
    if workers != [] {
      BusyNone(workers[1..]);
      if forall i :: 0 <= i < |workers| ==> workers[i] != Working {
        forall i | 0 <= i < |workers[1..]| ensures workers[1..][i] != Working { assert workers[i + 1] != Working; }
      } else {
        var i :| 0 <= i < |workers| && workers[i] == Working;
        if i > 0 { assert workers[1..][i - 1] == Working; }
      }
    }
  }

  lemma InitInv<T>(job: Job<T>)
    ensures Inv(job, Init(job))
  {
    BusyNone(Init(job).workers);
  }

  lemma StepKeeps<T>(job: Job<T>, s: St<T>, l: Label)
    requires Inv(job, s) && Do(job, s, l).Some?
    ensures Inv(job, Do(job, s, l).value)
  {
    var s1 := Do(job, s, l).value;
    BusyUpdate(s.workers, l.i, s1.workers[l.i]);
    forall t
      ensures t in s1.dialled <==>
        exists i :: 0 <= i < |s1.workers| && s1.workers[i] != Waiting && job.targets[i] == t && job.request(t)
    {
      if i :| 0 <= i < |s.workers| && s.workers[i] != Waiting && job.targets[i] == t && job.request(t) {
        assert s1.workers[i] != Waiting;
      }
      if i :| 0 <= i < |s1.workers| && s1.workers[i] != Waiting && job.targets[i] == t && job.request(t) && i != l.i {
        assert s.workers[i] != Waiting;
      }
    }
  }

  function RunFrom<T>(job: Job<T>, s: St<T>, labels: seq<Label>): (r: Option<St<T>>)
    requires |s.workers| == |s.slots| == |job.targets|
    ensures r.Some? ==> |r.value.workers| == |r.value.slots| == |job.targets|
    decreases |labels|
  {
    if labels == [] then Some(s)
    else
      var next := Do(job, s, labels[0]);
      if next.None? then None else RunFrom(job, next.value, labels[1..])
  }

  lemma {:induction false} RunKeeps<T>(job: Job<T>, s: St<T>, labels: seq<Label>)
    requires Inv(job, s) && RunFrom(job, s, labels).Some?
    ensures Inv(job, RunFrom(job, s, labels).value)
    decreases |labels|
  {
    if labels != [] {
      StepKeeps(job, s, labels[0]);
      RunKeeps(job, Do(job, s, labels[0]).value, labels[1..]);
    }
  }

  /** What the fan-out hands back: outcome i for target i. */
  function Outcomes<T>(job: Job<T>): seq<T> {
    seq(|job.targets|, i requires 0 <= i < |job.targets| => job.outcome(job.targets[i]))
  }

  /** Never more than the width in flight, whatever the order. */
  lemma NeverMoreThanWidth<T>(job: Job<T>, labels: seq<Label>)
    requires RunFrom(job, Init(job), labels).Some?
    ensures Busy(RunFrom(job, Init(job), labels).value.workers) <= job.width
  {
    InitInv(job);
    RunKeeps(job, Init(job), labels);
  }

  /** Whatever order the workers finish in, the results are those of the targets in their own
      order, and the hosts dialled are those whose request could be built. */
  lemma AnyOrderSameResults<T>(job: Job<T>, labels: seq<Label>)
    requires RunFrom(job, Init(job), labels).Some?
    requires forall w :: w in RunFrom(job, Init(job), labels).value.workers ==> w == Finished
    ensures var s := RunFrom(job, Init(job), labels).value;
            && |s.slots| == |job.targets|
            && (forall i :: 0 <= i < |s.slots| ==> s.slots[i] == Some(Outcomes(job)[i]))
            && (forall t :: t in s.dialled <==> t in job.targets && job.request(t))
  {
    InitInv(job);
    RunKeeps(job, Init(job), labels);
    var s := RunFrom(job, Init(job), labels).value;
    forall i | 0 <= i < |s.workers| ensures s.workers[i] == Finished { assert s.workers[i] in s.workers; }
  }

  /** And every run can finish: while a worker is left, some step is enabled. */
  lemma NoDeadlock<T>(job: Job<T>, labels: seq<Label>)
    requires job.width > 0 && RunFrom(job, Init(job), labels).Some?
    requires exists w :: w in RunFrom(job, Init(job), labels).value.workers && w != Finished
    ensures exists l :: Do(job, RunFrom(job, Init(job), labels).value, l).Some?
  {
    InitInv(job);
    RunKeeps(job, Init(job), labels);
    var s := RunFrom(job, Init(job), labels).value;
    var w :| w in s.workers && w != Finished;
    var i :| 0 <= i < |s.workers| && s.workers[i] == w;
    BusyNone(s.workers);
    if Busy(s.workers) > 0 {
      var k :| 0 <= k < |s.workers| && s.workers[k] == Working;
      assert Do(job, s, Leave(k)).Some?;
    } else {
      assert Do(job, s, Enter(i)).Some?;
    }
  }

  /** The fan-out on its array of results: each worker writes its own element when it leaves. */
  method Execute<T(0)>(job: Job<T>, schedule: seq<Label>) returns (ok: bool, results: array<Option<T>>)
    ensures fresh(results) && results.Length == |job.targets|
    ensures ok <==> RunFrom(job, Init(job), schedule).Some?
    ensures ok ==> results[..] == RunFrom(job, Init(job), schedule).value.slots
  {
    results := new Option<T>[|job.targets|](i => None);
    var s := Init(job);
    assert results[..] == s.slots;
    var k := 0;
    while k < |schedule|
      invariant k <= |schedule| && |s.workers| == |s.slots| == |job.targets|
      invariant results[..] == s.slots
      invariant RunFrom(job, Init(job), schedule) == RunFrom(job, s, schedule[k..])
    {
      assert schedule[k..][0] == schedule[k] && schedule[k..][1..] == schedule[k + 1..];
      var next := Do(job, s, schedule[k]);
      if next.None? { return false, results; }
      if schedule[k].Leave? { results[schedule[k].i] := Some(job.outcome(job.targets[schedule[k].i])); }
      s := next.value;
      k := k + 1;
    }
    return true, results;
  }
}
