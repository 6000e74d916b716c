/** The customised thread pool: a bounded queue used as a counting semaphore,
    one thread per task, a shared result dict and a one-way closing flag.
    Threads are not modelled as threads: a blocking call instead lets some
    running thread whose call returns finish, chosen nondeterministically, until
    it may go on; when every running thread's call raised, no slot is ever freed
    again and the call blocks forever. */
module ThreadPools {
  import opened Py
  import opened TaskSpecs

  /** A started thread: the key it reports under (None is NULLKEY) and the call it makes. */
  datatype Job = Job(resultId: Option<PyValue>, spec: TaskSpec)

  /** `putting_task`'s preparation of a thread: pop `_result_id` from the
      keyword arguments (NULLKEY when absent) and wrap the call. */
  function SetupJob(func: PyValue, args: seq<PyValue>, kws: map<string, PyValue>): (j: Job)
    ensures j.spec.func == func && j.spec.args == args
    ensures RESULT_ID !in j.spec.kws
    ensures forall w | w in kws && w != RESULT_ID :: w in j.spec.kws && j.spec.kws[w] == kws[w]
    ensures j.spec.kws.Keys <= kws.Keys
    ensures j.resultId.Some? <==> RESULT_ID in kws
    ensures j.resultId.Some? ==> j.resultId.value == kws[RESULT_ID]
  {
    Job(if RESULT_ID in kws then Some(kws[RESULT_ID]) else None, TaskSpec(func, args, kws - {RESULT_ID}))
  }

  /** A keyword that `putting_task(self, func, *args, **kws)`, or after the
      pop `setup_func(self, key, func, *args, **kws)`, would also bind to one
      of its own parameters: the call raises TypeError on the calling thread. */
  predicate KeywordClash(kws: map<string, PyValue>)
  {
    "self" in kws || "func" in kws || "key" in kws
  }

  /** How many of the jobs `js` raise, counted with repetition. */
  function CountRaised(js: seq<Job>, apply: TaskSpec -> Outcome): (n: nat)
    ensures n <= |js|
    decreases |js|
  {
    if js == [] then 0
    else CountRaised(js[..|js| - 1], apply) + (if apply(js[|js| - 1].spec).Raised? then 1 else 0)
  }

  lemma {:induction false} CountRaisedAppend(a: seq<Job>, b: seq<Job>, apply: TaskSpec -> Outcome)
    ensures CountRaised(a + b, apply) == CountRaised(a, apply) + CountRaised(b, apply)
    decreases |b|
  {
    if b == [] {
      assert a + b == a;
    } else {
      CountRaisedAppend(a, b[..|b| - 1], apply);
      assert (a + b)[..|a + b| - 1] == a + b[..|b| - 1];
      assert (a + b)[|a + b| - 1] == b[|b| - 1];
    }
  }

  /** Removing a job that returned keeps the count. */
  lemma CountRaisedRemove(js: seq<Job>, i: nat, apply: TaskSpec -> Outcome)
    requires i < |js| && apply(js[i].spec).Returned?
    ensures CountRaised(js[..i] + js[i + 1..], apply) == CountRaised(js, apply)
  {
    var front, j, back := js[..i], js[i], js[i + 1..];
    SplitAt(js, i);
    CountRaisedOne(j, apply);
    CountRaisedAppend(front, [j], apply);
    CountRaisedAppend(front + [j], back, apply);
    CountRaisedAppend(front, back, apply);
  }

  lemma SplitAt(js: seq<Job>, i: nat)
    requires i < |js|
    ensures js == (js[..i] + [js[i]]) + js[i + 1..]
  {
  }

  lemma CountRaisedOne(j: Job, apply: TaskSpec -> Outcome)
    ensures CountRaised([j], apply) == if apply(j.spec).Raised? then 1 else 0
  {
    assert [j][..0] == [];
  }

  /** When every job raised, all of them count. */
  lemma {:induction false} CountAllRaised(js: seq<Job>, apply: TaskSpec -> Outcome)
    requires forall j | j in js :: apply(j.spec).Raised?
    ensures CountRaised(js, apply) == |js|
    decreases |js|
  {
    if js != [] {
      assert forall j | j in js[..|js| - 1] :: j in js;
      CountAllRaised(js[..|js| - 1], apply);
    }
  }

  class ThreadPool {
    /** The queue's maxsize; zero or less makes the queue unbounded. */
    const workerLimit: int
    /** What each task's call does. */
    const apply: TaskSpec -> Outcome
    /** Slots taken in the queue: `put`s not yet matched by `get`/`task_done`. */
    var occupied: nat
    /** Started threads that still hold their slot. */
    var running: seq<Job>
    var results: map<PyValue, PyValue>
    var isJoin: bool
    /** Every accepted submission, in order. */
    ghost var submitted: seq<Job>
    /** For each key in `results`, the job whose completion wrote it last. */
    ghost var origin: map<PyValue, Job>

    ghost function SubmittedKeys(): set<PyValue>
      reads this
    {
      set j | j in submitted && j.resultId.Some? :: j.resultId.value
    }

    ghost function RunningKeys(): set<PyValue>
      reads this
    {
      set j | j in running && j.resultId.Some? :: j.resultId.value
    }

    ghost predicate Valid()
      reads this
    {
      && occupied == |running|
      && (workerLimit > 0 ==> occupied <= workerLimit)
      && (forall j | j in running :: j in submitted)
      && results.Keys <= SubmittedKeys()
      && SubmittedKeys() <= results.Keys + RunningKeys()
      && (forall k | k in results ::
            k in origin && origin[k] in submitted && origin[k].resultId == Some(k) &&
            apply(origin[k].spec) == Returned(results[k]))
    }

    /** `Queue.full()`: `put` would block. */
    predicate Full()
      reads this
    {
      workerLimit > 0 && occupied >= workerLimit
    }

    /** No running thread will ever free its slot: each one's call raised. */
    predicate Stalled()
      reads this
    {
      forall j | j in running :: apply(j.spec).Raised?
    }

    /** `task_queue.join()` may return: every `put` is matched by a `task_done`. */
    predicate Drained()
      reads this
    {
      occupied == 0
    }

    constructor (workerLimit: int, apply: TaskSpec -> Outcome)
      ensures Valid()
      ensures this.workerLimit == workerLimit && this.apply == apply
      ensures running == [] && results == map[] && !isJoin && submitted == []
    {
      this.workerLimit := workerLimit;
      this.apply := apply;
      occupied := 0;
      running := [];
      results := map[];
      isJoin := false;
      submitted := [];
      origin := map[];
    }

    /** The tail of a thread whose call returned (`func_wrap`, or `func_origin`
        for NULLKEY): record the value under the job's key, then free its slot. */
    method Finish(i: nat)
      requires Valid()
      requires i < |running| && apply(running[i].spec).Returned?
      modifies this
      ensures Valid()
      ensures old(running[i]).resultId.Some? ==>
        results == old(results)[old(running[i]).resultId.value := apply(old(running[i]).spec).value]
      ensures old(running[i]).resultId.None? ==> results == old(results)
      ensures running == old(running[..i] + running[i + 1..])
      ensures forall j | j in running :: j in old(running)
      ensures forall j | j in old(running) && j != old(running[i]) :: j in running
      ensures occupied == old(occupied) - 1
      ensures isJoin == old(isJoin) && submitted == old(submitted)
    {
      var job := running[i];
      var rest := running[..i] + running[i + 1..];
      forall j | j in running && j != job ensures j in rest {
        var p :| 0 <= p < |running| && running[p] == j;
        if p < i { assert rest[p] == j; } else { assert rest[p - 1] == j; }
      }
      if job.resultId.Some? {
        results := results[job.resultId.value := apply(job.spec).value];
        origin := origin[job.resultId.value := job];
      }
      running := rest;
      occupied := occupied - 1;
    }

    /** The wait inside `task_queue.put`: while the queue is full, some running
        thread whose call returns finishes and frees its slot. When every running
        thread's call raised, no slot is ever freed and the wait never ends. */
    method AwaitSlot() returns (hung: bool)
      requires Valid() && !isJoin
      modifies this
      ensures Valid() && !isJoin && submitted == old(submitted)
      ensures hung ==> Full() && running != [] && Stalled()
      ensures !hung ==> !Full()
      ensures !old(Full()) ==> !hung && running == old(running) && occupied == old(occupied) && results == old(results)
      ensures old(results).Keys <= results.Keys
      ensures forall j | j in running :: j in old(running)
      ensures forall j | j in old(running) && apply(j.spec).Raised? :: j in running
      ensures CountRaised(running, apply) == CountRaised(old(running), apply)
      ensures hung <==> workerLimit > 0 && CountRaised(old(running), apply) >= workerLimit
    {
      while Full()
        invariant Valid() && !isJoin && submitted == old(submitted)
        invariant CountRaised(running, apply) == CountRaised(old(running), apply)
        invariant !old(Full()) ==> running == old(running) && occupied == old(occupied) && results == old(results)
        invariant old(results).Keys <= results.Keys
        invariant forall j | j in running :: j in old(running)
        invariant forall j | j in old(running) && apply(j.spec).Raised? :: j in running
        decreases |running|
      {
        if Stalled() {
          CountAllRaised(running, apply);
          return true;
        }
        var i :| 0 <= i < |running| && apply(running[i].spec).Returned?;
        CountRaisedRemove(running, i, apply);
        Finish(i);
      }
      return false;
    }

    /** `put` once the queue has room: the job takes a slot and its thread starts. */
    method Admit(job: Job)
      requires Valid() && !Full()
      modifies this
      ensures Valid()
      ensures running == old(running) + [job] && submitted == old(submitted) + [job]
      ensures occupied == old(occupied) + 1
      ensures results == old(results) && isJoin == old(isJoin)
      ensures CountRaised(running, apply) == CountRaised(old(running), apply) + (if apply(job.spec).Raised? then 1 else 0)
    {
      occupied := occupied + 1;
      running := running + [job];
      assert running[..|running| - 1] == old(running);
      submitted := submitted + [job];
      assert forall j | j in running :: j in old(running) || j == job;
      assert forall j | j in submitted :: j in old(submitted) || j == job;
    }

    /** `putting_task`: a keyword named `self` or `func` fails the call itself;
        a closed pool refuses; a keyword named `key` fails `setup_func`; otherwise
        `put` blocks while the queue is full, then the job takes a slot and its
        thread starts. The wait never ends exactly when raised jobs already hold
        `worker_limit` slots. */
    method PuttingTask(func: PyValue, args: seq<PyValue>, kws: map<string, PyValue>) returns (err: Option<Error>)
      requires Valid()
      modifies this
      ensures Valid()
      ensures isJoin == old(isJoin)
      ensures "self" in kws || "func" in kws ==> err == Some(DuplicateKeyword) && unchanged(this)
      ensures old(isJoin) && "self" !in kws && "func" !in kws ==> err == Some(PoolClosed) && unchanged(this)
      ensures !old(isJoin) && KeywordClash(kws) ==> err == Some(DuplicateKeyword) && unchanged(this)
      ensures !old(isJoin) && !KeywordClash(kws) ==> err == None || err == Some(Hang)
      ensures !old(isJoin) && !KeywordClash(kws) ==>
        (err == Some(Hang) <==> workerLimit > 0 && CountRaised(old(running), apply) >= workerLimit)
      ensures !old(isJoin) && !KeywordClash(kws) && !old(Full()) ==>
        err == None && running == old(running) + [SetupJob(func, args, kws)] &&
        occupied == old(occupied) + 1 && results == old(results)
      ensures !old(isJoin) && !KeywordClash(kws) && workerLimit <= 0 ==> err == None
      ensures err == Some(Hang) ==> Full() && running != [] && Stalled() && submitted == old(submitted)
      ensures err == None ==>
        submitted == old(submitted) + [SetupJob(func, args, kws)] &&
        running != [] && running[|running| - 1] == SetupJob(func, args, kws) &&
        CountRaised(running, apply) ==
          CountRaised(old(running), apply) + (if apply(SetupJob(func, args, kws).spec).Raised? then 1 else 0)
      ensures old(results).Keys <= results.Keys
      ensures forall j | j in running :: j in old(running) || j == SetupJob(func, args, kws)
      ensures forall j | j in old(running) && apply(j.spec).Raised? :: j in running
    {
      if "self" in kws || "func" in kws {
        return Some(DuplicateKeyword);
      }
      if isJoin {
        return Some(PoolClosed);
      }
      if "key" in kws - {RESULT_ID} {
        return Some(DuplicateKeyword);
      }
      var job := SetupJob(func, args, kws);
      var hung := AwaitSlot();
      if hung {
        return Some(Hang);
      }
      Admit(job);
      return None;
    }

    /** `join`: close the pool for good, then wait until it is drained. */
    method Join() returns (hung: bool)
      requires Valid()
      modifies this
      ensures Valid() && isJoin
      ensures submitted == old(submitted)
      ensures hung <==> exists j :: j in old(running) && apply(j.spec).Raised?
      ensures !hung ==> Drained() && results.Keys == SubmittedKeys()
    {
      isJoin := true;
      while running != []
        invariant Valid() && isJoin && submitted == old(submitted)
        invariant forall j | j in running :: j in old(running)
        invariant forall j | j in old(running) && apply(j.spec).Raised? :: j in running
        decreases |running|
      {
        if Stalled() {
          assert running[0] in old(running);
          return true;
        }
        var i :| 0 <= i < |running| && apply(running[i].spec).Returned?;
        Finish(i);
      }
      return false;
    }
  }
}
