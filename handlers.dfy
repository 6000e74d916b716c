/** The dispatcher's handlers: the threaded handler over a fresh ThreadPool
    and the synchronous "fake" handler with its timing record. */
module Handlers {
  import opened Py
  import opened TaskSpecs
  import opened ThreadPools
  import opened Ranking

  /** The calls the threaded handler's tasks make: the pool has popped `_result_id`. */
  function ViaPool(apply: TaskSpec -> Outcome): TaskSpec -> Outcome
  {
    s => apply(Visible(s))
  }

  /** The job the threaded handler submits for an item. */
  function JobOf(item: Item): Job
    requires Prepare(item.1).Success?
  {
    Job(Some(item.0), Visible(Prepare(item.1).value))
  }

  /** Submitting a prepared spec under its key makes the item's own job. */
  lemma SetupJobOf(item: Item)
    requires Prepare(item.1).Success?
    ensures var s := Prepare(item.1).value;
      SetupJob(s.func, s.args, s.kws[RESULT_ID := item.0]) == JobOf(item)
  {
  }

  /** The jobs the handler submitted for the first `|submitted|` items, in order. */
  ghost predicate JobsOf(items: seq<Item>, submitted: seq<Job>)
  {
    && |submitted| <= |items|
    && forall m | 0 <= m < |submitted| :: Prepare(items[m].1).Success? && submitted[m] == JobOf(items[m])
  }

  lemma JobsOfSnoc(items: seq<Item>, submitted: seq<Job>)
    requires JobsOf(items, submitted) && |submitted| < |items|
    requires Prepare(items[|submitted|].1).Success?
    ensures JobsOf(items, submitted + [JobOf(items[|submitted|])])
  {
  }

  /** A running job that raised belongs to an item whose task fails through the pool. */
  lemma RaisedJobFails(items: seq<Item>, submitted: seq<Job>, apply: TaskSpec -> Outcome, j: Job)
    requires JobsOf(items, submitted)
    requires j in submitted && apply(j.spec).Raised?
    ensures !AllSucceed(items, ViaPool(apply))
  {
  }

  /** A job the handler submitted with the key of item `m` is item `m`'s own job. */
  lemma JobWithKey(items: seq<Item>, submitted: seq<Job>, m: nat, j: Job) returns (l: nat)
    requires DistinctKeys(items) && m < |items| && |submitted| == |items| && JobsOf(items, submitted)
    requires j in submitted && j.resultId == Some(items[m].0)
    ensures l == m && j == JobOf(items[m])
  {
    l :| 0 <= l < |submitted| && submitted[l] == j;
  }

  /** Once the pool has drained, every task returned and the result dict holds
      exactly the items' keys, each with its own task's value. */
  lemma DrainedResults(items: seq<Item>, pool: ThreadPool, apply: TaskSpec -> Outcome)
    requires DistinctKeys(items)
    requires pool.Valid() && pool.apply == apply
    requires pool.results.Keys == pool.SubmittedKeys()
    requires |pool.submitted| == |items| && JobsOf(items, pool.submitted)
    ensures AllSucceed(items, ViaPool(apply))
    ensures pool.results.Keys == KeySet(items)
    ensures forall m | 0 <= m < |items| :: pool.results[items[m].0] == RunTask(items[m].1, ViaPool(apply)).value
  {
    forall m | 0 <= m < |items| ensures items[m].0 in pool.results {
      assert pool.submitted[m] in pool.submitted;
    }
    RecordedResults(items, pool.submitted, pool.results, pool.origin, apply);
  }

  lemma RecordedResults(items: seq<Item>, submitted: seq<Job>, results: map<PyValue, PyValue>,
                        origin: map<PyValue, Job>, apply: TaskSpec -> Outcome)
    requires DistinctKeys(items) && |submitted| == |items| && JobsOf(items, submitted)
    requires forall m | 0 <= m < |items| :: items[m].0 in results
    requires forall k | k in results ::
      k in origin && origin[k] in submitted && origin[k].resultId == Some(k) &&
      apply(origin[k].spec) == Returned(results[k])
    ensures AllSucceed(items, ViaPool(apply))
    ensures results.Keys == KeySet(items)
    ensures forall m | 0 <= m < |items| :: results[items[m].0] == RunTask(items[m].1, ViaPool(apply)).value
  {
    forall m | 0 <= m < |items|
      ensures RunTask(items[m].1, ViaPool(apply)) == Success(results[items[m].0])
    {
      var l := JobWithKey(items, submitted, m, origin[items[m].0]);
    }
    forall k | k in results ensures k in KeySet(items) {
      var l :| 0 <= l < |submitted| && submitted[l] == origin[k];
      assert items[l].0 == k;
    }
  }

  /** `out_iter = result_dict` for a dict; for a list, `[None] * n` filled with
      `out_dict[i]` position by position, which raises KeyError at the first
      missing position. */
  method Reshape(batch: Batch, outDict: map<PyValue, PyValue>) returns (r: Result<Output, Error>)
    requires !batch.NotABatch?
    ensures batch.DictBatch? ==> r == Success(DictOut(outDict))
    ensures r.Success? <==> batch.DictBatch? || forall i | 0 <= i < |batch.specs| :: PyInt(i) in outDict
    ensures batch.ListBatch? && r.Success? ==>
      r.value.ListOut? && |r.value.values| == |batch.specs| &&
      forall i | 0 <= i < |batch.specs| :: r.value.values[i] == outDict[PyInt(i)]
    ensures r.Failure? ==>
      exists i | 0 <= i < |batch.specs| ::
        r.error == KeyError(PyInt(i)) && PyInt(i) !in outDict &&
        forall m | 0 <= m < i :: PyInt(m) in outDict
  {
    if batch.DictBatch? {
      return Success(DictOut(outDict));
    }
    var n := |batch.specs|;
    var outIter := new PyValue[n](_ => PyNone);
    for i := 0 to n
      invariant forall m | 0 <= m < i :: PyInt(m) in outDict && outIter[m] == outDict[PyInt(m)]
    {
      if PyInt(i) !in outDict {
        return Failure(KeyError(PyInt(i)));
      }
      outIter[i] := outDict[PyInt(i)];
    }
    return Success(ListOut(outIter[..]));
  }

  /** A join that hangs had a raised job in flight, so some task fails through the pool. */
  lemma RaisedInFlight(items: seq<Item>, pool: ThreadPool, inFlight: seq<Job>)
    requires pool.Valid() && JobsOf(items, pool.submitted)
    requires forall j | j in inFlight :: j in pool.submitted
    requires exists j :: j in inFlight && pool.apply(j.spec).Raised?
    ensures !AllSucceed(items, ViaPool(pool.apply))
  {
  }

  /** The results of a drained pool, reshaped, are what running the batch in order gives. */
  lemma ReshapedResults(batch: Batch, apply: TaskSpec -> Outcome, results: map<PyValue, PyValue>, r: Result<Output, Error>)
    requires WellFormed(batch) && !batch.NotABatch?
    requires AllSucceed(Items(batch), apply)
    requires results.Keys == KeySet(Items(batch))
    requires forall m | 0 <= m < |Items(batch)| :: results[Items(batch)[m].0] == RunTask(Items(batch)[m].1, apply).value
    requires batch.DictBatch? ==> r == Success(DictOut(results))
    requires batch.ListBatch? ==>
      r.Success? && r.value.ListOut? && |r.value.values| == |batch.specs| &&
      forall i | 0 <= i < |batch.specs| :: r.value.values[i] == results[PyInt(i)]
    ensures r == RunSequentially(batch, apply)
  {
    var items := Items(batch);
    SequentialOutcome(batch, apply);
    var expected := RunSequentially(batch, apply).value;
    if batch.DictBatch? {
      forall k | k in results ensures results[k] == expected.results[k] {
        var m :| 0 <= m < |items| && items[m].0 == k;
      }
      assert results == expected.results;
      assert r == Success(expected);
    } else {
      forall i | 0 <= i < |batch.specs| ensures r.value.values[i] == expected.values[i] {
        assert items[i].0 == PyInt(i);
      }
      assert r.value.values == expected.values;
      assert r == Success(expected);
    }
  }

  /** How the threaded loop turns a raw spec into a submission: the padding
      and unpacking, then the binding of its keywords beside the pool's own
      parameters, which fails on a keyword named `self`, `func` or `key`. */
  function PrepareForPool(raw: seq<PyValue>): Result<TaskSpec, Error>
  {
    match Prepare(raw)
    case Failure(e) => Failure(e)
    case Success(s) => if KeywordClash(s.kws) then Failure(DuplicateKeyword) else Success(s)
  }

  predicate Submittable(items: seq<Item>)
  {
    forall m | 0 <= m < |items| :: PrepareForPool(items[m].1).Success?
  }

  /** Submitting item `i` blocks forever: every spec up to it prepares, and
      an item submitted before it raised and holds its slot for good. */
  ghost predicate BlockedAt(items: seq<Item>, i: nat, apply: TaskSpec -> Outcome)
  {
    && i < |items|
    && (forall m | 0 <= m <= i :: Prepare(items[m].1).Success?)
    && exists l | 0 <= l < i :: RaisesAt(items, l, apply)
  }

  /** The `put` of item `i` waits for good: the items before it that raised
      hold at least `worker_limit` slots. */
  ghost predicate BlocksAt(items: seq<Item>, i: nat, workerLimit: int, apply: TaskSpec -> Outcome)
  {
    i <= |items| && workerLimit > 0 && RaisedBefore(items, i, apply) >= workerLimit
  }

  /** The loop gets to item `m`: every earlier item was submitted without waiting for good. */
  ghost predicate Reaches(items: seq<Item>, m: nat, workerLimit: int, apply: TaskSpec -> Outcome)
  {
    && m <= |items|
    && forall l | 0 <= l < m :: PrepareForPool(items[l].1).Success? && !BlocksAt(items, l, workerLimit, apply)
  }

  lemma ReachesNext(items: seq<Item>, i: nat, workerLimit: int, apply: TaskSpec -> Outcome)
    requires Reaches(items, i, workerLimit, apply) && i < |items|
    requires PrepareForPool(items[i].1).Success? && !BlocksAt(items, i, workerLimit, apply)
    ensures Reaches(items, i + 1, workerLimit, apply)
  {
  }

  /** The loop gets to item `m` and ends there with `e`: the item's spec
      cannot be submitted, or its `put` waits for good. */
  ghost predicate StopsAt(items: seq<Item>, m: nat, workerLimit: int, apply: TaskSpec -> Outcome, e: Error)
  {
    && m < |items|
    && Reaches(items, m, workerLimit, apply)
    && match PrepareForPool(items[m].1)
       case Failure(e1) => e == e1
       case Success(_) => BlocksAt(items, m, workerLimit, apply) && e == Hang
  }

  /** The loop ends at one item with one error, and not at all once it gets past the last item. */
  lemma StopsOnce(items: seq<Item>, m: nat, m1: nat, workerLimit: int, apply: TaskSpec -> Outcome, e: Error, e1: Error)
    requires StopsAt(items, m, workerLimit, apply, e)
    requires StopsAt(items, m1, workerLimit, apply, e1) || Reaches(items, |items|, workerLimit, apply)
    ensures !Reaches(items, |items|, workerLimit, apply) && m == m1 && e == e1
  {
  }

  /** A `put` that waits for good at item `i` comes from a task before `i` that raised. */
  lemma {:induction false} BlocksHere(items: seq<Item>, i: nat, workerLimit: int, apply: TaskSpec -> Outcome)
    requires i < |items| && forall m | 0 <= m <= i :: Prepare(items[m].1).Success?
    requires BlocksAt(items, i, workerLimit, apply)
    ensures workerLimit > 0 && BlockedAt(items, i, apply) && !AllSucceed(items, apply)
  {
    RaisedBeforeWitness(items, i, apply);
    var l :| 0 <= l < i && RaisesAt(items, l, apply);
    assert !RunTask(items[l].1, apply).Success?;
  }

  /** A loop that ended on a spec error: that spec cannot be submitted. */
  lemma StoppedOnSpec(items: seq<Item>, m: nat, workerLimit: int, apply: TaskSpec -> Outcome, e: Error)
    requires StopsAt(items, m, workerLimit, apply, e) && PrepareForPool(items[m].1).Failure?
    ensures e != Hang && e != InvalidBatch && !Submittable(items)
  {
  }

  /** A loop that ended waiting for good: raised tasks before `m` hold every slot. */
  lemma {:induction false} StoppedOnWait(items: seq<Item>, m: nat, workerLimit: int, apply: TaskSpec -> Outcome, e: Error)
    requires StopsAt(items, m, workerLimit, apply, e) && PrepareForPool(items[m].1).Success?
    ensures e == Hang && workerLimit > 0 && BlockedAt(items, m, apply) && !AllSucceed(items, apply)
  {
    forall k | 0 <= k <= m ensures Prepare(items[k].1).Success? {
      assert PrepareForPool(items[k].1).Success?;
    }
    BlocksHere(items, m, workerLimit, apply);
  }

  /** What a loop that ended at item `m` with `e` means for the whole batch:
      `e` is its only ending; a spec error means some spec cannot be submitted,
      and a wait for good means some task raised. */
  lemma StoppedLoop(items: seq<Item>, m: nat, workerLimit: int, apply: TaskSpec -> Outcome, e: Error)
    requires StopsAt(items, m, workerLimit, apply, e)
    ensures forall m1: nat, e1 | StopsAt(items, m1, workerLimit, apply, e1) :: e1 == e
    ensures e != Hang ==> !Submittable(items)
    ensures e == Hang ==> !AllSucceed(items, apply)
    ensures e == Hang ==> workerLimit > 0 && BlockedAt(items, m, apply)
    ensures e != InvalidBatch
  {
    forall m1: nat, e1 | StopsAt(items, m1, workerLimit, apply, e1) ensures e1 == e {
      StopsOnce(items, m, m1, workerLimit, apply, e, e1);
    }
    if PrepareForPool(items[m].1).Success? {
      StoppedOnWait(items, m, workerLimit, apply, e);
    } else {
      StoppedOnSpec(items, m, workerLimit, apply, e);
    }
  }

  /** A loop that got past the last item submitted every spec and ended nowhere. */
  lemma FinishedLoop(items: seq<Item>, workerLimit: int, apply: TaskSpec -> Outcome)
    requires Reaches(items, |items|, workerLimit, apply)
    ensures Submittable(items)
    ensures forall m: nat, e | StopsAt(items, m, workerLimit, apply, e) :: false
  {
    forall m: nat, e | StopsAt(items, m, workerLimit, apply, e) ensures false {
      StopsOnce(items, m, m, workerLimit, apply, e, e);
    }
  }

  /** What `putting_task` promises for item `i`, read in the items' terms:
      the pool's submissions stay item `m`'s job at position `m`, its count of
      raised jobs stays the count of raised tasks so far, and a spec the pool
      cannot take fails with `PrepareForPool`'s error. */
  lemma SubmittedOne(items: seq<Item>, i: nat, workerLimit: int, apply: TaskSpec -> Outcome,
                     running: seq<Job>, submitted: seq<Job>, running': seq<Job>, submitted': seq<Job>, err: Option<Error>)
    requires i < |items| && |submitted| == i && JobsOf(items, submitted)
    requires CountRaised(running, apply) == RaisedBefore(items, i, ViaPool(apply))
    requires Prepare(items[i].1).Success?
    requires var s := Prepare(items[i].1).value;
      var kws := s.kws[RESULT_ID := items[i].0];
      && (KeywordClash(kws) ==> err == Some(DuplicateKeyword))
      && (!KeywordClash(kws) ==> err == None || err == Some(Hang))
      && (!KeywordClash(kws) ==>
            (err == Some(Hang) <==> workerLimit > 0 && CountRaised(running, apply) >= workerLimit))
      && (err == None ==>
            submitted' == submitted + [SetupJob(s.func, s.args, kws)] &&
            CountRaised(running', apply) ==
              CountRaised(running, apply) + (if apply(SetupJob(s.func, s.args, kws).spec).Raised? then 1 else 0))
    ensures err.None? ==>
      |submitted'| == i + 1 && JobsOf(items, submitted') &&
      CountRaised(running', apply) == RaisedBefore(items, i + 1, ViaPool(apply))
    ensures err == Some(Hang) ==> !AllSucceed(items, ViaPool(apply))
    ensures err == Some(Hang) ==> workerLimit > 0 && BlockedAt(items, i, ViaPool(apply))
    ensures PrepareForPool(items[i].1).Failure? ==> err == Some(PrepareForPool(items[i].1).error)
    ensures PrepareForPool(items[i].1).Success? ==>
      (err.None? || err == Some(Hang)) &&
      (err == Some(Hang) <==> BlocksAt(items, i, workerLimit, ViaPool(apply)))
  {
    SetupJobOf(items[i]);
    JobsOfSnoc(items, submitted);
    if err == Some(Hang) {
      BlocksHere(items, i, workerLimit, ViaPool(apply));
    } else if err.None? {
      assert RaisesAt(items, i, ViaPool(apply)) <==> apply(JobOf(items[i]).spec).Raised?;
    }
  }

  /** One round of the threaded handler's loop: prepare item `i` and submit it
      under its key (`kws['_result_id'] = k`). */
  method SubmitOne(items: seq<Item>, i: nat, pool: ThreadPool) returns (err: Option<Error>)
    requires pool.Valid() && !pool.isJoin && i < |items| && |pool.submitted| == i && JobsOf(items, pool.submitted)
    requires CountRaised(pool.running, pool.apply) == RaisedBefore(items, i, ViaPool(pool.apply))
    modifies pool
    ensures pool.Valid() && !pool.isJoin
    ensures err.None? ==>
      |pool.submitted| == i + 1 && JobsOf(items, pool.submitted) &&
      CountRaised(pool.running, pool.apply) == RaisedBefore(items, i + 1, ViaPool(pool.apply))
    ensures err == Some(Hang) ==> !AllSucceed(items, ViaPool(pool.apply))
    ensures err == Some(Hang) ==> pool.workerLimit > 0 && BlockedAt(items, i, ViaPool(pool.apply))
    ensures Prepare(items[i].1).Failure? ==> err == Some(Prepare(items[i].1).error)
    ensures PrepareForPool(items[i].1).Failure? ==> err == Some(PrepareForPool(items[i].1).error)
    ensures PrepareForPool(items[i].1).Success? ==>
      (err.None? || err == Some(Hang)) &&
      (err == Some(Hang) <==> BlocksAt(items, i, pool.workerLimit, ViaPool(pool.apply)))
  {
    var (k, v) := items[i];
    var spec := Prepare(v);
    if spec.Failure? {
      return Some(spec.error);
    }
    var s := spec.value;
    ghost var running, submitted := pool.running, pool.submitted;
    err := pool.PuttingTask(s.func, s.args, s.kws[RESULT_ID := k]);
    SubmittedOne(items, i, pool.workerLimit, pool.apply, running, submitted, pool.running, pool.submitted, err);
  }

  /** The threaded handler's loop: submit the items in order, stopping at the
      first spec that cannot be submitted or at a submission that blocks forever. */
  method SubmitAll(items: seq<Item>, pool: ThreadPool) returns (err: Option<Error>, ghost stop: nat)
    requires pool.Valid() && !pool.isJoin && pool.submitted == [] && pool.running == []
    modifies pool
    ensures pool.Valid() && !pool.isJoin
    ensures err.None? ==> AllPrepared(items) && |pool.submitted| == |items| && JobsOf(items, pool.submitted)
    ensures err.None? ==> Reaches(items, |items|, pool.workerLimit, ViaPool(pool.apply))
    ensures err == Some(Hang) ==> !AllSucceed(items, ViaPool(pool.apply))
    ensures err == Some(Hang) ==> pool.workerLimit > 0 && BlockedAt(items, stop, ViaPool(pool.apply))
    ensures err.Some? ==> StopsAt(items, stop, pool.workerLimit, ViaPool(pool.apply), err.value)
  {
    stop := 0;
    for i := 0 to |items|
      invariant pool.Valid() && !pool.isJoin && |pool.submitted| == i && JobsOf(items, pool.submitted)
      invariant CountRaised(pool.running, pool.apply) == RaisedBefore(items, i, ViaPool(pool.apply))
      invariant Reaches(items, i, pool.workerLimit, ViaPool(pool.apply))
    {
      err := SubmitOne(items, i, pool);
      if err.Some? {
        assert StopsAt(items, i, pool.workerLimit, ViaPool(pool.apply), err.value);
        StoppedLoop(items, i, pool.workerLimit, ViaPool(pool.apply), err.value);
        return err, i;
      }
      ReachesNext(items, i, pool.workerLimit, ViaPool(pool.apply));
    }
    return None, 0;
  }

  /** The end of the threaded handler once every item is submitted: join the
      pool, then reshape its result dict. It blocks forever exactly when some
      task raised, and otherwise gives what running the batch in order gives. */
  method JoinAndCollect(batch: Batch, pool: ThreadPool) returns (r: Result<Output, Error>)
    requires WellFormed(batch) && !batch.NotABatch?
    requires pool.Valid() && |pool.submitted| == |Items(batch)| && JobsOf(Items(batch), pool.submitted)
    modifies pool
    ensures r.Success? <==> AllSucceed(Items(batch), ViaPool(pool.apply))
    ensures r.Success? ==> r == RunSequentially(batch, ViaPool(pool.apply))
    ensures r.Failure? ==> r == Failure(Hang)
  {
    var items := Items(batch);
    ghost var inFlight := pool.running;
    var hung := pool.Join();
    if hung {
      RaisedInFlight(items, pool, inFlight);
      return Failure(Hang);
    }
    DrainedResults(items, pool, pool.apply);
    if batch.ListBatch? {
      forall i | 0 <= i < |batch.specs| ensures PyInt(i) in pool.results {
        assert items[i].0 == PyInt(i);
      }
    }
    r := Reshape(batch, pool.results);
    ReshapedResults(batch, ViaPool(pool.apply), pool.results, r);
  }

  /** What the threaded handler promises for `batch`. A non-batch is refused.
      The submit loop ends at the first item whose spec cannot be submitted,
      with that spec's error, or at the first `put` that waits for good, once
      raised tasks hold every slot. Past the loop the handler returns exactly
      when every task returns, and then gives what running the batch in order
      gives, whatever order the threads finished in; a task that raised makes
      the join block forever. Blocking forever always comes from a raised task
      that the in-order run also meets before any spec error. */
  ghost predicate ThreadedOutcome(batch: Batch, workerLimit: int, apply: TaskSpec -> Outcome, r: Result<Output, Error>)
  {
    var items := Items(batch);
    && (batch.NotABatch? ==> r == Failure(InvalidBatch))
    && (r.Failure? && r.error == InvalidBatch ==> batch.NotABatch?)
    && (r.Success? <==> !batch.NotABatch? && Submittable(items) && AllSucceed(items, ViaPool(apply)))
    && (r.Success? ==> r == RunSequentially(batch, ViaPool(apply)))
    && (!batch.NotABatch? && Submittable(items) && !AllSucceed(items, ViaPool(apply)) ==> r == Failure(Hang))
    && (forall m: nat, e | StopsAt(items, m, workerLimit, ViaPool(apply), e) :: r == Failure(e))
    && (r.Failure? && r.error != Hang && !batch.NotABatch? ==>
          exists m: nat :: StopsAt(items, m, workerLimit, ViaPool(apply), r.error))
    && (r == Failure(Hang) <==>
          !batch.NotABatch? &&
          ((Submittable(items) && !AllSucceed(items, ViaPool(apply))) ||
           exists m: nat :: StopsAt(items, m, workerLimit, ViaPool(apply), Hang)))
    && (r == Failure(Hang) ==>
          RunSequentially(batch, ViaPool(apply)).Failure? && RunSequentially(batch, ViaPool(apply)).error.TaskRaised?)
    && (r == Failure(Hang) && workerLimit <= 0 ==> AllPrepared(items))
  }

  /** A loop that ended at item `m` with `e` makes `e` the handler's result. */
  lemma StoppedOutcome(batch: Batch, workerLimit: int, apply: TaskSpec -> Outcome, m: nat, e: Error)
    requires WellFormed(batch) && !batch.NotABatch?
    requires StopsAt(Items(batch), m, workerLimit, ViaPool(apply), e)
    ensures ThreadedOutcome(batch, workerLimit, apply, Failure(e))
  {
    var items := Items(batch);
    StoppedLoop(items, m, workerLimit, ViaPool(apply), e);
    if e == Hang {
      var l :| 0 <= l < m && RaisesAt(items, l, ViaPool(apply));
      FirstFailureRaised(items, l, ViaPool(apply));
      SequentialFromRun(batch, ViaPool(apply));
    }
  }

  /** A loop that submitted every item leaves the handler's result to the join. */
  lemma JoinedOutcome(batch: Batch, workerLimit: int, apply: TaskSpec -> Outcome, r: Result<Output, Error>)
    requires WellFormed(batch) && !batch.NotABatch?
    requires Reaches(Items(batch), |Items(batch)|, workerLimit, ViaPool(apply)) && AllPrepared(Items(batch))
    requires r.Success? <==> AllSucceed(Items(batch), ViaPool(apply))
    requires r.Success? ==> r == RunSequentially(batch, ViaPool(apply))
    requires r.Failure? ==> r == Failure(Hang)
    ensures ThreadedOutcome(batch, workerLimit, apply, r)
  {
    var items := Items(batch);
    FinishedLoop(items, workerLimit, ViaPool(apply));
    if r.Failure? {
      var l :| 0 <= l < |items| && !RunTask(items[l].1, ViaPool(apply)).Success?;
      FirstFailureRaised(items, l, ViaPool(apply));
      SequentialFromRun(batch, ViaPool(apply));
    }
  }

  /** The threaded handler: validate the batch, submit every item to a fresh
      pool under its key, join, reshape. */
  method Threaded(batch: Batch, workerLimit: int, apply: TaskSpec -> Outcome) returns (r: Result<Output, Error>)
    requires WellFormed(batch)
    ensures ThreadedOutcome(batch, workerLimit, apply, r)
  {
    if batch.NotABatch? {
      return Failure(InvalidBatch);
    }
    var items := Items(batch);
    var pool := new ThreadPool(workerLimit, apply);
    var err, stop := SubmitAll(items, pool);
    if err.Some? {
      StoppedOutcome(batch, workerLimit, apply, stop, err.value);
      return Failure(err.value);
    }
    r := JoinAndCollect(batch, pool);
    JoinedOutcome(batch, workerLimit, apply, r);
  }

  /** No task's own keyword arguments use the key the handler routes through the pool. */
  ghost predicate NoResultIdKeyword(items: seq<Item>)
  {
    forall m | 0 <= m < |items| && Prepare(items[m].1).Success? :: RESULT_ID !in Prepare(items[m].1).value.kws
  }

  /** Unless a task itself passes `_result_id`, routing the key through the
      pool is invisible: the threaded handler's reference semantics are the
      fake handler's. */
  lemma ThreadedAgreesWithFake(batch: Batch, apply: TaskSpec -> Outcome)
    requires NoResultIdKeyword(Items(batch))
    ensures RunSequentially(batch, ViaPool(apply)) == RunSequentially(batch, apply)
  {
    var items := Items(batch);
    forall m | 0 <= m < |items| ensures RunTask(items[m].1, ViaPool(apply)) == RunTask(items[m].1, apply) {
      if Prepare(items[m].1).Success? {
        var s := Prepare(items[m].1).value;
        assert Visible(s) == s;
      }
    }
    RunInOrderAgree(items, ViaPool(apply), apply);
  }

  /** A spec error after a raised task is still reported: in `[[f], [None] * 4]`
      the second spec fails the length assertion before its `put`, whatever
      `f` does and whatever the worker limit. */
  lemma SpecErrorAfterRaise(f: PyValue, workerLimit: int, apply: TaskSpec -> Outcome, r: Result<Output, Error>)
    requires ThreadedOutcome(ListBatch([[f], [PyNone, PyNone, PyNone, PyNone]]), workerLimit, apply, r)
    ensures r == Failure(SpecTooLong(4))
  {
    var items := Items(ListBatch([[f], [PyNone, PyNone, PyNone, PyNone]]));
    assert items[0] == (PyInt(0), [f]);
    assert items[1] == (PyInt(1), [PyNone, PyNone, PyNone, PyNone]);
    assert PrepareForPool(items[0].1) == Success(TaskSpec(f, [], map[]));
    assert RaisedBefore(items, 0, ViaPool(apply)) == 0;
    assert Reaches(items, 1, workerLimit, ViaPool(apply));
    assert StopsAt(items, 1, workerLimit, ViaPool(apply), SpecTooLong(4));
  }

  /** End to end: with no task passing `_result_id` itself, the threaded
      handler succeeds exactly when every spec can be submitted and the fake
      handler succeeds, and then gives the fake handler's result; where the fake
      handler fails on a task that raised, the threaded one blocks forever. */
  lemma ThreadedLikeFake(batch: Batch, workerLimit: int, apply: TaskSpec -> Outcome, r: Result<Output, Error>)
    requires WellFormed(batch) && NoResultIdKeyword(Items(batch))
    requires ThreadedOutcome(batch, workerLimit, apply, r)
    ensures r.Success? <==> Submittable(Items(batch)) && RunSequentially(batch, apply).Success?
    ensures r.Success? ==> r == RunSequentially(batch, apply)
    ensures Submittable(Items(batch)) && RunSequentially(batch, apply).Failure? && !batch.NotABatch? ==>
      r == Failure(Hang)
  {
    ThreadedAgreesWithFake(batch, apply);
    if !batch.NotABatch? {
      SequentialFromRun(batch, ViaPool(apply));
      RunInOrderOutcome(Items(batch), ViaPool(apply));
    }
  }

  /** `time_list` before it is sorted: per task in execution order, its key
      and the `.microseconds` field of its elapsed time `elapsed[m]`. */
  function TimeRecord(items: seq<Item>, elapsed: seq<nat>): seq<TimeEntry>
    requires |elapsed| == |items|
  {
    seq(|items|, m requires 0 <= m < |items| => (items[m].0, Microseconds(elapsed[m])))
  }

  lemma TimeRecordStep(items: seq<Item>, elapsed: seq<nat>, i: nat)
    requires i < |items| == |elapsed|
    ensures TimeRecord(items[..i + 1], elapsed[..i + 1]) ==
      TimeRecord(items[..i], elapsed[..i]) + [(items[i].0, Microseconds(elapsed[i]))]
  {
  }

  /** The ranked `time_list` has one entry per task, each under a second,
      ordered by descending time, ties in execution order. */
  lemma RankedTimes(items: seq<Item>, elapsed: seq<nat>)
    requires |elapsed| == |items|
    ensures multiset(Rank(TimeRecord(items, elapsed))) == multiset(TimeRecord(items, elapsed))
    ensures |Rank(TimeRecord(items, elapsed))| == |items|
    ensures forall e | e in Rank(TimeRecord(items, elapsed)) :: e.1 < MICROS_PER_SECOND
    ensures Descending(Rank(TimeRecord(items, elapsed)))
    ensures forall t :: WithElapsed(Rank(TimeRecord(items, elapsed)), t) == WithElapsed(TimeRecord(items, elapsed), t)
  {
    var record := TimeRecord(items, elapsed);
    RankPermutation(record);
    RankDescending(record);
    forall t ensures WithElapsed(Rank(record), t) == WithElapsed(record, t) {
      RankStable(record, t);
    }
    assert |multiset(Rank(record))| == |multiset(record)|;
    forall e | e in Rank(record) ensures e.1 < MICROS_PER_SECOND {
      assert e in multiset(Rank(record));
      assert e in record;
    }
  }

  /** The synchronous handler of `async_iter.py`: each task runs on the
      calling thread in iteration order, its result filling the output in
      place, and its `(key, elapsed)` pair is appended to `time_list`, which is
      then ranked. `elapsed[m]` is the wall-clock duration of task m's call in
      microseconds. It gives what running the batch in order gives, exceptions included. */
  method Fake(batch: Batch, apply: TaskSpec -> Outcome, elapsed: seq<nat>)
    returns (r: Result<Output, Error>, timeList: seq<TimeEntry>)
    requires WellFormed(batch)
    requires |elapsed| == |Items(batch)|
    ensures r == RunSequentially(batch, apply)
    ensures r.Success? ==> timeList == Rank(TimeRecord(Items(batch), elapsed))
  {
    timeList := [];
    if batch.NotABatch? {
      return Failure(InvalidBatch), timeList;
    }
    var items := Items(batch);
    var n := |items|;
    var outDict: map<PyValue, PyValue> := map[];
    var outList := new PyValue[if batch.ListBatch? then n else 0](_ => PyNone);
    ghost var vals: seq<PyValue> := [];
    for i := 0 to n
      invariant |vals| == i
      invariant RunInOrder(items[..i], apply) == Success(vals)
      invariant batch.DictBatch? ==> outDict == ResultsMap(items[..i], vals)
      invariant batch.ListBatch? ==> outList[..i] == vals
      invariant timeList == TimeRecord(items[..i], elapsed[..i])
    {
      var k, v := items[i].0, items[i].1;
      var run := RunTask(v, apply);
      if run.Failure? {
        FailsAt(batch, i, apply);
        return Failure(run.error), timeList;
      }
      var value := run.value;
      RunInOrderStep(items, i, apply);
      if batch.DictBatch? {
        ResultsMapStep(items, vals, i, value);
        outDict := outDict[k := value];
      } else {
        outList[i] := value;
        assert outList[..i + 1] == outList[..i] + [value];
      }
      TimeRecordStep(items, elapsed, i);
      timeList := timeList + [(k, Microseconds(elapsed[i]))];
      vals := vals + [value];
    }
    assert items[..n] == items && elapsed[..n] == elapsed;
    CollectedOutput(batch, apply, vals);
    timeList := Rank(timeList);
    if batch.DictBatch? {
      r := Success(DictOut(outDict));
    } else {
      assert outList[..] == outList[..n];
      r := Success(ListOut(outList[..]));
    }
  }

  /** A dispatch whose first `i` tasks succeed and whose task `i` fails fails with that task's error. */
  lemma FailsAt(batch: Batch, i: nat, apply: TaskSpec -> Outcome)
    requires !batch.NotABatch? && i < |Items(batch)|
    requires RunInOrder(Items(batch)[..i], apply).Success? && RunTask(Items(batch)[i].1, apply).Failure?
    ensures RunSequentially(batch, apply) == Failure(RunTask(Items(batch)[i].1, apply).error)
  {
    RunInOrderStep(Items(batch), i, apply);
    SequentialFromRun(batch, apply);
  }

  /** A run in order of every item that succeeded is the dispatch's result, shaped like the batch. */
  lemma CollectedOutput(batch: Batch, apply: TaskSpec -> Outcome, vals: seq<PyValue>)
    requires !batch.NotABatch? && RunInOrder(Items(batch), apply) == Success(vals)
    ensures |vals| == |Items(batch)|
    ensures batch.DictBatch? ==> RunSequentially(batch, apply) == Success(DictOut(ResultsMap(batch.entries, vals)))
    ensures batch.ListBatch? ==> RunSequentially(batch, apply) == Success(ListOut(vals))
  {
    SequentialFromRun(batch, apply);
  }

  /** The synchronous handler of `multitasking.py`: the same loop without the timing record. */
  method FakeUntimed(batch: Batch, apply: TaskSpec -> Outcome) returns (r: Result<Output, Error>)
    requires WellFormed(batch)
    ensures r == RunSequentially(batch, apply)
  {
    var noClock := seq(|Items(batch)|, _ => 0);
    var untimed;
    r, untimed := Fake(batch, apply, noClock);
  }
}
