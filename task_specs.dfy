/** Task specs and batches: how a raw `(func[, args[, kws]])` spec becomes a
    call, which shapes of batch are accepted, and what running a batch task by
    task in iteration order produces. The last is the reference every handler
    is proved against. */
module TaskSpecs {
  import opened Py

  /** The keyword under which the threaded handler passes a task's key to the pool. */
  const RESULT_ID: string := "_result_id"

  /** A spec after normalisation and unpacking: what `func(*args, **kws)` calls. */
  datatype TaskSpec = TaskSpec(func: PyValue, args: seq<PyValue>, kws: map<string, PyValue>)

  /** The three values `func, args, kws` that a normalised spec unpacks to. */
  type Padded = (PyValue, PyValue, PyValue)

  function Fields(t: Padded): seq<PyValue>
  {
    [t.0, t.1, t.2]
  }

  /** Spec normalisation: a spec longer than 3 fails the assertion; an empty
      one maps to None, whose unpacking fails; otherwise the spec is padded with
      an empty tuple of positional arguments and an empty keyword dict. */
  function Normalize(v: seq<PyValue>): (r: Result<Padded, Error>)
    ensures r.Success? <==> 1 <= |v| <= 3
    ensures |v| > 3 ==> r == Failure(SpecTooLong(|v|))
    ensures |v| == 0 ==> r == Failure(SpecEmpty)
    ensures r.Success? ==> Fields(r.value)[..|v|] == v
    ensures r.Success? && |v| < 2 ==> r.value.1 == PyTuple([])
    ensures r.Success? && |v| < 3 ==> r.value.2 == PyDict(map[])
  {
    if |v| > 3 then Failure(SpecTooLong(|v|))
    else if |v| == 0 then Failure(SpecEmpty)
    else if |v| == 1 then Success((v[0], PyTuple([]), PyDict(map[])))
    else if |v| == 2 then Success((v[0], v[1], PyDict(map[])))
    else Success((v[0], v[1], v[2]))
  }

  /** Padding adds nothing a second time: the padded spec normalises to itself,
      so `(f,)`, `(f, ())` and `(f, (), {})` describe the same call. */
  lemma NormalizeIdempotent(v: seq<PyValue>)
    requires Normalize(v).Success?
    ensures Normalize(Fields(Normalize(v).value)) == Normalize(v)
  {
  }

  /** The positional arguments `*args` spreads: the items of a tuple or list,
      the one-character strings of a string; anything else is not unpackable here. */
  function PositionalArgs(v: PyValue): Option<seq<PyValue>>
  {
    match v
    case PyTuple(items) => Some(items)
    case PyList(items) => Some(items)
    case PyStr(s) => Some(seq(|s|, i requires 0 <= i < |s| => PyStr([s[i]])))
    case _ => None
  }

  /** Unpacking a padded spec into a call: `args` must be spreadable and `kws` a dict. */
  function Unpack(t: Padded): (r: Result<TaskSpec, Error>)
    ensures r.Success? <==> PositionalArgs(t.1).Some? && t.2.PyDict?
    ensures r.Success? ==> r.value == TaskSpec(t.0, PositionalArgs(t.1).value, t.2.entries)
    ensures r.Failure? ==> r.error == NotUnpackable
  {
    match PositionalArgs(t.1)
    case None => Failure(NotUnpackable)
    case Some(args) => if t.2.PyDict? then Success(TaskSpec(t.0, args, t.2.entries)) else Failure(NotUnpackable)
  }

  /** Unpacking gives back any call whose arguments are passed as a tuple or a
      list and whose keywords are passed as a dict. */
  lemma UnpackRoundTrip(s: TaskSpec)
    ensures Unpack((s.func, PyTuple(s.args), PyDict(s.kws))) == Success(s)
    ensures Unpack((s.func, PyList(s.args), PyDict(s.kws))) == Success(s)
  {
  }

  /** Normalise, then unpack. */
  function Prepare(raw: seq<PyValue>): (r: Result<TaskSpec, Error>)
    ensures r.Success? ==> 1 <= |raw| <= 3 && r.value.func == raw[0]
    ensures r.Success? && |raw| == 1 ==> r.value.args == [] && r.value.kws == map[]
    ensures r.Success? && |raw| == 2 ==> r.value.kws == map[]
    ensures |raw| > 3 ==> r == Failure(SpecTooLong(|raw|))
    ensures |raw| == 0 ==> r == Failure(SpecEmpty)
    ensures r.Failure? ==> r.error == SpecTooLong(|raw|) || r.error == SpecEmpty || r.error == NotUnpackable
  {
    match Normalize(raw)
    case Failure(e) => Failure(e)
    case Success(t) => Unpack(t)
  }

  /** The spec as the callable sees it once the pool has popped `_result_id`. */
  function Visible(s: TaskSpec): TaskSpec
  {
    s.(kws := s.kws - {RESULT_ID})
  }

  /** A task's key paired with its raw spec. */
  type Item = (PyValue, seq<PyValue>)

  /** A batch in one of the two accepted shapes, or any other value. A dict is
      given by its entries in iteration order. */
  datatype Batch =
    | DictBatch(entries: seq<Item>)
    | ListBatch(specs: seq<seq<PyValue>>)
    | NotABatch(value: PyValue)

  predicate DistinctKeys(items: seq<Item>)
  {
    forall i, j | 0 <= i < j < |items| :: items[i].0 != items[j].0
  }

  /** A dict never holds a key twice. */
  predicate WellFormed(b: Batch)
  {
    b.DictBatch? ==> DistinctKeys(b.entries)
  }

  /** What the handlers iterate over: `task_iter.items()` for a dict,
      `enumerate(task_iter)` for a list, nothing for anything else. */
  function Items(b: Batch): (r: seq<Item>)
    ensures b.DictBatch? ==> r == b.entries
    ensures b.ListBatch? ==> |r| == |b.specs| && forall i | 0 <= i < |r| :: r[i] == (PyInt(i), b.specs[i])
    ensures b.NotABatch? ==> r == []
    ensures WellFormed(b) ==> DistinctKeys(r)
  {
    match b
    case DictBatch(entries) => entries
    case ListBatch(specs) => seq(|specs|, i requires 0 <= i < |specs| => (PyInt(i), specs[i]))
    case NotABatch(_) => []
  }

  function KeySet(items: seq<Item>): set<PyValue>
  {
    set m | 0 <= m < |items| :: items[m].0
  }

  /** Running one raw spec on the calling thread: the spec's error, the task's
      exception, or its return value. */
  function RunTask(raw: seq<PyValue>, apply: TaskSpec -> Outcome): (r: Result<PyValue, Error>)
    ensures r.Success? <==> Prepare(raw).Success? && apply(Prepare(raw).value).Returned?
    ensures r.Success? ==> r.value == apply(Prepare(raw).value).value
  {
    match Prepare(raw)
    case Failure(e) => Failure(e)
    case Success(s) =>
      match apply(s)
      case Raised(x) => Failure(TaskRaised(x))
      case Returned(v) => Success(v)
  }

  predicate AllPrepared(items: seq<Item>)
  {
    forall m | 0 <= m < |items| :: Prepare(items[m].1).Success?
  }

  /** Item `l`'s spec prepares and its call raises. */
  ghost predicate RaisesAt(items: seq<Item>, l: nat, apply: TaskSpec -> Outcome)
  {
    && l < |items|
    && Prepare(items[l].1).Success?
    && apply(Prepare(items[l].1).value).Raised?
  }

  /** How many of the first `i` items prepare and raise. */
  ghost function RaisedBefore(items: seq<Item>, i: nat, apply: TaskSpec -> Outcome): nat
    requires i <= |items|
  {
    if i == 0 then 0
    else RaisedBefore(items, i - 1, apply) + (if RaisesAt(items, i - 1, apply) then 1 else 0)
  }

  /** A positive count names an item that raised. */
  lemma {:induction false} RaisedBeforeWitness(items: seq<Item>, i: nat, apply: TaskSpec -> Outcome)
    requires i <= |items| && RaisedBefore(items, i, apply) > 0
    ensures exists l | 0 <= l < i :: RaisesAt(items, l, apply)
  {
    if !RaisesAt(items, i - 1, apply) {
      RaisedBeforeWitness(items, i - 1, apply);
    }
  }

  predicate AllSucceed(items: seq<Item>, apply: TaskSpec -> Outcome)
  {
    forall m | 0 <= m < |items| :: RunTask(items[m].1, apply).Success?
  }

  /** Running the items one after another in order, stopping at the first error. */
  function RunInOrder(items: seq<Item>, apply: TaskSpec -> Outcome): Result<seq<PyValue>, Error>
    decreases |items|
  {
    if items == [] then Success([])
    else
      match RunInOrder(items[..|items| - 1], apply)
      case Failure(e) => Failure(e)
      case Success(vs) =>
        match RunTask(items[|items| - 1].1, apply)
        case Failure(e) => Failure(e)
        case Success(v) => Success(vs + [v])
  }

  /** Running in order succeeds exactly when every task does, yields each
      task's value at its own position, and otherwise fails with the error of
      the first task that fails. */
  lemma {:induction false} RunInOrderOutcome(items: seq<Item>, apply: TaskSpec -> Outcome)
    ensures RunInOrder(items, apply).Success? <==> AllSucceed(items, apply)
    ensures RunInOrder(items, apply).Success? ==>
      |RunInOrder(items, apply).value| == |items| &&
      forall m | 0 <= m < |items| :: RunInOrder(items, apply).value[m] == RunTask(items[m].1, apply).value
    ensures RunInOrder(items, apply).Failure? ==>
      exists m | 0 <= m < |items| ::
        (forall l | 0 <= l < m :: RunTask(items[l].1, apply).Success?) &&
        RunTask(items[m].1, apply) == Failure(RunInOrder(items, apply).error)
    decreases |items|
  {
    if items != [] {
      var n := |items|;
      var front := items[..n - 1];
      RunInOrderOutcome(front, apply);
      assert forall m | 0 <= m < n - 1 :: front[m] == items[m];
      var last := RunTask(items[n - 1].1, apply);
      match RunInOrder(front, apply)
      case Failure(e) =>
        assert RunInOrder(items, apply) == Failure(e);
        var m :| 0 <= m < |front| &&
          (forall l | 0 <= l < m :: RunTask(front[l].1, apply).Success?) &&
          RunTask(front[m].1, apply) == Failure(e);
        assert forall l | 0 <= l < m :: RunTask(items[l].1, apply).Success?;
        assert RunTask(items[m].1, apply) == Failure(e);
      case Success(vs) =>
        if last.Failure? {
          assert RunInOrder(items, apply) == Failure(last.error);
          assert forall l | 0 <= l < n - 1 :: RunTask(items[l].1, apply).Success?;
          assert RunTask(items[n - 1].1, apply) == Failure(last.error);
        } else {
          assert RunInOrder(items, apply) == Success(vs + [last.value]);
          forall m | 0 <= m < n ensures (vs + [last.value])[m] == RunTask(items[m].1, apply).value {
            if m < n - 1 { assert (vs + [last.value])[m] == vs[m]; }
          }
        }
    }
  }

  /** When every spec up to a failing task prepares, running in order fails
      with a task's own exception, never with a spec error. */
  lemma FirstFailureRaised(items: seq<Item>, l: nat, apply: TaskSpec -> Outcome)
    requires l < |items| && !RunTask(items[l].1, apply).Success?
    requires forall m | 0 <= m <= l :: Prepare(items[m].1).Success?
    ensures RunInOrder(items, apply).Failure? && RunInOrder(items, apply).error.TaskRaised?
  {
    RunInOrderOutcome(items, apply);
    var m :| 0 <= m < |items| &&
      (forall k | 0 <= k < m :: RunTask(items[k].1, apply).Success?) &&
      RunTask(items[m].1, apply) == Failure(RunInOrder(items, apply).error);
    assert m <= l;
  }

  /** Two callables that agree on every task of the batch run it alike. */
  lemma {:induction false} RunInOrderAgree(items: seq<Item>, f: TaskSpec -> Outcome, g: TaskSpec -> Outcome)
    requires forall m | 0 <= m < |items| :: RunTask(items[m].1, f) == RunTask(items[m].1, g)
    ensures RunInOrder(items, f) == RunInOrder(items, g)
    decreases |items|
  {
    if items != [] {
      var front := items[..|items| - 1];
      assert forall m | 0 <= m < |front| :: front[m] == items[m];
      RunInOrderAgree(front, f, g);
    }
  }

  /** Once a prefix has failed, running the rest changes nothing. */
  lemma {:induction false} FailurePersists(items: seq<Item>, j: nat, apply: TaskSpec -> Outcome)
    requires j <= |items|
    requires RunInOrder(items[..j], apply).Failure?
    ensures RunInOrder(items, apply) == RunInOrder(items[..j], apply)
    decreases |items| - j
  {
    if j < |items| {
      var front := items[..|items| - 1];
      assert front[..j] == items[..j];
      FailurePersists(front, j, apply);
    } else {
      assert items[..j] == items;
    }
  }

  /** One more item run after a prefix that succeeded: its failure is the
      failure of the whole run, its value extends the prefix's values. */
  lemma RunInOrderStep(items: seq<Item>, i: nat, apply: TaskSpec -> Outcome)
    requires i < |items|
    requires RunInOrder(items[..i], apply).Success?
    ensures RunTask(items[i].1, apply).Failure? ==>
      RunInOrder(items, apply) == Failure(RunTask(items[i].1, apply).error)
    ensures RunTask(items[i].1, apply).Success? ==>
      RunInOrder(items[..i + 1], apply) ==
        Success(RunInOrder(items[..i], apply).value + [RunTask(items[i].1, apply).value])
  {
    assert items[..i + 1][..i] == items[..i];
    if RunTask(items[i].1, apply).Failure? {
      FailurePersists(items, i + 1, apply);
    }
  }

  /** The dict a loop builds by assigning `out[key] = value` item by item. */
  function ResultsMap(items: seq<Item>, vals: seq<PyValue>): map<PyValue, PyValue>
    requires |items| == |vals|
    decreases |items|
  {
    if items == [] then map[]
    else ResultsMap(items[..|items| - 1], vals[..|vals| - 1])[items[|items| - 1].0 := vals[|vals| - 1]]
  }

  lemma ResultsMapStep(items: seq<Item>, vals: seq<PyValue>, i: nat, v: PyValue)
    requires i < |items| && |vals| == i
    ensures ResultsMap(items[..i + 1], vals + [v]) == ResultsMap(items[..i], vals)[items[i].0 := v]
  {
    var front, fvals := items[..i + 1], vals + [v];
    assert front[..i] == items[..i] && fvals[..i] == vals;
    assert front[i] == items[i] && fvals[i] == v;
    assert ResultsMap(front, fvals) == ResultsMap(front[..i], fvals[..i])[front[i].0 := fvals[i]];
  }

  /** With distinct keys, that dict has exactly the items' keys and each key
      holds its own item's value. */
  lemma KeySetSnoc(items: seq<Item>)
    requires items != []
    ensures KeySet(items) == KeySet(items[..|items| - 1]) + {items[|items| - 1].0}
  {
    var n, front := |items|, items[..|items| - 1];
    forall k | k in KeySet(items) ensures k in KeySet(front) + {items[n - 1].0} {
      var m :| 0 <= m < n && items[m].0 == k;
      if m < n - 1 { assert front[m] == items[m]; }
    }
    forall k | k in KeySet(front) ensures k in KeySet(items) {
      var m :| 0 <= m < n - 1 && front[m].0 == k;
      assert items[m].0 == k;
    }
  }

  lemma {:induction false} ResultsMapLookup(items: seq<Item>, vals: seq<PyValue>)
    requires |items| == |vals|
    requires DistinctKeys(items)
    ensures ResultsMap(items, vals).Keys == KeySet(items)
    ensures forall m | 0 <= m < |items| :: ResultsMap(items, vals)[items[m].0] == vals[m]
    decreases |items|
  {
    if items != [] {
      var n := |items|;
      var front, fvals := items[..n - 1], vals[..n - 1];
      assert DistinctKeys(front);
      ResultsMapLookup(front, fvals);
      KeySetSnoc(items);
      var r := ResultsMap(front, fvals)[items[n - 1].0 := vals[n - 1]];
      assert ResultsMap(items, vals) == r;
      forall m | 0 <= m < n ensures items[m].0 in r && r[items[m].0] == vals[m] {
        if m < n - 1 {
          assert front[m] == items[m] && fvals[m] == vals[m];
          assert items[m].0 != items[n - 1].0;
          assert items[m].0 in KeySet(front);
        }
      }
    }
  }

  /** What a handler returns: a dict of results or a list of results. */
  datatype Output = DictOut(results: map<PyValue, PyValue>) | ListOut(values: seq<PyValue>)

  /** Reshaping the values of a batch's tasks, in iteration order, into the batch's own shape. */
  function Shape(b: Batch, vals: seq<PyValue>): Output
    requires !b.NotABatch?
    requires |vals| == |Items(b)|
  {
    if b.DictBatch? then DictOut(ResultsMap(b.entries, vals)) else ListOut(vals)
  }

  /** The batch run task by task on the calling thread, in iteration order:
      the reference semantics of a dispatch. */
  function RunSequentially(b: Batch, apply: TaskSpec -> Outcome): Result<Output, Error>
  {
    if b.NotABatch? then Failure(InvalidBatch)
    else
      var run := RunInOrder(Items(b), apply);
      if run.Failure? then Failure(run.error)
      else
        RunInOrderOutcome(Items(b), apply);
        Success(Shape(b, run.value))
  }

  /** A dispatch of a dict or a list fails with the first failing task's
      error, or shapes the values of the run in order. */
  lemma SequentialFromRun(b: Batch, apply: TaskSpec -> Outcome)
    requires !b.NotABatch?
    ensures RunInOrder(Items(b), apply).Failure? ==>
      RunSequentially(b, apply) == Failure(RunInOrder(Items(b), apply).error)
    ensures RunInOrder(Items(b), apply).Success? ==>
      |RunInOrder(Items(b), apply).value| == |Items(b)| &&
      RunSequentially(b, apply) == Success(Shape(b, RunInOrder(Items(b), apply).value))
  {
    RunInOrderOutcome(Items(b), apply);
  }

  /** A dispatch rejects anything but a dict or a list, succeeds exactly when
      every task does, and then returns a dict with exactly the input's keys, or
      a list of the input's length, holding at each key or position the value of
      the task submitted under it. */
  lemma SequentialOutcome(b: Batch, apply: TaskSpec -> Outcome)
    requires WellFormed(b)
    ensures b.NotABatch? ==> RunSequentially(b, apply) == Failure(InvalidBatch)
    ensures RunSequentially(b, apply).Success? <==> !b.NotABatch? && AllSucceed(Items(b), apply)
    ensures b.DictBatch? && RunSequentially(b, apply).Success? ==>
      var out := RunSequentially(b, apply).value;
      out.DictOut? && out.results.Keys == KeySet(b.entries) &&
      forall m | 0 <= m < |b.entries| ::
        out.results[b.entries[m].0] == RunTask(b.entries[m].1, apply).value
    ensures b.ListBatch? && RunSequentially(b, apply).Success? ==>
      var out := RunSequentially(b, apply).value;
      out.ListOut? && |out.values| == |b.specs| &&
      forall i | 0 <= i < |b.specs| :: out.values[i] == RunTask(b.specs[i], apply).value
  {
    if !b.NotABatch? {
      var items := Items(b);
      RunInOrderOutcome(items, apply);
      if b.DictBatch? && RunInOrder(items, apply).Success? {
        ResultsMapLookup(b.entries, RunInOrder(items, apply).value);
      }
    }
  }
}
