# async-iter dispatcher, modelled in Dafny

`async-iter` runs a batch of tasks and returns their results in the batch's own
shape. A batch is a dict mapping keys to task specs, or a list of task specs.
A task spec is `(func[, args[, kws]])`. Two near-identical files implement it:
`multitasking.py` (class `MultiTaskHandler`) and `async_iter/async_iter.py`
(class `AsyncIterHandler`). Each file has the same customised `ThreadPool` and
three handlers selected by name:

- `threading` submits every task to a fresh pool under its key and joins the pool.
- `gevent` spawns greenlets.
- `fake` runs the tasks one after another on the calling thread. In
  `async_iter.py` it also ranks the tasks by elapsed time.

This project models the sequential bookkeeping of that dispatcher and proves
what it promises. It covers these parts:

- spec normalisation and batch validation (`TaskSpecs`);
- the thread pool as a state machine over occupied slots, the result dict and
  the closing flag (`ThreadPools.ThreadPool`);
- the threaded handler with its submit loop, join and list reshaping, and the
  fake handler with its timing record (`Handlers`);
- the stable descending ranking of elapsed times (`Ranking`);
- handler selection by name (`HandlerSelection`).

The reference semantics is `TaskSpecs.RunSequentially`: the batch run task by
task in iteration order, stopping at the first error.

- The fake handler is proved equal to it, errors included.
- The threaded handler is proved to return exactly when every spec can be
  submitted and every task returns. It then gives `RunSequentially`, whatever
  order the threads finished in.
- Its submit loop stops at the first item whose spec cannot be submitted, with
  that spec's error. It also stops, blocking forever, at the first `put` made
  while tasks that raised already hold all `worker_limit` slots. A raised task
  never frees its slot, so the `put` waits exactly when the raised tasks
  submitted so far number at least `worker_limit`.
- After a full submission, a task that raised makes the join block forever.
  Blocking forever always comes from a raised task that the in-order run meets
  before any spec error.
- A keyword argument named `self` or `func` makes the call to `putting_task`
  raise TypeError, because it would bind a parameter twice. After the pop of
  `_result_id`, a keyword named `key` does the same in `setup_func`. The
  threaded handler therefore fails on such specs with `DuplicateKeyword`,
  while the fake handler passes those keywords on to the task.
- The threaded handler's tasks receive their keyword arguments after the pool
  has popped `_result_id`. `Handlers.ThreadedAgreesWithFake` shows that this
  routing is invisible unless a task passes `_result_id` itself.
  `Handlers.ThreadedLikeFake` then relates the two handlers end to end.

Modelling choices:

- Python values are the `Py.PyValue` datatype. A dict batch is its entries in
  iteration order. A list batch is keyed by `PyInt(i)`.
- A task callable is the parameter `apply: TaskSpec -> Outcome`. It is
  deterministic and either returns a value or raises an exception.
- Threads are not modelled as threads. The pool keeps the jobs still holding a
  slot (`running`).
- A blocking `put` or `join` is a loop. Each round, some running job whose call
  returns finishes, chosen nondeterministically. A job whose call raised never
  frees its slot. When only such jobs are left, the call ends with `Hang`,
  which stands for blocking forever.
- A clock read is an input. `Handlers.Fake` takes the elapsed time of each task
  in microseconds.
- The lines cited from `multitasking.py` have the same code in
  `async_iter/async_iter.py`, at these offsets:
  - 14 lines earlier in the pool;
  - 15 lines earlier in the threaded handler;
  - 6 lines earlier in the handler table and `set_type`;
  - 13 to 15 lines earlier in the fake handler, which adds `time_list = []`
    and a clock read: 15 for its `def` line, 14 for the batch check and the
    padding, 13 for the call.

  The timing record exists only in `async_iter/async_iter.py`.
- The list reshaping raises KeyError at a missing position. `Handlers.Reshape`
  models that, and `Handlers.JoinAndCollect` shows that it cannot happen after
  a join that returns.

## Model

| member | source | states |
|---|---|---|
| TaskSpecs.Normalize | multitasking.py:112-119 | Padding succeeds exactly for specs of length 1 to 3 and keeps the spec as a prefix. A missing `args` becomes `()` and a missing `kws` becomes `{}`. A longer spec fails the length assertion. An empty spec fails to unpack. |
| TaskSpecs.NormalizeIdempotent | multitasking.py:114-118 | A padded spec normalises to itself, so `(f,)`, `(f, ())` and `(f, (), {})` make the same call. |
| TaskSpecs.UnpackRoundTrip | multitasking.py:119-121 | `func, args, kws = v` followed by `func(*args, **kws)` gives back any call whose arguments come as a tuple or a list and whose keywords come as a dict. |
| TaskSpecs.Prepare | multitasking.py:111-121 | A prepared spec calls its first element. A 1-spec has no arguments, a 2-spec has no keywords. A too-long spec and an empty spec fail with their own errors. The only failures are the length assertion, the empty spec and an unpackable `args` or `kws`. |
| TaskSpecs.Items | multitasking.py:100-109 | A dict is iterated by its entries and a list by `enumerate`. Anything else yields nothing. A dict's keys are distinct. |
| TaskSpecs.RunInOrderOutcome | multitasking.py:181-191 | A run in iteration order succeeds exactly when every task does, and holds each task's value at its own position. Otherwise it fails with the error of the first task that fails. |
| TaskSpecs.ResultsMapLookup | multitasking.py:190 | Assigning `out_iter[k]` item by item with distinct keys gives a dict with exactly the items' keys, each holding its own item's value. |
| TaskSpecs.SequentialOutcome | multitasking.py:166-191 | A dispatch rejects anything but a dict or a list, and succeeds exactly when every task succeeds. A dict result has exactly the input's keys. A list result has the input's length. Each key or position holds its own task's value. |
| ThreadPools.SetupJob | multitasking.py:44-70 | `_result_id` is popped from the keywords. It becomes the job's key, or NULLKEY when absent. The callable gets every other keyword unchanged and never sees `_result_id`. This is the job of a call that binds; keywords named `self`, `func` or `key` are refused before it by `ThreadPools.ThreadPool.PuttingTask`. |
| ThreadPools.ThreadPool.constructor | multitasking.py:39-42 | A new pool is open, empty and valid, with the given worker limit. |
| ThreadPools.ThreadPool.Finish | multitasking.py:48-57 | A finishing keyed job sets exactly its own key to its call's value. A NULLKEY job leaves the results alone. Either way exactly one slot is freed and the pool stays valid. |
| ThreadPools.ThreadPool.AwaitSlot | multitasking.py:72 | The wait inside `put` ends with a free slot, and changes nothing when the queue already has room. It hangs exactly when `worker_limit` is positive and at least `worker_limit` running jobs raised, and then on a full queue whose running jobs all raised. Results are only added, running jobs only leave, and raised jobs stay, so the count of raised running jobs is kept. |
| ThreadPools.ThreadPool.Admit | multitasking.py:72-73 | Once the queue has room, the job takes exactly one slot and joins the running and submitted jobs. The count of raised running jobs grows by one exactly when the job raised. The results are unchanged and the pool stays valid. |
| ThreadPools.ThreadPool.PuttingTask | multitasking.py:64-73 | A keyword named `self` or `func` fails with `DuplicateKeyword` before anything else and changes nothing. Otherwise a closed pool refuses the job and changes nothing. On an open pool a keyword named `key`, other than `_result_id`, fails with `DuplicateKeyword` and changes nothing. Otherwise the job is admitted or the call hangs, and it hangs exactly when `worker_limit` is positive and at least `worker_limit` running jobs raised. An open pool that is not full, or whose `worker_limit` is 0 or less, admits the job at once: exactly one more slot, the job appended, the results unchanged. An admitted raised job adds one to the count of raised running jobs. No result key is lost, the only new running job is this one, and raised jobs stay. |
| ThreadPools.ThreadPool.Join | multitasking.py:81-85 | `join` closes the pool for good. It hangs exactly when a job in flight raised. Otherwise it returns drained, with the result keys equal to the submitted keys. |
| Handlers.DrainedResults | multitasking.py:119-123 | Once the pool has drained after the handler's submissions, every task returned. The result dict then has exactly the batch's keys, each holding its own task's value. |
| Handlers.RaisedInFlight | multitasking.py:48-52 | A join that hangs had a raised job in flight, so some task of the batch fails. |
| Handlers.Reshape | multitasking.py:122-130 | A dict result is the result dict itself. A list result has the input's length and holds `out_dict[i]` at position i. It fails with KeyError at the first missing position. |
| Handlers.ReshapedResults | multitasking.py:122-130 | Reshaping a drained pool's results gives what running the batch in order gives. |
| Handlers.SubmitOne | multitasking.py:111-121 | One round of the loop fails with the item's own error when its spec does not prepare or has a keyword the pool call cannot bind. Otherwise it blocks forever exactly when `worker_limit` is positive and the tasks raised among the earlier items number at least `worker_limit`. If it does not block, it submits the item's own job under its key, and the pool's count of raised jobs becomes the count of raised tasks up to this item. |
| Handlers.SubmitAll | multitasking.py:110-121 | The loop ends where `StopsAt` says: at the first item whose spec cannot be submitted, with that spec's error, or at the first item reached while at least `worker_limit` earlier tasks raised, blocking forever. Blocking needs a positive `worker_limit` and a raised task before that item. A loop that does not stop leaves every item's job in the pool in order, each keyed by its own key. |
| Handlers.JoinAndCollect | multitasking.py:122-130 | After all submissions, the handler returns exactly when every task returns, and then gives the in-order result. Otherwise it blocks forever. |
| Handlers.Threaded | multitasking.py:94-130 | `ThreadedOutcome`: a non-batch, and only a non-batch, is rejected with ValueError. The handler succeeds exactly when every spec can be submitted and every task returns, and then equals the in-order run. Where the submit loop stops, the handler fails with the loop's error, so a spec error after a raised task is still reported (`Handlers.SpecErrorAfterRaise`). With every spec submittable, a raising task blocks it forever. Blocking forever happens exactly then or where the loop stops blocked, and only when the in-order run's first failure is a task raising. |
| Handlers.SpecErrorAfterRaise | multitasking.py:111-121 | For the list batch `[[f], [None] * 4]`, with any `f`, any task behaviour and any `worker_limit`, the threaded handler fails with the length error of the second spec, because the assertion fails before that item's `put`. |
| Handlers.ThreadedAgreesWithFake | multitasking.py:119-121 | Routing the key through `_result_id` changes no call unless a task passes `_result_id` itself, so the in-order run through the pool equals the fake handler's run. |
| Handlers.ThreadedLikeFake | multitasking.py:94-130 | With no task passing `_result_id`, the threaded handler succeeds exactly when every spec can be submitted and the fake handler succeeds, and then returns the fake handler's result. Where the fake handler fails with a raised task and every spec can be submitted, the threaded handler blocks forever. Specs with a `self`, `func` or `key` keyword are not submittable. |
| Handlers.RankedTimes | async_iter/async_iter.py:176-180 | The ranked time list has one entry per task and holds exactly the recorded entries, each under one second. It is in descending order and keeps ties in execution order. |
| Handlers.Fake | async_iter/async_iter.py:151-185 | The fake handler gives exactly the in-order run, exceptions included. On success its time list is the ranking of the per-task `(key, microseconds)` record. |
| Handlers.FakeUntimed | multitasking.py:166-191 | The fake handler without timing gives exactly the in-order run. |
| Ranking.Microseconds | async_iter/async_iter.py:179 | `.microseconds` is below one second, equals a sub-second duration, and drops only whole seconds. |
| Ranking.RankDescending | async_iter/async_iter.py:180 | The sort with `reverse=True` orders entries by non-increasing elapsed time. |
| Ranking.RankPermutation | async_iter/async_iter.py:180 | The sort keeps exactly the recorded entries. |
| Ranking.RankStable | async_iter/async_iter.py:180 | The sort is stable: entries with equal time keep their recorded order. |
| Ranking.RankIsStableSort | async_iter/async_iter.py:180 | Any descending order with each time's entries in recorded order is the ranking, so the ranking is fully determined. |
| HandlerSelection.HandlerOf | multitasking.py:210-219 | Lookup succeeds exactly for `threading`, `gevent` and `fake`, and the handler found carries that name. Any other name fails with a ValueError naming it and listing the options. |
| HandlerSelection.HandlerOfName | multitasking.py:193-197 | Every handler is registered under a name of the table, and looking that name up finds it. |
| HandlerSelection.TaskHandler.SetType | async_iter/async_iter.py:204-213 | `set_type` selects the handler of a known name. An unknown name raises ValueError and keeps the current handler. |
| HandlerSelection.NewTaskHandler | async_iter/async_iter.py:193-194 | Construction succeeds exactly for a known name, with that handler selected. Otherwise it raises the same ValueError. |

## Left out

- The gevent handler (multitasking.py:133-163) depends on an external library and is not modelled. It can still be selected by name.
- Real threads, `threading.Thread` and the blocking of `Queue.put`/`Queue.join` are not modelled. The completion order is a nondeterministic choice, and blocking forever is the `Hang` result.
- Clock reads, the float total and the printed percentages are left out. Elapsed times are an input sequence of naturals.
- Handlers.Fake does not raise the `ZeroDivisionError` of the percentage printout. In the source that happens when the batch is not empty and every recorded `.microseconds` field is 0, that is, every `Microseconds(elapsed[m])` is 0. A task lasting exactly a whole number of seconds records 0 too.
- The bodies of task callables are an opaque deterministic parameter `apply`. A callable with side effects, or one that reads shared state, is not captured.
- `test.py` is a demonstration script with random sleeps and printing, and is not part of this model.
- `__call__` forwarding of keyword arguments to the selected handler is not modelled. `worker_limit` is a parameter of `Handlers.Threaded`.
- The TypeError for a keyword named `self`, `func` or `key` is `DuplicateKeyword`, without the keyword's name that Python's message carries.
- A length-3 spec's own `kws` dict keeps the injected `_result_id` after the call. That mutation of the caller's dict is not modelled.
- Only tuples, lists and strings are spread as `*args`. A dict or another iterable as `args` is reported as `NotUnpackable`.
- A `kws` that is a mapping but not a dict is reported as `NotUnpackable`.
- A spec that is not a sequence, for which `len` raises TypeError, cannot occur in the model, because a spec is a sequence of values.
- The order of names in the ValueError message follows the dict's iteration order. The model keeps the names as a set.
