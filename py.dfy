/** The Python values, exceptions and call outcomes the dispatcher moves around. */
module Py {

  datatype Option<T> = None | Some(value: T)

  datatype Result<T, E> = Success(value: T) | Failure(error: E)

  /** The part of Python's value universe the dispatcher looks at. Lists and
      tuples are kept apart because the padding of a task spec appends an
      empty tuple; callables and every other object are known only by identity. */
  datatype PyValue =
    | PyNone
    | PyInt(i: int)
    | PyStr(s: string)
    | PyTuple(items: seq<PyValue>)
    | PyList(items: seq<PyValue>)
    | PyDict(entries: map<string, PyValue>)
    | PyObject(id: nat)

  /** What calling a task callable does: it returns a value or raises an exception. */
  datatype Outcome = Returned(value: PyValue) | Raised(exception: PyValue)

  /** Everything a dispatch call can end in other than a result. */
  datatype Error =
    | InvalidBatch                     // ValueError: the batch is neither a dict nor a list
    | SpecTooLong(length: nat)         // AssertionError: a spec longer than 3
    | SpecEmpty                        // TypeError: unpacking the None that an empty spec normalises to
    | NotUnpackable                    // TypeError: `*args` is not iterable or `kws` is not a dict
    | PoolClosed                       // TreadPoolException('Thread pool is closed.')
    | DuplicateKeyword                 // TypeError: a keyword argument also binds a named parameter
    | KeyError(key: PyValue)           // a list position missing from the result dict
    | UnsupportedHandler(name: string, options: set<string>)  // ValueError from set_type
    | TaskRaised(exception: PyValue)   // a task raised on the calling thread
    | Hang                             // the call blocks forever
}
