/** Choosing a handler by name: `HANDLER_TYPES` is a closed table of three
    names, and a handler object keeps the one chosen last. */
module HandlerSelection {
  import opened Py

  /** The three handlers of `HANDLER_TYPES`. */
  datatype HandlerKind = ThreadingHandler | GeventHandler | FakeHandler

  const HANDLER_NAMES: set<string> := {"threading", "gevent", "fake"}

  /** The key a handler is registered under. */
  function Name(h: HandlerKind): string
  {
    match h
    case ThreadingHandler => "threading"
    case GeventHandler => "gevent"
    case FakeHandler => "fake"
  }

  /** `HANDLER_TYPES[handler_type]`, with the ValueError listing the options
      for a name that is not a key. */
  function HandlerOf(handlerType: string): (r: Result<HandlerKind, Error>)
    ensures r.Success? <==> handlerType in HANDLER_NAMES
    ensures r.Success? ==> Name(r.value) == handlerType
    ensures r.Failure? ==> r.error == UnsupportedHandler(handlerType, HANDLER_NAMES)
  {
    if handlerType == "threading" then Success(ThreadingHandler)
    else if handlerType == "gevent" then Success(GeventHandler)
    else if handlerType == "fake" then Success(FakeHandler)
    else Failure(UnsupportedHandler(handlerType, HANDLER_NAMES))
  }

  /** Every handler is found again under its own name, and the table has no
      other names: the lookup and the naming are inverse. */
  lemma HandlerOfName(h: HandlerKind)
    ensures Name(h) in HANDLER_NAMES
    ensures HandlerOf(Name(h)) == Success(h)
  {
  }

  /** A dispatcher object: `self.handler`, reassigned by `set_type`. */
  class TaskHandler {
    var handler: HandlerKind

    constructor (h: HandlerKind)
      ensures handler == h
    {
      handler := h;
    }

    /** `set_type`: select the handler registered under `handlerType`; an
        unknown name raises and leaves the current handler in place. */
    method SetType(handlerType: string) returns (err: Option<Error>)
      modifies this
      ensures err.None? <==> handlerType in HANDLER_NAMES
      ensures err.None? ==> Name(handler) == handlerType
      ensures err.Some? ==>
        err.value == UnsupportedHandler(handlerType, HANDLER_NAMES) && handler == old(handler)
    {
      match HandlerOf(handlerType)
      case Success(h) =>
        handler := h;
        err := None;
      case Failure(e) =>
        err := Some(e);
    }
  }

  /** `MultiTaskHandler(handler_type)` (`'threading'` when the caller gives
      none): `__init__` is `set_type`, so an unknown name raises instead of
      yielding an object. */
  method NewTaskHandler(handlerType: string) returns (r: Result<TaskHandler, Error>)
    ensures r.Success? <==> handlerType in HANDLER_NAMES
    ensures r.Success? ==> fresh(r.value) && Name(r.value.handler) == handlerType
    ensures r.Failure? ==> r.error == UnsupportedHandler(handlerType, HANDLER_NAMES)
  {
    var t := new TaskHandler(ThreadingHandler);
    var err := t.SetType(handlerType);
    if err.Some? {
      return Failure(err.value);
    }
    return Success(t);
  }
}
