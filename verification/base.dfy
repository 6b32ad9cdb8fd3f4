/** Shared vocabulary for the model: optional values, Python exceptions and
    operations that either produce a value or raise. */
module Base {

  /** A value that may be missing (Python's `None`). */
  datatype Option<T> = None | Some(value: T)

  /** A raised Python exception: what `str(e)` yields, and the names of every
      class in its method resolution order, e.g.
      {"ValueError", "Exception", "BaseException"}. */
  datatype Fault = Fault(message: string, classes: set<string>)

  /** An operation that either returns a value or raises. */
  datatype Result<T> = Ok(value: T) | Raise(fault: Fault)

  /** An `except (C1, C2, ...)` clause catches `f` iff one of the named
      classes is among `f`'s classes. */
  predicate Catches(handlers: set<string>, f: Fault) {
    exists h | h in handlers :: h in f.classes
  }

  /** `except Exception` catches everything except the few exceptions that
      derive from `BaseException` only (KeyboardInterrupt, SystemExit, ...). */
  predicate IsException(f: Fault) {
    "Exception" in f.classes
  }

  /** A `ValueError` with the given message. */
  function ValueError(message: string): (f: Fault)
    ensures IsException(f) && "ValueError" in f.classes && f.message == message
  {
    Fault(message, {"ValueError", "Exception", "BaseException"})
  }

  /** `table.get(key, default)`. */
  function GetOr<K, V>(table: map<K, V>, key: K, default: V): (v: V)
    ensures key in table ==> v == table[key]
    ensures key !in table ==> v == default
  {
    if key in table then table[key] else default
  }
}
