/** Results of the decoder: a value, a returned Go `error`, or a run-time panic.

    The decoder in config.go returns `(value, error)`; a few of its steps can
    also panic (an index into an empty key list, a failing type assertion).
    Both are modelled here as values so that every path of the code has an
    outcome the proofs can talk about. */
module Outcomes {

  datatype Option<+T> = None | Some(value: T)

  /** An error produced by a library the decoder calls (hcl.DecodeObject,
      mapstructure.WeakDecode); its contents are not modelled. */
  datatype LibError = LibError(message: string)

  /** One "invalid key '%s' on line %d" error of checkHCLKeys. */
  datatype KeyError = KeyError(key: string, line: nat)

  /** The errors config.go constructs, one constructor per message shape. */
  datatype Error =
    | NoRootObject                          // "file doesn't contain a root object"
    | CannotCheckKeys(nodeType: string)     // "cannot check HCL keys of type %T"
    | InvalidKeys(errors: seq<KeyError>)    // the multierror built by checkHCLKeys
    | Prefixed(prefix: string, inner: Error) // multierror.Prefix(err, prefix)
    | Wrapped(keyword: string, inner: Error) // "error parsing '<keyword>': %s"
    | OnlyOneBlock(keyword: string)         // "only one '<keyword>' block allowed"
    | OnlyOneOutput                         // "you may only specify one 'output'"
    | DefinedMoreThanOnce(kind: string, name: string) // "<kind> '%s' defined more than once"
    | ShouldBeObject(name: string)          // "process '%s': should be an object"
    | TypeOnly(kind: string)                // "you may only specify a type for <kind>"
    | FieldDecode(name: string, cause: LibError) // "error parsing field '%s': %s"
    | MissingFieldType(name: string)        // "you must specify a type for field '%s'"
    | LibraryError(cause: LibError)            // a library error returned unchanged

  /** Why the Go program would panic. */
  datatype Panic =
    | IndexOutOfRange            // item.Keys[0] on an item without keys
    | TypeAssertion(want: string) // val.(string) or val.(bool) on another dynamic type

  datatype Outcome<+T> = Ok(value: T) | Fail(error: Error) | Crash(panic: Panic)
  {
    predicate IsFailure() {
      !Ok?
    }

    function PropagateFailure<U>(): (r: Outcome<U>)
      requires !Ok?
      ensures r.Fail? == Fail? && r.Crash? == Crash?
    {
      if Fail? then Fail(error) else Crash(panic)
    }

    function Extract(): T
      requires Ok?
    {
      value
    }

    /** The Go `error` result alone, as returned by the parse* functions. */
    function Status(): (r: Outcome<()>)
      ensures r.Ok? == Ok? && (Fail? ==> r == Fail(error)) && (Crash? ==> r == Crash(panic))
    {
      match this
      case Ok(_) => Ok(())
      case Fail(e) => Fail(e)
      case Crash(p) => Crash(p)
    }
  }

  /** fmt.Errorf("error parsing '<keyword>': %s", err) around a failed step;
      a panic passes through untouched. */
  function Within<T>(keyword: string, o: Outcome<T>): (r: Outcome<T>)
    ensures r.Ok? <==> o.Ok?
    ensures o.Ok? ==> r == o
    ensures o.Fail? ==> r == Fail(Wrapped(keyword, o.error))
    ensures o.Crash? ==> r == o
  {
    match o
    case Fail(e) => Fail(Wrapped(keyword, e))
    case _ => o
  }

  /** multierror.Prefix(err, prefix) around a failed step. */
  function PrefixWith<T>(prefix: string, o: Outcome<T>): (r: Outcome<T>)
    ensures r.Ok? <==> o.Ok?
    ensures o.Fail? ==> r == Fail(Prefixed(prefix, o.error))
    ensures !o.Fail? ==> r == o
  {
    match o
    case Fail(e) => Fail(Prefixed(prefix, e))
    case _ => o
  }

  /** The outcome of a loop that has already collected `acc` and whose
      remaining iterations produce `rest`: an error or panic from the rest is
      the loop's, and a successful rest is appended to what was collected. */
  function Prepend<T>(acc: seq<T>, rest: Outcome<seq<T>>): (r: Outcome<seq<T>>)
    ensures r.Ok? <==> rest.Ok?
    ensures rest.Ok? ==> r.value == acc + rest.value
    ensures !rest.Ok? ==> r == rest
  {
    match rest
    case Ok(s) => Ok(acc + s)
    case _ => rest
  }

  /** Collecting `a` and then `b` before the rest is collecting `a + b`. */
  lemma PrependPrepend<T>(a: seq<T>, b: seq<T>, rest: Outcome<seq<T>>)
    ensures Prepend(a, Prepend(b, rest)) == Prepend(a + b, rest)
  {
    if rest.Ok? {
      assert a + (b + rest.value) == (a + b) + rest.value;
    }
  }

  /** Nothing collected yet: the loop's outcome is that of its iterations. */
  lemma PrependNothing<T>(rest: Outcome<seq<T>>)
    ensures Prepend([], rest) == rest
  {
    if rest.Ok? {
      assert [] + rest.value == rest.value;
    }
  }
}
