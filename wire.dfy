/** Values exchanged with the outside world: HTTP bodies, JSON responses and
    the settlement of an asynchronous call. The network itself is not modelled;
    every request the program makes is replaced by the value it produced. */
module Wire {

  /** `null` / `undefined` in the source, or a value. */
  datatype Option<+T> = None | Some(value: T)

  /** The result of one awaited HTTP request: the body the server sent, or a
      failure (timeout, refused connection, 5xx) that makes the request throw. */
  datatype Fetch<+T> = Got(value: T) | Failed

  /** How an awaited promise ends: it resolves with a value, it rejects (an
      exception escaped), or it never settles at all. */
  datatype Settlement<+T> = Resolved(value: T) | Rejected | Pending

  /** A JSON text field as JavaScript sees it: missing (`undefined`),
      `null`, or a string. */
  datatype Field = Absent | Null | Str(text: string)

  /** A JSON reply of the service, reduced to the two fields the program reads.
      `code` is `None` when the field is absent or not a number. */
  datatype Response = Response(code: Option<int>, msg: Field)
}
