/**
 * What the registry shares with the reactor: connection tokens, the interest an
 * action re-arms, the I/O error kinds the core tells apart, and how the outcome
 * of a read handler is turned into a follow-up (the same rule in both versions).
 */
module Events {
  import opened Wrappers

  /** A `mio::Token`: the `usize` that names one registered socket. */
  type Token = nat

  datatype Interest = Readable | Writable

  /** A deferred re-registration: which token to re-arm, and for what. */
  datatype Action = Action(token: Token, interest: Interest)

  /** The kinds of `std::io::Error` the core distinguishes; any other kind is `OsError`. */
  datatype ErrorKind = NotFound | WouldBlock | WriteZero | OsError

  /** `Result<(), std::io::Error>` as the registry operations return it. */
  datatype Status = Ok | Err(kind: ErrorKind)

  /**
   * What a read handler's callback does to the request context: it sets the
   * session's user and whether that user is logged in.
   */
  datatype SessionUpdate = SessionUpdate(userId: Option<string>, loggedIn: bool)

  /** The result of a read handler: success with an optional callback, or an I/O error. */
  datatype HandlerOutcome = Handled(callback: Option<SessionUpdate>) | Failed(kind: ErrorKind)

  /** The three ways the reactor follows up a read. */
  datatype FollowUp =
    | CloseOnError                              // a fatal error: the connection is torn down
    | RearmReadable                             // the socket would block: wait for the next read
    | QueueActions(callback: Option<SessionUpdate>) // success: run the callback, queue the handler's actions

  /**
   * The follow-up of a read outcome: an error closes the connection unless it is
   * `WouldBlock`, which re-arms the socket; a success queues the handler's work.
   */
  function Classify(o: HandlerOutcome): (f: FollowUp)
    ensures f.CloseOnError? <==> o.Failed? && o.kind != WouldBlock
    ensures f.RearmReadable? <==> o.Failed? && o.kind == WouldBlock
    ensures f.QueueActions? <==> o.Handled?
    ensures f.QueueActions? ==> f.callback == o.callback
  {
    match o
    case Failed(kind) => if kind == WouldBlock then RearmReadable else CloseOnError
    case Handled(callback) => QueueActions(callback)
  }

  /** The loop that moves a handler's actions onto the shared action list, in order. */
  method PushAll(actions: seq<Action>, handlerActions: seq<Action>) returns (r: seq<Action>)
    ensures r == actions + handlerActions
  {
    r := actions;
    for i := 0 to |handlerActions|
      invariant r == actions + handlerActions[..i]
    {
      r := r + [handlerActions[i]];
    }
    assert handlerActions[..|handlerActions|] == handlerActions;
  }
}
