/**
 * The connection registry of the older server
 * (`FTPserver/rust_server/ftp_server/src/ftp/mod.rs`): no connection cap, no
 * `Closed` entries and no per-user state, but a port counter for passive-mode
 * listeners. As in the newer version, sockets and the `mio` registry are
 * abstracted away and each call into them becomes a flag saying whether it
 * succeeded.
 */
module LegacyServer {
  import opened Wrappers
  import opened Response
  import opened Buffer
  import opened Events

  /** What a data connection carries; the open `File`s are not modelled. */
  datatype FileTransferType =
    | FileUpload
    | FileDownload
    | BufferTransfer(payload: BufferToWrite)

  /** The role of one registered socket. */
  datatype RequestType =
    | FileTransferPassive(transfer: FileTransferType, owner: Token)
    | FileTransferActive(transfer: FileTransferType, owner: Token)
    | CommandTransfer(toWrite: BufferToWrite, linked: Option<Token>)
    | PassiveModePort(owner: Token)

  /** `RequestContext` holds only the request type in this version. */
  datatype RequestContext = RequestContext(requestType: RequestType)

  type Registry = map<Token, RequestContext>

  /** What `new_passive_listener` returns: `Ok(())` or the error message. */
  datatype ListenerResult = Listening | ListenerError(message: string)

  /** The first port handed to a passive-mode listener. */
  const FirstPassivePort: nat := 50000

  /** The largest port `"127.0.0.1:{port}".parse()` accepts as a socket address. */
  const MaxPort: nat := 65535

  /** The data-side token a control connection links to, as a set (empty if none). */
  function LinkSet(rt: RequestType): set<Token> {
    if rt.CommandTransfer? && rt.linked.Some? then {rt.linked.value} else {}
  }

  /** No key and no link is above the id counter. */
  ghost predicate IdsBounded(m: Registry, bound: nat) {
    forall t :: t in m ==> t <= bound && forall u :: u in LinkSet(m[t].requestType) ==> u <= bound
  }

  class FtpServer {
    var connections: Registry
    var actions: seq<Action>
    var currentId: nat
    var port: nat

    /** No entry or link is above the id counter. */
    ghost predicate Valid()
      reads this
    {
      IdsBounded(connections, currentId)
    }

    /** `FTPServer::new`: empty registry, ids from zero, passive ports from 50000. */
    constructor ()
      ensures connections == map[] && actions == []
      ensures currentId == 0 && port == FirstPassivePort
      ensures Valid()
    {
      connections := map[];
      actions := [];
      currentId := 0;
      port := FirstPassivePort;
    }

    /** `add_connection`: store `rt` under `token` in a fresh context, replacing any entry there. */
    method AddConnection(token: Token, rt: RequestType)
      modifies this`connections
      ensures connections == old(connections)[token := RequestContext(rt)]
    {
      connections := connections[token := RequestContext(rt)];
    }

    /** `next_id`: advance the counter and return it; the id is new to the registry. */
    method NextId() returns (id: Token)
      modifies this`currentId
      ensures currentId == old(currentId) + 1 && id == currentId
      ensures old(Valid()) ==> id !in connections && Valid()
    {
      currentId := currentId + 1;
      id := currentId;
    }

    /**
     * `new_passive_listener`. Every call takes the next port and the next id,
     * whatever happens after. A port above 65535 does not parse as an address,
     * the bind or the registration can fail, and each failure has its own
     * message and inserts nothing. On success exactly one entry is added: a
     * listener for `owner` under the new id, which no entry held before.
     */
    method NewPassiveListener(owner: Token, bindOk: bool, registerOk: bool) returns (r: ListenerResult)
      modifies this`port, this`currentId, this`connections
      ensures port == old(port) + 1 && currentId == old(currentId) + 1
      ensures old(port) > MaxPort ==>
        (r == ListenerError("can't bind to this address") && connections == old(connections))
      ensures old(port) <= MaxPort && !bindOk ==>
        (r == ListenerError("can't bind to this port") && connections == old(connections))
      ensures old(port) <= MaxPort && bindOk && !registerOk ==>
        (r == ListenerError("cannot register this socket") && connections == old(connections))
      ensures old(port) <= MaxPort && bindOk && registerOk ==>
        (r == Listening && connections == old(connections)[currentId := RequestContext(PassiveModePort(owner))]
         && (old(Valid()) ==> currentId !in old(connections)))
      ensures old(Valid()) ==> Valid()
    {
      var listenPort := port;
      port := port + 1;
      var id := NextId();
      if listenPort > MaxPort {
        return ListenerError("can't bind to this address");
      }
      if !bindOk {
        return ListenerError("can't bind to this port");
      }
      if !registerOk {
        return ListenerError("cannot register this socket");
      }
      AddConnection(id, PassiveModePort(owner));
      r := Listening;
    }

    /**
     * `new_connection`: with no cap in this version, a registered socket is
     * always admitted as a control connection with the 220 greeting pending
     * and no link; a failed registration returns the error and inserts nothing.
     */
    method NewConnection(token: Token, registerOk: bool) returns (r: Status)
      modifies this`connections
      ensures !registerOk ==> r == Err(OsError) && connections == old(connections)
      ensures registerOk ==>
        (r == Ok && token in connections && connections == old(connections)[token := connections[token]]
         && connections[token].requestType.CommandTransfer?
         && connections[token].requestType.linked == None
         && fresh(connections[token].requestType.toWrite)
         && IsNewBuffer(connections[token].requestType.toWrite, Greeting()))
      ensures old(Valid()) && token <= currentId ==> Valid()
    {
      if !registerOk {
        return Err(OsError);
      }
      var greeting := new BufferToWrite.New(Greeting());
      AddConnection(token, CommandTransfer(greeting, None));
      r := Ok;
    }

    /**
     * `close_connection`. An unknown token is a no-op. Otherwise the entry is
     * removed first, so it is gone whatever follows. A data connection then
     * reports a failed deregistration or shutdown, a listener a failed
     * deregistration; a control connection ignores both and also removes the
     * data connection it links to, if that is still registered.
     */
    method CloseConnection(token: Token, deregisterOk: bool, shutdownOk: bool) returns (r: Status)
      modifies this`connections
      ensures token !in old(connections) ==> r == Ok && connections == old(connections)
      ensures token in old(connections) ==> var rt := old(connections)[token].requestType;
        && (rt.CommandTransfer? ==> r == Ok && connections == old(connections) - {token} - LinkSet(rt))
        && (rt.PassiveModePort? ==>
              r == (if deregisterOk then Ok else Err(OsError)) && connections == old(connections) - {token})
        && (rt.FileTransferActive? || rt.FileTransferPassive? ==>
              r == (if deregisterOk && shutdownOk then Ok else Err(OsError)) && connections == old(connections) - {token})
      ensures old(Valid()) ==> Valid()
    {
      if token !in connections {
        return Ok;
      }
      var rt := connections[token].requestType;
      connections := connections - {token};
      match rt
      case FileTransferActive(_, _) =>
        r := if deregisterOk && shutdownOk then Ok else Err(OsError);
      case FileTransferPassive(_, _) =>
        r := if deregisterOk && shutdownOk then Ok else Err(OsError);
      case CommandTransfer(_, linked) =>
        // The link is taken out of the removed context; the linked entry goes too.
        if linked.Some? && linked.value in connections {
          connections := connections - {linked.value};
        }
        assert connections == old(connections) - {token} - LinkSet(rt);
        r := Ok;
      case PassiveModePort(_) =>
        r := if deregisterOk then Ok else Err(OsError);
    }

    /**
     * The bookkeeping of `read_connection`. An unknown token is `NotFound`; a
     * failed deregistration is returned as is. Otherwise one id is consumed
     * for the handler and its result is followed up as `Classify` says: a
     * fatal error hands the connection to `close_connection_recursive`, whose
     * code is not part of this model, so the registry it leaves behind is the
     * parameter `afterClose`; `WouldBlock` re-arms the token readable, and a
     * success queues the handler's actions in order. Only the fatal path
     * touches the registry.
     */
    method ReadConnection(token: Token, deregisterOk: bool, response: Status, handlerActions: seq<Action>,
                          afterClose: Registry)
      returns (r: Status, followUp: Option<FollowUp>)
      modifies this`actions, this`currentId, this`connections
      ensures token !in old(connections) ==>
        (r == Err(NotFound) && followUp == None && actions == old(actions) && currentId == old(currentId)
         && connections == old(connections))
      ensures token in old(connections) && !deregisterOk ==>
        (r == Err(OsError) && followUp == None && actions == old(actions) && currentId == old(currentId)
         && connections == old(connections))
      ensures token in old(connections) && deregisterOk ==>
        var outcome := if response.Ok? then Handled(None) else Failed(response.kind);
        (r == Ok && followUp == Some(Classify(outcome)) && currentId == old(currentId) + 1
         && match Classify(outcome)
            case CloseOnError => actions == old(actions) && connections == afterClose
            case RearmReadable => actions == old(actions) + [Action(token, Readable)] && connections == old(connections)
            case QueueActions(_) => actions == old(actions) + handlerActions && connections == old(connections))
      ensures old(Valid()) && followUp != Some(CloseOnError) ==> Valid()
    {
      if token !in connections {
        return Err(NotFound), None;
      }
      if !deregisterOk {
        return Err(OsError), None;
      }
      var _ := NextId();
      var isErr := response.Err?;
      var isWouldBlock := isErr && response.kind == WouldBlock;
      var closing := isErr && !isWouldBlock;
      if closing {
        connections := afterClose;
        followUp := Some(CloseOnError);
      } else if isWouldBlock {
        actions := actions + [Action(token, Readable)];
        followUp := Some(RearmReadable);
      } else {
        actions := PushAll(actions, handlerActions);
        followUp := Some(QueueActions(None));
      }
      r := Ok;
    }
  }
}
