/**
 * The connection registry of the FTP server (`ftp_server/src/ftp/mod.rs`): a map
 * from token to request context, the id counter, and the count of control
 * connections held against a connection cap. Sockets and the `mio` registry are
 * abstracted away; each call into them becomes a flag saying whether it
 * succeeded.
 */
module Server {
  import opened Wrappers
  import opened Text
  import opened Response
  import opened Buffer
  import opened Events

  /** What a data connection carries. */
  datatype FileTransferType =
    | FileUpload(reply: Option<seq<byte>>)    // receiving a file; the reply to send once it is stored
    | FileDownload                            // serving a file
    | BufferTransfer(payload: BufferToWrite)  // sending bytes held in memory

  /** The role of one registered socket. */
  datatype RequestType =
    | Closed                                                // refused over the cap, closed once written
    | FileTransferPassive(transfer: FileTransferType, owner: Token)
    | FileTransferActive(transfer: FileTransferType, owner: Token)
    | CommandTransfer(toWrite: BufferToWrite, linked: Option<Token>, name: Option<string>)
    | PassiveModePort(owner: Token)                         // listener waiting for a passive data connection

  datatype RequestContext = RequestContext(requestType: RequestType, userId: Option<string>, loggedIn: bool)

  type Registry = map<Token, RequestContext>

  /** `RequestContext::new`: a context starts with no user and not logged in. */
  function NewRequestContext(rt: RequestType): (rc: RequestContext)
    ensures rc.requestType == rt && rc.userId == None && !rc.loggedIn
  {
    RequestContext(rt, None, false)
  }

  predicate IsData(rt: RequestType) {
    rt.FileTransferActive? || rt.FileTransferPassive?
  }

  /** The tokens of the control connections. */
  function CommandTokens(m: Registry): set<Token> {
    set t | t in m && m[t].requestType.CommandTransfer?
  }

  /** The data-side token a control connection links to, as a set (empty if none). */
  function LinkSet(rt: RequestType): set<Token> {
    if rt.CommandTransfer? && rt.linked.Some? then {rt.linked.value} else {}
  }

  /** A control connection never links to another control connection (nor to itself). */
  ghost predicate LinksAvoidCommands(m: Registry) {
    forall t, u :: t in m && u in m && u in LinkSet(m[t].requestType) ==> !m[u].requestType.CommandTransfer?
  }

  /** No key and no link is above the id counter. */
  ghost predicate IdsBounded(m: Registry, bound: nat) {
    forall t :: t in m ==> t <= bound && forall u :: u in LinkSet(m[t].requestType) ==> u <= bound
  }

  /** Nothing in the registry uses or links to `token` yet. */
  ghost predicate Unreferenced(m: Registry, token: Token) {
    token !in m && forall t :: t in m ==> token !in LinkSet(m[t].requestType)
  }

  /** Two control connections never share a reply buffer. */
  ghost predicate BuffersDistinct(m: Registry) {
    forall t, u :: t in m && u in m && t != u && m[t].requestType.CommandTransfer? && m[u].requestType.CommandTransfer?
      ==> m[t].requestType.toWrite != m[u].requestType.toWrite
  }

  /** Admitting an entry under a new token adds it to the control count iff it is a control connection. */
  lemma CommandTokensInsert(m: Registry, t: Token, rc: RequestContext)
    requires t !in m
    ensures CommandTokens(m[t := rc]) == CommandTokens(m) + (if rc.requestType.CommandTransfer? then {t} else {})
    ensures |CommandTokens(m[t := rc])| == |CommandTokens(m)| + (if rc.requestType.CommandTransfer? then 1 else 0)
  {
    var m' := m[t := rc];
    var before, after := CommandTokens(m), CommandTokens(m');
    var added: set<Token> := if rc.requestType.CommandTransfer? then {t} else {};
    assert t !in before;
    forall x
      ensures x in after <==> x in before + added
    {
      if x != t {
        assert (x in m') == (x in m);
        assert x in m ==> m'[x] == m[x];
      }
    }
    assert after == before + added;
  }

  /** Removing non-control entries leaves the control count as it was. */
  lemma CommandTokensRemoveOthers(m: Registry, s: set<Token>)
    requires forall t :: t in s && t in m ==> !m[t].requestType.CommandTransfer?
    ensures CommandTokens(m - s) == CommandTokens(m)
  {
    assert forall t :: t in CommandTokens(m) ==> t !in s;
  }

  /** Removing one control entry lowers the control count by exactly one. */
  lemma CommandTokensRemoveCommand(m: Registry, t: Token)
    requires t in m && m[t].requestType.CommandTransfer?
    ensures CommandTokens(m - {t}) == CommandTokens(m) - {t}
    ensures |CommandTokens(m - {t})| == |CommandTokens(m)| - 1
  {
    assert t in CommandTokens(m);
    assert CommandTokens(m - {t}) == CommandTokens(m) - {t};
  }

  /** Closing a control connection together with its link removes exactly one control entry. */
  lemma CloseCommandCount(m: Registry, t: Token)
    requires LinksAvoidCommands(m)
    requires t in m && m[t].requestType.CommandTransfer?
    ensures |CommandTokens(m - LinkSet(m[t].requestType) - {t})| == |CommandTokens(m)| - 1
  {
    var link := LinkSet(m[t].requestType);
    CommandTokensRemoveOthers(m, link);
    assert t !in link;
    CommandTokensRemoveCommand(m - link, t);
  }

  /**
   * Admitting a new entry under an unreferenced token keeps the structural
   * invariants, provided a new control connection brings a buffer of its own
   * and its link does not point at a control connection.
   */
  lemma InsertKeepsInvariants(m: Registry, t: Token, rc: RequestContext, bound: nat)
    requires Unreferenced(m, t) && t <= bound
    requires LinkSet(rc.requestType) == {}
    requires rc.requestType.CommandTransfer? ==>
      forall u :: u in m && m[u].requestType.CommandTransfer? ==> m[u].requestType.toWrite != rc.requestType.toWrite
    ensures LinksAvoidCommands(m) ==> LinksAvoidCommands(m[t := rc])
    ensures IdsBounded(m, bound) ==> IdsBounded(m[t := rc], bound)
    ensures BuffersDistinct(m) ==> BuffersDistinct(m[t := rc])
  {
  }

  /** Updating the session fields of a context keeps every registry invariant. */
  lemma RetagSession(m: Registry, t: Token, u: SessionUpdate, bound: nat)
    requires t in m
    ensures var m' := m[t := m[t].(userId := u.userId, loggedIn := u.loggedIn)];
      CommandTokens(m') == CommandTokens(m)
      && (LinksAvoidCommands(m) ==> LinksAvoidCommands(m'))
      && (IdsBounded(m, bound) ==> IdsBounded(m', bound))
      && (BuffersDistinct(m) ==> BuffersDistinct(m'))
  {
    var m' := m[t := m[t].(userId := u.userId, loggedIn := u.loggedIn)];
    assert forall x :: x in m ==> x in m' && m'[x].requestType == m[x].requestType;
  }

  class FtpServer {
    var connections: Registry
    var actions: seq<Action>
    var currentId: nat
    var maxConnections: nat
    var currentConnections: nat

    /**
     * The registry invariant: the counter is the number of control connections,
     * links never reach a control connection, ids come from `next_id`, and each
     * control connection owns its reply buffer.
     */
    ghost predicate Valid()
      reads this
    {
      && currentConnections == |CommandTokens(connections)|
      && LinksAvoidCommands(connections)
      && IdsBounded(connections, currentId)
      && BuffersDistinct(connections)
    }

    /** The reply buffer of the control connection `owner`, if it is one. */
    ghost function OwnerBuffer(owner: Token): set<BufferToWrite>
      reads this
    {
      if owner in connections && connections[owner].requestType.CommandTransfer?
      then {connections[owner].requestType.toWrite}
      else {}
    }

    /** The reply buffer that closing `token` resets: that of the uploader's control connection. */
    ghost function UploadTarget(token: Token): set<BufferToWrite>
      reads this
    {
      if token in connections && IsData(connections[token].requestType)
         && connections[token].requestType.transfer.FileUpload?
      then OwnerBuffer(connections[token].requestType.owner)
      else {}
    }

    /** `FTPServer::new`: empty registry, ids from zero, a cap of 50 connections. */
    constructor ()
      ensures connections == map[] && actions == []
      ensures currentId == 0 && maxConnections == 50 && currentConnections == 0
      ensures Valid()
    {
      connections := map[];
      actions := [];
      currentId := 0;
      maxConnections := 50;
      currentConnections := 0;
    }

    /** `FTPServer::with_connection_capacity`: as `new`, with the given cap. */
    constructor WithConnectionCapacity(maxConnections: nat)
      ensures connections == map[] && actions == []
      ensures currentId == 0 && this.maxConnections == maxConnections && currentConnections == 0
      ensures Valid()
    {
      connections := map[];
      actions := [];
      currentId := 0;
      this.maxConnections := maxConnections;
      currentConnections := 0;
    }

    /** `add_connection`: store `rt` under `token` in a fresh context, replacing any entry there. */
    method AddConnection(token: Token, rt: RequestType)
      modifies this`connections
      ensures connections == old(connections)[token := NewRequestContext(rt)]
    {
      connections := connections[token := NewRequestContext(rt)];
    }

    /** `next_id`: advance the counter and return it; the id is new to the registry. */
    method NextId() returns (id: Token)
      modifies this`currentId
      ensures currentId == old(currentId) + 1 && id == currentId
      ensures old(IdsBounded(connections, currentId)) ==> Unreferenced(connections, id)
      ensures old(Valid()) ==> Valid()
    {
      currentId := currentId + 1;
      id := currentId;
    }

    /**
     * `new_connection`, with the counter raised only once registration has
     * succeeded (see `NewConnectionAsWritten` for the code as it stands).
     * Over the cap the socket is kept only as a `Closed` entry and the count
     * does not move; otherwise a control connection with the 220 greeting
     * pending is admitted and counted.
     */
    method NewConnection(token: Token, registerOk: bool) returns (r: Status)
      requires Valid() && token <= currentId && Unreferenced(connections, token)
      modifies this`connections, this`currentConnections
      ensures !registerOk ==>
        (r == Err(OsError) && connections == old(connections) && currentConnections == old(currentConnections))
      ensures registerOk && old(maxConnections <= currentConnections) ==>
        (r == Ok && connections == old(connections)[token := NewRequestContext(Closed)]
         && currentConnections == old(currentConnections))
      ensures registerOk && old(currentConnections < maxConnections) ==>
        (r == Ok && currentConnections == old(currentConnections) + 1
         && token in connections && connections == old(connections)[token := connections[token]]
         && connections[token].requestType.CommandTransfer?
         && connections[token] == NewRequestContext(CommandTransfer(connections[token].requestType.toWrite, None, None))
         && fresh(connections[token].requestType.toWrite)
         && IsNewBuffer(connections[token].requestType.toWrite, Greeting()))
      ensures Valid()
    {
      CommandTokensInsert(connections, token, NewRequestContext(Closed));
      if maxConnections <= currentConnections {
        if !registerOk {
          return Err(OsError);
        }
        InsertKeepsInvariants(connections, token, NewRequestContext(Closed), currentId);
        AddConnection(token, Closed);
        return Ok;
      }
      if !registerOk {
        return Err(OsError);
      }
      currentConnections := currentConnections + 1;
      var greeting := new BufferToWrite.New(Greeting());
      CommandTokensInsert(connections, token, NewRequestContext(CommandTransfer(greeting, None, None)));
      InsertKeepsInvariants(connections, token, NewRequestContext(CommandTransfer(greeting, None, None)), currentId);
      AddConnection(token, CommandTransfer(greeting, None, None));
      r := Ok;
    }

    /**
     * `new_connection` as the code stands: under the cap the counter is raised
     * before the socket is registered, so a failed registration returns the
     * error with the count already one higher and nothing inserted.
     */
    method NewConnectionAsWritten(token: Token, registerOk: bool) returns (r: Status)
      modifies this`connections, this`currentConnections
      ensures r == (if registerOk then Ok else Err(OsError))
      ensures old(maxConnections <= currentConnections) ==>
        (currentConnections == old(currentConnections)
         && connections == (if registerOk then old(connections)[token := NewRequestContext(Closed)] else old(connections)))
      ensures old(currentConnections < maxConnections) ==>
        (currentConnections == old(currentConnections) + 1
         && (!registerOk ==> connections == old(connections))
         && (registerOk ==>
               token in connections && connections == old(connections)[token := connections[token]]
               && connections[token].requestType.CommandTransfer?
               && connections[token] == NewRequestContext(CommandTransfer(connections[token].requestType.toWrite, None, None))
               && IsNewBuffer(connections[token].requestType.toWrite, Greeting())))
    {
      if maxConnections <= currentConnections {
        if !registerOk {
          return Err(OsError);
        }
        AddConnection(token, Closed);
        return Ok;
      }
      currentConnections := currentConnections + 1;
      if !registerOk {
        return Err(OsError);
      }
      var greeting := new BufferToWrite.New(Greeting());
      AddConnection(token, CommandTransfer(greeting, None, None));
      r := Ok;
    }

    /**
     * The step `close_connection` spawns for a finished upload: if the owner is
     * still registered, a control connection's buffer is reset to the reply
     * and the owner is queued for writing; otherwise nothing happens.
     */
    method HandOverReply(owner: Token, reply: seq<byte>)
      modifies this`actions, OwnerBuffer(owner)
      ensures actions == old(actions) + (if owner in connections then [Action(owner, Writable)] else [])
      ensures owner in connections && connections[owner].requestType.CommandTransfer? ==>
        var b := connections[owner].requestType.toWrite;
        b.buffer == reply && b.offset == 0 && b.hasCallback == old(b.hasCallback)
    {
      if owner in connections {
        var ort := connections[owner].requestType;
        if ort.CommandTransfer? {
          ort.toWrite.Reset(reply);
        }
        actions := actions + [Action(owner, Writable)];
      }
    }

    /**
     * `close_connection`. An unknown token is a no-op. A data connection still
     * receiving an upload with no reply yet stays (`WriteZero`); one with a reply
     * hands it to its control connection and re-arms that connection writable.
     * A passive listener whose deregistration fails stays too. Closing a control
     * connection also removes its linked data connection. Every entry that is
     * removed leaves the registry here, and the control count drops by one
     * exactly when the removed entry was a control connection.
     */
    method CloseConnection(token: Token, deregisterOk: bool) returns (r: Status)
      requires Valid()
      modifies this`connections, this`actions, this`currentConnections, UploadTarget(token)
      ensures token !in old(connections) ==>
        (r == Ok && connections == old(connections) && actions == old(actions)
         && currentConnections == old(currentConnections))
      ensures token in old(connections) ==> var rt := old(connections)[token].requestType;
        && (IsData(rt) && rt.transfer == FileUpload(None) ==>
              (r == Err(WriteZero) && connections == old(connections) && actions == old(actions)
               && currentConnections == old(currentConnections)))
        && (rt.PassiveModePort? && !deregisterOk ==>
              (r == Err(OsError) && connections == old(connections) && actions == old(actions)
               && currentConnections == old(currentConnections)))
        && ((rt.PassiveModePort? && deregisterOk) || rt.Closed? || (IsData(rt) && !rt.transfer.FileUpload?) ==>
              (r == Ok && connections == old(connections) - {token} && actions == old(actions)
               && currentConnections == old(currentConnections)))
        && (rt.CommandTransfer? ==>
              (r == Ok && connections == old(connections) - LinkSet(rt) - {token} && actions == old(actions)
               && currentConnections == old(currentConnections) - 1))
        && (IsData(rt) && rt.transfer.FileUpload? && rt.transfer.reply.Some? ==>
              (r == Ok && connections == old(connections) - {token}
               && currentConnections == old(currentConnections)
               && actions == old(actions) + (if rt.owner in old(connections) then [Action(rt.owner, Writable)] else [])
               && (rt.owner in old(connections) && old(connections)[rt.owner].requestType.CommandTransfer? ==>
                     var b := old(connections)[rt.owner].requestType.toWrite;
                     b.buffer == rt.transfer.reply.value && b.offset == 0 && b.hasCallback == old(b.hasCallback))))
      ensures Valid()
    {
      if token !in connections {
        return Ok;
      }
      var rt := connections[token].requestType;
      if IsData(rt) {
        if rt.transfer.FileUpload? {
          if rt.transfer.reply.None? {
            return Err(WriteZero);
          }
          HandOverReply(rt.owner, rt.transfer.reply.value);
        }
      } else if rt.CommandTransfer? {
        if rt.linked.Some? && rt.linked.value in connections {
          connections := connections - {rt.linked.value};
        }
      } else if rt.PassiveModePort? {
        if !deregisterOk {
          return Err(OsError);
        }
      }
      ghost var beforeRemoval := connections;
      assert beforeRemoval == old(connections) - LinkSet(rt);
      RemoveKeepsInvariants(old(connections), LinkSet(rt), currentId);
      if token in connections {
        connections := connections - {token};
        if rt.CommandTransfer? {
          CloseCommandCount(old(connections), token);
          currentConnections := currentConnections - 1;
        } else {
          CommandTokensRemoveOthers(old(connections), LinkSet(rt) + {token});
          assert connections == old(connections) - (LinkSet(rt) + {token});
        }
      }
      RemoveKeepsInvariants(old(connections), LinkSet(rt) + {token}, currentId);
      assert connections == old(connections) - (LinkSet(rt) + {token});
      r := Ok;
    }

    /**
     * The bookkeeping of `read_connection`. An unknown token is `NotFound`; a
     * failed deregistration is returned as is. Otherwise one id is consumed for
     * the handler and its outcome is followed up as `Classify` says: a fatal
     * error shuts the socket down and queues nothing, `WouldBlock` re-arms the
     * token readable, and a success applies the callback to the context and
     * queues the handler's actions in order. `followUp` tells which one ran.
     */
    method ReadConnection(token: Token, deregisterOk: bool, outcome: HandlerOutcome, handlerActions: seq<Action>)
      returns (r: Status, followUp: Option<FollowUp>)
      requires Valid()
      modifies this`connections, this`actions, this`currentId
      ensures token !in old(connections) ==>
        (r == Err(NotFound) && followUp == None
         && connections == old(connections) && actions == old(actions) && currentId == old(currentId))
      ensures token in old(connections) && !deregisterOk ==>
        (r == Err(OsError) && followUp == None
         && connections == old(connections) && actions == old(actions) && currentId == old(currentId))
      ensures token in old(connections) && deregisterOk ==>
        (r == Ok && followUp == Some(Classify(outcome)) && currentId == old(currentId) + 1
         && match Classify(outcome)
            case CloseOnError => connections == old(connections) && actions == old(actions)
            case RearmReadable => connections == old(connections) && actions == old(actions) + [Action(token, Readable)]
            case QueueActions(callback) =>
              actions == old(actions) + handlerActions
              && connections == (if callback.None? then old(connections)
                                 else old(connections)[token := old(connections)[token].(userId := callback.value.userId,
                                                                                        loggedIn := callback.value.loggedIn)]))
      ensures Valid()
    {
      if token !in connections {
        return Err(NotFound), None;
      }
      if !deregisterOk {
        return Err(OsError), None;
      }
      var _ := NextId();
      var isErr := outcome.Failed?;
      var isWouldBlock := isErr && outcome.kind == WouldBlock;
      var closing := isErr && !isWouldBlock;
      if closing {
        // The socket is shut down; the entry stays until the reactor closes it.
        followUp := Some(CloseOnError);
      } else if isWouldBlock {
        actions := actions + [Action(token, Readable)];
        followUp := Some(RearmReadable);
      } else {
        if outcome.callback.Some? {
          var u := outcome.callback.value;
          RetagSession(connections, token, u, currentId);
          connections := connections[token := connections[token].(userId := u.userId, loggedIn := u.loggedIn)];
        }
        actions := PushAll(actions, handlerActions);
        followUp := Some(QueueActions(outcome.callback));
      }
      r := Ok;
    }
  }

  /** Removing entries keeps the structural invariants of the registry. */
  lemma RemoveKeepsInvariants(m: Registry, s: set<Token>, bound: nat)
    ensures LinksAvoidCommands(m) ==> LinksAvoidCommands(m - s)
    ensures IdsBounded(m, bound) ==> IdsBounded(m - s, bound)
    ensures BuffersDistinct(m) ==> BuffersDistinct(m - s)
  {
  }

  /**
   * The finding in `new_connection`, shown on a server with room for one
   * client: one registration fails, then a second client arrives. The code as
   * it stands counts the failed client, so the second one is refused with a
   * `Closed` entry while no control connection is registered at all.
   */
  method RegistrationFailureLeaksSlot() returns (admittedAfter: bool, counted: nat, held: nat)
    ensures !admittedAfter && counted == 1 && held == 0
  {
    var server := new FtpServer.WithConnectionCapacity(1);
    var first := server.NextId();
    var _ := server.NewConnectionAsWritten(first, false);
    var second := server.NextId();
    var _ := server.NewConnectionAsWritten(second, true);
    admittedAfter := second in server.connections && server.connections[second].requestType.CommandTransfer?;
    counted := server.currentConnections;
    held := |CommandTokens(server.connections)|;
  }

  /** The same sequence with the counter raised after registration: the second client is admitted. */
  method RegistrationFailureKeepsSlot() returns (admittedAfter: bool, counted: nat, held: nat)
    ensures admittedAfter && counted == 1 && held == 1
  {
    var server := new FtpServer.WithConnectionCapacity(1);
    var first := server.NextId();
    var _ := server.NewConnection(first, false);
    var second := server.NextId();
    var _ := server.NewConnection(second, true);
    admittedAfter := second in server.connections && server.connections[second].requestType.CommandTransfer?;
    counted := server.currentConnections;
    held := |CommandTokens(server.connections)|;
  }
}
