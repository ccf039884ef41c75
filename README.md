# FTP server connection registry, in Dafny

This project models the connection registry of a small Rust FTP server and
the bookkeeping that goes with each connection's lifecycle. The registry sits
behind a `mio` reactor, and the model proves properties of it. The repository
has two versions of the module, and both are modelled:

- `ftp_server/src/ftp/mod.rs` (module `Server`). This version has a cap on
  control connections, a `Closed` entry for refused clients, and per-context
  user state (`user_id`, `loged`).
- `FTPserver/rust_server/ftp_server/src/ftp/mod.rs` (module `LegacyServer`).
  This version has no cap and no `Closed` entries. It has a port counter for
  passive-mode listeners and the `get_test_html` helper (module `TestPage`).

The two versions share some code, which is therefore defined once:

- Reply formatting, `create_response` (module `Response`). It builds the
  `"<code> <message>\r\n"` line of section 4.2 of RFC 959. `ParseReply` is a
  reader for such lines and is its inverse.
- The pending-reply buffer `BufferToWrite` (module `Buffer`). It is a class
  with a byte buffer, a write offset and whether a one-shot callback is
  waiting.
- The token, action and error vocabulary, and the rule that turns a read
  handler's result into a follow-up (module `Events`).

Bytes are modelled as integers below 256. Module `Text` also holds decimal
rendering and decimal reading, and the character codes of ASCII text.

The server itself is a class `FtpServer` with these fields:

- `connections`: a map from token to request context.
- `actions`: the shared list of pending re-registrations.
- `current_id`: the id counter.
- In the newer version, `max_connections` and `current_connections`.
- In the older version, `port`.

A request context is a datatype. A control connection's reply buffer is a
`BufferToWrite` object, which the newer `close_connection` resets in place.
Each call into the operating system is a boolean parameter saying whether the
call succeeded. These calls are `register`, `deregister`, `bind` and
`shutdown`. The older version's parse of `"127.0.0.1:{port}"` is not a
parameter: `NewPassiveListener` computes its failure from the port being above
65535.

The registry invariant `Server.FtpServer.Valid` has four parts:

- The counter equals the number of control connections.
- A control connection never links to another control connection.
- No key or link is above the id counter.
- Control connections do not share reply buffers.

The constructors establish it. `next_id`, `close_connection`, `read_connection`
and `Server.FtpServer.NewConnection`, which raises the counter only after
registration, preserve it. `new_connection` as written does not (see
Findings).

## Model

| member | source | states |
|---|---|---|
| Response.CreateResponse | ftp_server/src/ftp/mod.rs:29-31 | The reply is the decimal digits of the code, then one space, the message bytes, and CR LF, in that order and nothing else. |
| Response.ParseCreateResponse | FTPserver/rust_server/ftp_server/src/ftp/mod.rs:41-43 | Reading a formatted reply back gives exactly its code and its message, so `create_response` loses nothing. The same function appears in both versions. |
| Response.ParseLayout | ftp_server/src/ftp/mod.rs:30 | A line of one or more digits, a space, any message and CR LF parses to the digits' value and that message. |
| Text.DecimalBytes | ftp_server/src/ftp/mod.rs:30 | `format!("{}", code)` writes at least one byte, all of them ASCII digits, with no leading zero: a code below 10 is one digit, and a longer rendering does not start with `0`. |
| Text.DecimalValue | ftp_server/src/ftp/mod.rs:30 | Those digits read back as the code. |
| Response.ServiceReadyMessageText | ftp_server/src/ftp/mod.rs:296 | The greeting message is the text "Service ready for new user.", character by character. |
| Response.GreetingText | ftp_server/src/ftp/mod.rs:634 | The greeting `create_response(service_ready, "Service ready for new user.")` is the line the tests expect, `"220 Service ready for new user.\r\n"`, character by character. |
| TestPage.GetTestHtml | FTPserver/rust_server/ftp_server/src/ftp/mod.rs:31-39 | The page starts with the status line and header name and ends with `data`, and its length is the head, the digits of `data.len()`, four bytes and the data. |
| TestPage.HeadText | FTPserver/rust_server/ftp_server/src/ftp/mod.rs:33 | The head bytes are the text "HTTP/1.1 200 OK\r\nContent-Length: ", character by character. |
| TestPage.LengthLayout | FTPserver/rust_server/ftp_server/src/ftp/mod.rs:33-35 | Digits, CR LF CR LF and a body are accepted exactly when the digits give the body's length, and then yield the body. |
| TestPage.ParsePageLayout | FTPserver/rust_server/ftp_server/src/ftp/mod.rs:31-39 | A page laid out as head, digits, CR LF CR LF and body is accepted exactly when the digits give the body's length, and then yields the body. |
| TestPage.ParseGetTestHtml | FTPserver/rust_server/ftp_server/src/ftp/mod.rs:31-39 | The Content-Length that `get_test_html` announces is the body's byte length: every page it builds is accepted and yields exactly `data`. |
| Buffer.BufferToWrite.Default | ftp_server/src/ftp/mod.rs:50-56 | The buffer starts empty, at offset 0, with no callback. |
| Buffer.BufferToWrite.New | ftp_server/src/ftp/mod.rs:58-64 | The buffer is the given vector, at offset 0, with no callback, so the whole vector is pending. |
| Buffer.BufferToWrite.Reset | ftp_server/src/ftp/mod.rs:66-69 | The buffer is replaced by the vector and the offset rewinds to 0. A waiting callback is left as it was. |
| Buffer.BufferToWrite.ResetStr | FTPserver/rust_server/ftp_server/src/ftp/mod.rs:83-86 | The same as `reset`, with the bytes of the `&str`. |
| Events.Classify | ftp_server/src/ftp/mod.rs:396-401 | A failed handler result closes the connection unless its kind is WouldBlock. WouldBlock re-arms the socket. Success queues the handler's work and keeps its callback. Each case is an if-and-only-if. |
| Events.PushAll | ftp_server/src/ftp/mod.rs:434-437 | The loop appends the handler's actions to the shared list, all of them and in order. |
| Server.NewRequestContext | ftp_server/src/ftp/mod.rs:122-130 | A new context holds the given request type, no user, and is not logged in. |
| Server.FtpServer.constructor | ftp_server/src/ftp/mod.rs:159-173 | The registry and action list start empty, ids start at 0, the cap is 50, no connection is counted, and the invariant holds. |
| Server.FtpServer.WithConnectionCapacity | ftp_server/src/ftp/mod.rs:175-189 | The same as `new`, with the given cap. |
| Server.FtpServer.AddConnection | ftp_server/src/ftp/mod.rs:191-196 | The token maps to a new context for the request type. Every other entry is unchanged. |
| Server.FtpServer.NextId | ftp_server/src/ftp/mod.rs:260-263 | The counter rises by exactly one and the new value is returned, so successive ids strictly increase. The id is used by no entry or link, and the invariant is kept. |
| Server.FtpServer.NewConnection | ftp_server/src/ftp/mod.rs:265-303 | A failed registration changes nothing. At or over the cap, a `Closed` entry is inserted and the count stays. Under the cap, the count rises by exactly one and one new control connection is inserted. It has a fresh buffer holding the 220 greeting at offset 0, no callback, no link, no name and no user. The invariant is kept. The counter is raised after registration (see Findings). |
| Server.FtpServer.NewConnectionAsWritten | ftp_server/src/ftp/mod.rs:277-289 | The code as it stands: under the cap, the count rises by one even when registration then fails and nothing is inserted. |
| Server.RegistrationFailureLeaksSlot | ftp_server/src/ftp/mod.rs:287-289 | With capacity 1, the code as it stands fails one registration and then refuses the next client. At that point the counter is 1 but no control connection is registered. |
| Server.RegistrationFailureKeepsSlot | ftp_server/src/ftp/mod.rs:277-301 | The same sequence with the corrected order admits the second client, and the counter equals the one registered control connection. |
| Server.CommandTokensInsert | ftp_server/src/ftp/mod.rs:284-301 | Inserting under a new token raises the number of control connections by one exactly when the entry is a control connection. |
| Server.InsertKeepsInvariants | ftp_server/src/ftp/mod.rs:284-301 | Inserting an unlinked entry under an unreferenced token, with a buffer of its own, keeps the link, id and buffer invariants. |
| Server.CloseCommandCount | ftp_server/src/ftp/mod.rs:573-577 | Removing a control connection together with its linked entry lowers the control count by exactly one, because links never reach a control connection. |
| Server.RemoveKeepsInvariants | ftp_server/src/ftp/mod.rs:560-573 | Removing entries keeps the link, id and buffer invariants. |
| Server.RetagSession | ftp_server/src/ftp/mod.rs:425-430 | Applying a read callback's session update keeps the control count and every invariant. |
| Server.FtpServer.HandOverReply | ftp_server/src/ftp/mod.rs:498-519 | The step spawned for a finished upload. If the owner is still registered, a control connection's buffer is reset to the reply at offset 0 with its callback kept, and exactly (owner, writable) is queued. Otherwise nothing changes. |
| Server.FtpServer.CloseConnection | ftp_server/src/ftp/mod.rs:452-590 | There are six cases. (1) An unknown token is Ok and changes nothing. (2) An upload with no reply yet returns WriteZero and stays. (3) A passive listener whose deregistration fails returns the error and stays. (4) A `Closed` entry, a download or a buffer transfer, or a listener that deregisters is removed alone, and the count stays. (5) A control connection is removed with its linked entry, and the count drops by exactly one. (6) An upload with a reply is removed: its owner's buffer is reset to the reply at offset 0 with the callback kept, and a writable action for the owner is queued. Nothing else changes, and the invariant is kept. |
| Server.FtpServer.ReadConnection | ftp_server/src/ftp/mod.rs:360-440 | An unknown token is NotFound, and a failed deregistration returns its error. In both cases nothing changes. Otherwise one id is consumed and the follow-up is `Classify` of the outcome. A fatal error changes neither map nor actions. WouldBlock queues exactly (token, readable). Success applies the callback's user and login to this context only and then queues the handler's actions in order. |
| LegacyServer.FtpServer.constructor | FTPserver/rust_server/ftp_server/src/ftp/mod.rs:158-168 | The registry and action list start empty, ids start at 0, and passive ports start at 50000. |
| LegacyServer.FtpServer.AddConnection | FTPserver/rust_server/ftp_server/src/ftp/mod.rs:170-175 | The token maps to a context for the request type. Every other entry is unchanged. |
| LegacyServer.FtpServer.NextId | FTPserver/rust_server/ftp_server/src/ftp/mod.rs:250-253 | The counter rises by exactly one and the new value is returned. The id is new to the registry. |
| LegacyServer.FtpServer.NewPassiveListener | FTPserver/rust_server/ftp_server/src/ftp/mod.rs:177-199 | Every call advances the port by one and consumes one id. A port above 65535 fails with "can't bind to this address", a failed bind with "can't bind to this port", and a failed registration with "cannot register this socket". Each failure inserts nothing. On success exactly one entry is added: a listener for the control connection under the new id, which no entry held before. |
| LegacyServer.FtpServer.NewConnection | FTPserver/rust_server/ftp_server/src/ftp/mod.rs:255-277 | No cap applies. A registered socket is always admitted as a control connection with a fresh buffer holding the 220 greeting, and no link. A failed registration inserts nothing. |
| LegacyServer.FtpServer.CloseConnection | FTPserver/rust_server/ftp_server/src/ftp/mod.rs:425-485 | An unknown token is a no-op. Otherwise the token is removed before anything else, so it is gone even when the result is an error. A data connection reports a failed deregistration or shutdown, and a listener a failed deregistration. A control connection also removes its linked entry and always returns Ok. |
| LegacyServer.FtpServer.ReadConnection | FTPserver/rust_server/ftp_server/src/ftp/mod.rs:326-423 | An unknown token is NotFound, and a failed deregistration returns its error. In both cases nothing changes. Otherwise one id is consumed and the handler's result follows `Classify`. A fatal error queues nothing and leaves the registry as the recursive close returns it. WouldBlock queues (token, readable), and success queues the handler's actions in order. Both leave the registry unchanged. |

## Left out

- Sockets, `mio::Poll` registration, `TcpListener::bind`, flush and shutdown. These are OS I/O. Each one whose failure changes the outcome is a boolean parameter. Any OS error is the kind `OsError`.
- Threads, `Arc<Mutex<…>>`, `Waker::wake` and interleaving. Each spawned body is one sequential step at the point where it is spawned. In the newer `close_connection`, the upload step that hands the stored reply to the owner therefore runs before the entry is removed.
- The contents of the stored `FnOnce` callbacks. A buffer records only whether one is waiting. A read handler's `RequestContext` callback becomes the session update, user and login, that it applies.
- `write_connection`, `handler_read`, `handler_write`, `close_connection_recursive`, the command parser, `Response`'s other codes, `SystemUsers` with `change_dir("/")` on closing a logged-in control connection (ftp_server/src/ftp/mod.rs:540-546), `ROOT` creation, the user file, the debug.txt append (FTPserver/rust_server/ftp_server/src/ftp/mod.rs:363-380), logging and the socket-driven tests. Their code is not part of this model, or they are I/O. The tests serve only as evidence for the greeting line.
- LegacyServer.FtpServer.ReadConnection: a fatal error hands the connection to `close_connection_recursive` (FTPserver/rust_server/ftp_server/src/ftp/mod.rs:391-394). That function is not part of this model. The registry it leaves behind is the parameter `afterClose`, the contract states only that nothing is queued and that the registry becomes `afterClose`, and the invariant is promised only on the other paths.
- Server.FtpServer.ReadConnection and LegacyServer.FtpServer.ReadConnection: `handle_read` is handed the registry, the connection's request type and the shared action list (ftp_server/src/ftp/mod.rs:373-394, FTPserver/rust_server/ftp_server/src/ftp/mod.rs:344-355). What the handler itself does to those three is not modelled: the handler's result and its actions are parameters, and the clauses saying the map, the buffers and the actions change only as stated describe `read_connection`'s own code.
- LegacyServer.FtpServer.CloseConnection and Server.FtpServer.CloseConnection: `conn.take()` clears the link inside the removed control context (FTPserver/rust_server/ftp_server/src/ftp/mod.rs:461, ftp_server/src/ftp/mod.rs:539). Other holders of the shared context would see that change. The model drops the context from the map, and aliasing through `Arc` is not modelled, so neither contract says that the removed context's link is cleared.
- Server.FtpServer.Valid: only the reply buffers of control connections are required to be distinct. A `BufferTransfer` data entry may, in the model, hold the same `BufferToWrite` object as a control connection, and the upload hand-over in `close_connection` would then change that entry's pending bytes too. Rust's ownership rules this sharing out; the model does not.
- `usize` widths: `current_id`, `current_connections` and `port` are unbounded naturals, so wrap-around at 2^64 is not modelled. Under the invariant, `current_connections -= 1` never underflows.
- A `&str` passed to `create_response`, `reset_str` or `get_test_html` is modelled by the bytes Rust stores for it. Nothing checks that those bytes are valid UTF-8, and `len()` is their count. The greeting and the HTTP head are byte sequences, and lemmas show they are the character codes of the source's text. The open `File` handles of uploads and downloads are not modelled.
- Server.FtpServer.NewConnection, Server.FtpServer.CloseConnection and Server.FtpServer.ReadConnection require the registry invariant. NewConnection also requires that the token came from `next_id` and is still unused. Both are facts the reactor maintains, but its code is not part of this model.
- A closed data connection leaves the owning control connection's link in place. Neither version's `close_connection` clears the owner's link when a data connection closes, and the model follows the code.
- Replies are formatted with whatever number of digits the code has, as `format!("{}")` does. A three-digit code is not enforced.

## Findings

| source | as written | input that shows it | evidently intended | confidence | as-written member | corrected member |
|---|---|---|---|---|---|---|
| ftp_server/src/ftp/mod.rs:287-289 | `current_connections += 1` runs before `register(...)?`. A failed registration returns early with the slot already counted and no control connection stored. | Capacity 1: first client's registration fails, then a second client connects. The counter is 1, no control connection exists, and the second client gets a `Closed` entry. | Count the connection only once it is registered and stored, so the counter always equals the number of control connections. | not executed | Server.FtpServer.NewConnectionAsWritten, Server.RegistrationFailureLeaksSlot | Server.FtpServer.NewConnection, Server.RegistrationFailureKeepsSlot |
