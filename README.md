# Chat coordinator of the Go chat server, in Dafny

This project models the coordinator of `server.go`, a TCP chat server. Clients
connect to a lobby. They create, join and leave named chat rooms, rename
themselves and chat. A room that nobody has written to for a week is deleted.

All of the server's state changes on a single dispatch loop that handles one
event at a time: an admission, a disconnect, a line from a client, or an expiry
wake-up. The model makes each event one method call on a `Lobby` object.

The Go pointers become Dafny heap objects:

- `Client` has a name, a current room, and an `outbox`. The outbox is the
  sequence of strings sent so far on the client's outgoing channel, so a send
  appends to it. There is also one flag for a closed channel and one for a
  closed connection.
- `ChatRoom` has a name, its members in joining order, its history and its
  expiry instant.
- `Lobby` has the admitted clients, the name-to-room registry and the pending
  expiry wake-ups.

Each handler's contract says:

- which fields it may write, in a field-level `modifies` clause;
- what it writes there, in its `ensures` clauses, as values in terms of
  `old(…)`:
  - `SendMessage`, `CreateChatRoom`, `JoinChatRoom`, `LeaveChatRoom`,
    `ChangeName` and `Parse` name a two-state predicate for this (`SendEffect`,
    `CreateEffect` and the others);
  - `Join`, `DeleteChatRoom`, `ListChatRooms` and `Help` state it directly;
  - `Leave` states the splice out of `clients` directly, and uses the two-state
    predicate `LeftRoom` for the room it leaves.

Every handler except `ListChatRooms` and `Help` requires and ensures the lobby's
invariant `Lobby.Valid`. Those two write only the client's outbox, which the
invariant does not read. `Parse` re-establishes the invariant after them with
the lemma `Lobby.StillValid`.

`Lobby.Valid` says:

- there are at most ten clients, none admitted twice, and every client's
  channel is open;
- every room is registered under its own name, holds only admitted clients,
  and has one pending wake-up;
- a client that names a room is a member of that registered room, and,
  through `ChatRoom.Valid`, of no other room.

The model is in four modules, one per file:

- `Strings`: the `strings` functions the server calls.
- `Fmt`: the `%s` part of `fmt.Sprintf`, including Go's `%!s(MISSING)` and
  `%!(EXTRA string=…)` reports.
- `Protocol`: the constants, the notices, command classification, and the
  fixed `/help` and `/list` output.
- `Seqs`: splicing a client out of a slice.

`Server` holds the classes and the handlers.

Two quirks of the code are kept on purpose:

- The rename notice for a client in no room uses a format with no verb. Go
  therefore sends the line `Notice: Changed name to "".`, including its final
  newline, and then `%!(EXTRA string=<name>)` with no newline of its own. The
  new name never appears between the quotes. `Protocol.PersonalNameNotice`
  states this exactly.
- Commands are matched by prefix. `/createfoo` creates a room named
  `/createfoo`, and `/leavexyz` leaves the room. `Protocol.GluedArgument`
  states the first case.

Three behaviours of the code differ from what one might expect, and the model
follows the code:

- One might expect a client to leave its room before a join only when it
  joins a *different* room. The code leaves whenever the client is in any room.
  So `/join` of the client's own room makes it leave and rejoin: it gets the
  leave notice, then the whole history (which now ends with that notice), then
  the join notice. This is `Lobby.Rejoin`.
- One might expect every broadcast to increase the expiry. The code
  sets the expiry to `now + EXPIRY_TIME`. That is larger than before only if
  the clock has moved forward, and the model makes no assumption about the clock.
- One might expect deleting a room to empty it. The code clears the members'
  room references and unregisters the room, but leaves the room's own member
  list as it was. `ChatRoom.Delete` keeps the member list unchanged.

## Model

| member | source | states |
|---|---|---|
| Strings.HasPrefix | server.go:148-163 | a text starts with a word exactly when it is at least as long and agrees with the word at each of its positions |
| Strings.HasSuffix | server.go:374 | a text ends with a suffix exactly when it is at least as long and its last characters agree with the suffix position by position |
| Strings.TrimPrefix | server.go:149 | the result is the text without the leading "<cmd> " exactly when the text starts with it, and the text itself otherwise |
| Strings.TrimSuffix | server.go:374 | the result is the line without its final newline exactly when it ends in one, and the line itself otherwise |
| Strings.TrimSuffixAppended | server.go:374 | removing a newline that was just appended gives back the original text |
| Strings.TrimPrefixPrepended | server.go:149 | removing a "<cmd> " that was just prepended gives back the argument |
| Fmt.ExpandConsumes | server.go:227 | each `%s` verb takes exactly one argument, so the arguments left over are the ones after the first Verbs(f) |
| Fmt.SprintfLeftover | server.go:227 | fmt.Sprintf with no more arguments than verbs is the expanded text; with more, it is the expanded text followed by an EXTRA report of exactly the arguments after the ones the verbs used, in order |
| Fmt.SprintfOne | server.go:194 | a format with one `%s` and one argument yields the text with the argument in place of the verb |
| Fmt.SprintfTwo | server.go:229 | with two verbs, the two arguments are substituted in order |
| Fmt.SprintfThree | server.go:427 | with three verbs, the three arguments are substituted in order |
| Fmt.SprintfExtra | server.go:227 | an argument passed to a format without verbs is reported after the unchanged text as `%!(EXTRA string=…)` |
| Protocol.JoinNotice | server.go:290 | the join notice quotes the joiner's name |
| Protocol.LeaveNotice | server.go:295 | the leave notice quotes the leaver's name |
| Protocol.RenameNotice | server.go:229 | the room's rename notice quotes the old name first and the new name second |
| Protocol.CreatedNotice | server.go:194 | the creator's notice quotes the new room's name |
| Protocol.PersonalNameNotice | server.go:227 | the lobby rename notice is the verb-less constant followed by the EXTRA report of the name, and differs from a notice that quotes the name |
| Protocol.RoomLine | server.go:240 | one line of the room list is the name followed by a newline |
| Protocol.Argument | server.go:149-159 | the argument cut at lines 149, 154 and 159: the text is rebuilt from it by putting back the "<cmd> " when the text started with it, and the final newline when the text ended in one |
| Protocol.Classify | server.go:144-166 | a line is a chat message exactly when no command word prefixes it; otherwise it is the first command in the fixed order whose word prefixes it, with the argument cut as Parse cuts it |
| Protocol.ClassifyCommandLine | server.go:144-166 | every command typed as documented, with an argument not ending in a newline, is classified as itself |
| Protocol.GluedArgument | server.go:148-149 | `/create`, `/join` or `/name` with text glued on and no space are still that command, with the whole line as the argument |
| Protocol.PlainTextIsSend | server.go:145-146 | a line that does not start with "/" is always passed to SendMessage |
| Protocol.RoomLines | server.go:239-241 | the loop emits one line per visited name, the i-th for the i-th name |
| Protocol.RoomLinesShow | server.go:239-241 | a name's line appears in the room lines exactly when that name was visited |
| Protocol.RoomListing | server.go:237-242 | the list is a blank line and the header, then one line per visited name in visiting order, then a blank line |
| Protocol.RoomListingShows | server.go:236-244 | between the header and the closing blank line, the list shows a name's line exactly when that name was visited |
| Seqs.RemoveFirst | server.go:115-120 | splicing out the first occurrence shortens the slice by one when the element is present and changes nothing otherwise |
| Seqs.RemoveFirstCount | server.go:296-301 | the splice removes one occurrence of the element and keeps every other element with its count |
| Seqs.RemoveFirstAt | server.go:115-120 | when index i holds the first occurrence, the result is `s[:i]` followed by `s[i+1:]` |
| Seqs.RemoveFirstDistinct | server.go:296-301 | on a slice without repeats, the splice removes the element entirely, keeps the rest, and leaves no repeats |
| Seqs.RemoveFirstOccurrence | server.go:115-120 | the scan-and-splice loop computes RemoveFirst |
| Server.ReadMessage | server.go:374 | a read line becomes a message stamped with the read time and the reader, and its text is the line without a final newline |
| Server.ReadTextHasNoNewline | server.go:368-374 | the text of a message read from a complete line contains no newline |
| Server.Render | server.go:426-428 | Message.String is "<kitchen time> - <sender's current name>: <text>\n" |
| Server.RenderIsOneLine | server.go:426-428 | a rendered message whose parts have no newline is exactly one line |
| Server.Client.constructor | server.go:339-355 | a new client is named "Anonymous", is in no room, and has sent nothing |
| Server.Client.Send | server.go:101 | a send on the outgoing channel appends exactly that string to the outbox |
| Server.Client.Quit | server.go:402-404 | Quit closes the connection and changes nothing else |
| Server.ChatRoom.constructor | server.go:273-280 | a new room has its name, no members, no history, and expires EXPIRY_TIME from now |
| Server.ChatRoom.Broadcast | server.go:306-312 | the expiry becomes now + EXPIRY_TIME, the history gains the message once, every member's outbox gains it once, and nobody else's changes |
| Server.ChatRoom.Join | server.go:284-291 | the joiner points at the room and gets the whole earlier history in order, then the join notice; it is appended to the members; the earlier members get the join notice |
| Server.ChatRoom.Leave | server.go:294-303 | the leave notice reaches every member, the leaver included; then the leaver's first occurrence is spliced out and its room reference is cleared |
| Server.ChatRoom.Delete | server.go:316-322 | the deletion notice reaches every member, then every member's room reference is cleared; the member list stays as it was |
| Server.Lobby.constructor | server.go:63-72 | a new lobby has no clients, no rooms and no wake-ups, and satisfies the invariant |
| Server.Lobby.OneRoom | server.go:200-211 | under the invariant, a client in a room is a member of exactly the registered room its reference names, and a client in the lobby is a member of none |
| Server.Lobby.Join | server.go:95-108 | when ten clients are connected, the newcomer's connection is closed, nothing is registered and no welcome is sent; otherwise the newcomer is appended and gets exactly the welcome line; the invariant, including at most ten clients, holds |
| Server.Lobby.LeaveRoom | server.go:112-114 | a client's room Leave keeps the lobby invariant and has the room Leave effect |
| Server.Lobby.JoinRoom | server.go:209 | a room Join by a client in no room keeps the lobby invariant and has the room Join effect; afterwards the client is a member of exactly that registered room |
| Server.Lobby.Drop | server.go:115-122 | the client is spliced out of the clients and its outgoing channel is closed, keeping the invariant |
| Server.Lobby.Leave | server.go:111-123 | a disconnecting client in a room first leaves it as with /leave; then it is spliced out of the clients and its channel is closed |
| Server.Lobby.DeleteChatRoom | server.go:127-139 | if the room's expiry is still ahead, only a new wake-up at that expiry is scheduled and the room and its members are unchanged; otherwise the members get the deletion notice and go back to the lobby, and the name and the wake-up are dropped |
| Server.Lobby.SendMessage | server.go:170-178 | a client in no room gets only ERROR_SEND; a client in a room has the rendered message broadcast there |
| Server.Lobby.CreateChatRoom | server.go:182-196 | a taken name gets only ERROR_CREATE and leaves the registry as it was; a free name is registered to a new empty room expiring EXPIRY_TIME from now, with a wake-up then, and the creator gets the created notice |
| Server.Lobby.JoinChatRoom | server.go:200-211 | an unknown name gets only ERROR_JOIN; otherwise the client leaves its room if it has one, receives the target history in order, is appended, and the join notice reaches it and the members; afterwards it is a member of exactly the named room |
| Server.Lobby.Rejoin | server.go:207-210 | joining one's own room delivers the leave notice, the history ending in that notice, then the join notice; the other members get the leave and join notices |
| Server.Lobby.MoveAcross | server.go:207-210 | moving between rooms delivers the leave notice to the old room, and the new room's history and the join notice to the mover; the new room's members get the join notice |
| Server.Lobby.LeaveChatRoom | server.go:214-222 | a client in no room gets only ERROR_LEAVE; otherwise it leaves its room, hearing its own leave notice |
| Server.Lobby.ChangeName | server.go:225-233 | the name is set in every case; in the lobby the client gets the personal notice, and in a room the room hears the old and the new name |
| Server.Lobby.ListChatRooms | server.go:236-244 | the client gets the header, one line for each registered name exactly once in some order, and the closing blank line |
| Server.Lobby.Help | server.go:247-259 | the client gets exactly the ten help lines |
| Server.Lobby.Parse | server.go:144-166 | the command Classify reads from the line selects exactly one handler's effect, and each command may write only what its handler writes |

## Left out

- client.go is not part of this model. It holds only the console client and its socket I/O.
- Sockets, `bufio`, `main`'s listener and `NewClient`'s reader and writer are left out. TCP, buffering and the Write loop have no logic to model. Client.Read is covered only by its newline strip (`ReadMessage`).
- Goroutines, channels and the `select` loop are modelled as one sequential event at a time. The admission relay and the expiry goroutines are represented only by which events may occur.
- Unbuffered channels are modelled as unbounded outboxes. A send to a client whose writer has stopped would block the whole coordinator; the model cannot express that.
- Wall-clock time is an integer number of nanoseconds passed to each operation as `now`. `time.Kitchen` formatting and the time zone are taken as the given function `Lobby.kitchen`.
- The code reads the clock several times within one event; the model uses one instant, `now`, for all of them.
- `time.Sleep` is modelled by a map from each room to the instant its one pending wake-up fires. `Lobby.DeleteChatRoom` requires that instant to have come.
- Go's map iteration order is modelled as any enumeration of the keys. `Lobby.ListChatRooms` returns the order it used.
- `log.Println` calls are left out. They have no effect on the state.
- CONN_PORT, CONN_TYPE, SERVER_NAME and MSG_FULL are not modelled. The coordinator never uses them.
- Go strings are byte strings; the model's `string` is a sequence of `char`. Every test the server makes is a prefix or suffix test against ASCII words, or a concatenation. Those computations agree with the UTF-8 encoding, so nothing about valid input is lost. Input bytes that are not valid UTF-8 cannot be represented.
- `fmt.Sprintf` is modelled only for formats whose verbs are all `%s` with string arguments. Those are the only formats the server uses.
- Events come only from admitted clients, so `Lobby.Parse` and `Lobby.Leave` require the client to be in `clients`. A client's relay goroutine exists only after admission.
- Lobby.Join requires a client fresh from NewClient: not yet admitted, in no room, with an open channel.
- Client.Send requires an open channel. Go panics on a send to a closed channel; the lobby's invariant rules that case out.
- Lobby.JoinChatRoom calls LeaveChatRoom only for a client in a room, so the model proves only that branch's effect at that call.
- Lobby.Parse: for `/list` it states only that some enumeration order was used.
- The liveness claim that an idle room is eventually deleted is not modelled. It depends on the environment firing wake-ups.
