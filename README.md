# hanab.live lobby bot — a Dafny model

This project models the core of a bot for the hanab.live lobby, written in Rust.
The bot reads text frames from the server's websocket. Each frame is a command
name, one space, and a JSON payload. The bot keeps a mirror of the lobby: the
users, the tables, and the table it sits at. It also holds two intents:

- join a table by name, once, as soon as a table with that name is seen;
- follow a user, sending a `TableJoin` every time that user is seen seated.

The model has six modules:

- `Wrappers` (wrappers.dfy): the `Option` and `Result` types that stand for
  Rust's `Option` and `Result`.
- `Registry` (registry.dfy): the closed set of server event types of
  `src/command/server.rs`. It gives each type's wire name (its `NAME`
  constant), the shape its payload is read in (unit, newtype over a
  sequence, or struct), and the JSON keys of its fields.
- `Server` (server.dfy): the decoded payloads and the `Event` datatype, with
  one constructor per event struct.
- `Deserialize` (deserialize.dfy): `deserialize_command_from_str` and its
  serde access objects. The frame is split at the first space, the name
  selects the event type, and the payload is either ignored (unit events) or
  handed to serde_json. serde_json is a parameter of the model: a partial
  function (`JsonParser`) whose successes are always events of the type it
  was asked for.
- `HanabiClient` (hanabi_client.dfy): the `State` class, with its maps, its
  intents and the `on_text` dispatcher. Every command handed to
  `send_command` is appended to the `outbox` field. Specification functions
  over the `Lobby` value (`UpsertAll`, `FollowJoins`, `JoinScan`, `React`)
  state what the list handlers and the dispatcher do. Lemmas prove the
  one-shot and persistent intent rules from them.
- `Scenarios` (scenarios.dfy): short sessions on a fresh `State`, each
  proved to end in an exact state or result.

Where the parts of the source disagree, the model follows
`src/hanabi_client/mod.rs`, which consumes the events:

- `User.table_id` is a plain `TableID` in `src/command/server.rs:108-110`,
  where 0 means "at no table". `mod.rs:99` reads it as an `Option`. The model
  stores `Option<TableID>` and maps the wire value 0 to `None`
  (`Server.SeatedAt`). The JSON reader is required to decode users this way
  (`Deserialize.WellKinded`), so no decoded user sits at table 0, and a user
  reported at no table sends no join (`HanabiClient.DecodedSeatZeroSendsNothing`).
- `Joined` is a unit struct at `src/command/server.rs:175`. `mod.rs:198`
  destructures it with a `table_id`. The model gives it a `tableID` field, so
  it is read as a struct, not a unit event.
- `Chat.recipient` is a `String` at `src/command/server.rs:147`. `mod.rs:191`
  uses it as an `Option`. The model uses `Option<string>`.
- `client::TableStart` is declared empty at `src/command/client.rs:31`.
  `mod.rs:109` builds it with a `table_id`. The model's
  `ClientCommand.TableStart` carries the table id.
- The `command::Parse` chain (`handle_command`, `handle_command_result`,
  `unhandled`) is not part of this model. `HanabiClient.ParseFrame` models it
  this way: split the frame, then pick the handler whose event name matches,
  then decode the payload only for that handler. A name that no handler
  registers (unknown, or known but unhandled, such as `tableStart`) reaches
  `unhandled`, which returns Ok without reading the payload. A split or
  payload error becomes the `Err` of `on_text`, through `map_err`.

## Model

| member | source | states |
|---|---|---|
| Registry.WireName | src/command/server.rs:13-235 | each event type's `NAME` is a non-empty lowerCamelCase word of ASCII letters |
| Registry.ShapeOf | src/command/server.rs:61-236 | an event type's payload is read as a struct exactly when it has named fields |
| Registry.Fields | src/command/server.rs:7-159 | an event's fields, in declaration order, have pairwise distinct Rust names and pairwise distinct JSON keys |
| Registry.FromName | src/command/server.rs:13-235 | a name is resolved only to the event type whose `NAME` it is; `None` means no event type has that name |
| Registry.FromWireName | src/command/server.rs:13-235 | looking up an event type's own `NAME` finds that event type |
| Registry.NameInjective | src/command/server.rs:13-235 | `NAME` constants are pairwise distinct: two event types share a name iff they are the same type |
| Registry.StructsHaveFields | src/command/server.rs:7-236 | exactly the struct-shaped events have named payload fields |
| Registry.UnitEvents | src/command/server.rs:133-236 | the payload-less events are GameHistory, ChatTyping, Left, Init, GameAction, GameActionList, DatabaseID, Connected, Clock and NoteListPlayer, and no others |
| Registry.NewtypeEvents | src/command/server.rs:61-121 | `TableList` and `UserList` are the only single-field wrappers around a sequence |
| Registry.IdentifierWireNames | src/command/server.rs:29-128 | identifier fields travel as `userID` / `tableID`, never under the camelCase default `userId` / `tableId` |
| Registry.FieldNames | src/command/server.rs:7-159 | no two fields of an event are read from the same JSON key, and only struct events have any keys |
| Registry.SingleMessageFields | src/command/server.rs:7-23 | `Warning` and `Error` each carry one field, named `warning` and `error` |
| Server.UnitEvent | src/command/server.rs:133-236 | a payload-less event type has a value built without reading any payload, of that type |
| Server.UnitEventUnique | src/command/server.rs:133-236 | a payload-less event is the only value of its type |
| Server.SeatedAt | src/command/server.rs:106-110 | the wire `tableID` 0 means "at no table"; any other value is that table |
| Server.SeatRoundTrip | src/command/server.rs:106-110 | the wire value and the optional seat convert back and forth without loss, except for table 0 |
| Server.UserFromWire | src/command/server.rs:100-111 | a user built from its wire fields keeps id, name and status, and is unseated iff its wire `tableID` is 0 |
| Server.DecodedUserFromWire | src/command/server.rs:106-110 | the users the decoder may produce (never at table 0) are exactly those rebuilt from their own wire fields |
| Deserialize.CustomError | src/command/deserialize.rs:23-40 | a custom error carries the given message text unchanged as its display text |
| Deserialize.SplitOnce | src/command/deserialize.rs:60 | no split iff the text has no space; otherwise the name has no space and name, space and payload rebuild the text |
| Deserialize.SplitOnceUnique | src/command/deserialize.rs:60-62 | the split is at the first space: any space-free name and any payload (empty, or with more spaces) split back into themselves |
| Deserialize.VariantSeed | src/command/deserialize.rs:51-71 | `NoSpace` iff the frame has no space; a name the identifier rejects is a custom error with its message; a name it accepts yields its value with the payload after the first space, and every success is of that form |
| Deserialize.UnitVariant | src/command/deserialize.rs:81-83 | reading a unit variant never fails |
| Deserialize.NewtypeVariantSeed | src/command/deserialize.rs:85-92 | the value is exactly serde_json's reading of the payload; its failure becomes `DeserializeDataError` |
| Deserialize.TupleVariant | src/command/deserialize.rs:94-105 | the value is exactly serde_json's reading of the payload, whatever the arity; its failure becomes `DeserializeDataError` |
| Deserialize.StructVariant | src/command/deserialize.rs:107-118 | the value is exactly serde_json's reading of the payload, whatever the field list; its failure becomes `DeserializeDataError` |
| Deserialize.IdentifyVariant | src/command/deserialize.rs:63-67 | the command name is resolved as the event identifier; an unknown name fails with serde's unknown-variant message |
| Deserialize.ReadVariant | src/command/deserialize.rs:78-118 | a decoded event is of the requested type and its users are as the wire expresses them; a unit type yields its value whatever the payload; any other type yields exactly serde_json's result |
| Deserialize.DeserializeEvent | src/command/deserialize.rs:12-21 | a frame without a space fails with `NoSpace`; a decoded event's `NAME` is the frame's name |
| Deserialize.DeserializeFrame | src/command/deserialize.rs:51-71 | the name is resolved before the payload is read: an unknown name is a custom error naming it, a known one reads the payload as that type |
| Deserialize.UnknownNameIgnoresPayload | src/command/deserialize.rs:63-68 | an unknown name fails the same way for every payload: the payload is never read |
| Deserialize.WireNamesHaveNoSpace | src/command/server.rs:13-235 | no `NAME` contains a space, so every name survives the split |
| Deserialize.UnitEventAnyPayload | src/command/deserialize.rs:81-83 | a payload-less event decodes from its name followed by any payload at all |
| Deserialize.PayloadIsJson | src/command/deserialize.rs:85-118 | for an event type with fields, decoding succeeds iff serde_json does, with its value; a failure surfaces as `DeserializeDataError` |
| HanabiClient.UpsertAllLookup | src/hanabi_client/mod.rs:166-181 | after inserting a list, a key is present iff it was before or is listed; it maps to the last listed value with that key; unlisted keys keep their entry |
| HanabiClient.FollowJoinsAppend | src/hanabi_client/mod.rs:166-170 | the follow checks over two lists in turn are those of the first list, then those of the second |
| HanabiClient.FollowJoinsAt | src/hanabi_client/mod.rs:96-106 | the follow intent is never used up: in any user list, each seated entry of the followed user sends a join to its table, at its place in list order |
| HanabiClient.FollowJoinsOnlyFollowed | src/hanabi_client/mod.rs:96-106 | at most one join per user update, only for a seated user with the followed name, and none without a follow intent |
| HanabiClient.JoinOnlyOnce | src/hanabi_client/mod.rs:80-89 | over any run of table updates, the join-by-name intent sends exactly one join, to the first matching table, and is cleared; with no match nothing is sent and the intent stays |
| HanabiClient.ReactKeepsKeys | src/hanabi_client/mod.rs:52-68 | every event keeps each stored user and table under its own id |
| HanabiClient.ReactOnlyAppendsJoins | src/hanabi_client/mod.rs:149-209 | events only append to what was sent, only `TableJoin`s, only for user and table updates, and never clear the follow intent |
| HanabiClient.ParseFrame | src/hanabi_client/mod.rs:150-207 | a frame is malformed with `NoSpace` iff it has no space; a handled event has a handler and the frame's name, and no user in it sits at table 0; an unhandled name matches no handler |
| HanabiClient.ParseFrameAgrees | src/hanabi_client/mod.rs:150-208 | where a handler matches, the chain decodes exactly as `deserialize_command_from_str` does, errors included |
| HanabiClient.ParseKnownFrame | src/hanabi_client/mod.rs:150-207 | a frame naming an event type goes to its handler with the decoded payload, or, without a handler, to `unhandled` |
| HanabiClient.ParseHandledUnitFrame | src/hanabi_client/mod.rs:201-203 | a handled payload-less event (`left`) is dispatched whatever text follows its name |
| HanabiClient.FollowJoinsNotTableZero | src/hanabi_client/mod.rs:96-106 | users the wire can express never send a join to table 0 |
| HanabiClient.DecodedSeatZeroSendsNothing | src/hanabi_client/mod.rs:98-104 | a user read from a frame with wire `tableID` 0 is stored but sends no join, even when followed; no user list read from a frame sends a join to table 0 |
| HanabiClient.ParseUnknownFrame | src/hanabi_client/mod.rs:204-207 | a frame whose name is no event type reaches `unhandled`, whatever its payload |
| HanabiClient.State.constructor | src/hanabi_client/mod.rs:39-48 | a new session has no users, no tables, no seat, no intents and has sent nothing |
| HanabiClient.State.SendCommand | src/hanabi_client/mod.rs:250-255 | the command is appended to what was sent; nothing else changes |
| HanabiClient.State.InsertUser | src/hanabi_client/mod.rs:52-55 | `users[u.id]` becomes `u`, other entries stay; the follow check may append one join; the intents are kept |
| HanabiClient.State.RemoveUser | src/hanabi_client/mod.rs:56-61 | the id is absent afterwards and nothing else changes, whether or not it was present |
| HanabiClient.State.InsertTable | src/hanabi_client/mod.rs:62-65 | `tables[t.id]` becomes `t` (a re-announced id replaces its entry); the join check runs first |
| HanabiClient.State.RemoveTable | src/hanabi_client/mod.rs:66-68 | the id is absent afterwards and nothing else changes, whether or not it was present |
| HanabiClient.State.SetCurrentTable | src/hanabi_client/mod.rs:70-72 | only the seat changes |
| HanabiClient.State.CheckJoinTable | src/hanabi_client/mod.rs:80-89 | stops iff the pending name is the table's; it then sends exactly `TableJoin(t.id)` and clears the intent, otherwise changes nothing |
| HanabiClient.State.JoinTable | src/hanabi_client/mod.rs:74-79 | replaces the pending name; if a stored table has it, exactly one join to such a table is sent and the intent cleared; otherwise the intent stays pending and nothing is sent |
| HanabiClient.State.CheckFollowUser | src/hanabi_client/mod.rs:96-106 | stops iff the user is the followed one and seated; it then sends exactly one join to their table; the intent is never cleared |
| HanabiClient.State.FollowUser | src/hanabi_client/mod.rs:90-95 | sets the persistent intent; if a stored seated user has the name, exactly one join to that user's table is sent, otherwise nothing |
| HanabiClient.State.Start | src/hanabi_client/mod.rs:107-113 | sends `TableStart(c)` iff the bot sits at table `c`; with no seat nothing changes |
| HanabiClient.State.Call | src/hanabi_client/mod.rs:124-130 | each request has exactly the effect of the operation it names: a join by name, a follow, or a start; the lobby maps and the seat never change |
| HanabiClient.State.InsertUserList | src/hanabi_client/mod.rs:166-170 | the users are inserted in list order: the map is the list upserted over the old one, and the joins sent are the follow checks of each user in order |
| HanabiClient.State.InsertTableList | src/hanabi_client/mod.rs:177-181 | the tables are inserted in list order: the map is the list upserted over the old one, and the join intent and sends are those of the ordered scan |
| HanabiClient.State.Handle | src/hanabi_client/mod.rs:151-203 | a handled event changes the state exactly as `React` says: upserts, removals, seat changes; warnings, welcome, name and chat change nothing |
| HanabiClient.State.OnText | src/hanabi_client/mod.rs:149-209 | a malformed frame is an error and changes nothing; an unhandled name is Ok and changes nothing; `error` is an error carrying its message; every other handled event is Ok |
| Scenarios.TableReannounced | src/hanabi_client/mod.rs:62-65 | a table announced twice under one id is stored once, with the later fields |
| Scenarios.JoinWhenSeen | src/hanabi_client/mod.rs:74-89 | a pending join fires once when the table appears and not again on a repeat announcement |
| Scenarios.FollowAcrossTables | src/hanabi_client/mod.rs:90-106 | a followed user is followed to each table they sit at; other users and an unseated update send nothing |
| Scenarios.UnknownCommand | src/hanabi_client/mod.rs:204-207 | an unknown command name is Ok and changes nothing |
| Scenarios.FrameWithoutSpace | src/command/deserialize.rs:60-61 | a frame without a space ends the session with `NoSpace` |
| Scenarios.ServerErrorIsFatal | src/hanabi_client/mod.rs:154-156 | the server's `error` ends the session, carrying its message |
| Scenarios.StartJoinedTable | src/hanabi_client/mod.rs:198-200 | after `joined`, `start` starts exactly that table |
| Scenarios.StartAfterLeaving | src/hanabi_client/mod.rs:201-203 | after `left`, whose payload is ignored, the bot has no seat and `start` sends nothing |

## Left out

- Login and transport: `authenticate_and_get_cookie`, `Bot::new`, the ezsockets connection and `on_binary`. These are HTTP and websocket I/O. The outbox stands for the socket.
- Chat handling: the `Chat` arm of `on_text` changes no state in the model. `State::chat` ends in `todo!()` and its argument parsing depends on clap, so its panic path is not modelled.
- serde_json is the `JsonParser` parameter: which payload texts decode to which values is not modelled.
- The `command::Parse` chain and `serialize_command` are not part of this model. No outbound wire format is modelled, so there is no round trip to prove.
- `src/main.rs`, the earlier client (`src/hanabi_client.rs`, `src/server_command.rs`) and the clap declaration in `src/chat_command/mod.rs`.
- Logging (`tracing`) is dropped, including the error logged when removing an absent user.
- `RefCell` borrow checking: under single ownership the borrows never overlap, so plain fields stand in for the cells.
- HashMap iteration order: the scans of `join_table` and `follow_user` visit the keys in an order chosen by `PickAny`, and their contracts hold for every order.
- `UserID` and `TableID` are unbounded integers rather than `i32`. No arithmetic is done on them, so the width never matters.
- Deserialize.IdentifyVariant: the unknown-variant message omits serde's "expected one of …" suffix.
- HanabiClient.State.OnText: the error for the server's `error` keeps only the server's message, not the "received error from server" prefix eyre adds.
- The shape used to read each event (unit, newtype or struct) follows the event's Rust declaration. The enum that routes names to shapes lives in the `command::Parse` chain, which is not part of this model.
