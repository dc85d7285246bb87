# Rafiki hub and Zazu client: registry, handshake and exit tables

A model of the hub `rafiki` (rafiki.c) and the client `zazu` (zazu.c) of a small networked
card game. The code covers the start of a session. The hub keeps a table of games, and each
game keeps a table of connections. The hub accepts up to twelve connections. On each one it
runs a handshake:

- it reads a key and compares it with its own using `strcmp`;
- on a mismatch it answers `no` and stops;
- on a match it answers `yes`, reads a game name, appends a new waiting game of capacity 5
  under that name, and reads a player name.

The hub never checks whether a read found a line, and neither does the client. The model
follows that: a read that finds the stream ended leaves an unknown text, `unread`, in the
buffer, and the code goes on with it.

The client sends the key `12345` and reads one reply. Only if the reply is exactly `yes`
does it send its game name and then its player name. Each program also has an exit-code
table (`exit_with_error`), and the client has a string helper, `append_char`.

Modules:

- `CStrings`: the C string conventions both programs rely on. These are `strcmp` (`Compare`),
  `strlen` (`Strlen` on a character array, specified by `CLength`) and the string a
  terminated buffer holds (`CString`).
- `LineIO`: one end of a socket, modelled as a `Channel` object. The object holds the lines
  still to be read and a trace of what this end sent and read. `read_line` and
  `send_message` are its `ReadLine` and `Send`. `Join`, `Framed` and `SplitLines` relate
  the text one end writes to the lines the other end reads.
- `Process`: what `exit` leaves to the parent, namely the status and the diagnostic text.
- `Hub`: the rafiki.c core.
  - `Game` and `Server` are classes whose fields the methods update in place.
  - `Connection` is a value, as the C code copies it.
  - `Handshake` is the specification that `Server.SetupNewConnection` is proved against.
  - `Server.Start` is the bounded accept loop. It takes the results of `accept` as a
    sequence: a socket of -1 is a failed `accept`.
- `Client`: the zazu.c core. `Server.ConnectServer` runs against the specification
  `Script`, and `AppendChar` works on character arrays as the C code does.
- `Session`: the two scripts connected, where each end reads what the other wrote.

`add_game` copies a `Game` struct into the server's array. The model stores a reference to
the game object instead. The copied-from local is never touched again, so no difference can
be observed.

## Model

| member | source | states |
|---|---|---|
| `Process.ExitStatus` | rafiki.c:77 | The status the parent sees lies in 0..255, equals the code for codes in that range, and agrees with the code modulo 256. |
| `CStrings.CompareZeroIffEqual` | rafiki.c:186 | For strings without NUL, `strcmp` returns 0 exactly when the strings are equal. Both directions are proved by induction. |
| `CStrings.Compare` | rafiki.c:186 | `strcmp` of a string with itself is 0, and a result of 0 means both strings start with the same character. |
| `CStrings.CLength` | zazu.c:103 | `strlen` of a terminated buffer is the position of its first NUL: that position holds NUL and no earlier one does. |
| `CStrings.CString` | zazu.c:104 | The string a terminated buffer holds contains no NUL, and the buffer holds it followed by the terminator. |
| `CStrings.Strlen` | zazu.c:103 | The scan up to the terminator returns exactly `CLength` of the buffer. |
| `LineIO.Framed` | zazu.c:126-127 | Writing lines with `"%s\n"` gives, for each line, that line followed by a newline. |
| `LineIO.NewlineAt` | rafiki.c:201 | Finds the first newline of the stream, or its end, and the text before it is one line. |
| `LineIO.SplitLines` | rafiki.c:209 | Every line a reader takes from a stream is free of newlines. |
| `LineIO.SplitFramed` | zazu.c:126-127 | Lines without newlines, written one per `send_message`, are read back unchanged and in order. |
| `LineIO.FramedSplit` | rafiki.c:208 | A stream ending in a newline is exactly the framing of the lines read from it. |
| `LineIO.Channel.ReadLine` | rafiki.c:201 | Puts the next line in the buffer, drops it from the pending lines and records it as read. When nothing is pending, the buffer holds `unread` and nothing else changes. |
| `LineIO.Channel.Send` | rafiki.c:189-195 | Records the written text at the end of the trace and leaves the pending input alone. |
| `Hub.ErrorOf` | rafiki.c:3-11 | Maps the codes 1, 2, 3, 4, 5, 6 and 10 to their errors and every other integer to none. |
| `Hub.CodeSelectsError` | rafiki.c:3-11 | Every error's code selects that error again. |
| `Hub.ExitWithError` | rafiki.c:53-78 | Exits with the error as status. It prints a newline-terminated diagnostic exactly for the seven known codes and nothing otherwise. |
| `Hub.Message` | rafiki.c:54-76 | Every diagnostic is non-empty and ends with a newline. |
| `Hub.MessagesDistinct` | rafiki.c:54-76 | Different errors print different diagnostics. |
| `Hub.Game.Setup` | rafiki.c:152-157 | Sets the name and capacity, marks the game waiting and empties its connections. The count is not assigned and keeps its old value. |
| `Hub.SetupConnection` | rafiki.c:136-141 | A new connection is on the given socket, is authenticating, and has no name yet. |
| `Hub.Game.AddConnection` | rafiki.c:143-150 | For any non-negative count, the table gets one slot more than the old count. The connection is at the old count, and the entries both the old count and the old table cover are kept. Other slots are unspecified, as `realloc` leaves them. The count goes up by one and the other fields are unchanged. |
| `Hub.ExtendsTrans` | rafiki.c:159-164 | Two successive rounds of appending new games compose into one round that appends both name lists in order. |
| `Hub.AppendedByHandshake` | rafiki.c:208-211 | A table left alone when no game was named, or grown by exactly the one new game, extends the old table by that handshake's names. |
| `Hub.Authenticate` | rafiki.c:185-187 | For C strings, authentication succeeds exactly when the received key equals the configured key character for character. |
| `Hub.Handshake` | rafiki.c:197-216 | Takes three lines (as many as there are, up to three) when a game results and one otherwise. A game and a player name always result together. When the peer sent them, the game is named by the second line and the player by the third. |
| `Hub.HandshakeIO` | rafiki.c:201-213 | The handshake reads exactly the lines it consumed, in order. It writes exactly one answer, even to a peer that sent nothing: `yes` when a game follows and `no` otherwise. |
| `Hub.OneReadIO` | rafiki.c:201-206 | A read followed by an answer writes only the answer and reads the one line taken, if any. |
| `Hub.ThreeReadsIO` | rafiki.c:201-213 | A read, an answer and two more reads write only the answer and read the first lines of the input, up to three. |
| `Hub.WrongKeyAnswersNo` | rafiki.c:203-207 | A wrong key gets `no` as the only output. No further line is read, and no game or player name results. |
| `Hub.RightKeyAnswersYes` | rafiki.c:208-214 | The right key gets `yes`, and exactly one game is then always appended, with no lookup of existing names. It is named by the next line, and the player by the line after it; a read that found nothing leaves `unread` in their place. |
| `Hub.GameOf` | rafiki.c:210-212 | A handshake appends at most one game. |
| `Hub.Transcripts` | rafiki.c:237-243 | There is one transcript per handled connection, and the last one is the last connection's handshake. |
| `Hub.TranscriptsEach` | rafiki.c:237-243 | Transcript `i` is exactly what the handshake did on the `i`-th handled connection. |
| `Hub.AddedGames` | rafiki.c:243 | A run of handshakes adds at most one game per connection. |
| `Hub.OnlyKeyHoldersCreateGames` | rafiki.c:203-212 | Every game added during a run of handshakes carries the name read on a connection whose key matched. |
| `Hub.GameNamedAfterKey` | rafiki.c:203-211 | A handshake that appends a game saw the hub's key, and the game carries the text of the read after it. |
| `Hub.KeyHoldersCreateGames` | rafiki.c:208-212 | Conversely, every connection whose key matched has the game name read on it among the added games. |
| `Hub.ServedFrom` | rafiki.c:236-266 | From iteration `x` on, the loop handles connections while `accept` succeeds, stopping at the end of the input or after the iteration whose counter was 11. |
| `Hub.ServedCount` | rafiki.c:236-266 | The loop handles at most twelve connections, and no more than the accepts given. |
| `Hub.ServedCountMeaning` | rafiki.c:239-243 | Every handled connection came from a successful `accept`. Fewer than twelve are handled only when the accepts ran out or the next `accept` failed. |
| `Hub.ServedCountAt` | rafiki.c:239-265 | Running out of accepts or a failed `accept` at iteration `x` ends the run with `x` connections handled, and a success at iteration 11 ends it with twelve. |
| `Hub.StartOutcome` | rafiki.c:240-265 | The run stops exactly when twelve handshakes were run. It exits with status 6 exactly when it was cut short by an `accept` result, and that result is a failure. Otherwise it waits in `accept` after all results were handled. |
| `Hub.TwelveHandshakes` | rafiki.c:265 | When `accept` never fails, `start_server` performs exactly twelve handshakes. |
| `Hub.Server.Setup` | rafiki.c:269-275 | Sets timeout 0, port `3000`, an empty game table with count 0, and the key `12345`. |
| `Hub.Server.AddGame` | rafiki.c:159-164 | For any non-negative count, the table gets one slot more than the old count and the new game is at the old count. The entries both the old count and the old table cover are kept, and other slots are unspecified, as `realloc` leaves them. The count goes up by one; timeout, port and key are unchanged. |
| `Hub.Server.SetupNewConnection` | rafiki.c:197-216 | The connection trace and remaining input are those of `Handshake`, and the returned connection carries the player name. The game table is unchanged when the key did not match. Otherwise exactly one fresh waiting game of capacity 5 is appended, named by the text the second read left, and earlier entries are kept. Key, timeout and port are unchanged. Only the server and the channel are modified, so no existing game's connections change. |
| `Hub.Server.Serve` | rafiki.c:239-243 | One loop turn records the handshake's transcript and extends the game table by the games of the handshakes so far. Key, timeout and port are unchanged. |
| `Hub.Server.Start` | rafiki.c:233-267 | Ends as `StartOutcome` says: stopped after twelve, exit 6 on a failed `accept`, or blocked. It returns one transcript per handled connection, and the table is the old one followed by the games those handshakes added, in order. Key, timeout and port are unchanged. |
| `Client.ErrorOf` | zazu.c:3-12 | Maps the codes 1, 2, 5, 6, 7, 8, 9 and 10 to their errors and every other integer to none. |
| `Client.CodeSelectsError` | zazu.c:3-12 | Every error's code selects that error again. |
| `Client.Message` | zazu.c:29-54 | Every diagnostic is non-empty and ends with a newline. |
| `Client.ExitWithError` | zazu.c:28-56 | Exits with the error as status. It prints a newline-terminated diagnostic exactly for the eight known codes. |
| `Client.DiagnosticNamesPlayer` | zazu.c:48-53 | The diagnostics for codes 9 and 10 start with `Player ` followed by the player's name. Every other diagnostic does not depend on the name. |
| `Client.MessagesDistinct` | zazu.c:29-54 | For a given player, different errors print different diagnostics. |
| `Client.AppendChar` | zazu.c:102-109 | Returns a fresh buffer two longer than the string. It holds the old characters, then `c`, then NUL, so the C string is the old one with `c` appended. The original buffer is not modified. |
| `Client.Script` | zazu.c:111-128 | The first thing the client does on the connection is send the key `12345`. |
| `Client.ScriptIO` | zazu.c:117-127 | The client reads at most one reply. It sends the key, and then the game and player names in that order exactly when the buffer compares equal to `yes`. |
| `Client.RejectedSendsOnlyKey` | zazu.c:121-123 | A reply other than exactly `yes` leaves the key as the client's only output. |
| `Client.AcceptedSendsNames` | zazu.c:126-127 | The reply `yes` makes the client send the key, the game name and the player name, each on its own line. |
| `Client.Server.Setup` | zazu.c:130-133 | Stores the port and the key `12345`. The key file argument is ignored and no other field is assigned. |
| `Client.Server.ConnectServer` | zazu.c:111-128 | A failed socket exits with status 5 and `Bad timeout` before anything is sent. Otherwise the socket is recorded, the channel's trace is extended by `Script` and at most one reply is consumed. |
| `Session.ClientLinesAccepted` | zazu.c:117-127 | A client answered `yes` delivers exactly the lines `12345`, the game name and the player name. |
| `Session.ClientLinesRejected` | zazu.c:117-123 | A client answered `no` delivers exactly the line `12345`. |
| `Session.MatchingKeysAddClientGame` | rafiki.c:203-214 | Client and hub with matching keys agree: the hub answers the `yes` the client acts on, appends exactly one game named by the client's game name, and takes the client's player name. |
| `Session.MismatchedKeysAddNothing` | rafiki.c:203-207 | With a hub key other than `12345`, the hub answers `no` and adds no game, and the client sends nothing after its key. |

## Left out

- Sockets are not modelled: `get_socket` in both programs, `accept`, `fdopen` and the
  descriptors. The outcome of `get_socket` and `accept` is an input to the model: a socket
  number that is -1 on failure, plus the lines the peer will send. The hub's `get_socket`,
  which exits with status 6, is not part of this model.
- `read_line`, `load_keyfile` and the `Connection` type used by zazu.c are declared in
  shared.h, which is not part of this model.
  - `read_line` is taken to deliver the next line without its newline.
  - When the peer has sent nothing more, what `read_line` leaves in the buffer is not
    visible. The model takes it as a given text, `unread`, the same for every such read on
    one connection, and the code goes on with it as the C code does. On the hub, each
    connection's `Accept` carries its own `unread`.
  - `send_message` is taken to write the formatted text at once.
- Hub.Handshake and Hub.Server.SetupNewConnection take every read that finds nothing on one
  connection to leave the same `unread`. Should `read_line` leave a different text on each
  such read, the game and player names the model gives in that case would not be the ones
  the hub stores. The key comparison, the answer and the one appended game are unaffected.
- Client.Script and Client.Server.ConnectServer take the reply to be `unread` when the hub
  sends nothing. Whether the client then sends its names depends on that unknown text.
  - Whether the third `read_line` of `setup_new_connection` reuses the buffer holding the
    game name is not visible either. The model gives each line its own value.
- `Hub.Server.Start` and `Hub.Server.Serve` do not state that the appended games are fresh
  objects. `Hub.Server.SetupNewConnection` states it for the one game it appends.
- Signal handling, `main`, the `pthread_t` field of `Game`, and the empty stubs
  (`check_args`, `load_deckfile`, `load_statfile`, `free_connection`,
  `handle_new_connection`) are not modelled, nor are the commented-out functions and loop
  body. They have no behaviour to model, or are asynchronous process control.
- Debug `printf` output and the failure of `malloc`/`realloc` are not modelled. The growable
  arrays are sequences. `realloc` to `size + 1` keeps the entries the old count and the old
  table both cover; any slot beyond the old table is left unspecified.
- `CStrings.Compare` gives the difference of the first differing characters, taken as
  unsigned code points. The C library guarantees only the sign, and every use here compares
  the result with 0.
- The `in` and `out` streams and the `port` field of the hub's `Connection` are not
  modelled.
- The player record inside the hub's `Connection` is not modelled: its type is in shared.h.
