/** The hub (rafiki.c): its table of games, the handshake it runs on every accepted
    connection, the bounded accept loop and its exit-code table. */
module Hub {
  import opened CStrings
  import opened LineIO
  import opened Process

  /** The key `setup_server` installs. */
  const KEY: string := "12345"
  /** Capacity every game created by a handshake gets. */
  const GAME_CAPACITY: int := 5
  /** Iterations of the accept loop: it breaks once the counter, before its increment, exceeds 10. */
  const LOOP_BOUND: nat := 12

  // ---------------------------------------------------------------- errors

  datatype Error =
    | InvalidArgNum | InvalidKeyfile | InvalidDeckfile | InvalidStatfile
    | BadTimeout | FailedListen | SystemErr

  /** The numeric value of each error. */
  function Code(e: Error): int {
    match e
    case InvalidArgNum => 1
    case InvalidKeyfile => 2
    case InvalidDeckfile => 3
    case InvalidStatfile => 4
    case BadTimeout => 5
    case FailedListen => 6
    case SystemErr => 10
  }

  /** The case of the `switch` in `exit_with_error` an integer selects, if any. */
  function ErrorOf(code: int): (r: Option<Error>)
    ensures r.Some? ==> Code(r.value) == code
    ensures r.None? ==> code !in {1, 2, 3, 4, 5, 6, 10}
  {
    if code == 1 then Some(InvalidArgNum)
    else if code == 2 then Some(InvalidKeyfile)
    else if code == 3 then Some(InvalidDeckfile)
    else if code == 4 then Some(InvalidStatfile)
    else if code == 5 then Some(BadTimeout)
    else if code == 6 then Some(FailedListen)
    else if code == 10 then Some(SystemErr)
    else None
  }

  /** Every error is reached by its own code. */
  lemma CodeSelectsError(e: Error)
    ensures ErrorOf(Code(e)) == Some(e)
  {
  }

  /** The diagnostic of each case, ended by a newline. */
  function Message(e: Error): (m: string)
    ensures |m| > 1 && m[|m| - 1] == '\n'
  {
    match e
    case InvalidArgNum => "Usage: rafiki keyfile deckfile statfile timeout\n"
    case InvalidKeyfile => "Bad keyfile\n"
    case InvalidDeckfile => "Bad deckfile\n"
    case InvalidStatfile => "Bad statfile\n"
    case BadTimeout => "Bad timeout\n"
    case FailedListen => "Failed listen\n"
    case SystemErr => "System error\n"
  }

  /** `exit_with_error(error)`: the diagnostic of the matching case (none for any other
      value), then exit with `error` as the status. */
  function ExitWithError(error: int): (r: ExitReport)
    ensures 0 <= error < 256 ==> r.status == error
    ensures r.diagnostic != [] <==> error in {1, 2, 3, 4, 5, 6, 10}
    ensures r.diagnostic != [] ==> r.diagnostic[|r.diagnostic| - 1] == '\n'
  {
    ExitReport(ExitStatus(error),
               match ErrorOf(error) case Some(e) => Message(e) case None => "")
  }

  /** Different errors print different diagnostics, so the message identifies the error. */
  lemma MessagesDistinct(a: Error, b: Error)
    ensures a != b ==> Message(a) != Message(b)
  {
  }

  // ---------------------------------------------------------------- entities

  datatype ConnectionState = Authenticating | Ready | Failed
  datatype GameState = Waiting | Playing | Exiting

  /** A player's connection, a value the C code copies. `name` stays unset (None) until the
      handshake has read the player's name. */
  datatype Connection = Connection(name: Option<string>, socket: int, state: ConnectionState)

  /** `setup_connection`: a connection on `sock` that is still authenticating. */
  function SetupConnection(sock: int): (c: Connection)
    ensures c.socket == sock && c.state == Authenticating && c.name == None
  {
    Connection(None, sock, Authenticating)
  }

  class Game {
    var name: string
    var connectionAmount: int
    var playerAmount: int
    var connections: seq<Connection>
    var state: GameState

    /** The count agrees with the table it counts. */
    predicate Valid()
      reads this
    {
      connectionAmount == |connections|
    }

    /** `setup_game`: names the game, records its capacity, marks it waiting and gives it an
        empty connection table. The count is not assigned and keeps whatever value it had. */
    method Setup(name: string, playerAmount: int)
      modifies this
      ensures this.name == name && this.playerAmount == playerAmount
      ensures state == Waiting && connections == []
      ensures connectionAmount == old(connectionAmount)
    {
      this.name := name;
      state := Waiting;
      connections := [];
      this.playerAmount := playerAmount;
    }

    /** `add_connection`: reallocates the table to one more than the count, writes the
        connection at the old count and bumps the count. `setup_game` never assigns the
        count, so it may disagree with the table: `realloc` keeps the entries both have, and
        any slot beyond the old table holds whatever the new memory held. */
    method AddConnection(connection: Connection)
      requires 0 <= connectionAmount
      modifies this
      ensures |connections| == old(connectionAmount) + 1
      ensures connections[old(connectionAmount)] == connection
      ensures forall i :: 0 <= i < old(connectionAmount) && i < |old(connections)| ==>
        connections[i] == old(connections)[i]
      ensures connectionAmount == old(connectionAmount) + 1
      ensures Valid()
      ensures name == old(name) && playerAmount == old(playerAmount) && state == old(state)
    {
      var size := connectionAmount;
      ghost var kept := if size <= |connections| then connections[..size]
                        else connections + seq(size - |connections|, _ => connection);
      assert |kept| == size && forall i :: 0 <= i < size && i < |connections| ==> kept[i] == connections[i];
      var grown: seq<Connection> :| |grown| == size &&
        forall i :: 0 <= i < size && i < |connections| ==> grown[i] == connections[i];
      connections := grown + [connection];
      connectionAmount := size + 1;
    }
  }

  /** A game as a handshake creates it: named `name`, of the fixed capacity, waiting, with
      an empty connection table. */
  ghost predicate NewGame(game: Game, name: string)
    reads game
  {
    game.name == name && game.playerAmount == GAME_CAPACITY &&
    game.state == Waiting && game.connections == []
  }

  /** `after` is the table `before` followed by one new game per name in `names`, in order. */
  ghost predicate Extends(before: seq<Game>, after: seq<Game>, names: seq<string>)
    reads after
  {
    && |after| == |before| + |names|
    && after[..|before|] == before
    && forall j :: 0 <= j < |names| ==> NewGame(after[|before| + j], names[j])
  }

  lemma ExtendsTrans(t0: seq<Game>, t1: seq<Game>, t2: seq<Game>, n1: seq<string>, n2: seq<string>)
    requires Extends(t0, t1, n1) && Extends(t1, t2, n2)
    ensures Extends(t0, t2, n1 + n2)
  {
  }

  /** A table left alone when no game was named, or grown by exactly the named new game,
      extends the old one by the names the handshake contributes. */
  lemma AppendedByHandshake(before: seq<Game>, after: seq<Game>, h: Handshaken)
    requires h.game.None? ==> after == before
    requires h.game.Some? ==>
      |after| == |before| + 1 && after[..|before|] == before && NewGame(after[|before|], h.game.value)
    ensures Extends(before, after, GameOf(h))
  {
  }

  // ---------------------------------------------------------------- handshake

  /** `authenticate`: `strcmp` of the configured key and the received line reports 0. */
  function Authenticate(serverKey: string, key: string): (ok: bool)
    ensures IsCString(serverKey) && IsCString(key) ==> (ok <==> serverKey == key)
  {
    CompareZeroIffEqual(serverKey, key);
    Compare(serverKey, key) == 0
  }

  predicate AllCStrings(lines: seq<string>) {
    forall i :: 0 <= i < |lines| ==> IsCString(lines[i])
  }

  /** A connection as `accept` hands it over: the socket (-1 on failure), the lines its peer
      will send, and the text a `read_line` leaves in the buffer once the peer has sent
      nothing more. */
  datatype Accept = Accept(sock: int, incoming: seq<string>, unread: string)

  /** The text in the buffer when the hub compares keys on this connection. */
  function PresentedKey(a: Accept): string {
    LineAt(a.incoming, 0, a.unread)
  }

  /** The text in the buffer when the hub names the game of this connection. */
  function RequestedGame(a: Accept): string {
    LineAt(a.incoming, 1, a.unread)
  }

  /** Every text the hub can read on the connection is a C string. */
  predicate CStringsIn(a: Accept) {
    AllCStrings(a.incoming) && IsCString(a.unread)
  }

  /** What one run of `setup_new_connection` does: the events on the connection, how many
      lines it read, the name of the game it appends (if any) and the player name it stores
      in the connection (if any). */
  datatype Handshaken = Handshaken(events: seq<Event>, consumed: nat, game: Option<string>, player: Option<string>)

  function Min(a: nat, b: nat): nat {
    if a <= b then a else b
  }

  /** The handshake, given the configured key, the lines the peer sends and the text a read
      leaves in the buffer once the peer has sent nothing more. Like the C code, it never
      looks at whether a read found a line: it compares the key, answers, and after a match
      appends a game and takes a player name whatever the reads delivered. */
  function Handshake(key: string, incoming: seq<string>, unread: string): (h: Handshaken)
    ensures h.consumed == Min(|incoming|, if h.game.Some? then 3 else 1)
    ensures h.player.Some? <==> h.game.Some?
    ensures h.game.Some? && |incoming| >= 2 ==> h.game.value == incoming[1]
    ensures h.player.Some? && |incoming| >= 3 ==> h.player.value == incoming[2]
  {
    var p1 := Rest(incoming);
    if !Authenticate(key, LineAt(incoming, 0, unread)) then
      Handshaken(Receipt(incoming) + [Sent("no\n")], |incoming| - |p1|, None, None)
    else
      var p2 := Rest(p1);
      var p3 := Rest(p2);
      Handshaken(Receipt(incoming) + [Sent("yes\n")] + Receipt(p1) + Receipt(p2), |incoming| - |p3|,
                 Some(LineAt(p1, 0, unread)), Some(LineAt(p2, 0, unread)))
  }

  /** The handshake reads exactly the lines it consumed, in order, and writes exactly one
      answer: "yes" when a game follows, "no" otherwise. */
  lemma HandshakeIO(key: string, incoming: seq<string>, unread: string)
    ensures var h := Handshake(key, incoming, unread);
      && Reads(h.events) == incoming[..h.consumed]
      && Sends(h.events) == [if h.game.Some? then "yes\n" else "no\n"]
  {
    if Authenticate(key, LineAt(incoming, 0, unread)) {
      ThreeReadsIO(incoming, "yes\n");
    } else {
      OneReadIO(incoming, "no\n");
    }
  }

  /** A read followed by an answer writes the answer and reads the line it took, if any. */
  lemma OneReadIO(incoming: seq<string>, answer: string)
    ensures var t := Receipt(incoming) + [Sent(answer)];
      Sends(t) == [answer] && Reads(t) == incoming[..Min(|incoming|, 1)]
  {
    if incoming == [] {
      Trace1(Sent(answer));
    } else {
      Trace2(Received(incoming[0]), Sent(answer));
      assert incoming[..1] == [incoming[0]];
    }
  }

  /** A read, an answer and two more reads write the answer and read the lines they took. */
  lemma ThreeReadsIO(incoming: seq<string>, answer: string)
    ensures var p1 := Rest(incoming); var p2 := Rest(p1);
      var t := Receipt(incoming) + [Sent(answer)] + Receipt(p1) + Receipt(p2);
      Sends(t) == [answer] && Reads(t) == incoming[..Min(|incoming|, 3)]
  {
    var p1 := Rest(incoming);
    var p2 := Rest(p1);
    var t := Receipt(incoming) + [Sent(answer)] + Receipt(p1) + Receipt(p2);
    if |incoming| >= 3 {
      assert t == [Received(incoming[0]), Sent(answer), Received(incoming[1]), Received(incoming[2])];
      Trace4(Received(incoming[0]), Sent(answer), Received(incoming[1]), Received(incoming[2]));
      assert incoming[..3] == [incoming[0], incoming[1], incoming[2]];
    } else if |incoming| == 2 {
      assert t == [Received(incoming[0]), Sent(answer), Received(incoming[1])];
      Trace3(Received(incoming[0]), Sent(answer), Received(incoming[1]));
      assert incoming[..2] == [incoming[0], incoming[1]];
    } else {
      assert t == Receipt(incoming) + [Sent(answer)];
      OneReadIO(incoming, answer);
    }
  }

  /** A wrong key is answered with "no" alone: nothing more is read and no game or player
      name results. */
  lemma WrongKeyAnswersNo(key: string, incoming: seq<string>, unread: string)
    requires IsCString(key) && IsCString(LineAt(incoming, 0, unread))
    requires LineAt(incoming, 0, unread) != key
    ensures var h := Handshake(key, incoming, unread);
      && Sends(h.events) == ["no\n"] && h.consumed == Min(|incoming|, 1)
      && h.game == None && h.player == None
  {
    HandshakeIO(key, incoming, unread);
  }

  /** The right key is answered with "yes", and then exactly one game is always appended:
      named by the next line, whatever games of that name already exist, and the line after
      it names the player. A read that finds nothing leaves `unread` in their place. */
  lemma RightKeyAnswersYes(key: string, incoming: seq<string>, unread: string)
    requires LineAt(incoming, 0, unread) == key
    ensures var h := Handshake(key, incoming, unread);
      && Sends(h.events) == ["yes\n"] && h.consumed == Min(|incoming|, 3)
      && h.game == Some(LineAt(incoming, 1, unread))
      && h.player == Some(LineAt(incoming, 2, unread))
  {
    HandshakeIO(key, incoming, unread);
  }

  /** The name of the game a handshake appends, as a sequence of zero or one names. */
  function GameOf(h: Handshaken): (names: seq<string>)
    ensures |names| <= 1
  {
    if h.game.Some? then [h.game.value] else []
  }

  /** What each of a sequence of handshakes did on its connection. */
  function Transcripts(key: string, served: seq<Accept>): (r: seq<seq<Event>>)
    ensures |r| == |served|
    ensures |served| > 0 ==> r[|served| - 1] == Handshake(key, served[|served| - 1].incoming, served[|served| - 1].unread).events
  {
    if served == [] then []
    else
      var last := served[|served| - 1];
      Transcripts(key, served[..|served| - 1]) + [Handshake(key, last.incoming, last.unread).events]
  }

  /** Entry `i` of the transcripts is what the handshake did on the `i`-th connection. */
  lemma {:induction false} TranscriptsEach(key: string, served: seq<Accept>)
    ensures forall i :: 0 <= i < |served| ==>
      Transcripts(key, served)[i] == Handshake(key, served[i].incoming, served[i].unread).events
    decreases |served|
  {
    if served != [] {
      var n := |served| - 1;
      TranscriptsEach(key, served[..n]);
      var prefix := Transcripts(key, served[..n]);
      assert Transcripts(key, served) == prefix + [Handshake(key, served[n].incoming, served[n].unread).events];
      forall i | 0 <= i < |served|
        ensures Transcripts(key, served)[i] == Handshake(key, served[i].incoming, served[i].unread).events
      {
        if i < n {
          assert served[..n][i] == served[i];
          assert Transcripts(key, served)[i] == prefix[i];
        }
      }
    }
  }

  /** The names of the games a sequence of handshakes appends, in order. */
  function AddedGames(key: string, served: seq<Accept>): (names: seq<string>)
    ensures |names| <= |served|
  {
    if served == [] then []
    else
      var last := served[|served| - 1];
      AddedGames(key, served[..|served| - 1]) + GameOf(Handshake(key, last.incoming, last.unread))
  }

  lemma ServedSnoc(key: string, served: seq<Accept>, a: Accept)
    ensures Transcripts(key, served + [a]) == Transcripts(key, served) + [Handshake(key, a.incoming, a.unread).events]
    ensures AddedGames(key, served + [a]) == AddedGames(key, served) + GameOf(Handshake(key, a.incoming, a.unread))
  {
    assert (served + [a])[..|served|] == served;
  }

  /** Only a connection that presented the key creates a game, and the game carries the name
      that connection sent next. */
  lemma {:induction false} OnlyKeyHoldersCreateGames(key: string, served: seq<Accept>, g: string)
    requires IsCString(key)
    requires forall i :: 0 <= i < |served| ==> CStringsIn(served[i])
    ensures g in AddedGames(key, served) ==>
      exists i :: 0 <= i < |served| && PresentedKey(served[i]) == key && RequestedGame(served[i]) == g
    decreases |served|
  {
    if served != [] && g in AddedGames(key, served) {
      var n := |served| - 1;
      if g in AddedGames(key, served[..n]) {
        OnlyKeyHoldersCreateGames(key, served[..n], g);
        var i :| 0 <= i < n && PresentedKey(served[..n][i]) == key && RequestedGame(served[..n][i]) == g;
        assert served[i] == served[..n][i];
      } else {
        GameNamedAfterKey(key, served[n], g);
      }
    }
  }

  /** A handshake that appends a game saw the key and takes the name read after it. */
  lemma GameNamedAfterKey(key: string, a: Accept, g: string)
    requires IsCString(key) && CStringsIn(a)
    requires Handshake(key, a.incoming, a.unread).game == Some(g)
    ensures PresentedKey(a) == key && RequestedGame(a) == g
  {
    assert IsCString(PresentedKey(a));
  }

  /** Conversely, every connection that presented the key has the game it named appended. */
  lemma {:induction false} KeyHoldersCreateGames(key: string, served: seq<Accept>, i: nat)
    requires i < |served| && PresentedKey(served[i]) == key
    ensures RequestedGame(served[i]) in AddedGames(key, served)
    decreases |served|
  {
    var n := |served| - 1;
    var last := served[n];
    if i == n {
      RightKeyAnswersYes(key, last.incoming, last.unread);
    } else {
      assert served[..n][i] == served[i];
      KeyHoldersCreateGames(key, served[..n], i);
    }
  }

  // ---------------------------------------------------------------- accept loop

  /** How `start_server` ends: it leaves its loop, exits through `exit_with_error`, or is
      still waiting in `accept` when the given results run out. */
  datatype StartEnd = Stopped | Exited(report: ExitReport) | Blocked

  /** Number of handshakes the loop runs from iteration `x` on. */
  function ServedFrom(accepts: seq<Accept>, x: nat): (n: nat)
    requires x < LOOP_BOUND && x <= |accepts|
    ensures x + n <= LOOP_BOUND && x + n <= |accepts|
    ensures forall i :: x <= i < x + n ==> accepts[i].sock != -1
    ensures x + n < LOOP_BOUND ==> x + n == |accepts| || accepts[x + n].sock == -1
    decreases LOOP_BOUND - x
  {
    if x == |accepts| || accepts[x].sock == -1 then 0
    else if x > 10 then 1
    else 1 + ServedFrom(accepts, x + 1)
  }

  /** Number of `setup_new_connection` calls `start_server` makes for the given accept results. */
  function ServedCount(accepts: seq<Accept>): (n: nat)
    ensures n <= LOOP_BOUND && n <= |accepts|
  {
    ServedFrom(accepts, 0)
  }

  /** When `accept` never fails the loop runs exactly twelve handshakes. */
  lemma TwelveHandshakes(accepts: seq<Accept>)
    requires |accepts| >= LOOP_BOUND
    requires forall i :: 0 <= i < LOOP_BOUND ==> accepts[i].sock != -1
    ensures ServedCount(accepts) == 12
  {
  }

  /** What the loop counter tells about the number of handshakes: after `x` successful
      iterations, the run ends here when the results run out or `accept` fails, and a
      twelfth success ends it too. */
  lemma ServedCountAt(accepts: seq<Accept>, x: nat)
    requires x < LOOP_BOUND && x <= |accepts|
    requires forall i :: 0 <= i < x ==> accepts[i].sock != -1
    ensures x == |accepts| ==> ServedCount(accepts) == x
    ensures x < |accepts| && accepts[x].sock == -1 ==> ServedCount(accepts) == x
    ensures x < |accepts| && accepts[x].sock != -1 && x == LOOP_BOUND - 1 ==> ServedCount(accepts) == LOOP_BOUND
  {
  }

  /** The number of handshakes is the length of the run of successful accepts, cut at twelve. */
  lemma ServedCountMeaning(accepts: seq<Accept>)
    ensures var n := ServedCount(accepts);
      && (forall i :: 0 <= i < n ==> accepts[i].sock != -1)
      && (n < LOOP_BOUND ==> n == |accepts| || accepts[n].sock == -1)
  {
  }

  /** How `start_server` ends for the given accept results: it leaves the loop after twelve
      handshakes, exits with FAILED_LISTEN when an `accept` fails before that, and otherwise
      waits in `accept` once the results run out. */
  function StartOutcome(accepts: seq<Accept>): (r: StartEnd)
    ensures r == Stopped <==> ServedCount(accepts) == LOOP_BOUND
    ensures r.Exited? <==> ServedCount(accepts) < LOOP_BOUND && accepts[ServedCount(accepts)..] != []
    ensures r.Exited? ==> accepts[ServedCount(accepts)].sock == -1 && r.report.status == 6
    ensures r.Blocked? ==> ServedCount(accepts) == |accepts|
  {
    var n := ServedCount(accepts);
    if n == LOOP_BOUND then Stopped
    else if n < |accepts| then Exited(ExitWithError(Code(FailedListen)))
    else Blocked
  }

  // ---------------------------------------------------------------- server

  class Server {
    var timeout: int
    var port: string
    var gameAmount: int
    var games: seq<Game>
    var key: string

    /** The count agrees with the table it counts. */
    predicate Valid()
      reads this
    {
      gameAmount == |games|
    }

    /** `setup_server`: no timeout, port 3000, an empty game table and the fixed key. */
    method Setup()
      modifies this
      ensures Valid()
      ensures timeout == 0 && port == "3000" && games == [] && gameAmount == 0 && key == KEY
    {
      timeout := 0;
      port := "3000";
      gameAmount := 0;
      games := [];
      key := KEY;
    }

    /** `add_game`: reallocates the table to one more than the count, writes the game at
        the old count and bumps the count. `realloc` keeps the entries the count and the old
        table both cover; should the count exceed the table, the slots between hold
        whatever the new memory held. */
    method AddGame(game: Game)
      requires 0 <= gameAmount
      modifies this
      ensures |games| == old(gameAmount) + 1 && games[old(gameAmount)] == game
      ensures forall i :: 0 <= i < old(gameAmount) && i < |old(games)| ==> games[i] == old(games)[i]
      ensures gameAmount == old(gameAmount) + 1
      ensures Valid()
      ensures timeout == old(timeout) && port == old(port) && key == old(key)
    {
      var size := gameAmount;
      ghost var kept := if size <= |games| then games[..size] else games + seq(size - |games|, _ => game);
      assert |kept| == size && forall i :: 0 <= i < size && i < |games| ==> kept[i] == games[i];
      var grown: seq<Game> :| |grown| == size && forall i :: 0 <= i < size && i < |games| ==> grown[i] == games[i];
      games := grown + [game];
      gameAmount := size + 1;
    }

    /** `setup_new_connection`: reads the key; on a mismatch answers "no" and stops; otherwise
        answers "yes", reads a game name, appends a new waiting game of capacity 5 under that
        name (no lookup of existing names), and reads the player name into the connection.
        No read is checked for having found a line, and no connection is ever added to a
        game. */
    method SetupNewConnection(sock: int, peer: Channel, unread: string) returns (connection: Connection)
      requires Valid()
      modifies this, peer
      ensures Valid()
      ensures key == old(key) && timeout == old(timeout) && port == old(port)
      ensures var h := Handshake(old(key), old(peer.incoming), unread);
        && peer.trace == old(peer.trace) + h.events
        && peer.incoming == old(peer.incoming)[h.consumed..]
        && connection == Connection(h.player, sock, Authenticating)
        && (h.game.None? ==> games == old(games))
        && (h.game.Some? ==>
              && |games| == |old(games)| + 1 && games[..|old(games)|] == old(games)
              && fresh(games[|old(games)|]) && NewGame(games[|old(games)|], h.game.value))
    {
      connection := SetupConnection(sock);
      var buffer := peer.ReadLine(unread);
      if !Authenticate(key, buffer) {
        peer.Send("no\n");
        return;
      }
      peer.Send("yes\n");
      buffer := peer.ReadLine(unread);
      var game := new Game;
      game.Setup(buffer, GAME_CAPACITY);
      AddGame(game);
      assert games[..|old(games)|] == old(games);
      buffer := peer.ReadLine(unread);
      connection := connection.(name := Some(buffer));
    }

    /** The state after the accept loop has handled the connections `served`: the count is
        right, `transcripts` records each handshake, and the table `base` has been extended by
        the games they added. */
    ghost predicate Progress(base: seq<Game>, served: seq<Accept>, transcripts: seq<seq<Event>>)
      reads this, games
    {
      && Valid()
      && transcripts == Transcripts(key, served)
      && Extends(base, games, AddedGames(key, served))
    }

    /** One turn of the accept loop once `accept` has succeeded: open the connection's
        streams, run the handshake on them and record what it did. `base` is the table before
        the loop, `served` the connections handled so far and `done` their transcripts. */
    method Serve(accepted: Accept, ghost base: seq<Game>, ghost served: seq<Accept>, done: seq<seq<Event>>)
      returns (transcripts: seq<seq<Event>>)
      requires Progress(base, served, done)
      modifies this
      ensures key == old(key) && timeout == old(timeout) && port == old(port)
      ensures Progress(base, served + [accepted], transcripts)
      ensures transcripts == done + [Handshake(key, accepted.incoming, accepted.unread).events]
    {
      var peer := new Channel(accepted.incoming);
      ghost var before := games;
      var _ := SetupNewConnection(accepted.sock, peer, accepted.unread);
      ghost var h := Handshake(key, accepted.incoming, accepted.unread);
      assert peer.trace == h.events;
      transcripts := done + [peer.trace];
      AppendedByHandshake(before, games, h);
      ExtendsTrans(base, before, games, AddedGames(key, served), GameOf(h));
      ServedSnoc(key, served, accepted);
    }

    /** `start_server`: accepts a connection and runs its handshake, twelve times at most;
        a failed `accept` exits with FAILED_LISTEN. */
    method Start(accepts: seq<Accept>) returns (transcripts: seq<seq<Event>>, end: StartEnd)
      requires Valid()
      modifies this
      ensures Valid() && key == old(key) && timeout == old(timeout) && port == old(port)
      ensures end == StartOutcome(accepts)
      ensures transcripts == Transcripts(old(key), accepts[..ServedCount(accepts)])
      ensures Extends(old(games), games, AddedGames(old(key), accepts[..ServedCount(accepts)]))
    {
      transcripts := [];
      var x := 0;
      ghost var served: seq<Accept> := [];
      while true
        invariant 0 <= x < LOOP_BOUND && x <= |accepts|
        invariant served == accepts[..x]
        invariant forall i :: 0 <= i < x ==> accepts[i].sock != -1
        invariant key == old(key) && timeout == old(timeout) && port == old(port)
        invariant Progress(old(games), served, transcripts)
        decreases LOOP_BOUND - x
      {
        if x == |accepts| {
          ServedCountAt(accepts, x);
          end := Blocked;
          break;
        }
        var accepted := accepts[x];
        if accepted.sock == -1 {
          ServedCountAt(accepts, x);
          end := Exited(ExitWithError(Code(FailedListen)));
          break;
        }
        assert forall i :: 0 <= i < x + 1 ==> accepts[i].sock != -1;
        transcripts := Serve(accepted, old(games), served, transcripts);
        served := served + [accepted];
        assert served == accepts[..x + 1];
        var tested := x;
        x := x + 1;
        if tested > 10 {
          ServedCountAt(accepts, tested);
          end := Stopped;
          break;
        }
      }
    }
  }
}
