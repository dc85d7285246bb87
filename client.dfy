/** The client (zazu.c): its exit-code table, the `append_char` string helper, its
    connection record and the script it runs against the hub once connected. */
module Client {
  import opened CStrings
  import opened LineIO
  import opened Process

  /** The key `setup_server` installs; `connect_server` sends this same text as a literal. */
  const KEY: string := "12345"
  /** The reply that lets the client go on to name its game and player. */
  const ACCEPTED: string := "yes"

  // ---------------------------------------------------------------- errors

  datatype Error =
    | InvalidArgNum | InvalidKeyfile | ConnectErr | FailedListen
    | BadRid | CommErr | PlayerDisconnected | InvalidMessage

  /** The numeric value of each error. */
  function Code(e: Error): int {
    match e
    case InvalidArgNum => 1
    case InvalidKeyfile => 2
    case ConnectErr => 5
    case FailedListen => 6
    case BadRid => 7
    case CommErr => 8
    case PlayerDisconnected => 9
    case InvalidMessage => 10
  }

  /** The case of the `switch` in `exit_with_error` an integer selects, if any. */
  function ErrorOf(code: int): (r: Option<Error>)
    ensures r.Some? ==> Code(r.value) == code
    ensures r.None? ==> code !in {1, 2, 5, 6, 7, 8, 9, 10}
  {
    if code == 1 then Some(InvalidArgNum)
    else if code == 2 then Some(InvalidKeyfile)
    else if code == 5 then Some(ConnectErr)
    else if code == 6 then Some(FailedListen)
    else if code == 7 then Some(BadRid)
    else if code == 8 then Some(CommErr)
    else if code == 9 then Some(PlayerDisconnected)
    else if code == 10 then Some(InvalidMessage)
    else None
  }

  /** Every error is reached by its own code. */
  lemma CodeSelectsError(e: Error)
    ensures ErrorOf(Code(e)) == Some(e)
  {
  }

  /** The diagnostic of each case; two of them name the player. A connection failure is
      reported as "Bad timeout". */
  function Message(e: Error, playerName: string): (m: string)
    ensures |m| > 1 && m[|m| - 1] == '\n'
  {
    match e
    case InvalidArgNum => "Usage: zazu keyfile port game pname\n"
    case InvalidKeyfile => "Bad keyfile\n"
    case ConnectErr => "Bad timeout\n"
    case FailedListen => "Failed listen\n"
    case BadRid => "Bad reconnect id\n"
    case CommErr => "Communication Error\n"
    case PlayerDisconnected => "Player " + playerName + " disconnected\n"
    case InvalidMessage => "Player " + playerName + " sent invalid message\n"
  }

  /** `exit_with_error(error, playerName)`: the diagnostic of the matching case (none for any
      other value), then exit with `error` as the status. */
  function ExitWithError(error: int, playerName: string): (r: ExitReport)
    ensures 0 <= error < 256 ==> r.status == error
    ensures r.diagnostic != [] <==> error in {1, 2, 5, 6, 7, 8, 9, 10}
    ensures r.diagnostic != [] ==> r.diagnostic[|r.diagnostic| - 1] == '\n'
  {
    ExitReport(ExitStatus(error),
               match ErrorOf(error) case Some(e) => Message(e, playerName) case None => "")
  }

  /** Only PLAYER_DISCONNECTED and INVALID_MESSAGE mention the player: their diagnostics
      carry the name right after "Player ", and every other diagnostic is the same whatever
      the name. */
  lemma DiagnosticNamesPlayer(error: int, playerName: string, other: string)
    ensures error in {9, 10} ==>
      var d := ExitWithError(error, playerName).diagnostic;
      |d| > 7 + |playerName| && d[..7] == "Player " && d[7..7 + |playerName|] == playerName
    ensures error !in {9, 10} ==>
      ExitWithError(error, playerName).diagnostic == ExitWithError(error, other).diagnostic
  {
  }

  /** Different errors print different diagnostics for the same player. */
  lemma MessagesDistinct(a: Error, b: Error, playerName: string)
    ensures a != b ==> Message(a, playerName) != Message(b, playerName)
  {
    var ma, mb := Message(a, playerName), Message(b, playerName);
    var named := {PlayerDisconnected, InvalidMessage};
    if a != b && a in named && b in named {
      assert |ma| != |mb|;
    } else if a != b && (a in named || b in named) {
      assert ma[0] != mb[0];
    }
  }

  // ---------------------------------------------------------------- strings

  /** `append_char`: a fresh buffer two longer than the string, holding the string, then `c`,
      then the terminator. The old buffer is left as it was; the caller replaces its pointer
      with the returned one. */
  method AppendChar(str: array<char>, c: char) returns (newStr: array<char>)
    requires Terminated(str[..])
    ensures fresh(newStr)
    ensures var n := CLength(str[..]);
      && newStr.Length == n + 2
      && newStr[..n] == str[..n] && newStr[n] == c && newStr[n + 1] == NUL
    ensures c != NUL ==> CString(newStr[..]) == CString(str[..]) + [c]
  {
    ghost var s := str[..];
    var n := Strlen(str);
    newStr := new char[n + 2];
    forall i | 0 <= i <= n {
      newStr[i] := str[i];
    }
    newStr[n] := c;
    newStr[n + 1] := NUL;
    assert str[..] == s && newStr[..n] == s[..n];
    if c != NUL {
      CStringOfAppended(s, newStr[..], n, c);
    }
  }

  /** A buffer holding a C string of length `n`, then a non-NUL `c`, then the terminator,
      holds that string with `c` appended. */
  lemma CStringOfAppended(old_: seq<char>, new_: seq<char>, n: nat, c: char)
    requires Terminated(old_) && n == CLength(old_)
    requires |new_| == n + 2 && new_[..n] == old_[..n] && new_[n] == c && new_[n + 1] == NUL
    requires c != NUL
    ensures Terminated(new_) && CString(new_) == CString(old_) + [c]
  {
  }

  // ---------------------------------------------------------------- connection

  /** What `connect_server` does on a connected socket, given the lines the hub sends and
      the text a read leaves in the buffer once the hub has sent nothing more: send the
      key, read one reply, and only if `strcmp` finds the buffer equal to "yes" send the
      game name and then the player name, each on its own line. */
  function Script(gameName: string, playerName: string, incoming: seq<string>, unread: string): (t: seq<Event>)
    ensures t != [] && t[0] == Sent(KEY + "\n")
  {
    var key := Sent(KEY + "\n");
    var accepted := Compare(LineAt(incoming, 0, unread), ACCEPTED) == 0;
    if incoming == [] then
      if accepted then [key, Sent(gameName + "\n"), Sent(playerName + "\n")] else [key]
    else if accepted then [key, Received(incoming[0]), Sent(gameName + "\n"), Sent(playerName + "\n")]
    else [key, Received(incoming[0])]
  }

  /** The client reads at most the one reply and sends the key first; it sends the two
      names, in that order, exactly when the buffer compares equal to "yes". */
  lemma ScriptIO(gameName: string, playerName: string, incoming: seq<string>, unread: string)
    ensures var t := Script(gameName, playerName, incoming, unread);
      var accepted := Compare(LineAt(incoming, 0, unread), ACCEPTED) == 0;
      && Reads(t) == incoming[..if incoming == [] then 0 else 1]
      && Sends(t) == [KEY + "\n"] + (if accepted then [gameName + "\n", playerName + "\n"] else [])
  {
    var key, game, player := Sent(KEY + "\n"), Sent(gameName + "\n"), Sent(playerName + "\n");
    var t := Script(gameName, playerName, incoming, unread);
    var accepted := Compare(LineAt(incoming, 0, unread), ACCEPTED) == 0;
    if incoming == [] {
      if accepted {
        assert t == [key, game, player];
        Trace3(key, game, player);
      } else {
        assert t == [key];
        Trace1(key);
      }
    } else {
      assert incoming[..1] == [incoming[0]];
      if accepted {
        assert t == [key, Received(incoming[0]), game, player];
        Trace4(key, Received(incoming[0]), game, player);
      } else {
        assert t == [key, Received(incoming[0])];
        Trace2(key, Received(incoming[0]));
      }
    }
  }

  /** A reply other than exactly "yes" leaves the key as the only thing the client sends. */
  lemma RejectedSendsOnlyKey(gameName: string, playerName: string, reply: string, rest: seq<string>, unread: string)
    requires IsCString(reply) && reply != ACCEPTED
    ensures Sends(Script(gameName, playerName, [reply] + rest, unread)) == [KEY + "\n"]
  {
    CompareZeroIffEqual(reply, ACCEPTED);
    ScriptIO(gameName, playerName, [reply] + rest, unread);
  }

  /** The reply "yes" makes the client send the key, the game name and the player name. */
  lemma AcceptedSendsNames(gameName: string, playerName: string, rest: seq<string>, unread: string)
    ensures Sends(Script(gameName, playerName, [ACCEPTED] + rest, unread)) ==
      [KEY + "\n", gameName + "\n", playerName + "\n"]
  {
    ScriptIO(gameName, playerName, [ACCEPTED] + rest, unread);
  }

  /** The client's view of the hub. */
  class Server {
    var socket: int
    var port: string
    var name: string
    var key: string

    /** `setup_server`: records the port and installs the fixed key; the key file is not
        read here and the other fields are not assigned. */
    method Setup(port: string, keyfile: string)
      modifies this
      ensures this.port == port && key == KEY
      ensures socket == old(socket) && name == old(name)
    {
      this.port := port;
      key := KEY;
    }

    /** `connect_server`. `sock` is what `get_socket` obtained, -1 when no address could be
        connected to; that case exits through `exit_with_error(CONNECT_ERR, name)` before
        anything is sent. Otherwise the socket is recorded and the script runs on `peer`,
        with `unread` left in the buffer should the hub send nothing. */
    method ConnectServer(sock: int, peer: Channel, gameName: string, playerName: string, unread: string)
      returns (exit: Option<ExitReport>)
      modifies this, peer
      ensures port == old(port) && name == old(name) && key == old(key)
      ensures sock == -1 ==>
        && exit == Some(ExitWithError(Code(ConnectErr), old(name)))
        && socket == old(socket) && peer.trace == old(peer.trace) && peer.incoming == old(peer.incoming)
      ensures sock != -1 ==>
        && exit == None && socket == sock
        && peer.trace == old(peer.trace) + Script(gameName, playerName, old(peer.incoming), unread)
        && peer.incoming == (if old(peer.incoming) == [] then [] else old(peer.incoming)[1..])
    {
      if sock == -1 {
        return Some(ExitWithError(Code(ConnectErr), name));
      }
      socket := sock;
      exit := None;
      peer.Send(KEY + "\n");
      var buffer := peer.ReadLine(unread);
      if Compare(buffer, ACCEPTED) != 0 {
        return;
      }
      peer.Send(gameName + "\n");
      peer.Send(playerName + "\n");
    }
  }
}
