/** The client and the hub talking to each other: what one end writes is split into lines
    and read by the other. Each lemma checks that the reply the client is given is the reply
    the hub produces for what the client sent, so the two scripts agree. */
module Session {
  import opened CStrings
  import opened LineIO
  import Hub
  import Client

  /** The lines one end reads from what the other end's trace wrote. */
  function Delivered(trace: seq<Event>): seq<string> {
    SplitLines(Join(Sends(trace)))
  }

  /** Reading back one framed line gives that line. */
  lemma DeliveredOne(text: string)
    requires IsLine(text)
    ensures SplitLines(Join([text + "\n"])) == [text]
  {
    SplitFramed([text]);
    assert Framed([text]) == [text + "\n"];
  }

  /** What the client writes once answered "yes", as the hub reads it. */
  lemma ClientLinesAccepted(gameName: string, playerName: string, unread: string)
    requires IsLine(gameName) && IsLine(playerName)
    ensures Delivered(Client.Script(gameName, playerName, [Client.ACCEPTED], unread)) ==
      [Client.KEY, gameName, playerName]
  {
    var lines := [Client.KEY, gameName, playerName];
    assert [Client.ACCEPTED] + [] == [Client.ACCEPTED];
    Client.AcceptedSendsNames(gameName, playerName, [], unread);
    assert Framed(lines) == [Client.KEY + "\n", gameName + "\n", playerName + "\n"];
    SplitFramed(lines);
  }

  /** What the client writes once answered "no", as the hub reads it. */
  lemma ClientLinesRejected(gameName: string, playerName: string, unread: string)
    ensures Delivered(Client.Script(gameName, playerName, ["no"], unread)) == [Client.KEY]
  {
    assert ["no"] + [] == ["no"];
    Client.RejectedSendsOnlyKey(gameName, playerName, "no", [], unread);
    DeliveredOne(Client.KEY);
  }

  /** The games one handshake adds. */
  lemma AddedByOne(key: string, a: Hub.Accept)
    ensures Hub.AddedGames(key, [a]) == Hub.GameOf(Hub.Handshake(key, a.incoming, a.unread))
  {
  }

  /** With matching keys, a client that is answered "yes" makes the hub answer "yes"; the
      hub then appends exactly one game, named by the client's game name, and takes the
      client's player name as the connection's name. What either end's buffer would hold
      after a read that found nothing plays no part. */
  lemma MatchingKeysAddClientGame(gameName: string, playerName: string, sock: int,
                                  hubUnread: string, clientUnread: string)
    requires IsLine(gameName) && IsLine(playerName)
    ensures var toHub := Delivered(Client.Script(gameName, playerName, [Client.ACCEPTED], clientUnread));
      var h := Hub.Handshake(Hub.KEY, toHub, hubUnread);
      && toHub == [Client.KEY, gameName, playerName]
      && Delivered(h.events) == [Client.ACCEPTED]
      && h.game == Some(gameName) && h.player == Some(playerName)
      && Hub.AddedGames(Hub.KEY, [Hub.Accept(sock, toHub, hubUnread)]) == [gameName]
  {
    ClientLinesAccepted(gameName, playerName, clientUnread);
    var toHub := [Client.KEY, gameName, playerName];
    Hub.RightKeyAnswersYes(Hub.KEY, toHub, hubUnread);
    var h := Hub.Handshake(Hub.KEY, toHub, hubUnread);
    assert Join(Sends(h.events)) == Client.ACCEPTED + "\n";
    DeliveredOne(Client.ACCEPTED);
    AddedByOne(Hub.KEY, Hub.Accept(sock, toHub, hubUnread));
  }

  /** With a hub key other than the client's, the hub answers "no" and adds no game, and the
      client, reading "no", sends nothing after its key. */
  lemma MismatchedKeysAddNothing(key: string, gameName: string, playerName: string, sock: int,
                                 hubUnread: string, clientUnread: string)
    requires IsCString(key) && key != Client.KEY
    ensures var toHub := Delivered(Client.Script(gameName, playerName, ["no"], clientUnread));
      var h := Hub.Handshake(key, toHub, hubUnread);
      && toHub == [Client.KEY]
      && Delivered(h.events) == ["no"]
      && h.game == None && h.player == None
      && Hub.AddedGames(key, [Hub.Accept(sock, toHub, hubUnread)]) == []
  {
    ClientLinesRejected(gameName, playerName, clientUnread);
    var toHub := [Client.KEY];
    Hub.WrongKeyAnswersNo(key, toHub, hubUnread);
    var h := Hub.Handshake(key, toHub, hubUnread);
    assert "no" + "\n" == "no\n";
    assert Sends(h.events) == ["no" + "\n"];
    DeliveredOne("no");
    AddedByOne(key, Hub.Accept(sock, toHub, hubUnread));
  }
}
