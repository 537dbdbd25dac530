/**
  Short sessions run against `State`, each ending in the exact state or
  result the bot's behaviour promises for it.
  */
module Scenarios {
  import opened Wrappers
  import Registry
  import opened Server
  import opened Deserialize
  import opened HanabiClient

  /** A table announced twice under one id is stored once, with its latest fields. */
  method TableReannounced() returns (tables: map<TableID, Table>)
    ensures tables == map[7 := Table(7, "b")]
  {
    var state := new State("bot");
    state.InsertTable(Table(7, "a"));
    state.InsertTable(Table(7, "b"));
    tables := state.tables;
  }

  /**
    Asked to join "foo" before it exists, the bot joins it when it appears,
    and only once although the table is announced twice.
    */
  method JoinWhenSeen() returns (joinTable: Option<string>, outbox: seq<ClientCommand>)
    ensures joinTable == None
    ensures outbox == [TableJoin(7)]
  {
    var state := new State("bot");
    state.JoinTable("foo");
    state.InsertTable(Table(7, "foo"));
    state.InsertTable(Table(7, "foo"));
    joinTable := state.joinTable;
    outbox := state.outbox;
  }

  /** A followed user is followed to each table they sit at; other users move nobody. */
  method FollowAcrossTables() returns (followUser: Option<string>, outbox: seq<ClientCommand>)
    ensures followUser == Some("alice")
    ensures outbox == [TableJoin(9), TableJoin(12)]
  {
    var state := new State("bot");
    state.FollowUser("alice");
    state.InsertUser(User(3, "alice", 0, Some(9)));
    state.InsertUser(User(4, "bob", 0, Some(5)));
    state.InsertUser(User(3, "alice", 0, None));
    state.InsertUser(User(3, "alice", 0, Some(12)));
    followUser := state.followUser;
    outbox := state.outbox;
  }

  /** A command name no handler knows is skipped: Ok, and nothing changes. */
  method UnknownCommand(json: JsonParser) returns (r: Result<(), SessionError>, lobby: Lobby)
    ensures r == Success(())
    ensures lobby == Lobby(map[], map[], None, None, None, [])
  {
    var state := new State("bot");
    assert Registry.FromName("futureCmd") == None;
    ParseUnknownFrame("futureCmd", "{}", json);
    r := state.OnText("futureCmd" + " " + "{}", json);
    lobby := state.View();
  }

  /** A frame without a space ends the session with `NoSpace`. */
  method FrameWithoutSpace(json: JsonParser) returns (r: Result<(), SessionError>)
    ensures r == Failure(FrameError(NoSpace))
  {
    var state := new State("bot");
    r := state.OnText("userList", json);
  }

  /** The server's `error` ends the session, carrying its message. */
  method ServerErrorIsFatal(json: JsonParser) returns (r: Result<(), SessionError>)
    requires json(Registry.Error, "{\"error\":\"bad\"}") == Success(Event.Error("bad"))
    ensures r == Failure(ServerError("bad"))
  {
    var state := new State("bot");
    var payload := "{\"error\":\"bad\"}";
    ParseKnownFrame(Registry.Error, payload, json);
    r := state.OnText(Registry.WireName(Registry.Error) + " " + payload, json);
  }

  /** After `joined`, `start` starts the table the bot sits at. */
  method StartJoinedTable(json: JsonParser) returns (outbox: seq<ClientCommand>, currentTable: Option<TableID>)
    requires json(Registry.Joined, "{\"tableID\":5}") == Success(Joined(5))
    ensures outbox == [ClientCommand.TableStart(5)]
    ensures currentTable == Some(5)
  {
    var state := new State("bot");
    var joined := Registry.WireName(Registry.Joined) + " " + "{\"tableID\":5}";
    ParseKnownFrame(Registry.Joined, "{\"tableID\":5}", json);
    assert ParseFrame(joined, json) == Handled(Joined(5));
    var _ := state.OnText(joined, json);
    state.Start();
    outbox := state.outbox;
    currentTable := state.currentTable;
  }

  /** After `left`, whose payload is ignored, the bot sits nowhere and `start` sends nothing. */
  method StartAfterLeaving(json: JsonParser) returns (outbox: seq<ClientCommand>, currentTable: Option<TableID>)
    ensures outbox == []
    ensures currentTable == None
  {
    var state := new State("bot");
    state.SetCurrentTable(Some(5));
    var left := Registry.WireName(Registry.Left) + " " + "any text";
    ParseHandledUnitFrame(Registry.Left, "any text", json);
    assert UnitEvent(Registry.Left) == Left;
    var _ := state.OnText(left, json);
    state.Start();
    outbox := state.outbox;
    currentTable := state.currentTable;
  }
}
