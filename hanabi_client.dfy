/**
  The bot's session state of src/hanabi_client/mod.rs: a mirror of the lobby
  (users, tables, the table the bot sits at), two pending intents (join a
  table by name once; follow a user to every table they sit at), and the
  reactions of `on_text` to each server event. Commands the bot sends are
  recorded, in order, in `outbox`.
  */
module HanabiClient {
  import opened Wrappers
  import Registry
  import opened Server
  import opened Deserialize

  /** The client commands the lobby logic sends (src/command/client.rs). */
  datatype ClientCommand = TableJoin(tableId: TableID) | TableStart(tableId: TableID)

  /** Requests delivered to the bot's task from outside (`Call`). */
  datatype Call = JoinTable(tableName: string) | FollowUser(name: string) | Start

  /** Why `on_text` reports an error, ending the session. */
  datatype SessionError =
    | ServerError(message: string)             // the server sent `error`
    | FrameError(cause: DeserializeCommandError)  // the frame could not be read

  /** The whole session state as a value: lobby mirror, intents and every command sent so far. */
  datatype Lobby = Lobby(
    users: map<UserID, User>,
    tables: map<TableID, Table>,
    currentTable: Option<TableID>,
    followUser: Option<string>,
    joinTable: Option<string>,
    outbox: seq<ClientCommand>)

  /** Every stored user and table is filed under its own id. */
  ghost predicate KeyedById(users: map<UserID, User>, tables: map<TableID, Table>) {
    && (forall id :: id in users ==> users[id].userId == id)
    && (forall id :: id in tables ==> tables[id].id == id)
  }

  function UserKey(u: User): UserID { u.userId }

  function TableKey(t: Table): TableID { t.id }

  /** Insert the values of `vs` in order, each under its key; a later value replaces an earlier one. */
  function UpsertAll<K(==), V>(m: map<K, V>, vs: seq<V>, key: V -> K): map<K, V> {
    if vs == [] then m
    else UpsertAll(m, vs[..|vs| - 1], key)[key(vs[|vs| - 1]) := vs[|vs| - 1]]
  }

  /**
    After inserting a list, a key is present exactly when it was before or
    some listed value has it; it then maps to the LAST listed value with that
    key, and a key no listed value has keeps its old entry.
    */
  lemma {:induction false} UpsertAllLookup<K, V>(m: map<K, V>, vs: seq<V>, key: V -> K, k: K)
    ensures k in UpsertAll(m, vs, key) <==> k in m || exists i :: 0 <= i < |vs| && key(vs[i]) == k
    ensures forall i :: 0 <= i < |vs| && key(vs[i]) == k && (forall j :: i < j < |vs| ==> key(vs[j]) != k) ==>
      UpsertAll(m, vs, key)[k] == vs[i]
    ensures (forall i :: 0 <= i < |vs| ==> key(vs[i]) != k) && k in m ==> UpsertAll(m, vs, key)[k] == m[k]
  {
    if vs != [] {
      var n := |vs| - 1;
      var prefix := vs[..n];
      UpsertAllLookup(m, prefix, key, k);
      assert forall i :: 0 <= i < n ==> prefix[i] == vs[i];
      if key(vs[n]) != k {
        assert (exists i :: 0 <= i < |vs| && key(vs[i]) == k) ==> exists i :: 0 <= i < n && key(prefix[i]) == k;
      }
    }
  }

  /** What `check_follow_user` sends for one user: a join of their table if they are followed and seated. */
  function FollowJoin(followUser: Option<string>, u: User): seq<ClientCommand> {
    if followUser == Some(u.name) && u.tableId.Some? then [TableJoin(u.tableId.value)] else []
  }

  /** What `check_follow_user` sends for each user of `us`, in order. */
  function FollowJoins(followUser: Option<string>, us: seq<User>): seq<ClientCommand> {
    if us == [] then []
    else FollowJoins(followUser, us[..|us| - 1]) + FollowJoin(followUser, us[|us| - 1])
  }

  /** The follow checks over two lists in turn are those of the first, then those of the second. */
  lemma {:induction false} FollowJoinsAppend(followUser: Option<string>, a: seq<User>, b: seq<User>)
    ensures FollowJoins(followUser, a + b) == FollowJoins(followUser, a) + FollowJoins(followUser, b)
  {
    if b == [] {
      assert a + b == a;
    } else {
      var n := |b| - 1;
      assert (a + b)[..|a + b| - 1] == a + b[..n];
      assert (a + b)[|a + b| - 1] == b[n];
      FollowJoinsAppend(followUser, a, b[..n]);
    }
  }

  /**
    The follow intent is never used up: wherever the followed user appears
    seated in a user list, among any other users, that entry sends a join to
    their table, at its place in the list order.
    */
  lemma {:induction false} FollowJoinsAt(name: string, us: seq<User>, i: nat)
    requires i < |us| && us[i].name == name && us[i].tableId.Some?
    ensures FollowJoins(Some(name), us) ==
      FollowJoins(Some(name), us[..i]) + [TableJoin(us[i].tableId.value)] + FollowJoins(Some(name), us[i + 1..])
  {
    assert us == us[..i] + [us[i]] + us[i + 1..];
    FollowJoinsAppend(Some(name), us[..i] + [us[i]], us[i + 1..]);
    FollowJoinsAppend(Some(name), us[..i], [us[i]]);
    assert [us[i]][..0] == [];
  }

  /**
    Only the followed user moves the bot: every join sent while inserting
    users goes to the table of a listed, seated user with the followed name;
    with no follow intent nothing is sent.
    */
  lemma {:induction false} FollowJoinsOnlyFollowed(followUser: Option<string>, us: seq<User>)
    ensures |FollowJoins(followUser, us)| <= |us|
    ensures followUser.None? ==> FollowJoins(followUser, us) == []
    ensures forall c :: c in FollowJoins(followUser, us) ==>
      c.TableJoin? && exists i :: 0 <= i < |us| && followUser == Some(us[i].name) && us[i].tableId == Some(c.tableId)
  {
    if us != [] {
      var n := |us| - 1;
      FollowJoinsOnlyFollowed(followUser, us[..n]);
      forall c | c in FollowJoins(followUser, us)
        ensures c.TableJoin? && exists i :: 0 <= i < |us| && followUser == Some(us[i].name) && us[i].tableId == Some(c.tableId)
      {
        if c in FollowJoins(followUser, us[..n]) {
          var i :| 0 <= i < n && followUser == Some(us[..n][i].name) && us[..n][i].tableId == Some(c.tableId);
          assert us[..n][i] == us[i];
        } else {
          assert c in FollowJoin(followUser, us[n]);
        }
      }
    }
  }

  /** The join-by-name intent left pending and the commands sent, after some `check_join_table` calls. */
  datatype JoinStep = JoinStep(joinTable: Option<string>, sent: seq<ClientCommand>)

  /** What `check_join_table` does for one table. */
  function JoinCheck(joinTable: Option<string>, t: Table): JoinStep {
    if joinTable == Some(t.name) then JoinStep(None, [TableJoin(t.id)]) else JoinStep(joinTable, [])
  }

  /** `check_join_table` on each table of `ts`, in order. */
  function JoinScan(joinTable: Option<string>, ts: seq<Table>): JoinStep {
    if ts == [] then JoinStep(joinTable, [])
    else
      var before := JoinScan(joinTable, ts[..|ts| - 1]);
      var last := JoinCheck(before.joinTable, ts[|ts| - 1]);
      JoinStep(last.joinTable, before.sent + last.sent)
  }

  /**
    The join-by-name intent fires at most once: over any list of table
    updates it sends exactly one join, to the first table with the wanted
    name, and is then cleared; if no table has that name nothing is sent and
    the intent stays pending. A repeated update of the matched table sends
    nothing more.
    */
  lemma {:induction false} JoinOnlyOnce(joinTable: Option<string>, ts: seq<Table>)
    ensures var r := JoinScan(joinTable, ts);
      if joinTable.Some? && exists i :: 0 <= i < |ts| && ts[i].name == joinTable.value then
        && r.joinTable == None
        && exists i :: 0 <= i < |ts| && ts[i].name == joinTable.value
             && (forall j :: 0 <= j < i ==> ts[j].name != joinTable.value)
             && r.sent == [TableJoin(ts[i].id)]
      else r == JoinStep(joinTable, [])
  {
    if ts != [] {
      var n := |ts| - 1;
      var prefix := ts[..n];
      JoinOnlyOnce(joinTable, prefix);
      assert forall i :: 0 <= i < n ==> prefix[i] == ts[i];
      if joinTable.Some? && exists i :: 0 <= i < n && ts[i].name == joinTable.value {
        var i :| 0 <= i < n && prefix[i].name == joinTable.value
          && (forall j :: 0 <= j < i ==> prefix[j].name != joinTable.value)
          && JoinScan(joinTable, prefix).sent == [TableJoin(prefix[i].id)];
        assert ts[i].name == joinTable.value && (forall j :: 0 <= j < i ==> ts[j].name != joinTable.value);
      }
    }
  }

  /** The state change `on_text` makes for a decoded event it handles. */
  function React(m: Lobby, e: Event): Lobby {
    match e
    case UserEvent(u) =>
      m.(users := m.users[u.userId := u], outbox := m.outbox + FollowJoin(m.followUser, u))
    case UserList(us) =>
      m.(users := UpsertAll(m.users, us, UserKey), outbox := m.outbox + FollowJoins(m.followUser, us))
    case UserLeft(id) => m.(users := m.users - {id})
    case TableEvent(t) =>
      var step := JoinCheck(m.joinTable, t);
      m.(tables := m.tables[t.id := t], joinTable := step.joinTable, outbox := m.outbox + step.sent)
    case TableList(ts) =>
      var step := JoinScan(m.joinTable, ts);
      m.(tables := UpsertAll(m.tables, ts, TableKey), joinTable := step.joinTable, outbox := m.outbox + step.sent)
    case TableGone(id) => m.(tables := m.tables - {id})
    case Joined(id) => m.(currentTable := Some(id))
    case Left => m.(currentTable := None)
    case _ => m
  }

  /** What `on_text` returns for a decoded event it handles. */
  function Outcome(e: Event): Result<(), SessionError> {
    match e
    case Error(message) => Failure(ServerError(message))
    case _ => Success(())
  }

  /** Every reaction keeps users and tables filed under their own ids. */
  lemma ReactKeepsKeys(m: Lobby, e: Event)
    requires KeyedById(m.users, m.tables)
    ensures KeyedById(React(m, e).users, React(m, e).tables)
  {
    match e
    case UserList(us) =>
      forall id | id in React(m, e).users ensures React(m, e).users[id].userId == id {
        UpsertAllLookup(m.users, us, UserKey, id);
        if exists i :: 0 <= i < |us| && us[i].userId == id {
          var i := LastWithKey(us, UserKey, id);
        }
      }
    case TableList(ts) =>
      forall id | id in React(m, e).tables ensures React(m, e).tables[id].id == id {
        UpsertAllLookup(m.tables, ts, TableKey, id);
        if exists i :: 0 <= i < |ts| && ts[i].id == id {
          var i := LastWithKey(ts, TableKey, id);
        }
      }
    case _ =>
  }

  /**
    A reaction never takes back a command and sends nothing but table joins;
    only user and table updates send anything, and the follow intent is
    never cleared by any event.
    */
  lemma {:induction false} ReactOnlyAppendsJoins(m: Lobby, e: Event)
    ensures |m.outbox| <= |React(m, e).outbox| && React(m, e).outbox[..|m.outbox|] == m.outbox
    ensures forall i :: |m.outbox| <= i < |React(m, e).outbox| ==> React(m, e).outbox[i].TableJoin?
    ensures React(m, e).followUser == m.followUser
    ensures !(e.UserEvent? || e.UserList? || e.TableEvent? || e.TableList?) ==> React(m, e).outbox == m.outbox
  {
    var sent := React(m, e).outbox[|m.outbox|..];
    assert React(m, e).outbox == m.outbox + sent;
    match e
    case UserList(us) =>
      FollowJoinsOnlyFollowed(m.followUser, us);
      assert sent == FollowJoins(m.followUser, us);
      assert forall i :: 0 <= i < |sent| ==> sent[i] in FollowJoins(m.followUser, us);
    case TableList(ts) =>
      JoinOnlyOnce(m.joinTable, ts);
    case _ =>
  }

  /** The last position of `vs` holding a value with key `k`. */
  lemma LastWithKey<K, V>(vs: seq<V>, key: V -> K, k: K) returns (i: nat)
    requires exists i :: 0 <= i < |vs| && key(vs[i]) == k
    ensures i < |vs| && key(vs[i]) == k && forall j :: i < j < |vs| ==> key(vs[j]) != k
  {
    i := |vs| - 1;
    while key(vs[i]) != k
      invariant 0 <= i < |vs|
      invariant forall j :: i < j < |vs| ==> key(vs[j]) != k
      invariant exists j :: 0 <= j <= i && key(vs[j]) == k
      decreases i
    {
      i := i - 1;
    }
  }

  /** An arbitrary element of `s`: the order a HashMap yields its entries in is unspecified. */
  method PickAny<T>(s: set<T>) returns (x: T)
    requires s != {}
    ensures x in s
  {
    x :| x in s;
  }

  /** How the handler chain of `on_text` classifies a frame. */
  datatype Parsed =
    | Handled(event: Event)                      // a handler's name matched and its payload decoded
    | Unhandled(name: string)                    // no handler has this name: the payload is not read
    | Malformed(cause: DeserializeCommandError)  // no space, or the payload did not decode

  /** The event types `on_text` has a handler for. */
  predicate HasHandler(k: Registry.Kind) {
    k in {Registry.Warning, Registry.Error, Registry.Welcome, Registry.Name,
          Registry.User, Registry.UserList, Registry.UserLeft,
          Registry.Table, Registry.TableList, Registry.TableGone,
          Registry.Chat, Registry.Joined, Registry.Left}
  }

  /**
    Split the frame, pick the handler whose event name matches, and decode the
    payload only for it; a name without a handler falls through to
    `unhandled`.
    */
  function ParseFrame(text: string, json: JsonParser): (r: Parsed)
    ensures r == Malformed(NoSpace) <==> ' ' !in text
    ensures r.Malformed? ==> r.cause.NoSpace? || r.cause.DeserializeDataError?
    ensures r.Handled? ==>
      (' ' in text && HasHandler(KindOf(r.event)) && SplitOnce(text).value.0 == Registry.WireName(KindOf(r.event)))
    ensures r.Handled? ==> UsersDecoded(r.event)
    ensures r.Unhandled? ==>
      (' ' in text && r.name == SplitOnce(text).value.0 && forall k :: HasHandler(k) ==> Registry.WireName(k) != r.name)
  {
    match SplitOnce(text)
    case None => Malformed(NoSpace)
    case Some((name, data)) =>
      match Registry.FromName(name)
      case None => Unhandled(name)
      case Some(k) =>
        if !HasHandler(k) then Unhandled(name)
        else
          match ReadVariant(k, VariantAccess(data), json)
          case Success(e) => Handled(e)
          case Failure(cause) => Malformed(cause)
  }

  /** Users the wire can express never send a join to table 0. */
  lemma FollowJoinsNotTableZero(followUser: Option<string>, us: seq<User>)
    requires forall u :: u in us ==> DecodedUser(u)
    ensures TableJoin(0) !in FollowJoins(followUser, us)
  {
    FollowJoinsOnlyFollowed(followUser, us);
    assert forall i :: 0 <= i < |us| ==> us[i] in us;
  }

  /**
    A user the server reports at no table (wire `tableID` 0) is stored but
    sends no join, even when followed; and no user list read from a frame
    sends a join to table 0.
    */
  lemma DecodedSeatZeroSendsNothing(m: Lobby, text: string, json: JsonParser)
    requires ParseFrame(text, json).Handled?
    ensures var e := ParseFrame(text, json).event;
      e.UserEvent? && WireTableId(e.user.tableId) == 0 ==>
        React(m, e) == m.(users := m.users[e.user.userId := e.user])
    ensures var e := ParseFrame(text, json).event;
      e.UserList? ==> TableJoin(0) !in React(m, e).outbox[|m.outbox|..]
  {
    var e := ParseFrame(text, json).event;
    match e
    case UserEvent(u) =>
      if WireTableId(u.tableId) == 0 {
        assert u.tableId == None;
        assert m.outbox + FollowJoin(m.followUser, u) == m.outbox;
      }
    case UserList(us) =>
      FollowJoinsNotTableZero(m.followUser, us);
      assert React(m, e).outbox[|m.outbox|..] == FollowJoins(m.followUser, us);
    case _ =>
  }

  /** Where a handler matches, the chain decodes exactly as `deserialize_command_from_str` does. */
  lemma ParseFrameAgrees(text: string, json: JsonParser)
    ensures ParseFrame(text, json).Handled? ==> DeserializeEvent(text, json) == Success(ParseFrame(text, json).event)
    ensures ParseFrame(text, json).Malformed? ==> DeserializeEvent(text, json) == Failure(ParseFrame(text, json).cause)
  {
  }

  /**
    A frame naming an event type is dispatched by that name alone: to its
    handler, which decodes the payload, or, with no handler, to `unhandled`
    without the payload being read.
    */
  lemma ParseKnownFrame(k: Registry.Kind, data: string, json: JsonParser)
    ensures ParseFrame(Registry.WireName(k) + " " + data, json) ==
      if !HasHandler(k) then Unhandled(Registry.WireName(k))
      else match ReadVariant(k, VariantAccess(data), json)
        case Success(e) => Handled(e)
        case Failure(cause) => Malformed(cause)
  {
    WireNamesHaveNoSpace(k);
    Registry.FromWireName(k);
    SplitOnceUnique(Registry.WireName(k), data);
  }

  /** A handled payload-less event (`left`) is dispatched whatever text follows its name. */
  lemma ParseHandledUnitFrame(k: Registry.Kind, data: string, json: JsonParser)
    requires HasHandler(k) && Registry.ShapeOf(k) == Registry.Unit
    ensures ParseFrame(Registry.WireName(k) + " " + data, json) == Handled(UnitEvent(k))
  {
    ParseKnownFrame(k, data, json);
  }

  /** A frame whose name is no event type is skipped, whatever its payload. */
  lemma ParseUnknownFrame(name: string, data: string, json: JsonParser)
    requires ' ' !in name && Registry.FromName(name).None?
    ensures ParseFrame(name + " " + data, json) == Unhandled(name)
  {
    SplitOnceUnique(name, data);
  }

  /** The session state of one bot (`State`); the websocket handle is left out. */
  class State {
    /** The bot's own account name, consulted only when routing chat. */
    const username: string
    var users: map<UserID, User>
    var tables: map<TableID, Table>
    var currentTable: Option<TableID>
    /** Persistent intent: the user whose table the bot keeps joining. */
    var followUser: Option<string>
    /** One-shot intent: the table name the bot joins once it is seen. */
    var joinTable: Option<string>
    /** Every command handed to `send_command`, oldest first. */
    var outbox: seq<ClientCommand>

    ghost predicate Valid()
      reads this
    {
      KeyedById(users, tables)
    }

    function View(): Lobby
      reads this
    {
      Lobby(users, tables, currentTable, followUser, joinTable, outbox)
    }

    /** `State::new`: an empty lobby, no intents, nothing sent. */
    constructor (username: string)
      ensures Valid() && this.username == username
      ensures View() == Lobby(map[], map[], None, None, None, [])
    {
      this.username := username;
      users := map[];
      tables := map[];
      currentTable := None;
      followUser := None;
      joinTable := None;
      outbox := [];
    }

    /** `Bot::send_command`. */
    method SendCommand(c: ClientCommand)
      modifies this
      ensures View() == old(View()).(outbox := old(outbox) + [c])
    {
      outbox := outbox + [c];
    }

    /**
      Upsert a user after checking it against the follow intent: `users[u.userId]`
      becomes `u`, every other entry stays, and the follow intent is kept.
      */
    method InsertUser(u: User)
      requires Valid()
      modifies this
      ensures Valid()
      ensures View() == old(View()).(users := old(users)[u.userId := u],
                                     outbox := old(outbox) + FollowJoin(old(followUser), u))
    {
      var _ := CheckFollowUser(u);
      users := users[u.userId := u];
    }

    /** Forget a user; an absent id is only logged by the source, never an error. */
    method RemoveUser(id: UserID)
      requires Valid()
      modifies this
      ensures Valid()
      ensures View() == old(View()).(users := old(users) - {id})
    {
      users := users - {id};
    }

    /** Upsert a table after checking it against the join-by-name intent. */
    method InsertTable(t: Table)
      requires Valid()
      modifies this
      ensures Valid()
      ensures var step := JoinCheck(old(joinTable), t);
        View() == old(View()).(tables := old(tables)[t.id := t],
                               joinTable := step.joinTable,
                               outbox := old(outbox) + step.sent)
    {
      var _ := CheckJoinTable(t);
      tables := tables[t.id := t];
    }

    /** Forget a table; an absent id is silently ignored. */
    method RemoveTable(id: TableID)
      requires Valid()
      modifies this
      ensures Valid()
      ensures View() == old(View()).(tables := old(tables) - {id})
    {
      tables := tables - {id};
    }

    method SetCurrentTable(current: Option<TableID>)
      modifies this
      ensures View() == old(View()).(currentTable := current)
    {
      currentTable := current;
    }

    /**
      `check_join_table`: if the pending name is this table's, join it and
      drop the intent, reporting that the scan may stop.
      */
    method CheckJoinTable(t: Table) returns (stop: bool)
      modifies this
      ensures stop <==> old(joinTable) == Some(t.name)
      ensures stop ==> View() == old(View()).(joinTable := None, outbox := old(outbox) + [TableJoin(t.id)])
      ensures !stop ==> View() == old(View())
    {
      stop := joinTable == Some(t.name);
      if stop {
        SendCommand(TableJoin(t.id));
        joinTable := None;
      }
    }

    /**
      `join_table`: replace the pending name, then scan the known tables in
      unspecified order, stopping at the first one with that name.
      */
    method JoinTable(tableName: string)
      requires Valid()
      modifies this
      ensures Valid()
      ensures users == old(users) && tables == old(tables)
      ensures currentTable == old(currentTable) && followUser == old(followUser)
      ensures (exists id :: id in tables && tables[id].name == tableName) ==>
        && joinTable == None
        && exists id :: id in tables && tables[id].name == tableName && outbox == old(outbox) + [TableJoin(id)]
      ensures (forall id :: id in tables ==> tables[id].name != tableName) ==>
        joinTable == Some(tableName) && outbox == old(outbox)
    {
      joinTable := Some(tableName);
      var unvisited := tables.Keys;
      while unvisited != {}
        invariant unvisited <= tables.Keys
        invariant users == old(users) && tables == old(tables)
        invariant currentTable == old(currentTable) && followUser == old(followUser)
        invariant joinTable == Some(tableName) && outbox == old(outbox)
        invariant forall id :: id in tables && id !in unvisited ==> tables[id].name != tableName
        decreases unvisited
      {
        var id := PickAny(unvisited);
        var stop := CheckJoinTable(tables[id]);
        if stop {
          return;
        }
        unvisited := unvisited - {id};
      }
    }

    /**
      `check_follow_user`: if this user is the followed one and is seated,
      join their table and report that the scan may stop. The intent is
      never cleared.
      */
    method CheckFollowUser(u: User) returns (stop: bool)
      modifies this
      ensures stop <==> old(followUser) == Some(u.name) && u.tableId.Some?
      ensures stop ==> View() == old(View()).(outbox := old(outbox) + [TableJoin(u.tableId.value)])
      ensures !stop ==> View() == old(View())
    {
      stop := false;
      if followUser == Some(u.name) {
        match u.tableId
        case Some(tableId) =>
          SendCommand(TableJoin(tableId));
          stop := true;
        case None =>
      }
    }

    /**
      `follow_user`: set the persistent intent, then scan the known users in
      unspecified order, stopping at the first seated user with that name.
      */
    method FollowUser(name: string)
      requires Valid()
      modifies this
      ensures Valid()
      ensures users == old(users) && tables == old(tables)
      ensures currentTable == old(currentTable) && joinTable == old(joinTable)
      ensures followUser == Some(name)
      ensures (exists id :: id in users && users[id].name == name && users[id].tableId.Some?) ==>
        exists id :: id in users && users[id].name == name && users[id].tableId.Some?
          && outbox == old(outbox) + [TableJoin(users[id].tableId.value)]
      ensures (forall id :: id in users ==> users[id].name != name || users[id].tableId.None?) ==>
        outbox == old(outbox)
    {
      followUser := Some(name);
      var unvisited := users.Keys;
      while unvisited != {}
        invariant unvisited <= users.Keys
        invariant users == old(users) && tables == old(tables)
        invariant currentTable == old(currentTable) && joinTable == old(joinTable)
        invariant followUser == Some(name) && outbox == old(outbox)
        invariant forall id :: id in users && id !in unvisited ==> users[id].name != name || users[id].tableId.None?
        decreases unvisited
      {
        var id := PickAny(unvisited);
        var stop := CheckFollowUser(users[id]);
        if stop {
          return;
        }
        unvisited := unvisited - {id};
      }
    }

    /** `start`: start the table the bot sits at; with none it does nothing. */
    method Start()
      modifies this
      ensures currentTable.Some? ==>
        View() == old(View()).(outbox := old(outbox) + [ClientCommand.TableStart(currentTable.value)])
      ensures currentTable.None? ==> View() == old(View())
    {
      match currentTable
      case Some(current) => SendCommand(ClientCommand.TableStart(current));
      case None =>
    }

    /** `call`: run a request delivered from outside, with the effect of the operation it names. */
    method Call(call: Call)
      requires Valid()
      modifies this
      ensures Valid()
      ensures users == old(users) && tables == old(tables) && currentTable == old(currentTable)
      ensures call.JoinTable? ==>
        && followUser == old(followUser)
        && if exists id :: id in tables && tables[id].name == call.tableName then
             && joinTable == None
             && exists id :: id in tables && tables[id].name == call.tableName && outbox == old(outbox) + [TableJoin(id)]
           else
             joinTable == Some(call.tableName) && outbox == old(outbox)
      ensures call.FollowUser? ==>
        && joinTable == old(joinTable) && followUser == Some(call.name)
        && if exists id :: id in users && users[id].name == call.name && users[id].tableId.Some? then
             exists id :: id in users && users[id].name == call.name && users[id].tableId.Some?
               && outbox == old(outbox) + [TableJoin(users[id].tableId.value)]
           else
             outbox == old(outbox)
      ensures call.Start? ==>
        && joinTable == old(joinTable) && followUser == old(followUser)
        && outbox == old(outbox) + (if currentTable.Some? then [ClientCommand.TableStart(currentTable.value)] else [])
    {
      match call
      case JoinTable(tableName) => JoinTable(tableName);
      case FollowUser(name) => FollowUser(name);
      case Start => Start();
    }

    /** The `UserList` handler: insert each listed user in list order. */
    method InsertUserList(us: seq<User>)
      requires Valid()
      modifies this
      ensures Valid()
      ensures View() == old(View()).(users := UpsertAll(old(users), us, UserKey),
                                     outbox := old(outbox) + FollowJoins(old(followUser), us))
    {
      for i := 0 to |us|
        invariant Valid()
        invariant View() == old(View()).(users := UpsertAll(old(users), us[..i], UserKey),
                                         outbox := old(outbox) + FollowJoins(old(followUser), us[..i]))
      {
        InsertUser(us[i]);
        assert us[..i + 1][..i] == us[..i];
      }
      assert us[..|us|] == us;
    }

    /** The `TableList` handler: insert each listed table in list order. */
    method InsertTableList(ts: seq<Table>)
      requires Valid()
      modifies this
      ensures Valid()
      ensures var step := JoinScan(old(joinTable), ts);
        View() == old(View()).(tables := UpsertAll(old(tables), ts, TableKey),
                               joinTable := step.joinTable,
                               outbox := old(outbox) + step.sent)
    {
      for i := 0 to |ts|
        invariant Valid()
        invariant var step := JoinScan(old(joinTable), ts[..i]);
          View() == old(View()).(tables := UpsertAll(old(tables), ts[..i], TableKey),
                                 joinTable := step.joinTable,
                                 outbox := old(outbox) + step.sent)
      {
        InsertTable(ts[i]);
        assert ts[..i + 1][..i] == ts[..i];
      }
      assert ts[..|ts|] == ts;
    }

    /** The handler `on_text` runs for a decoded event, as far as it changes the state. */
    method Handle(e: Event)
      requires Valid()
      modifies this
      ensures Valid()
      ensures View() == React(old(View()), e)
    {
      match e
      case UserEvent(u) => InsertUser(u);
      case UserList(us) => InsertUserList(us);
      case UserLeft(id) => RemoveUser(id);
      case TableEvent(t) => InsertTable(t);
      case TableList(ts) => InsertTableList(ts);
      case TableGone(id) => RemoveTable(id);
      case Joined(id) => SetCurrentTable(Some(id));
      case Left => SetCurrentTable(None);
      case _ =>
    }

    /**
      `on_text`: decode one frame and react to it. A frame that cannot be
      read and the server's `error` end the session with an error; every
      other frame returns Ok, changing the lobby as `React` says.
      */
    method OnText(text: string, json: JsonParser) returns (r: Result<(), SessionError>)
      requires Valid()
      modifies this
      ensures Valid()
      ensures match ParseFrame(text, json)
        case Malformed(cause) => r == Failure(FrameError(cause)) && View() == old(View())
        case Unhandled(_) => r == Success(()) && View() == old(View())
        case Handled(e) => r == Outcome(e) && View() == React(old(View()), e)
    {
      match ParseFrame(text, json)
      case Malformed(cause) =>
        r := Failure(FrameError(cause));
      case Unhandled(_) =>
        r := Success(());
      case Handled(e) =>
        r := Outcome(e);
        Handle(e);
    }
  }
}
