/**
  The payloads of the server events of src/command/server.rs, as decoded
  values. Identifiers (`UserID`, `TableID` of src/command/mod.rs, newtypes
  over `i32`) are plain integers here.
  */
module Server {
  import opened Wrappers
  import Registry

  type UserID = int
  type TableID = int

  datatype Table = Table(id: TableID, name: string)

  /** A lobby user; `tableId` is `None` while the user sits at no table. */
  datatype User = User(userId: UserID, name: string, status: int, tableId: Option<TableID>)

  datatype Chat = Chat(recipient: Option<string>, who: string, msg: string)

  /** A decoded server event: one constructor per event struct of server.rs. */
  datatype Event =
    | Warning(warning: string)
    | Error(error: string)
    | Welcome(userId: UserID, randomTableName: string)
    | Name(name: string)
    | TableEvent(table: Table)
    | TableList(tables: seq<Table>)
    | TableStart(tableId: TableID)
    | TableProgress(tableId: TableID)
    | TableGone(tableId: TableID)
    | UserEvent(user: User)
    | UserList(users: seq<User>)
    | UserLeft(userId: UserID)
    | GameHistory
    | ChatEvent(chat: Chat)
    | ChatList(list: seq<Chat>)
    | ChatTyping
    | Joined(tableId: TableID)
    | Left
    | Init
    | GameAction
    | GameActionList
    | DatabaseID
    | Connected
    | Clock
    | NoteListPlayer

  /** The event type (and so the wire name) of a decoded event. */
  function KindOf(e: Event): Registry.Kind {
    match e
    case Warning(_) => Registry.Warning
    case Error(_) => Registry.Error
    case Welcome(_, _) => Registry.Welcome
    case Name(_) => Registry.Name
    case TableEvent(_) => Registry.Table
    case TableList(_) => Registry.TableList
    case TableStart(_) => Registry.TableStart
    case TableProgress(_) => Registry.TableProgress
    case TableGone(_) => Registry.TableGone
    case UserEvent(_) => Registry.User
    case UserList(_) => Registry.UserList
    case UserLeft(_) => Registry.UserLeft
    case GameHistory => Registry.GameHistory
    case ChatEvent(_) => Registry.Chat
    case ChatList(_) => Registry.ChatList
    case ChatTyping => Registry.ChatTyping
    case Joined(_) => Registry.Joined
    case Left => Registry.Left
    case Init => Registry.Init
    case GameAction => Registry.GameAction
    case GameActionList => Registry.GameActionList
    case DatabaseID => Registry.DatabaseID
    case Connected => Registry.Connected
    case Clock => Registry.Clock
    case NoteListPlayer => Registry.NoteListPlayer
  }

  /** The value of a payload-less event type, built without reading any payload. */
  function UnitEvent(k: Registry.Kind): (e: Event)
    requires Registry.ShapeOf(k) == Registry.Unit
    ensures KindOf(e) == k
  {
    match k
    case GameHistory => GameHistory
    case ChatTyping => ChatTyping
    case Left => Left
    case Init => Init
    case GameAction => GameAction
    case GameActionList => GameActionList
    case DatabaseID => DatabaseID
    case Connected => Connected
    case Clock => Clock
    case NoteListPlayer => NoteListPlayer
  }

  /** A unit event is the only value of its event type. */
  lemma UnitEventUnique(e: Event)
    requires Registry.ShapeOf(KindOf(e)) == Registry.Unit
    ensures UnitEvent(KindOf(e)) == e
  {
  }

  /** The `tableID` a user record carries on the wire, where 0 stands for "at no table". */
  function SeatedAt(wireTableId: int): (t: Option<TableID>)
    ensures t == None <==> wireTableId == 0
    ensures t.Some? ==> t.value == wireTableId
  {
    if wireTableId == 0 then None else Some(wireTableId)
  }

  function WireTableId(t: Option<TableID>): int {
    match t
    case None => 0
    case Some(id) => id
  }

  /** Reading the wire value back gives the seat it encodes, for every seat but table 0. */
  lemma SeatRoundTrip(t: Option<TableID>, wireTableId: int)
    ensures t != Some(0) ==> SeatedAt(WireTableId(t)) == t
    ensures WireTableId(SeatedAt(wireTableId)) == wireTableId
  {
  }

  /**
    A user as the wire can express one: the wire value 0 stands for "at no
    table", so a decoded user is never seated at table 0.
    */
  predicate DecodedUser(u: User) {
    u.tableId != Some(0)
  }

  /** Exactly the users the wire can express are those rebuilt from their own wire fields. */
  lemma DecodedUserFromWire(u: User)
    ensures DecodedUser(u) <==> u == UserFromWire(u.userId, u.name, u.status, WireTableId(u.tableId))
  {
    SeatRoundTrip(u.tableId, WireTableId(u.tableId));
  }

  /** Every user an event carries is one the wire can express. */
  predicate UsersDecoded(e: Event) {
    match e
    case UserEvent(u) => DecodedUser(u)
    case UserList(us) => forall u :: u in us ==> DecodedUser(u)
    case _ => true
  }

  /** A user record as decoded from its four wire fields. */
  function UserFromWire(userId: UserID, name: string, status: int, wireTableId: int): (u: User)
    ensures u.userId == userId && u.name == name && u.status == status
    ensures u.tableId.None? <==> wireTableId == 0
    ensures WireTableId(u.tableId) == wireTableId
  {
    User(userId, name, status, SeatedAt(wireTableId))
  }
}
