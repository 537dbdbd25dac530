/**
  The registry of server events of src/command/server.rs: every event type,
  its wire name (the `NAME` constant of its `Command` impl), the shape its
  payload takes on the wire, and the JSON field names serde derives for it.
  */
module Registry {
  import opened Wrappers

  /** The VariantAccess entry point a payload is read through. */
  datatype Shape =
    | Unit     // no fields: the payload text is ignored
    | Newtype  // a single unnamed field, here always a sequence
    | Struct   // named fields, read as a JSON object

  /** One constructor per event struct of server.rs, named as there. */
  datatype Kind =
    | Warning | Error | Welcome | Name
    | Table | TableList | TableStart | TableProgress | TableGone
    | User | UserList | UserLeft
    | GameHistory
    | Chat | ChatList | ChatTyping
    | Joined | Left
    | Init | GameAction | GameActionList | DatabaseID | Connected | Clock | NoteListPlayer

  /** The `NAME` constant of each event type: a non-empty lowerCamelCase word of ASCII letters. */
  function WireName(k: Kind): (r: string)
    ensures r != [] && 'a' <= r[0] <= 'z'
    ensures forall i :: 0 <= i < |r| ==> 'a' <= r[i] <= 'z' || 'A' <= r[i] <= 'Z'
  {
    match k
    case Warning => "warning"
    case Error => "error"
    case Welcome => "welcome"
    case Name => "name"
    case Table => "table"
    case TableList => "tableList"
    case TableStart => "tableStart"
    case TableProgress => "tableProgress"
    case TableGone => "tableGone"
    case User => "user"
    case UserList => "userList"
    case UserLeft => "userLeft"
    case GameHistory => "gameHistory"
    case Chat => "chat"
    case ChatList => "chatList"
    case ChatTyping => "chatTyping"
    case Joined => "joined"
    case Left => "left"
    case Init => "init"
    case GameAction => "gameAction"
    case GameActionList => "gameActionList"
    case DatabaseID => "databaseID"
    case Connected => "connected"
    case Clock => "clock"
    case NoteListPlayer => "noteListPlayer"
  }

  /** The event type a command name selects, if any. */
  function FromName(name: string): (r: Option<Kind>)
    ensures r.Some? ==> WireName(r.value) == name
    ensures r.None? ==> forall k :: WireName(k) != name
  {
    match name
    case "warning" => Some(Warning)
    case "error" => Some(Error)
    case "welcome" => Some(Welcome)
    case "name" => Some(Name)
    case "table" => Some(Table)
    case "tableList" => Some(TableList)
    case "tableStart" => Some(TableStart)
    case "tableProgress" => Some(TableProgress)
    case "tableGone" => Some(TableGone)
    case "user" => Some(User)
    case "userList" => Some(UserList)
    case "userLeft" => Some(UserLeft)
    case "gameHistory" => Some(GameHistory)
    case "chat" => Some(Chat)
    case "chatList" => Some(ChatList)
    case "chatTyping" => Some(ChatTyping)
    case "joined" => Some(Joined)
    case "left" => Some(Left)
    case "init" => Some(Init)
    case "gameAction" => Some(GameAction)
    case "gameActionList" => Some(GameActionList)
    case "databaseID" => Some(DatabaseID)
    case "connected" => Some(Connected)
    case "clock" => Some(Clock)
    case "noteListPlayer" => Some(NoteListPlayer)
    case _ => None
  }

  /** Looking up an event type's own name finds that event type. */
  lemma FromWireName(k: Kind)
    ensures FromName(WireName(k)) == Some(k)
  {
    match k
    case Warning =>
    case Error =>
    case Welcome =>
    case Name =>
    case Table =>
    case TableList =>
    case TableStart =>
    case TableProgress =>
    case TableGone =>
    case User =>
    case UserList =>
    case UserLeft =>
    case GameHistory =>
    case Chat =>
    case ChatList =>
    case ChatTyping =>
    case Joined =>
    case Left =>
    case Init =>
    case GameAction =>
    case GameActionList =>
    case DatabaseID =>
    case Connected =>
    case Clock =>
    case NoteListPlayer =>
  }

  /** The `NAME` constants are pairwise distinct: a command name selects at most one event type. */
  lemma NameInjective(a: Kind, b: Kind)
    ensures WireName(a) == WireName(b) <==> a == b
  {
    FromWireName(a);
    FromWireName(b);
  }

  /**
    How the payload of event type `k` is read: a tuple struct over a sequence
    as a newtype, a struct without fields as a unit, any other struct by its
    named fields; the shape is `Struct` exactly when the type has named fields.
    */
  function ShapeOf(k: Kind): (r: Shape)
    ensures r == Struct <==> Fields(k) != []
  {
    match k
    case TableList | UserList => Newtype
    case GameHistory | ChatTyping | Left | Init | GameAction | GameActionList
       | DatabaseID | Connected | Clock | NoteListPlayer => Unit
    case _ => Struct
  }

  /**
    A payload field: its Rust name and the JSON key serde reads it from,
    after `rename_all = "camelCase"` and any explicit `rename`.
    */
  datatype Field = Field(rust: string, wire: string)

  /**
    The named fields of each struct event, in declaration order: no two share
    a Rust name, and no two are read from the same JSON key.
    */
  function Fields(k: Kind): (r: seq<Field>)
    ensures forall i, j :: 0 <= i < j < |r| ==> r[i].rust != r[j].rust && r[i].wire != r[j].wire
  {
    match k
    case Warning => [Field("warning", "warning")]
    case Error => [Field("error", "error")]
    case Welcome => [Field("user_id", "userID"), Field("random_table_name", "randomTableName")]
    case Name => [Field("name", "name")]
    case Table => [Field("id", "id"), Field("name", "name")]
    case TableStart | TableProgress | TableGone | Joined => [Field("table_id", "tableID")]
    case User =>
      [Field("user_id", "userID"), Field("name", "name"),
       Field("status", "status"), Field("table_id", "tableID")]
    case UserLeft => [Field("user_id", "userID")]
    case Chat => [Field("recipient", "recipient"), Field("who", "who"), Field("msg", "msg")]
    case ChatList => [Field("list", "list")]
    case _ => []
  }

  /**
    The JSON keys of the payload object of event type `k`: no two fields of
    an event read the same key, and only struct events have any.
    */
  function FieldNames(k: Kind): (names: seq<string>)
    ensures forall i, j :: 0 <= i < j < |names| ==> names[i] != names[j]
    ensures names == [] <==> ShapeOf(k) != Struct
  {
    seq(|Fields(k)|, i requires 0 <= i < |Fields(k)| => Fields(k)[i].wire)
  }

  /** Exactly the struct-shaped events have named fields; unit and newtype events have none. */
  lemma StructsHaveFields(k: Kind)
    ensures ShapeOf(k) == Struct <==> Fields(k) != []
  {
  }

  /** The events whose payload is ignored. */
  lemma UnitEvents(k: Kind)
    ensures ShapeOf(k) == Unit <==>
      k in {GameHistory, ChatTyping, Left, Init, GameAction, GameActionList,
            DatabaseID, Connected, Clock, NoteListPlayer}
  {
  }

  /** `TableList` and `UserList` are the two single-field wrappers around a sequence. */
  lemma NewtypeEvents(k: Kind)
    ensures ShapeOf(k) == Newtype <==> k == TableList || k == UserList
  {
  }

  /**
    Identifier fields travel as `userID` / `tableID`, never under the
    camelCase default `userId` / `tableId`.
    */
  lemma IdentifierWireNames(k: Kind)
    ensures forall f :: f in Fields(k) && f.rust == "user_id" ==> f.wire == "userID"
    ensures forall f :: f in Fields(k) && f.rust == "table_id" ==> f.wire == "tableID"
    ensures "userId" !in FieldNames(k) && "tableId" !in FieldNames(k)
  {
    match k
    case Welcome =>
      assert FieldNames(k) == ["userID", "randomTableName"];
    case User =>
      assert FieldNames(k) == ["userID", "name", "status", "tableID"];
    case UserLeft =>
      assert FieldNames(k) == ["userID"];
    case TableStart | TableProgress | TableGone | Joined =>
      assert FieldNames(k) == ["tableID"];
    case _ =>
  }

  /** `Warning` and `Error` each carry one string field, named after the event. */
  lemma SingleMessageFields()
    ensures FieldNames(Warning) == ["warning"] && FieldNames(Error) == ["error"]
  {
  }
}
