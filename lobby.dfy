/**
 * The decision logic of the player lobby (server/player_server.py): the
 * session table filled by login and emptied by logout, the game-server port
 * counter, the table of running rooms, room-id prefix resolution, the seat
 * rule for joining a room, and the session and owner guards.
 *
 * Every request to the database service is replaced by its reply, passed
 * in as a parameter (None where the reply's status is not "success"); a
 * request the lobby sends and whose reply it reads is a function parameter.
 * The password hash and the generated session id are parameters too. The
 * spawned game-server processes, and everything after the seat update of a
 * join, are not modelled. `Aborted` is an exception escaping the handler,
 * which ends the client's connection.
 */
module Lobby {
  import opened Wrappers
  import opened Values
  import opened Seqs

  /** The lobby's error replies, one per message. */
  datatype LobbyError =
    | CredentialsRequired   // "Username and password are required."
    | InvalidCredentials    // "Invalid username or password."
    | AlreadyOnline         // "User already online."
    | NotLoggedIn           // "Invalid session or not logged in."
    | InvalidSession        // "Invalid session."
    | ExpiredSession        // "Invalid or expired session ID."
    | GameIdRequired        // "gameId is required to create a room."
    | GameAssetNotFound     // "Selected game asset not found."
    | RoomCreateFailed      // "Failed to create room in DB: ..."
    | InternalError         // "Server internal error: ..."
    | RoomNotFound          // "Room not found."
    | AmbiguousId           // "Ambiguous ID."
    | DbDead                // "DB dead."
    | NotOwner              // "Only the room owner can delete the room."
    | RoomFull              // "Room is full."
    | RoleTaken(role: Value) // "Role '...' is already taken."
    | DbQueryFailed         // "DB query failed: ..."

  datatype Reply = Ok(data: Value) | Err(error: LobbyError) | Aborted

  /** `[key for key in keys if key.startswith(prefix)]`. */
  function Matching(keys: seq<string>, prefix: string): (r: seq<string>)
    ensures forall k :: k in r <==> k in keys && prefix <= k
    ensures NoDup(keys) ==> NoDup(r)
  {
    if keys == [] then []
    else
      var rest := Matching(keys[1..], prefix);
      if prefix <= keys[0] then
        assert NoDup(keys) ==> keys[0] !in keys[1..];
        [keys[0]] + rest
      else rest
  }

  /** What a room id given by a client resolves to among the running rooms. */
  datatype RoomLookup = NoRoom | ManyRooms | TheRoom(key: string) | BadId

  /**
   * The prefix resolution of `handle_delete_room` and `handle_join_room`:
   * no room whose id starts with the given id, two or more, or exactly one.
   * An id that is not a string raises as soon as there is a room to test.
   */
  function ResolveRoom(rooms: seq<string>, id: Value): (r: RoomLookup)
    requires NoDup(rooms)
    ensures r == BadId <==> rooms != [] && !id.Str?
    ensures id.Str? ==> (r == NoRoom <==> forall k :: k in rooms ==> !(id.s <= k))
    ensures id.Str? ==> (r == ManyRooms <==>
      exists k1, k2 :: k1 in rooms && k2 in rooms && k1 != k2 && id.s <= k1 && id.s <= k2)
    ensures r.TheRoom? ==> r.key in rooms && id.s <= r.key && forall k :: k in rooms && id.s <= k ==> k == r.key
  {
    if rooms == [] then NoRoom
    else if !id.Str? then BadId
    else
      var m := Matching(rooms, id.s);
      if m == [] then NoRoom
      else if |m| >= 2 then
        assert m[0] in m && m[1] in m;
        ManyRooms
      else
        assert m[0] in m;
        assert forall k :: k in m ==> k == m[0];
        TheRoom(m[0])
  }

  /** A seat in a room: a player's name and role. */
  datatype Seat = Seat(name: Value, role: Value)

  /** The seats of a room document: its "players" and "spectators" lists. */
  datatype Seats = Seats(players: seq<Seat>, spectators: seq<Value>)

  predicate IsPlayerRole(role: Value) {
    role == Str("p1") || role == Str("p2")
  }

  /** What the seat rule keeps: at most two players, in distinct player roles. */
  predicate SeatsOk(room: Seats) {
    && |room.players| <= 2
    && (forall i :: 0 <= i < |room.players| ==> IsPlayerRole(room.players[i].role))
    && (forall i, j :: 0 <= i < j < |room.players| ==> room.players[i].role != room.players[j].role)
  }

  predicate RoleTakenIn(room: Seats, role: Value) {
    exists i :: 0 <= i < |room.players| && room.players[i].role == role
  }

  datatype Joined = Seated(room: Seats) | Refused(error: LobbyError)

  /**
   * The seat rule of `handle_join_room`: a p1 or p2 join is refused when
   * the room already has two players or the role is taken, and otherwise
   * appends exactly one player; any other role appends the name to the
   * spectators.
   */
  function Join(room: Seats, name: Value, role: Value): (r: Joined)
    ensures IsPlayerRole(role) && |room.players| >= 2 ==> r == Refused(RoomFull)
    ensures IsPlayerRole(role) && |room.players| < 2 ==>
      (r == Refused(RoleTaken(role)) <==> RoleTakenIn(room, role))
    ensures r.Refused? ==> IsPlayerRole(role)
    ensures r.Seated? && IsPlayerRole(role) ==> r.room == room.(players := room.players + [Seat(name, role)])
    ensures IsPlayerRole(role) && |room.players| < 2 && !RoleTakenIn(room, role) ==>
      r == Seated(room.(players := room.players + [Seat(name, role)]))
    ensures !IsPlayerRole(role) ==> r == Seated(room.(spectators := room.spectators + [name]))
  {
    if IsPlayerRole(role) then
      if |room.players| >= 2 then Refused(RoomFull)
      else if RoleTakenIn(room, role) then Refused(RoleTaken(role))
      else Seated(room.(players := room.players + [Seat(name, role)]))
    else Seated(room.(spectators := room.spectators + [name]))
  }

  /** Joining never breaks the seat invariant. */
  lemma JoinKeepsSeatsOk(room: Seats, name: Value, role: Value)
    ensures SeatsOk(room) && Join(room, name, role).Seated? ==> SeatsOk(Join(room, name, role).room)
  {
    var r := Join(room, name, role);
    if SeatsOk(room) && r.Seated? && IsPlayerRole(role) {
      var ps := r.room.players;
      forall i, j | 0 <= i < j < |ps|
        ensures ps[i].role != ps[j].role
      {
        if j == |ps| - 1 {
          assert ps[i] == room.players[i];
        }
      }
    }
  }

  /** One logged-in user: `{"userId": ..., "name": ...}`. */
  datatype SessionUser = SessionUser(userId: Value, name: Value)

  datatype Decision = Admit(user: SessionUser) | Refuse(error: LobbyError) | Crash

  /**
   * The checks of `handle_login`, given the reply to the query for players
   * of that name: both fields present, a user found, not already online,
   * and the password's hash equal to the stored one; the first user found
   * is the one checked. A password that is not a string, or a user without
   * an "id" or "name", raises.
   */
  function LoginDecision(username: Value, password: Value, users: Option<seq<Record>>, hash: string -> string): (d: Decision)
    ensures d.Admit? <==>
      && Truthy(username) && Truthy(password) && users.Some? && users.value != []
      && !Truthy(Get(users.value[0], "online")) && password.Str?
      && Get(users.value[0], "passwordHash") == Str(hash(password.s))
      && "id" in users.value[0] && "name" in users.value[0]
    ensures d.Admit? ==> d.user == SessionUser(users.value[0]["id"], users.value[0]["name"])
    ensures !Truthy(username) || !Truthy(password) ==> d == Refuse(CredentialsRequired)
    ensures Truthy(username) && Truthy(password) && (users.None? || users.value == []) ==> d == Refuse(InvalidCredentials)
  {
    if !Truthy(username) || !Truthy(password) then Refuse(CredentialsRequired)
    else if users.None? || users.value == [] then Refuse(InvalidCredentials)
    else
      var user := users.value[0];
      if Truthy(Get(user, "online")) then Refuse(AlreadyOnline)
      else if !password.Str? then Crash
      else if Str(hash(password.s)) != Get(user, "passwordHash") then Refuse(InvalidCredentials)
      else if "id" !in user || "name" !in user then Crash
      else Admit(SessionUser(user["id"], user["name"]))
  }

  /** `handle_list_games`'s sanitised entry for one game document. */
  function GameSummary(game: Record): (r: Value)
    ensures r.Object? && r.fields.Keys == {"gameName", "owner", "gameId", "description"}
    ensures r.fields["gameId"] == Get(game, "id") && r.fields["gameName"] == Get(game, "gameName")
  {
    Object(map["gameName" := Get(game, "gameName"), "owner" := Get(game, "owner"),
               "gameId" := Get(game, "id"), "description" := Get(game, "description")])
  }

  /** The document `handle_create_room` asks the database to create. */
  function RoomDocument(owner: Value, data: Record, port: int): (doc: Record)
    ensures doc.Keys == {"owner", "players", "spectators", "invite", "visibility", "port", "gameId"}
    ensures doc["owner"] == owner && doc["port"] == Int(port)
    ensures doc["players"] == List([]) && doc["spectators"] == List([])
  {
    map["owner" := owner, "players" := List([]), "spectators" := List([]),
        "invite" := Get(data, "invite"),
        "visibility" := if "visibility" in data then data["visibility"] else Str("public"),
        "port" := Int(port), "gameId" := Get(data, "gameId")]
  }

  /** The outcome of a join request up to the seat update sent to the database. */
  datatype JoinStep = JoinUpdate(key: string, room: Seats) | JoinRefused(reply: Reply)

  class LobbyServer {
    /** `ACTIVE_SESSIONS`: session id to logged-in user. */
    var sessions: map<string, SessionUser>
    /** The keys of `GAME_ROOMS`, in insertion order; the processes are not modelled. */
    var rooms: seq<string>
    /** `NEXT_PORT`. */
    var nextPort: int
    /** `GAME_SERVER_PORT_BASE`. */
    const portBase: int
    /** Every port handed out so far, in order. */
    ghost var issued: seq<int>

    /** The ports handed out are the base, the base plus one, and so on; the counter is the next one. */
    ghost predicate Valid()
      reads this
    {
      && NoDup(rooms)
      && nextPort == portBase + |issued|
      && (forall i :: 0 <= i < |issued| ==> issued[i] == portBase + i)
    }

    constructor (portBase: int)
      ensures Valid() && this.portBase == portBase
      ensures sessions == map[] && rooms == [] && nextPort == portBase && issued == []
    {
      this.portBase := portBase;
      sessions := map[];
      rooms := [];
      nextPort := portBase;
      issued := [];
    }

    /** `session_id in ACTIVE_SESSIONS`. */
    predicate LoggedIn(sessionId: Value)
      reads this
      ensures LoggedIn(sessionId) ==> sessionId.Str?
    {
      sessionId.Str? && sessionId.s in sessions
    }

    /**
     * `handle_login`: on success exactly one session is added, mapping the
     * fresh session id to the user's id and name; otherwise the table is
     * unchanged.
     */
    method Login(data: Record, users: Option<seq<Record>>, hash: string -> string, freshSession: string) returns (r: Reply)
      modifies this`sessions
      ensures var d := LoginDecision(Get(data, "username"), Get(data, "password"), users, hash);
        && (d.Admit? ==> (&& sessions == old(sessions)[freshSession := d.user]
                          && r == Ok(Object(map["sessionID" := Str(freshSession), "userId" := d.user.userId, "name" := d.user.name]))))
        && (d.Refuse? ==> sessions == old(sessions) && r == Err(d.error))
        && (d.Crash? ==> sessions == old(sessions) && r == Aborted)
    {
      var d := LoginDecision(Get(data, "username"), Get(data, "password"), users, hash);
      match d
      case Refuse(e) => r := Err(e);
      case Crash => r := Aborted;
      case Admit(user) =>
        sessions := sessions[freshSession := user];
        r := Ok(Object(map["sessionID" := Str(freshSession), "userId" := user.userId, "name" := user.name]));
    }

    /** `handle_logout`: removes exactly the given session, or fails and changes nothing. */
    method Logout(sessionId: Value) returns (r: Reply)
      modifies this`sessions
      ensures old(LoggedIn(sessionId)) ==> sessions == old(sessions) - {sessionId.s} && r.Ok?
      ensures !old(LoggedIn(sessionId)) ==> sessions == old(sessions) && r == Err(ExpiredSession)
    {
      if LoggedIn(sessionId) {
        sessions := sessions - {sessionId.s};
        r := Ok(Object(map["message" := Str("Logged out successfully.")]));
      } else {
        r := Err(ExpiredSession);
      }
    }

    /**
     * `handle_list_games`: only for a logged-in session; the games the
     * database returned, each reduced to its name, owner, id and description.
     */
    function ListGames(data: Record, games: Option<seq<Record>>): (r: Reply)
      reads this
      ensures !LoggedIn(Get(data, "sessionID")) ==> r == Err(NotLoggedIn)
      ensures r.Ok? <==> LoggedIn(Get(data, "sessionID")) && games.Some?
      ensures r.Ok? ==> r.data.List? && |r.data.items| == |games.value|
      ensures r.Ok? ==> forall i :: 0 <= i < |games.value| ==> r.data.items[i] == GameSummary(games.value[i])
    {
      if !LoggedIn(Get(data, "sessionID")) then Err(NotLoggedIn)
      else if games.None? then Err(DbQueryFailed)
      else Ok(List(seq(|games.value|, i requires 0 <= i < |games.value| => GameSummary(games.value[i]))))
    }

    /**
     * `handle_create_room`. `games` is the reply to the query for the game;
     * `dbCreate` answers the room-creation request. Once the game is found,
     * the current port is taken and the counter moves on, even if the
     * database then fails to create the room.
     */
    method CreateRoom(data: Record, games: Option<seq<Record>>, dbCreate: Record -> Option<Record>) returns (r: Reply)
      requires Valid()
      modifies this`nextPort, this`rooms, this`issued
      ensures Valid() && sessions == old(sessions)
      ensures !old(LoggedIn(Get(data, "sessionID"))) ==> r == Err(NotLoggedIn)
      ensures old(LoggedIn(Get(data, "sessionID"))) && !Truthy(Get(data, "gameId")) ==> r == Err(GameIdRequired)
      ensures old(LoggedIn(Get(data, "sessionID"))) && Truthy(Get(data, "gameId")) ==>
        && (games.None? || games.value == [] ==> r == Err(GameAssetNotFound))
        && (games.Some? && games.value != [] && "folderPath" !in games.value[0] ==> r == Err(InternalError))
      ensures var found :=
          && old(LoggedIn(Get(data, "sessionID"))) && Truthy(Get(data, "gameId"))
          && games.Some? && games.value != [] && "folderPath" in games.value[0];
        && (found ==> nextPort == old(nextPort) + 1 && issued == old(issued) + [old(nextPort)])
        && (!found ==> nextPort == old(nextPort) && issued == old(issued) && rooms == old(rooms))
        && (found ==>
              var created := dbCreate(RoomDocument(old(sessions)[Get(data, "sessionID").s].name, data, old(nextPort)));
              && (created.None? ==> r == Err(RoomCreateFailed))
              && (created.Some? && !("id" in created.value && created.value["id"].Str?) ==> r == Err(InternalError))
              && (created.Some? && "id" in created.value && created.value["id"].Str? ==>
                    var key := created.value["id"].s;
                    && r == Ok(Object(map["id" := Str(key), "port" := Int(old(nextPort))]))
                    && rooms == (if key in old(rooms) then old(rooms) else old(rooms) + [key])))
      ensures r.Ok? ==>
        var doc := RoomDocument(old(sessions)[Get(data, "sessionID").s].name, data, old(nextPort));
        && dbCreate(doc).Some? && "id" in dbCreate(doc).value && dbCreate(doc).value["id"].Str?
        && var key := dbCreate(doc).value["id"].s;
        && r.data == Object(map["id" := Str(key), "port" := Int(old(nextPort))])
        && rooms == (if key in old(rooms) then old(rooms) else old(rooms) + [key])
      ensures !r.Ok? ==> rooms == old(rooms)
    {
      var sessionId := Get(data, "sessionID");
      if !LoggedIn(sessionId) {
        return Err(NotLoggedIn);
      }
      if !Truthy(Get(data, "gameId")) {
        return Err(GameIdRequired);
      }
      if games.None? || games.value == [] {
        return Err(GameAssetNotFound);
      }
      if "folderPath" !in games.value[0] {
        return Err(InternalError);
      }
      var port := nextPort;
      nextPort := nextPort + 1;
      issued := issued + [port];
      var created := dbCreate(RoomDocument(sessions[sessionId.s].name, data, port));
      if created.None? {
        return Err(RoomCreateFailed);
      }
      if "id" !in created.value || !created.value["id"].Str? {
        return Err(InternalError);
      }
      var key := created.value["id"].s;
      if key !in rooms {
        rooms := rooms + [key];
      }
      r := Ok(Object(map["id" := Str(key), "port" := Int(port)]));
    }

    /**
     * `handle_delete_room`. `roomDocs` is the reply to the query for the
     * room, `deleted` whether the database deleted it. `admin` is the
     * game monitor's clean-up, which skips the owner check.
     */
    method DeleteRoom(data: Record, admin: bool, roomDocs: Option<seq<Record>>, deleted: bool) returns (r: Reply)
      requires Valid()
      modifies this`rooms
      ensures Valid()
      ensures var lookup := ResolveRoom(old(rooms), Get(data, "id"));
        && (lookup == NoRoom ==> r == Err(RoomNotFound))
        && (lookup == ManyRooms ==> r == Err(AmbiguousId))
        && (lookup == BadId ==> r == Aborted)
        && (r.Ok? ==> (&& lookup.TheRoom? && rooms == Without(old(rooms), lookup.key)
                       && r.data == Object(map["deletedRoom" := Str(lookup.key)])))
      ensures r.Ok? && !admin ==>
        && LoggedIn(Get(data, "sessionID"))
        && roomDocs.Some? && roomDocs.value != [] && "owner" in roomDocs.value[0]
        && sessions[Get(data, "sessionID").s].name == roomDocs.value[0]["owner"]
      ensures var lookup := ResolveRoom(old(rooms), Get(data, "id"));
        var sessionId := Get(data, "sessionID");
        lookup.TheRoom? ==>
          && (roomDocs.None? ==> r == Err(DbDead))
          && (roomDocs.Some? && (roomDocs.value == [] || "owner" !in roomDocs.value[0]) ==> r == Aborted)
          && (roomDocs.Some? && roomDocs.value != [] && "owner" in roomDocs.value[0] ==>
                var allowed := admin || (LoggedIn(sessionId) && sessions[sessionId.s].name == roomDocs.value[0]["owner"]);
                && (!allowed ==> r == Err(NotOwner))
                && (allowed && !deleted ==> r == Err(DbDead))
                && (allowed && deleted ==>
                      r == Ok(Object(map["deletedRoom" := Str(lookup.key)])) && rooms == Without(old(rooms), lookup.key)))
      ensures !r.Ok? ==> rooms == old(rooms)
    {
      var lookup := ResolveRoom(rooms, Get(data, "id"));
      match lookup
      case NoRoom => return Err(RoomNotFound);
      case ManyRooms => return Err(AmbiguousId);
      case BadId => return Aborted;
      case TheRoom(key) =>
        var sessionId := Get(data, "sessionID");
        if roomDocs.None? {
          return Err(DbDead);
        }
        if roomDocs.value == [] || "owner" !in roomDocs.value[0] {
          return Aborted;
        }
        var owner := roomDocs.value[0]["owner"];
        if !admin && (!LoggedIn(sessionId) || sessions[sessionId.s].name != owner) {
          return Err(NotOwner);
        }
        if !deleted {
          return Err(DbDead);
        }
        rooms := Without(rooms, key);
        r := Ok(Object(map["deletedRoom" := Str(key)]));
    }

    /**
     * `handle_join_room` up to the seat update: resolve the room, check the
     * session, read the seats of the first room document the database
     * returned (`roomDocs`, None when the query failed; an empty list raises
     * as the source's indexing does), and apply the seat rule as the
     * session's user.
     */
    function JoinRoom(data: Record, roomDocs: Option<seq<Seats>>): (step: JoinStep)
      reads this
      requires NoDup(rooms)
      ensures var lookup := ResolveRoom(rooms, Get(data, "id"));
        && (lookup == NoRoom ==> step == JoinRefused(Err(RoomNotFound)))
        && (lookup == ManyRooms ==> step == JoinRefused(Err(AmbiguousId)))
        && (lookup == BadId ==> step == JoinRefused(Aborted))
      ensures ResolveRoom(rooms, Get(data, "id")).TheRoom? && !LoggedIn(Get(data, "sessionID")) ==>
        step == JoinRefused(Err(InvalidSession))
      ensures var lookup := ResolveRoom(rooms, Get(data, "id"));
        var sessionId := Get(data, "sessionID");
        lookup.TheRoom? && LoggedIn(sessionId) ==>
          && (roomDocs.None? ==> step == JoinRefused(Err(DbDead)))
          && (roomDocs.Some? && roomDocs.value == [] ==> step == JoinRefused(Aborted))
          && (roomDocs.Some? && roomDocs.value != [] ==>
                var j := Join(roomDocs.value[0], sessions[sessionId.s].name, RequestedRole(data));
                && (j.Seated? ==> step == JoinUpdate(lookup.key, j.room))
                && (j.Refused? ==> step == JoinRefused(Err(j.error))))
      ensures step.JoinUpdate? ==>
        && ResolveRoom(rooms, Get(data, "id")) == TheRoom(step.key)
        && LoggedIn(Get(data, "sessionID")) && roomDocs.Some? && roomDocs.value != []
        && Join(roomDocs.value[0], sessions[Get(data, "sessionID").s].name, RequestedRole(data)) == Seated(step.room)
      ensures roomDocs.Some? && roomDocs.value != [] && SeatsOk(roomDocs.value[0]) && step.JoinUpdate? ==> SeatsOk(step.room)
    {
      match ResolveRoom(rooms, Get(data, "id"))
      case NoRoom => JoinRefused(Err(RoomNotFound))
      case ManyRooms => JoinRefused(Err(AmbiguousId))
      case BadId => JoinRefused(Aborted)
      case TheRoom(key) =>
        var sessionId := Get(data, "sessionID");
        if !LoggedIn(sessionId) then JoinRefused(Err(InvalidSession))
        else if roomDocs.None? then JoinRefused(Err(DbDead))
        else if roomDocs.value == [] then JoinRefused(Aborted)
        else
          var room := roomDocs.value[0];
          var name := sessions[sessionId.s].name;
          JoinKeepsSeatsOk(room, name, RequestedRole(data));
          match Join(room, name, RequestedRole(data))
          case Refused(e) => JoinRefused(Err(e))
          case Seated(seats) => JoinUpdate(key, seats)
    }
  }

  /** `data.get("role", "spectator")`. */
  function RequestedRole(data: Record): (r: Value)
    ensures IsPlayerRole(r) ==> "role" in data
  {
    if "role" in data then data["role"] else Str("spectator")
  }

  /** Every port handed out is distinct from the others and from the next one: ports strictly increase. */
  lemma PortsIncrease(s: LobbyServer, i: int, j: int)
    requires s.Valid() && 0 <= i < j < |s.issued|
    ensures s.issued[i] < s.issued[j] < s.nextPort
  {
  }
}
