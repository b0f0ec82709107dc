# Game store system: verified model of the game server, database and lobby

This project is a Dafny model of three Python services: the database service and the player lobby, which the repository's launcher scripts start, and the per-room Tetris game server, which the lobby spawns once per room (`server/player_server.py:202-207`, with the arguments `main` reads at `game/server.py:578-585`). The launcher scripts themselves are only process plumbing, and the developer service they also start is not part of this model. The three services are:

- **The Tetris game server** (`game/server.py`). It covers:
  - piece geometry: quarter turns and `get_blocks`;
  - the SRS wall-kick tables;
  - the shared 7-bag generator, with its Fisher-Yates shuffle;
  - the 10x20 board: collision, stamping, line clearing and scoring;
  - the per-player moves: move, rotate with kicks, soft drop, hard drop, hold and lock;
  - one player's gravity step and the end-of-game check;
  - the 4-byte big-endian length framing.
- **The document database** (`server/db.py`). It covers:
  - `DatabaseHandler`, whose store maps a collection name to a dictionary from id to document;
  - create, read, update, delete and filter-query;
  - the dispatcher `handle_request`;
  - the response framing `encode_response`.
- **The player lobby's decision logic** (`server/player_server.py`). It covers:
  - login and logout over the session table;
  - the game-server port counter;
  - the table of running rooms;
  - room-id prefix resolution;
  - the seat rule for joining a room;
  - the session and owner guards.

State that the source changes in place is held in classes: `Bag.BagGenerator`, `Game.PlayerState`, `Store.DatabaseHandler` and `Lobby.LobbyServer`. Their methods carry `modifies` clauses. Each method that changes state gives its new state, for every outcome, as a function of the old state and its inputs:

- `PlayerState.View()` for the player. A move that draws from the shared bag is not a function of the player alone: the kind it draws is stated to be the front of the bag's queue, and the kinds drawn after an empty queue come from a freshly shuffled bag;
- `CreateResult`, `UpdateResult` and the other result functions for the store;
- for the lobby, the session table, the room keys and the port counter, stated case by case for every error and for success.

The properties the source promises are proved about those functions:

- the bag invariant;
- the board after clearing;
- the first-fit kick;
- the drop that stops at the landing row;
- "only create, update and delete change the store";
- the seat invariant;
- a deletion keeps the other keys in their order;
- strictly increasing ports.

The loops of the source become methods with loop invariants. These are `place_on_board`, `clear_lines`, `fill_next`, the shuffle, `_try_rotate`, `_hard_drop` and `query`.

The model represents the source's data as follows:

- A JSON value is `Values.Value`. A dictionary with string keys is `Record`.
- An exception that escapes a request handler is the reply `Aborted`.
- The outside world enters as parameters:
  - `now` replaces the clock;
  - `freshId` and `freshSession` replace uuids;
  - `hash` replaces SHA-256;
  - a stream of draws replaces `random.Random`;
  - the lobby's database replies are passed in rather than computed.

Modules: `Wrappers`, `Seqs`, `Framing`, `Pieces`, `Board`, `Bag`, `Game`, `Values`, `Store`, `Lobby`.

## Model

| member | source | states |
|---|---|---|
| Framing.Header | game/server.py:25 | packing a length below 2^32 gives exactly four bytes |
| Framing.HeaderRoundTrip | server/db.py:172-174 | unpacking the packed header gives back the body length |
| Framing.HeaderUnique | server/db.py:232-233 | every 4-byte header is the packing of the length it decodes to, so the header and the length determine each other |
| Framing.Frame | game/server.py:23-25 | a frame is the header followed by the body; its first four bytes decode to the body length |
| Framing.ReadFrame | server/db.py:231-235 | reading a frame returns the body and the rest of the stream, and the stream is exactly header, body and rest; a short stream gives None |
| Framing.ReadFrameOfFrame | game/server.py:27-31 | reading a framed body followed by anything gives back the body and leaves the rest untouched |
| Framing.EncodeMessage | game/server.py:23-25 | encoding succeeds exactly for bodies below 2^32 bytes, and reading the result gives back the body |
| Pieces.Base | game/server.py:34-43 | every tetromino has four cells, all within two cells of the pivot |
| Pieces.Color | game/server.py:45-53 | every colour code is between 1 and 7, so a locked cell is never empty |
| Pieces.ColorInjective | game/server.py:45-53 | different kinds have different colour codes |
| Pieces.RotateCw | game/server.py:56-57 | a clockwise turn keeps the number of offsets |
| Pieces.RotateCcw | game/server.py:59-60 | a counter-clockwise turn keeps the number of offsets |
| Pieces.CcwUndoesCw | game/server.py:56-60 | `rotate_ccw` undoes `rotate_cw` |
| Pieces.CwUndoesCcw | game/server.py:56-60 | `rotate_cw` undoes `rotate_ccw` |
| Pieces.RotateCwInBox | game/server.py:56-57 | a turn keeps offsets within two cells of the pivot |
| Pieces.RotateTimes | game/server.py:136-138 | n turns keep the number of offsets |
| Pieces.RotateTimesInBox | game/server.py:136-138 | any number of turns keeps offsets within two cells of the pivot |
| Pieces.FourTurns | game/server.py:136-138 | four clockwise turns give back the original offsets |
| Pieces.Translate | game/server.py:139-140 | translation keeps the number of cells |
| Pieces.GetBlocks | game/server.py:128-140 | a piece covers four cells, each within two cells of its anchor, for any orientation |
| Pieces.GetBlocksTurn | game/server.py:128-140 | orientation o+1 is one more clockwise turn of orientation o (`orientation % 4` turns) |
| Pieces.GetBlocksShift | game/server.py:128-140 | moving the anchor by (dx, dy) translates every cell by (dx, dy) |
| Pieces.JlstzKicks | game/server.py:65-74 | the table has a key exactly for the eight quarter turns, each with five tests starting in place |
| Pieces.IKicks | game/server.py:77-86 | the I table has the same eight keys, each with five tests starting in place |
| Pieces.GetKicks | game/server.py:89-96 | one to five tests, the first always (0,0); the O piece only ever tries (0,0) |
| Pieces.KicksReverse | game/server.py:65-86 | the kick list for to->from is the negation of the list for from->to, in the same order, for every kind |
| Pieces.KicksBetweenNeighbours | game/server.py:89-96 | rotating to a neighbouring orientation finds five tests, or one for O |
| Board.EmptyRows | game/server.py:146 | n rows of ten empty cells |
| Board.InBounds | game/server.py:191-192 | every column of the board is in bounds above the top row, so cells above the board never leave it |
| Board.CollidesIff | game/server.py:194-198 | collides exactly when some cell has y >= 0 and is outside the columns, below the floor, or filled; cells above the top never collide |
| Board.FitsAboveFloor | game/server.py:194-198 | a piece that fits is anchored less than two rows below the floor, which bounds every drop |
| Board.Stamp | game/server.py:200-203 | stamping keeps the board 20x10 |
| Board.PlaceOnBoard | game/server.py:200-203 | the loop writes the colour into exactly the on-board cells of the piece and leaves every other cell unchanged |
| Board.KeptRows | game/server.py:205-212 | the kept rows are never more than the board's rows |
| Board.CountFull | game/server.py:205-212 | the cleared count is at most the number of rows |
| Board.KeptRowsPartition | game/server.py:205-212 | kept rows plus cleared rows is all rows; a row is kept exactly when it is a non-full row of the board |
| Board.ClearedBoardProperties | game/server.py:205-215 | the cleared board is 20x10 with no full row, and clearing it again changes nothing |
| Board.NoFullKeepsAll | game/server.py:205-212 | on a board without full rows nothing is cleared and every row is kept in order |
| Board.PadTop | game/server.py:213-214 | the insert loop puts n empty rows above the kept rows |
| Board.ClearLines | game/server.py:205-215 | returns the number of full rows, and empty rows on top of the non-full rows in their order; the result is 20x10 |
| Board.ScoreForClear | game/server.py:218-223 | a lock scores points exactly when it clears at least one line |
| Board.ScoreIncreasing | game/server.py:218-223 | clearing more lines at once always scores strictly more |
| Board.ScoreSuperadditive | game/server.py:218-223 | one clear of m+n lines scores at least as much as clears of m and n lines |
| Board.ScorePerLine | game/server.py:218-223 | every cleared line is worth between 100 and 200 points |
| Bag.BagsAppend | game/server.py:105-111 | appending a shuffled bag to a run of whole bags gives a run of whole bags |
| Bag.DealtGroupIsBag | game/server.py:113-116 | every aligned group of seven dealt kinds holds each of the seven kinds exactly once |
| Bag.BagHoldsEachKindOnce | game/server.py:106 | a bag holds each kind exactly once |
| Bag.SwapKeepsMultiset | game/server.py:110 | a swap keeps the elements of the bag |
| Bag.BagGenerator.constructor | game/server.py:100-103 | a new generator queues exactly one shuffled bag and has dealt nothing |
| Bag.BagGenerator.RandInt | game/server.py:109 | `randint(0, i)` returns j in [0, i] and uses up one draw |
| Bag.BagGenerator.Shuffle | game/server.py:106-110 | whatever the draws, the Fisher-Yates loop yields a permutation of the seven kinds |
| Bag.BagGenerator.Refill | game/server.py:105-111 | appends exactly one bag; the history stays a run of whole bags |
| Bag.BagGenerator.Next | game/server.py:113-116 | refills before popping, so it never pops an empty queue; deals the front kind, keeps the invariant, and only ever extends the history |
| Bag.DealsFromFront | game/server.py:113-116 | when the history only grows, the kinds dealt are a prefix of the old queue, or the whole old queue followed by new kinds |
| Game.Blocks | game/server.py:128-140 | a piece at its own anchor covers four cells |
| Game.LandingY | game/server.py:439-448 | the landing row is at or below the piece, and the row under it does not fit |
| Game.LandingStep | game/server.py:443-448 | when the drop passes the current row, the row below fits and the drop continues from there |
| Game.FallsThroughFittingRows | game/server.py:439-448 | every row the hard drop passes through, down to the landing row, fits |
| Game.Turned | game/server.py:401 | the new orientation is in 0..3 |
| Game.FirstFit | game/server.py:404-418 | the chosen kick fits, and no earlier kick does; None means no kick fits |
| Game.Settled | game/server.py:472-481 | stamping and clearing keep the board 20x10 |
| Game.Respawned | game/server.py:482-488 | the front of the preview becomes the piece; the preview keeps six kinds, moving up one and taking the drawn kind at the back; the board, counters and hold are kept; the new piece is in orientation 0 with hold allowed and no lock timer; the player survives exactly when alive and the new piece fits |
| Game.Locked | game/server.py:472-491 | the board stays 20x10 and the preview six kinds; the score strictly grows unless a gravity lock clears nothing; lines never drop; the hold is kept |
| Game.LockedProperties | game/server.py:472-491 | a lock leaves a 20x10 board with no full row; lines grow by the rows cleared; score grows by their table score plus 10 for a hard drop; the queue's front becomes the piece; the player stays alive only if it fits |
| Game.DrawOne | game/server.py:166-168 | topping a six-kind preview up to seven and popping it deals the old front and appends one drawn kind |
| Game.PlayerState.constructor | game/server.py:143-160 | empty board, zero score and lines, alive, no hold, the first piece at the spawn cell, six kinds previewed, all dealt from the front of the shared bag's queue |
| Game.PlayerState.FillNext | game/server.py:162-164 | tops the queue up to at least seven kinds, keeps the old ones first, and appends exactly the kinds the bag dealt, which are the front of the bag's old queue (all of it, then a new bag's kinds, when it runs short) |
| Game.PlayerState.SpawnNew | game/server.py:166-170 | the front of the filled queue becomes the piece at the spawn cell in orientation 0; hold is allowed again; the kinds drawn are the front of the bag's old queue |
| Game.TryMove | game/server.py:388-397 | moves exactly when the shifted piece fits, resetting the lock timer; otherwise changes nothing |
| Game.TryRotate | game/server.py:399-418 | applies the first kick that fits, with the new orientation, and resets the lock timer; if none fits, changes nothing |
| Game.SoftDrop | game/server.py:420-437 | moves down one row and scores one point when that fits; otherwise only starts the lock timer if it was not running |
| Game.Settle | game/server.py:472-481 | the player after stamping and clearing is `Settled` of the old player |
| Game.Respawn | game/server.py:482-487 | spawns the queue's front, draws one kind to the back (the bag's old front, when its queue is not empty), kills the player on a colliding spawn, and stops the lock timer |
| Game.LockPiece | game/server.py:472-491 | the new player state is `Locked` of the old one, with exactly one kind dealt from the bag, its old front when its queue is not empty |
| Game.DropToLanding | game/server.py:442-448 | the loop ends, with the piece on `LandingY`, and nothing else changed |
| Game.HardDrop | game/server.py:439-452 | the result is the lock, with the hard bonus, of the piece moved to its landing row |
| Game.DoHold | game/server.py:454-470 | refused, changing nothing, when hold was used; the first hold parks the kind and spawns from the queue; a later hold swaps, respawns the held kind, and kills the player if it does not fit |
| Game.GravityStep | game/server.py:499-514 | fall one row if it fits; else start the lock timer; else lock once the piece has rested `LOCK_DELAY`; dead players are skipped |
| Game.HandleInput | game/server.py:353-383 | input to a dead player or an unknown move changes nothing; Left/Right shift by -1/+1, RotateCW/RotateCCW turn with kicks, SoftDrop, HardDrop and Hold each have exactly their handler's outcome; no move lowers score or lines |
| Game.AliveNames | game/server.py:517 | at most one name per player, and a name is listed exactly when some player with that name is alive |
| Game.GameOver | game/server.py:517-520 | the game goes on exactly while two or more names are alive; otherwise the winner is the one alive name, or nobody |
| Game.AliveNamesAtLeastTwo | game/server.py:517-518 | two or more names are alive exactly when two distinct players are alive |
| Game.GameOverOverPlayers | game/server.py:517-520 | stated over the players: the game goes on exactly while two players are alive, ends with no winner when none is, and is won by n exactly when n's player is the only one alive |
| Store.Insert | server/db.py:92 | the dictionary gets the key; an existing key keeps its place in the order, a new key goes to the end |
| Store.Put | server/db.py:92 | only the named collection changes; ids keep matching their keys |
| Store.Remove | server/db.py:136 | exactly that key is removed, and an absent key leaves the order as it was |
| Store.Collection | server/db.py:65-68 | found exactly for a stored collection name; a list or dictionary name is unhashable |
| Store.NewItem | server/db.py:76-91 | keys are the data's keys plus "id" plus the stamps; the data's id overrides the fresh id; Player and Developer are created offline with both timestamps; Game and Room get `createdAt` |
| Store.CreateResult | server/db.py:70-101 | stores the item under its own "id" in that collection only; an unknown collection, non-dictionary data or unhashable id fails and changes nothing |
| Store.ReadResult | server/db.py:103-111 | returns the stored document exactly when the collection and id are present |
| Store.Merge | server/db.py:117-120 | the given fields win, the others stay, and the stored "id" is never changed |
| Store.UpdateResult | server/db.py:113-130 | on a present id, merges into that document only, keeping its place; otherwise fails and changes nothing |
| Store.DeleteResult | server/db.py:132-144 | removes exactly that id and leaves every other document and collection; an absent id fails and changes nothing |
| Store.Documents | server/db.py:151 | the documents of the collection, one per key |
| Store.Select | server/db.py:151-154 | a document is selected exactly when it is in the collection and matches every filter field |
| Store.SelectAppend | server/db.py:151-154 | filtering a concatenation filters each part, in order |
| Store.SelectEmptyFilter | server/db.py:152 | an empty filter returns every document, in order |
| Store.QueryResult | server/db.py:146-161 | succeeds exactly on a present collection with a dictionary filter, or an empty collection; the result holds exactly the matching documents |
| Store.Dispatch | server/db.py:191-219 | a missing collection or action, a missing id for read, update or delete, or an unknown action gives its error; only create, update and delete change the store |
| Store.UnknownCollectionChangesNothing | server/db.py:65-68 | a request for an unknown collection fails and changes nothing, whatever the action |
| Store.EncodingErrorBody | server/db.py:179 | the fallback reply fits in a frame |
| Store.EncodeResponse | server/db.py:167-180 | reading the output gives back the body, or the encoding-error body when serialising or packing fails |
| Store.DatabaseHandler.constructor | server/db.py:25-38 | a missing or empty file starts the four empty collections; a loaded store keeps its data but empties Room |
| Store.DatabaseHandler.Create | server/db.py:70-101 | the reply and the new store are `CreateResult` of the old store |
| Store.DatabaseHandler.Read | server/db.py:103-111 | the reply is `ReadResult`, and nothing changes |
| Store.DatabaseHandler.Update | server/db.py:113-130 | the reply and the new store are `UpdateResult` of the old store |
| Store.DatabaseHandler.Delete | server/db.py:132-144 | the reply and the new store are `DeleteResult` of the old store |
| Store.DatabaseHandler.Query | server/db.py:146-161 | the reply is `QueryResult`, and nothing changes |
| Store.Filter | server/db.py:149-154 | the loop's results are the matching documents, in collection order |
| Store.HandleRequest | server/db.py:191-219 | the reply and the new store are `Dispatch` of the old store |
| Seqs.Without | server/db.py:136 | exactly the other keys remain, still each once; an absent key changes nothing |
| Seqs.WithoutAt | server/player_server.py:272 | taking out a key that occurs only at position p leaves the keys before and after p in their order |
| Seqs.WithoutNoDup | server/db.py:136 | in a dictionary's key order, taking out the key at position p closes the gap and moves nothing else |
| Lobby.Matching | server/player_server.py:223-226 | the keys that start with the prefix, and no duplicates |
| Lobby.ResolveRoom | server/player_server.py:223-233 | no room matching the prefix, two or more matching, or the unique match; a non-string id raises once there is a room |
| Lobby.Join | server/player_server.py:313-322 | p1/p2 is refused with "Room is full." when the room has two players, with "Role taken" exactly when the role is taken, and otherwise is seated by appending exactly one player; any other role appends a spectator |
| Lobby.JoinKeepsSeatsOk | server/player_server.py:313-320 | a room keeps at most two players in distinct player roles |
| Lobby.GameSummary | server/player_server.py:105-110 | the sanitised entry has exactly the keys gameName, owner, gameId and description, so no other field of the game document reaches the client |
| Lobby.RequestedRole | server/player_server.py:280 | a player role is only requested when the request names it; the default is a spectator |
| Lobby.LoginDecision | server/player_server.py:414-446 | admits exactly when both fields are given, a user is found who is not online and whose hash matches; the session holds that user's id and name |
| Lobby.RoomDocument | server/player_server.py:177-185 | the room document has the owner, empty seats, and the port just taken |
| Lobby.LobbyServer.constructor | server/player_server.py:25-29 | no sessions, no rooms, the counter at the base port |
| Lobby.LobbyServer.LoggedIn | server/player_server.py:155 | only a string session id can be in the session table |
| Lobby.LobbyServer.Login | server/player_server.py:414-457 | success adds exactly one session for the user's id and name; every failure leaves the table unchanged |
| Lobby.LobbyServer.Logout | server/player_server.py:459-475 | removes exactly the given session, or fails and changes nothing |
| Lobby.LobbyServer.ListGames | server/player_server.py:84-114 | rejects a session not in the table; otherwise lists each game's name, owner, id and description |
| Lobby.LobbyServer.CreateRoom | server/player_server.py:148-216 | rejects an unknown session, a missing gameId, a missing game or a game without folderPath, changing nothing; past the game lookup, takes the next port and advances the counter even when the create then fails; a create reply with a string id succeeds with that id and port and records the room |
| Lobby.LobbyServer.DeleteRoom | server/player_server.py:219-274 | not found, ambiguous, or the unique room; a failed room query is "DB dead.", a reply without an owner raises; an admin or the owner whose delete the database confirms gets success and exactly that room is removed, anyone else is refused, and a failure changes nothing |
| Lobby.LobbyServer.JoinRoom | server/player_server.py:277-322 | not found, ambiguous, an invalid session, "DB dead.", or an empty room reply that raises; otherwise the seat rule decides, a refusal is forwarded and a seating becomes exactly the seat update; the seat invariant is kept |
| Lobby.PortsIncrease | server/player_server.py:174-175 | the ports handed out strictly increase from the base and are below the counter |

## Left out

- Networking:
  - asyncio servers, connection loops, broadcasting, snapshots and the lobby's `handle_client` are not modelled.
  - Messages are already-decoded values or opaque byte bodies.
  - JSON serialisation is an opaque body.
  - UTF-8 is modelled only for the ASCII text of the encoding-error reply.
- Foreign calls are parameters:
  - the clock (`now`);
  - uuids;
  - `hashlib.sha256`;
  - `random.Random`, as a stream of draws with `randint(0, i)` taken as a draw modulo i + 1.
- The database file is not modelled. `_load_data` is the constructor's `loaded` parameter, and `_save_data` does nothing.
- Game-server subprocesses are not modelled. This covers spawning, `wait_for_game_end` and terminating a process on room deletion.
- The real-time loops (`gravity_loop`, `snapshot_loop`) are not modelled as loops:
  - one player's gravity step and the end-of-game check are modelled;
  - the lock delay is compared as a real number.
- `handle_input` records `last_move_ts` for every input of a live player, unknown moves included. The field is never read by the rules, so the model does not hold it.
- The guards `if not player.current` are not modelled, because every player always has a current piece after construction.
- `handle_register`, `handle_rooms`, `decode_request` and `server/developer_server.py` are not part of this model. The clients and `game/client.py` are not part of this model either.
- `handle_join_room` after the seat update is not modelled: the update request, the game asset lookup and the base64 client code.
- The lobby's database requests are replaced by their replies:
  - the "online" flag update on login and logout;
  - the room query and update.
- The lobby's connection-level behaviour is not modelled:
  - logout falls back to the connection's own session;
  - the session is forced out when the connection closes.
- Concurrency between clients, and the interleaving of the lobby's awaits, are not modelled.
- Store.NewItem: `dict.update` with a list of key/value pairs is not modelled. Data that is not a dictionary is treated as a failed create.
- Store.Select: Python's `True == 1` and `1 == 1.0` equalities are not modelled, and floats are not values; values compare structurally. This holds for filter fields and equally for dictionary keys: in the source `coll[True]` finds the key `1` in create, read, update and delete, which the model's `Insert`, `ReadResult` and `Remove` do not.
- Lobby.LobbyServer.LoggedIn: an unhashable session id (a list or dictionary) raises TypeError in the source, in `handle_create_room`, `handle_list_games` and `handle_logout` (`in ACTIVE_SESSIONS`) and in `handle_delete_room` and `handle_join_room` (`ACTIVE_SESSIONS.get`). The model treats it as not logged in, so `Lobby.LobbyServer.DeleteRoom` and `Lobby.LobbyServer.JoinRoom` refuse such a request instead of aborting.
- Lobby.LobbyServer.CreateRoom: spawning the game server is assumed to succeed. In the source, a failing `create_subprocess_exec` (for example a bad `folderPath`) gives the internal-error reply and the room is not added to `GAME_ROOMS`; the port is taken and the database room is created all the same.
- Lobby.LobbyServer.CreateRoom: a room id from the database that is not a string is treated as the internal-error reply. In the source, such an id would be stored as a key and break prefix matching later.
- Lobby.LobbyServer.JoinRoom: a room document is taken as its seats. Malformed "players" or "spectators" fields, which raise in the source, are not modelled.
