/**
 * Per-player game state and the moves of the game server
 * (game/server.py `PlayerState` and `GameServer._try_move`, `_try_rotate`,
 * `_soft_drop`, `_hard_drop`, `_do_hold`, `_lock_piece`, `handle_input`, and
 * one player's step of `gravity_loop`). The clock is a parameter: `now` is
 * the value `time.time()` would return.
 *
 * The moves are methods on a `PlayerState`, as the server's are; each
 * states the player's whole new state (`View()`) in terms of the old one.
 * The pure functions beside them (`LandingY`, `FirstFit`, `Locked`) are
 * what a hard drop, a kicked rotation and a lock compute.
 */
module Game {
  import opened Wrappers
  import opened Pieces
  import opened Board
  import opened Bag

  const SpawnX: int := 4
  const SpawnY: int := -1
  /** Seconds a piece may rest on the stack before gravity locks it. */
  const LockDelay: real := 0.4
  /** `fill_next` tops the preview queue up to this many kinds. */
  const QueueTarget: nat := 7
  const HardDropBonus: nat := 10
  const SoftDropBonus: nat := 1

  /** A `Piece`: its kind, anchor cell and orientation (0 to 3, clockwise). */
  datatype Piece = Piece(kind: Kind, x: int, y: int, orientation: int)

  /** `Piece.get_blocks()` with the piece's own orientation and anchor. */
  function Blocks(c: Piece): (bs: seq<Pos>)
    ensures |bs| == 4
  {
    GetBlocks(c.kind, c.orientation, c.x, c.y)
  }

  /** A new piece of kind `k` at the spawn cell, in orientation 0. */
  function Spawn(k: Kind): Piece {
    Piece(k, SpawnX, SpawnY, 0)
  }

  /** The piece moved to row `y`, nothing else changed. */
  function AtRow(c: Piece, y: int): Piece {
    c.(y := y)
  }

  /** The piece can stand where it is: `not collides(board, blocks)`. */
  predicate Fits(b: Grid, c: Piece)
    requires WellFormed(b)
  {
    !Collides(b, Blocks(c))
  }

  /** Everything a move can change about a player, as one value. */
  datatype PlayerView = PlayerView(
    board: Grid, score: int, lines: int, alive: bool, nextQueue: seq<Kind>,
    current: Piece, hold: Option<Kind>, holdUsed: bool, lockTimer: Option<real>)

  /**
   * The row where `_hard_drop` stops: the piece falls one row at a time
   * while the row below fits, so it ends on a row whose next row does not
   * fit.
   */
  function LandingY(b: Grid, c: Piece): (y: int)
    requires WellFormed(b)
    ensures c.y <= y
    ensures !Fits(b, AtRow(c, y + 1))
    decreases Height + 2 - c.y
  {
    var below := AtRow(c, c.y + 1);
    if !Fits(b, below) then c.y
    else
      FitsAboveFloor(b, below.kind, below.orientation, below.x, below.y);
      var y := LandingY(b, below);
      assert AtRow(c, y + 1) == AtRow(below, y + 1);
      y
  }

  /** A drop that goes past the current row continues from the row below, where the piece fits. */
  lemma LandingStep(b: Grid, c: Piece)
    requires WellFormed(b) && c.y < LandingY(b, c)
    ensures Fits(b, AtRow(c, c.y + 1)) && c.y + 1 < Height + 2
    ensures LandingY(b, c) == LandingY(b, AtRow(c, c.y + 1))
  {
    var below := AtRow(c, c.y + 1);
    FitsAboveFloor(b, below.kind, below.orientation, below.x, below.y);
  }

  /** On its way down, a hard-dropped piece passes only through rows where it fits. */
  lemma {:induction false} FallsThroughFittingRows(b: Grid, c: Piece, y: int)
    requires WellFormed(b) && c.y < y <= LandingY(b, c)
    ensures Fits(b, AtRow(c, y))
    decreases Height + 2 - c.y
  {
    LandingStep(b, c);
    var below := AtRow(c, c.y + 1);
    if y == below.y {
      assert AtRow(c, y) == below;
    } else {
      FallsThroughFittingRows(b, below, y);
      assert AtRow(below, y) == AtRow(c, y);
    }
  }

  /** `(old_o + (1 if clockwise else -1)) % 4`; Python's `%` is never negative here, as Dafny's. */
  function Turned(o: int, clockwise: bool): (r: int)
    ensures 0 <= r < 4
  {
    (o + (if clockwise then 1 else -1)) % 4
  }

  /** The piece after a rotation to `newO` with wall-kick offset `k`. */
  function Candidate(c: Piece, newO: int, k: Pos): Piece {
    c.(orientation := newO, x := c.x + k.x, y := c.y + k.y)
  }

  /**
   * The kick `_try_rotate` applies: the first index, from `i` on, whose
   * candidate fits; None when no candidate fits.
   */
  function FirstFit(b: Grid, c: Piece, newO: int, kicks: seq<Pos>, i: nat): (r: Option<nat>)
    requires WellFormed(b)
    ensures r.Some? ==> i <= r.value < |kicks| && Fits(b, Candidate(c, newO, kicks[r.value]))
    ensures forall j :: i <= j < |kicks| && (r.None? || j < r.value) ==> !Fits(b, Candidate(c, newO, kicks[j]))
    decreases |kicks| - i
  {
    if i >= |kicks| then None
    else if Fits(b, Candidate(c, newO, kicks[i])) then Some(i)
    else FirstFit(b, c, newO, kicks, i + 1)
  }

  /**
   * The first half of `_lock_piece`: stamp the piece in its colour, clear
   * the full lines, and add them and their table score.
   */
  function Settled(v: PlayerView): (r: PlayerView)
    requires WellFormed(v.board)
    ensures WellFormed(r.board)
  {
    var stamped := Stamp(v.board, Blocks(v.current), Color(v.current.kind));
    var cleared := CountFull(stamped);
    ClearedBoardProperties(stamped);
    v.(board := ClearedBoard(stamped), lines := v.lines + cleared, score := v.score + ScoreForClear(cleared))
  }

  /**
   * The second half of `_lock_piece`: the front of the queue becomes the
   * new piece, `drawn` joins the back, a hold is allowed again, the lock
   * timer stops, and the player dies if the new piece does not fit.
   */
  function Respawned(v: PlayerView, drawn: Kind): (r: PlayerView)
    requires WellFormed(v.board) && |v.nextQueue| == QueueTarget - 1
    ensures |r.nextQueue| == |v.nextQueue| && r.nextQueue[..|r.nextQueue| - 1] == v.nextQueue[1..]
    ensures r.nextQueue[|r.nextQueue| - 1] == drawn && r.current.kind == v.nextQueue[0]
    ensures r.board == v.board && r.score == v.score && r.lines == v.lines && r.hold == v.hold
    ensures r.current.orientation == 0 && !r.holdUsed && r.lockTimer.None?
    ensures r.alive <==> v.alive && Fits(r.board, r.current)
  {
    var next := Spawn(v.nextQueue[0]);
    v.(nextQueue := v.nextQueue[1..] + [drawn], current := next, holdUsed := false,
       alive := v.alive && Fits(v.board, next), lockTimer := None)
  }

  /** `_lock_piece`: settle, respawn, and add the hard-drop bonus when the lock came from a hard drop. */
  function Locked(v: PlayerView, hard: bool, drawn: Kind): (r: PlayerView)
    requires WellFormed(v.board) && |v.nextQueue| == QueueTarget - 1
    ensures WellFormed(r.board) && |r.nextQueue| == |v.nextQueue|
    ensures v.score < r.score || (!hard && r.score == v.score)
    ensures v.lines <= r.lines && r.hold == v.hold
  {
    var r := Respawned(Settled(v), drawn);
    r.(score := r.score + (if hard then HardDropBonus else 0))
  }

  /**
   * What a lock guarantees: a 20x10 board without full rows, lines and
   * score that grow by the lines cleared and their table score, the front
   * of the queue as the new piece, and a live player only if it fits.
   */
  lemma LockedProperties(v: PlayerView, hard: bool, drawn: Kind)
    requires WellFormed(v.board) && |v.nextQueue| == QueueTarget - 1
    ensures var r := Locked(v, hard, drawn);
      var n := CountFull(Stamp(v.board, Blocks(v.current), Color(v.current.kind)));
      && WellFormed(r.board)
      && (forall y :: 0 <= y < Height ==> !Full(r.board[y]))
      && r.lines == v.lines + n
      && r.score == v.score + ScoreForClear(n) + (if hard then HardDropBonus else 0)
      && r.current == Spawn(v.nextQueue[0])
      && r.nextQueue == v.nextQueue[1..] + [drawn]
      && (r.alive ==> v.alive && Fits(r.board, r.current))
  {
    ClearedBoardProperties(Stamp(v.board, Blocks(v.current), Color(v.current.kind)));
  }

  /**
   * When a queue of six is topped up to seven and popped, the popped kind
   * was its front and the one kind drawn went to the back.
   */
  lemma DrawOne(oldQueue: seq<Kind>, k: Kind, newQueue: seq<Kind>)
    requires |oldQueue| == QueueTarget - 1 && |newQueue| == QueueTarget - 1
    requires ([k] + newQueue)[..|oldQueue|] == oldQueue
    ensures k == oldQueue[0] && newQueue == oldQueue[1..] + [newQueue[|newQueue| - 1]]
    ensures ([k] + newQueue)[|oldQueue|..] == [newQueue[|newQueue| - 1]]
  {
    assert ([k] + newQueue)[0] == oldQueue[0];
    assert forall i :: 0 <= i < |newQueue| - 1 ==> newQueue[i] == ([k] + newQueue)[i + 1];
  }

  class PlayerState {
    const role: string
    const name: string
    /** The room's bag generator, shared with the other player. */
    const bag: BagGenerator
    var board: Grid
    var score: int
    var lines: int
    var alive: bool
    var nextQueue: seq<Kind>
    var current: Piece
    var hold: Option<Kind>
    var holdUsed: bool
    /** When the piece first rested on the stack, if it is resting. */
    var lockTimer: Option<real>

    function View(): PlayerView
      reads this
    {
      PlayerView(board, score, lines, alive, nextQueue, current, hold, holdUsed, lockTimer)
    }

    /**
     * Between moves: a 20x10 board, a valid shared bag, six kinds
     * previewed, an orientation in 0..3, and non-negative score and lines.
     */
    ghost predicate Valid()
      reads this, bag
    {
      WellFormed(board) && bag.Valid() && |nextQueue| == QueueTarget - 1 &&
      0 <= current.orientation < 4 && 0 <= score && 0 <= lines
    }

    /**
     * `PlayerState.__init__`: an empty board, zero score and lines, alive,
     * the preview filled from the shared bag and the first piece spawned.
     */
    constructor (role: string, name: string, bag: BagGenerator)
      requires bag.Valid()
      modifies bag
      ensures Valid() && this.role == role && this.name == name && this.bag == bag
      ensures board == EmptyRows(Height) && score == 0 && lines == 0 && alive
      ensures hold == None && !holdUsed && lockTimer == None && current == Spawn(current.kind)
      ensures bag.dealt == old(bag.dealt) + ([current.kind] + nextQueue)
      ensures old(bag.history) <= bag.history
      ensures [current.kind] + nextQueue <= old(bag.queue) || old(bag.queue) <= [current.kind] + nextQueue
    {
      this.role := role;
      this.name := name;
      this.bag := bag;
      board := EmptyRows(Height);
      score := 0;
      lines := 0;
      alive := true;
      nextQueue := [];
      hold := None;
      holdUsed := false;
      lockTimer := None;
      new;
      SpawnNew();
      assert ([current.kind] + nextQueue)[0..] == [current.kind] + nextQueue;
    }

    /**
     * `fill_next`: draws from the shared bag until seven kinds are queued;
     * the kinds appended are exactly the ones newly dealt, in order.
     */
    method FillNext()
      requires bag.Valid()
      modifies this`nextQueue, bag
      ensures bag.Valid()
      ensures |nextQueue| == if |old(nextQueue)| < QueueTarget then QueueTarget else |old(nextQueue)|
      ensures nextQueue[..|old(nextQueue)|] == old(nextQueue)
      ensures bag.dealt == old(bag.dealt) + nextQueue[|old(nextQueue)|..]
      ensures old(bag.history) <= bag.history
      ensures nextQueue[|old(nextQueue)|..] <= old(bag.queue) || old(bag.queue) <= nextQueue[|old(nextQueue)|..]
    {
      ghost var n := |nextQueue|;
      while |nextQueue| < QueueTarget
        invariant bag.Valid() && old(bag.history) <= bag.history
        invariant n <= |nextQueue| <= if n < QueueTarget then QueueTarget else n
        invariant nextQueue[..n] == old(nextQueue)
        invariant bag.dealt == old(bag.dealt) + nextQueue[n..]
        decreases QueueTarget - |nextQueue|
      {
        ghost var q := nextQueue;
        var k := bag.Next();
        nextQueue := nextQueue + [k];
        assert nextQueue[n..] == q[n..] + [k];
        assert nextQueue[..n] == q[..n];
      }
      DealsFromFront(old(bag.dealt), old(bag.queue), nextQueue[n..], bag.queue, bag.history);
    }

    /**
     * `spawn_new`: top the queue up, take its front kind as the new piece
     * at the spawn cell, and allow a hold again. It does not check whether
     * the new piece fits; callers do that where the source does.
     */
    method SpawnNew()
      requires bag.Valid()
      modifies this`nextQueue, this`current, this`holdUsed, bag
      ensures bag.Valid() && !holdUsed && current == Spawn(current.kind)
      ensures |nextQueue| == (if |old(nextQueue)| < QueueTarget then QueueTarget else |old(nextQueue)|) - 1
      ensures ([current.kind] + nextQueue)[..|old(nextQueue)|] == old(nextQueue)
      ensures bag.dealt == old(bag.dealt) + ([current.kind] + nextQueue)[|old(nextQueue)|..]
      ensures old(bag.history) <= bag.history
      ensures var drawn := ([current.kind] + nextQueue)[|old(nextQueue)|..];
        drawn <= old(bag.queue) || old(bag.queue) <= drawn
    {
      FillNext();
      var kind := nextQueue[0];
      ghost var full := nextQueue;
      nextQueue := nextQueue[1..];
      current := Spawn(kind);
      holdUsed := false;
      assert [kind] + nextQueue == full;
    }
  }

  /** `_try_move`: shift the piece by `dx` columns if it fits there; otherwise change nothing. */
  method TryMove(p: PlayerState, dx: int) returns (moved: bool)
    requires p.Valid()
    modifies p
    ensures p.Valid()
    ensures var c := old(p.current).(x := old(p.current).x + dx);
      && moved == Fits(old(p.board), c)
      && p.View() == if moved then old(p.View()).(current := c, lockTimer := None) else old(p.View())
  {
    var c := p.current.(x := p.current.x + dx);
    if !Collides(p.board, Blocks(c)) {
      p.current := c;
      p.lockTimer := None;
      return true;
    }
    return false;
  }

  /**
   * `_try_rotate`: try the kicks of `get_kicks(kind, old, new)` in order and
   * apply the first that fits; when none fits the piece is unchanged.
   */
  method TryRotate(p: PlayerState, clockwise: bool) returns (rotated: bool)
    requires p.Valid()
    modifies p
    ensures p.Valid()
    ensures var c := old(p.current);
      var newO := Turned(c.orientation, clockwise);
      var kicks := GetKicks(c.kind, c.orientation, newO);
      var fit := FirstFit(old(p.board), c, newO, kicks, 0);
      && rotated == fit.Some?
      && p.View() == if fit.Some? then old(p.View()).(current := Candidate(c, newO, kicks[fit.value]), lockTimer := None)
                     else old(p.View())
  {
    var c := p.current;
    var newO := Turned(c.orientation, clockwise);
    var kicks := GetKicks(c.kind, c.orientation, newO);
    for i := 0 to |kicks|
      invariant FirstFit(p.board, c, newO, kicks, 0) == FirstFit(p.board, c, newO, kicks, i)
    {
      var cand := Candidate(c, newO, kicks[i]);
      if !Collides(p.board, Blocks(cand)) {
        p.current := cand;
        p.lockTimer := None;
        return true;
      }
    }
    return false;
  }

  /**
   * `_soft_drop`: move down one row if it fits, scoring one point;
   * otherwise start the lock timer if it is not already running.
   */
  method SoftDrop(p: PlayerState, now: real) returns (dropped: bool)
    requires p.Valid()
    modifies p
    ensures p.Valid()
    ensures var below := AtRow(old(p.current), old(p.current).y + 1);
      && dropped == Fits(old(p.board), below)
      && p.View() == if dropped then old(p.View()).(current := below, score := old(p.score) + SoftDropBonus, lockTimer := None)
                     else old(p.View()).(lockTimer := if old(p.lockTimer).None? then Some(now) else old(p.lockTimer))
  {
    var below := AtRow(p.current, p.current.y + 1);
    if !Collides(p.board, Blocks(below)) {
      p.current := below;
      p.score := p.score + SoftDropBonus;
      p.lockTimer := None;
      return true;
    }
    if p.lockTimer.None? {
      p.lockTimer := Some(now);
    }
    return false;
  }

  /** The stamping and line clearing that open `_lock_piece`; see `Settled`. */
  method Settle(p: PlayerState)
    requires p.Valid()
    modifies p`board, p`lines, p`score
    ensures p.Valid() && p.View() == Settled(old(p.View()))
  {
    var stamped := PlaceOnBoard(p.board, Blocks(p.current), p.current.kind);
    var cleared;
    p.board, cleared := ClearLines(stamped);
    if cleared > 0 {
      p.lines := p.lines + cleared;
      p.score := p.score + ScoreForClear(cleared);
    }
  }

  /**
   * The spawning that closes `_lock_piece`; see `Respawned`. One kind is
   * drawn from the shared bag to keep six previewed; it is the one now at
   * the back of the queue.
   */
  method Respawn(p: PlayerState)
    requires p.Valid()
    modifies p, p.bag
    ensures p.Valid()
    ensures old(p.bag.history) <= p.bag.history
    ensures old(p.bag.queue) != [] ==> p.nextQueue[|p.nextQueue| - 1] == old(p.bag.queue)[0]
    ensures p.bag.dealt == old(p.bag.dealt) + [p.nextQueue[|p.nextQueue| - 1]]
    ensures p.View() == Respawned(old(p.View()), p.nextQueue[|p.nextQueue| - 1])
  {
    ghost var w := p.View();
    p.SpawnNew();
    DrawOne(w.nextQueue, p.current.kind, p.nextQueue);
    if Collides(p.board, Blocks(p.current)) {
      p.alive := false;
    }
    p.lockTimer := None;
  }

  /** `_lock_piece`: see `Locked`; the drawn kind is the one now at the back of the queue. */
  method LockPiece(p: PlayerState, hard: bool)
    requires p.Valid()
    modifies p, p.bag
    ensures p.Valid()
    ensures old(p.bag.history) <= p.bag.history
    ensures old(p.bag.queue) != [] ==> p.nextQueue[|p.nextQueue| - 1] == old(p.bag.queue)[0]
    ensures p.bag.dealt == old(p.bag.dealt) + [p.nextQueue[|p.nextQueue| - 1]]
    ensures p.View() == Locked(old(p.View()), hard, p.nextQueue[|p.nextQueue| - 1])
  {
    Settle(p);
    Respawn(p);
    if hard {
      p.score := p.score + HardDropBonus;
    }
  }

  /**
   * The loop of `_hard_drop`: move down while the next row fits. It stops
   * because a piece more than a row below the floor never fits, and it
   * stops exactly at `LandingY`.
   */
  method DropToLanding(p: PlayerState)
    requires WellFormed(p.board)
    modifies p`current
    ensures p.current == AtRow(old(p.current), LandingY(p.board, old(p.current)))
  {
    while true
      invariant p.current == AtRow(old(p.current), p.current.y)
      invariant LandingY(p.board, p.current) == LandingY(p.board, old(p.current))
      decreases Height + 2 - p.current.y
    {
      var below := AtRow(p.current, p.current.y + 1);
      if Collides(p.board, Blocks(below)) {
        break;
      }
      FitsAboveFloor(p.board, below.kind, below.orientation, below.x, below.y);
      p.current := below;
    }
  }

  /** `_hard_drop`: drop to the landing row, then lock with the hard-drop bonus. */
  method HardDrop(p: PlayerState)
    requires p.Valid()
    modifies p, p.bag
    ensures p.Valid()
    ensures old(p.bag.history) <= p.bag.history
    ensures old(p.bag.queue) != [] ==> p.nextQueue[|p.nextQueue| - 1] == old(p.bag.queue)[0]
    ensures p.bag.dealt == old(p.bag.dealt) + [p.nextQueue[|p.nextQueue| - 1]]
    ensures p.View() == Locked(old(p.View()).(current := AtRow(old(p.current), LandingY(old(p.board), old(p.current)))),
                               true, p.nextQueue[|p.nextQueue| - 1])
  {
    DropToLanding(p);
    LockPiece(p, true);
  }

  /**
   * `_do_hold`: refused once per piece. The first hold parks the current
   * kind and spawns the next one from the queue, without a top-out check;
   * later holds swap the current kind with the held one, respawning it at
   * the spawn cell and marking the player dead if it does not fit there.
   */
  method DoHold(p: PlayerState) returns (held: bool)
    requires p.Valid()
    modifies p, p.bag
    ensures p.Valid()
    ensures held == !old(p.holdUsed)
    ensures old(p.bag.history) <= p.bag.history
    ensures held && old(p.hold).None? && old(p.bag.queue) != [] ==> p.nextQueue[|p.nextQueue| - 1] == old(p.bag.queue)[0]
    ensures !held ==> p.View() == old(p.View()) && p.bag.dealt == old(p.bag.dealt)
    ensures held && old(p.hold).None? ==>
      && p.bag.dealt == old(p.bag.dealt) + [p.nextQueue[|p.nextQueue| - 1]]
      && p.View() == old(p.View()).(hold := Some(old(p.current).kind), holdUsed := true,
           current := Spawn(old(p.nextQueue)[0]),
           nextQueue := old(p.nextQueue)[1..] + [p.nextQueue[|p.nextQueue| - 1]])
    ensures held && old(p.hold).Some? ==>
      && p.bag.dealt == old(p.bag.dealt)
      && p.View() == old(p.View()).(hold := Some(old(p.current).kind), holdUsed := true,
           current := Spawn(old(p.hold).value),
           alive := old(p.alive) && Fits(p.board, Spawn(old(p.hold).value)))
  {
    if p.holdUsed {
      return false;
    }
    if p.hold.None? {
      p.hold := Some(p.current.kind);
      ghost var q := p.nextQueue;
      p.SpawnNew();
      DrawOne(q, p.current.kind, p.nextQueue);
    } else {
      var tmp := p.hold.value;
      p.hold := Some(p.current.kind);
      p.current := Spawn(tmp);
      if Collides(p.board, Blocks(p.current)) {
        p.alive := false;
      }
    }
    p.holdUsed := true;
    return true;
  }

  /**
   * One player's step of `gravity_loop`, skipped for a dead player: fall
   * one row if it fits; otherwise start the lock timer, or lock once the
   * piece has rested for the lock delay.
   */
  method GravityStep(p: PlayerState, now: real)
    requires p.Valid()
    modifies p, p.bag
    ensures p.Valid()
    ensures old(p.bag.history) <= p.bag.history
    ensures p.bag.dealt != old(p.bag.dealt) && old(p.bag.queue) != [] ==> p.nextQueue[|p.nextQueue| - 1] == old(p.bag.queue)[0]
    ensures var below := AtRow(old(p.current), old(p.current).y + 1);
      var rested := old(p.lockTimer).Some? && now - old(p.lockTimer).value >= LockDelay;
      if !old(p.alive) then p.View() == old(p.View()) && p.bag.dealt == old(p.bag.dealt)
      else if Fits(old(p.board), below) then
        p.View() == old(p.View()).(current := below, lockTimer := None) && p.bag.dealt == old(p.bag.dealt)
      else if old(p.lockTimer).None? then
        p.View() == old(p.View()).(lockTimer := Some(now)) && p.bag.dealt == old(p.bag.dealt)
      else if !rested then
        p.View() == old(p.View()) && p.bag.dealt == old(p.bag.dealt)
      else
        p.bag.dealt == old(p.bag.dealt) + [p.nextQueue[|p.nextQueue| - 1]] &&
        p.View() == Locked(old(p.View()), false, p.nextQueue[|p.nextQueue| - 1])
  {
    if !p.alive {
      return;
    }
    var below := AtRow(p.current, p.current.y + 1);
    if !Collides(p.board, Blocks(below)) {
      p.current := below;
      p.lockTimer := None;
    } else if p.lockTimer.None? {
      p.lockTimer := Some(now);
    } else if now - p.lockTimer.value >= LockDelay {
      LockPiece(p, false);
    }
  }

  /** The moves a client can send in an `input` message. */
  datatype Input = MoveLeft | MoveRight | TurnCw | TurnCcw | DropSoft | DropHard | HoldPiece | Unrecognised

  /**
   * `handle_input` for a player: a dead player's input is ignored, an
   * unrecognised move does nothing, and each other move is dispatched to
   * its handler, whose outcome is stated here. No move lowers the score or
   * the line count.
   */
  method HandleInput(p: PlayerState, input: Input, now: real)
    requires p.Valid()
    modifies p, p.bag
    ensures p.Valid()
    ensures !old(p.alive) || input == Unrecognised ==> p.View() == old(p.View()) && p.bag.dealt == old(p.bag.dealt)
    ensures old(p.score) <= p.score && old(p.lines) <= p.lines
    ensures old(p.bag.history) <= p.bag.history
    ensures p.bag.dealt != old(p.bag.dealt) && old(p.bag.queue) != [] ==> p.nextQueue[|p.nextQueue| - 1] == old(p.bag.queue)[0]
    ensures old(p.alive) && (input == MoveLeft || input == MoveRight) ==>
      var c := old(p.current).(x := old(p.current).x + (if input == MoveLeft then -1 else 1));
      && p.bag.dealt == old(p.bag.dealt)
      && p.View() == if Fits(old(p.board), c) then old(p.View()).(current := c, lockTimer := None) else old(p.View())
    ensures old(p.alive) && (input == TurnCw || input == TurnCcw) ==>
      var c := old(p.current);
      var newO := Turned(c.orientation, input == TurnCw);
      var kicks := GetKicks(c.kind, c.orientation, newO);
      var fit := FirstFit(old(p.board), c, newO, kicks, 0);
      && p.bag.dealt == old(p.bag.dealt)
      && p.View() == if fit.Some? then old(p.View()).(current := Candidate(c, newO, kicks[fit.value]), lockTimer := None)
                     else old(p.View())
    ensures old(p.alive) && input == DropSoft ==>
      var below := AtRow(old(p.current), old(p.current).y + 1);
      && p.bag.dealt == old(p.bag.dealt)
      && p.View() == if Fits(old(p.board), below)
                     then old(p.View()).(current := below, score := old(p.score) + SoftDropBonus, lockTimer := None)
                     else old(p.View()).(lockTimer := if old(p.lockTimer).None? then Some(now) else old(p.lockTimer))
    ensures old(p.alive) && input == DropHard ==>
      && p.bag.dealt == old(p.bag.dealt) + [p.nextQueue[|p.nextQueue| - 1]]
      && p.View() == Locked(old(p.View()).(current := AtRow(old(p.current), LandingY(old(p.board), old(p.current)))),
                            true, p.nextQueue[|p.nextQueue| - 1])
    ensures old(p.alive) && input == HoldPiece && old(p.holdUsed) ==>
      p.View() == old(p.View()) && p.bag.dealt == old(p.bag.dealt)
    ensures old(p.alive) && input == HoldPiece && !old(p.holdUsed) && old(p.hold).None? ==>
      && p.bag.dealt == old(p.bag.dealt) + [p.nextQueue[|p.nextQueue| - 1]]
      && p.View() == old(p.View()).(hold := Some(old(p.current).kind), holdUsed := true,
           current := Spawn(old(p.nextQueue)[0]),
           nextQueue := old(p.nextQueue)[1..] + [p.nextQueue[|p.nextQueue| - 1]])
    ensures old(p.alive) && input == HoldPiece && !old(p.holdUsed) && old(p.hold).Some? ==>
      && p.bag.dealt == old(p.bag.dealt)
      && p.View() == old(p.View()).(hold := Some(old(p.current).kind), holdUsed := true,
           current := Spawn(old(p.hold).value),
           alive := Fits(p.board, Spawn(old(p.hold).value)))
  {
    if !p.alive {
      return;
    }
    match input {
      case MoveLeft => var _ := TryMove(p, -1);
      case MoveRight => var _ := TryMove(p, 1);
      case TurnCw => var _ := TryRotate(p, true);
      case TurnCcw => var _ := TryRotate(p, false);
      case DropSoft => var _ := SoftDrop(p, now);
      case DropHard => HardDrop(p);
      case HoldPiece => var _ := DoHold(p);
      case Unrecognised =>
    }
  }

  /** The names of the players still alive, in join order. */
  function AliveNames(players: seq<(string, bool)>): (r: seq<string>)
    ensures |r| <= |players|
    ensures forall n :: n in r <==> exists i :: 0 <= i < |players| && players[i] == (n, true)
  {
    if players == [] then []
    else (if players[0].1 then [players[0].0] else []) + AliveNames(players[1..])
  }

  /**
   * The end-of-game check of `gravity_loop`: the game goes on (None) while
   * two or more players are alive; otherwise it is over, won by the one
   * player left alive, or by nobody.
   */
  function GameOver(players: seq<(string, bool)>): (r: Option<Option<string>>)
    ensures r.None? <==> |AliveNames(players)| >= 2
    ensures r == Some(None) <==> AliveNames(players) == []
    ensures forall n :: r == Some(Some(n)) <==> AliveNames(players) == [n]
  {
    var alive := AliveNames(players);
    if |alive| <= 1 then Some(if alive == [] then None else Some(alive[0])) else None
  }

  /** Two or more names are alive exactly when two distinct players are alive. */
  lemma {:induction false} AliveNamesAtLeastTwo(players: seq<(string, bool)>)
    ensures |AliveNames(players)| >= 2 <==>
            exists i, j :: 0 <= i < j < |players| && players[i].1 && players[j].1
  {
    if players != [] {
      var t := players[1..];
      AliveNamesAtLeastTwo(t);
      assert AliveNames(players) == (if players[0].1 then [players[0].0] else []) + AliveNames(t);
      if |AliveNames(players)| >= 2 {
        if |AliveNames(t)| >= 2 {
          var i, j :| 0 <= i < j < |t| && t[i].1 && t[j].1;
          assert players[i + 1] == t[i] && players[j + 1] == t[j];
        } else {
          var n := AliveNames(t)[0];
          assert n in AliveNames(t);
          var j :| 0 <= j < |t| && t[j] == (n, true);
          assert players[0].1 && players[j + 1] == t[j];
        }
      }
      if exists i, j :: 0 <= i < j < |players| && players[i].1 && players[j].1 {
        var i, j :| 0 <= i < j < |players| && players[i].1 && players[j].1;
        assert t[j - 1] == players[j] == (players[j].0, true);
        if i == 0 {
          assert players[j].0 in AliveNames(t);
        } else {
          assert t[i - 1] == players[i];
        }
      }
    }
  }

  /**
   * The end-of-game check stated over the players themselves: the game goes
   * on exactly while two players are alive, ends without a winner when none
   * is, and is won by n exactly when n's player is the only one alive.
   */
  lemma GameOverOverPlayers(players: seq<(string, bool)>)
    ensures GameOver(players).None? <==>
            exists i, j :: 0 <= i < j < |players| && players[i].1 && players[j].1
    ensures GameOver(players) == Some(None) <==> forall i :: 0 <= i < |players| ==> !players[i].1
    ensures forall n :: GameOver(players) == Some(Some(n)) <==>
            exists i :: 0 <= i < |players| && players[i] == (n, true) &&
                        forall j :: 0 <= j < |players| && j != i ==> !players[j].1
  {
    AliveNamesAtLeastTwo(players);
    var alive := AliveNames(players);
    if alive == [] {
      forall i | 0 <= i < |players| ensures !players[i].1 {
        assert players[i].0 !in alive && players[i] == (players[i].0, players[i].1);
      }
    } else {
      assert alive[0] in alive;
    }
    forall n ensures GameOver(players) == Some(Some(n)) <==>
                     exists i :: 0 <= i < |players| && players[i] == (n, true) &&
                                 forall j :: 0 <= j < |players| && j != i ==> !players[j].1
    {
      if GameOver(players) == Some(Some(n)) {
        assert n in alive;
        var i :| 0 <= i < |players| && players[i] == (n, true);
        forall j | 0 <= j < |players| && j != i ensures !players[j].1 {
          assert !(players[i].1 && players[j].1);
        }
      }
      if exists i :: 0 <= i < |players| && players[i] == (n, true) &&
                     forall j :: 0 <= j < |players| && j != i ==> !players[j].1 {
        var i :| 0 <= i < |players| && players[i] == (n, true) &&
                 forall j :: 0 <= j < |players| && j != i ==> !players[j].1;
        assert n in alive;
        assert |alive| < 2;
        assert alive == [alive[0]];
        assert alive[0] in alive;
        var k :| 0 <= k < |players| && players[k] == (alive[0], true);
        assert k == i;
      }
    }
  }
}
