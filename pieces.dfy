/**
 * Tetromino geometry of the game server (game/server.py): the seven kinds,
 * their spawn-orientation offsets, clockwise and counter-clockwise rotation
 * of offset lists, `Piece.get_blocks`, and the SRS-style wall-kick tables.
 * Coordinates are board cells with x to the right and y downwards.
 */
module Pieces {
  import opened Wrappers

  datatype Kind = I | O | T | S | Z | J | L
  datatype Pos = Pos(x: int, y: int)

  /** The keys of TETROMINO_BASE in insertion order: the unshuffled bag. */
  const AllKinds: seq<Kind> := [I, O, T, S, Z, J, L]

  /** TETROMINO_BASE: the offsets of the four cells in orientation 0. */
  function Base(k: Kind): (cs: seq<Pos>)
    ensures |cs| == 4
    ensures forall i :: 0 <= i < 4 ==> InBox(cs[i])
  {
    match k
    case I => [Pos(-2, 0), Pos(-1, 0), Pos(0, 0), Pos(1, 0)]
    case O => [Pos(0, 0), Pos(1, 0), Pos(0, 1), Pos(1, 1)]
    case T => [Pos(-1, 0), Pos(0, 0), Pos(1, 0), Pos(0, 1)]
    case S => [Pos(-1, 1), Pos(0, 1), Pos(0, 0), Pos(1, 0)]
    case Z => [Pos(-1, 0), Pos(0, 0), Pos(0, 1), Pos(1, 1)]
    case J => [Pos(-1, 0), Pos(0, 0), Pos(1, 0), Pos(-1, 1)]
    case L => [Pos(-1, 0), Pos(0, 0), Pos(1, 0), Pos(1, 1)]
  }

  /** COLOR_CODE: the non-zero value a locked cell of this kind holds on the board. */
  function Color(k: Kind): (c: int)
    ensures 1 <= c <= 7
  {
    match k
    case I => 1
    case O => 2
    case T => 3
    case S => 4
    case Z => 5
    case J => 6
    case L => 7
  }

  /** Different kinds lock as different colours, so a locked cell tells its kind. */
  lemma ColorInjective(k: Kind, k': Kind)
    requires Color(k) == Color(k')
    ensures k == k'
  {
  }

  /** Every offset of every kind, in every orientation, lies in the 5x5 box around the pivot. */
  predicate InBox(p: Pos) {
    -2 <= p.x <= 2 && -2 <= p.y <= 2
  }

  /** `rotate_cw`: (x, y) -> (y, -x), elementwise. */
  function RotateCw(cs: seq<Pos>): (r: seq<Pos>)
    ensures |r| == |cs|
  {
    seq(|cs|, i requires 0 <= i < |cs| => Pos(cs[i].y, -cs[i].x))
  }

  /** `rotate_ccw`: (x, y) -> (-y, x), elementwise. */
  function RotateCcw(cs: seq<Pos>): (r: seq<Pos>)
    ensures |r| == |cs|
  {
    seq(|cs|, i requires 0 <= i < |cs| => Pos(-cs[i].y, cs[i].x))
  }

  /** Counter-clockwise rotation undoes clockwise rotation. */
  lemma CcwUndoesCw(cs: seq<Pos>)
    ensures RotateCcw(RotateCw(cs)) == cs
  {
    var r := RotateCcw(RotateCw(cs));
    assert forall i :: 0 <= i < |cs| ==> r[i] == cs[i];
  }

  /** Clockwise rotation undoes counter-clockwise rotation. */
  lemma CwUndoesCcw(cs: seq<Pos>)
    ensures RotateCw(RotateCcw(cs)) == cs
  {
    var r := RotateCw(RotateCcw(cs));
    assert forall i :: 0 <= i < |cs| ==> r[i] == cs[i];
  }

  /** Rotation keeps offsets inside the box. */
  lemma RotateCwInBox(cs: seq<Pos>)
    requires forall i :: 0 <= i < |cs| ==> InBox(cs[i])
    ensures forall i :: 0 <= i < |cs| ==> InBox(RotateCw(cs)[i])
  {
  }

  /** The loop of `get_blocks`: `n` clockwise quarter turns. */
  function RotateTimes(cs: seq<Pos>, n: nat): (r: seq<Pos>)
    ensures |r| == |cs|
  {
    if n == 0 then cs else RotateCw(RotateTimes(cs, n - 1))
  }

  /** Turning a shape `n` times keeps every offset in the box. */
  lemma {:induction false} RotateTimesInBox(cs: seq<Pos>, n: nat)
    requires forall i :: 0 <= i < |cs| ==> InBox(cs[i])
    ensures forall i :: 0 <= i < |cs| ==> InBox(RotateTimes(cs, n)[i])
  {
    if n > 0 {
      RotateTimesInBox(cs, n - 1);
      RotateCwInBox(RotateTimes(cs, n - 1));
    }
  }

  /** Four clockwise quarter turns give back the original offsets. */
  lemma FourTurns(cs: seq<Pos>)
    ensures RotateTimes(cs, 4) == cs
  {
    var r1 := RotateTimes(cs, 1);
    assert r1 == RotateCw(RotateTimes(cs, 0)) == RotateCw(cs);
    var r2 := RotateTimes(cs, 2);
    assert r2 == RotateCw(r1);
    var r3 := RotateTimes(cs, 3);
    assert r3 == RotateCw(r2);
    var r := RotateTimes(cs, 4);
    assert r == RotateCw(r3);
    assert forall i :: 0 <= i < |cs| ==> r1[i] == Pos(cs[i].y, -cs[i].x);
    assert forall i :: 0 <= i < |cs| ==> r2[i] == Pos(-cs[i].x, -cs[i].y);
    assert forall i :: 0 <= i < |cs| ==> r3[i] == Pos(-cs[i].y, cs[i].x);
    assert forall i :: 0 <= i < |cs| ==> r[i] == cs[i];
  }

  /** Move every offset by (x, y). */
  function Translate(cs: seq<Pos>, x: int, y: int): (r: seq<Pos>)
    ensures |r| == |cs|
  {
    seq(|cs|, i requires 0 <= i < |cs| => Pos(x + cs[i].x, y + cs[i].y))
  }

  /**
   * `Piece.get_blocks(orientation, x, y)`: the base offsets turned clockwise
   * `orientation % 4` times (Python's `%` and Dafny's agree for the divisor
   * 4), then moved to (x, y). Every cell is within two of (x, y) on each axis.
   */
  function GetBlocks(k: Kind, orientation: int, x: int, y: int): (bs: seq<Pos>)
    ensures |bs| == 4
    ensures forall i :: 0 <= i < 4 ==> x - 2 <= bs[i].x <= x + 2 && y - 2 <= bs[i].y <= y + 2
  {
    RotateTimesInBox(Base(k), orientation % 4);
    Translate(RotateTimes(Base(k), orientation % 4), x, y)
  }

  /** One more orientation step is one clockwise quarter turn of the piece about its origin cell. */
  lemma GetBlocksTurn(k: Kind, orientation: int)
    ensures GetBlocks(k, orientation + 1, 0, 0) == RotateCw(GetBlocks(k, orientation, 0, 0))
  {
    var n := orientation % 4;
    var cs := Base(k);
    if n == 3 {
      assert (orientation + 1) % 4 == 0;
      FourTurns(cs);
      assert RotateTimes(cs, 4) == RotateCw(RotateTimes(cs, 3));
    } else {
      assert (orientation + 1) % 4 == n + 1;
    }
    var a := GetBlocks(k, orientation + 1, 0, 0);
    var b := RotateCw(GetBlocks(k, orientation, 0, 0));
    assert forall i :: 0 <= i < 4 ==> a[i] == b[i];
  }

  /** Moving the anchor by (dx, dy) moves every cell by (dx, dy). */
  lemma GetBlocksShift(k: Kind, orientation: int, x: int, y: int, dx: int, dy: int)
    ensures GetBlocks(k, orientation, x + dx, y + dy) == Translate(GetBlocks(k, orientation, x, y), dx, dy)
  {
    var a := GetBlocks(k, orientation, x + dx, y + dy);
    var b := Translate(GetBlocks(k, orientation, x, y), dx, dy);
    assert forall i :: 0 <= i < 4 ==> a[i] == b[i];
  }

  /** Two orientations one quarter turn apart, either way round. */
  predicate Neighbours(from: int, to: int) {
    0 <= from < 4 && 0 <= to < 4 && ((to - from) % 4 == 1 || (to - from) % 4 == 3)
  }

  /**
   * JLSTZ_KICKS, with `dict.get` returning None for a missing (from, to)
   * key: exactly the eight quarter turns have five tests, starting in place.
   */
  function JlstzKicks(from: int, to: int): (r: Option<seq<Pos>>)
    ensures r.Some? <==> Neighbours(from, to)
    ensures r.Some? ==> |r.value| == 5 && r.value[0] == Pos(0, 0)
  {
    match (from, to)
    case (0, 1) => Some([Pos(0, 0), Pos(-1, 0), Pos(-1, 1), Pos(0, -2), Pos(-1, -2)])
    case (1, 0) => Some([Pos(0, 0), Pos(1, 0), Pos(1, -1), Pos(0, 2), Pos(1, 2)])
    case (1, 2) => Some([Pos(0, 0), Pos(1, 0), Pos(1, -1), Pos(0, 2), Pos(1, 2)])
    case (2, 1) => Some([Pos(0, 0), Pos(-1, 0), Pos(-1, 1), Pos(0, -2), Pos(-1, -2)])
    case (2, 3) => Some([Pos(0, 0), Pos(1, 0), Pos(1, 1), Pos(0, -2), Pos(1, -2)])
    case (3, 2) => Some([Pos(0, 0), Pos(-1, 0), Pos(-1, -1), Pos(0, 2), Pos(-1, 2)])
    case (3, 0) => Some([Pos(0, 0), Pos(-1, 0), Pos(-1, -1), Pos(0, 2), Pos(-1, 2)])
    case (0, 3) => Some([Pos(0, 0), Pos(1, 0), Pos(1, 1), Pos(0, -2), Pos(1, -2)])
    case _ => None
  }

  /** I_KICKS, with `dict.get` returning None for a missing (from, to) key; the same keys as JLSTZ_KICKS. */
  function IKicks(from: int, to: int): (r: Option<seq<Pos>>)
    ensures r.Some? <==> Neighbours(from, to)
    ensures r.Some? ==> |r.value| == 5 && r.value[0] == Pos(0, 0)
  {
    match (from, to)
    case (0, 1) => Some([Pos(0, 0), Pos(-2, 0), Pos(1, 0), Pos(-2, -1), Pos(1, 2)])
    case (1, 0) => Some([Pos(0, 0), Pos(2, 0), Pos(-1, 0), Pos(2, 1), Pos(-1, -2)])
    case (1, 2) => Some([Pos(0, 0), Pos(-1, 0), Pos(2, 0), Pos(-1, 2), Pos(2, -1)])
    case (2, 1) => Some([Pos(0, 0), Pos(1, 0), Pos(-2, 0), Pos(1, -2), Pos(-2, 1)])
    case (2, 3) => Some([Pos(0, 0), Pos(2, 0), Pos(-1, 0), Pos(2, 1), Pos(-1, -2)])
    case (3, 2) => Some([Pos(0, 0), Pos(-2, 0), Pos(1, 0), Pos(-2, -1), Pos(1, 2)])
    case (3, 0) => Some([Pos(0, 0), Pos(1, 0), Pos(-2, 0), Pos(1, -2), Pos(-2, 1)])
    case (0, 3) => Some([Pos(0, 0), Pos(-1, 0), Pos(2, 0), Pos(-1, 2), Pos(2, -1)])
    case _ => None
  }

  /**
   * `get_kicks`: the I piece uses I_KICKS, the O piece only ever tries
   * (0, 0), every other kind uses JLSTZ_KICKS; a missing key gives [(0, 0)].
   * In every case the first offset tried is (0, 0), a rotation in place.
   */
  function GetKicks(k: Kind, from: int, to: int): (r: seq<Pos>)
    ensures 1 <= |r| <= 5 && r[0] == Pos(0, 0)
    ensures k == O ==> r == [Pos(0, 0)]
  {
    var table := if k == I then IKicks(from, to) else JlstzKicks(from, to);
    if k == O then [Pos(0, 0)]
    else if table.Some? then table.value
    else [Pos(0, 0)]
  }

  function Negate(cs: seq<Pos>): (r: seq<Pos>)
    ensures |r| == |cs|
  {
    seq(|cs|, i requires 0 <= i < |cs| => Pos(-cs[i].x, -cs[i].y))
  }

  /** The tables are symmetric: rotating back tries the opposite offsets, in the same order. */
  lemma KicksReverse(k: Kind, from: int, to: int)
    ensures GetKicks(k, to, from) == Negate(GetKicks(k, from, to))
  {
    var a := GetKicks(k, to, from);
    var b := Negate(GetKicks(k, from, to));
    assert |a| == |b|;
    assert forall i :: 0 <= i < |a| ==> a[i] == b[i];
  }

  /** Between neighbouring orientations every key is present: five tests, or one for O. */
  lemma KicksBetweenNeighbours(k: Kind, from: int, clockwise: bool)
    requires 0 <= from < 4
    ensures |GetKicks(k, from, (from + (if clockwise then 1 else -1)) % 4)| == if k == O then 1 else 5
  {
  }
}
