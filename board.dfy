/**
 * The 10x20 playfield of the game server (game/server.py): bounds and
 * collision (rows above the top are open), stamping a locked piece,
 * clearing full lines, and the line-clear score table. Row 0 is the top row;
 * a cell holds 0 when empty and a kind's colour code when filled.
 */
module Board {
  import opened Pieces

  const Width: int := 10
  const Height: int := 20

  type Row = seq<int>
  type Grid = seq<Row>

  /** Twenty rows of ten cells: the shape every board of the game has. */
  predicate WellFormed(b: Grid) {
    |b| == Height && forall y :: 0 <= y < |b| ==> |b[y]| == Width
  }

  function EmptyRow(): (r: Row)
    ensures |r| == Width && forall x :: 0 <= x < Width ==> r[x] == 0
  {
    seq(Width, _ => 0)
  }

  function EmptyRows(n: nat): (g: Grid)
    ensures |g| == n && forall y :: 0 <= y < n ==> g[y] == EmptyRow()
  {
    seq(n, _ => EmptyRow())
  }

  /** `in_bounds`: inside the ten columns and above the floor; rows above the top (y < 0) count as inside. */
  predicate InBounds(x: int, y: int)
    ensures 0 <= x < Width && y < 0 ==> InBounds(x, y)
  {
    0 <= x < Width && y < Height
  }

  /**
   * A cell that cannot be occupied: at or below the top row and either
   * outside the columns, below the floor, or already filled.
   */
  predicate Obstructed(b: Grid, p: Pos)
    requires WellFormed(b)
  {
    0 <= p.y && (p.x < 0 || Width <= p.x || Height <= p.y || b[p.y][p.x] != 0)
  }

  /** `collides`: the cells are tested in order; a cell above the top never collides. */
  function Collides(b: Grid, blocks: seq<Pos>): bool
    requires WellFormed(b)
  {
    if |blocks| == 0 then false
    else
      var p := blocks[0];
      if p.y >= 0 && (!InBounds(p.x, p.y) || b[p.y][p.x] != 0) then true
      else Collides(b, blocks[1..])
  }

  /** The cells collide exactly when one of them is obstructed. */
  lemma {:induction false} CollidesIff(b: Grid, blocks: seq<Pos>)
    requires WellFormed(b)
    ensures Collides(b, blocks) <==> exists i :: 0 <= i < |blocks| && Obstructed(b, blocks[i])
  {
    if |blocks| > 0 {
      CollidesIff(b, blocks[1..]);
      assert forall i :: 1 <= i < |blocks| ==> blocks[i] == blocks[1..][i - 1];
    }
  }

  /** A piece that fits is anchored less than two rows below the floor: this bounds every drop. */
  lemma FitsAboveFloor(b: Grid, k: Kind, orientation: int, x: int, y: int)
    requires WellFormed(b) && !Collides(b, GetBlocks(k, orientation, x, y))
    ensures y < Height + 2
  {
    var bs := GetBlocks(k, orientation, x, y);
    CollidesIff(b, bs);
    assert !Obstructed(b, bs[0]);
  }

  /** What `place_on_board` leaves: every on-board cell of the piece holds colour `c`, every other cell is unchanged. */
  function Stamp(b: Grid, blocks: seq<Pos>, c: int): (r: Grid)
    requires WellFormed(b)
    ensures WellFormed(r)
  {
    seq(Height, y requires 0 <= y < Height =>
      seq(Width, x requires 0 <= x < Width => if Pos(x, y) in blocks then c else b[y][x]))
  }

  /**
   * `place_on_board`: writes the kind's colour into every cell of the piece
   * that lies on the board, one block at a time; cells off the board
   * (above the top included) are skipped.
   */
  method PlaceOnBoard(b: Grid, blocks: seq<Pos>, k: Kind) returns (r: Grid)
    requires WellFormed(b)
    ensures r == Stamp(b, blocks, Color(k))
  {
    r := b;
    for i := 0 to |blocks|
      invariant WellFormed(r)
      invariant forall y, x :: 0 <= y < Height && 0 <= x < Width ==>
        r[y][x] == if Pos(x, y) in blocks[..i] then Color(k) else b[y][x]
    {
      var p := blocks[i];
      if 0 <= p.y < Height && 0 <= p.x < Width {
        r := r[p.y := r[p.y][p.x := Color(k)]];
      }
      assert blocks[..i + 1] == blocks[..i] + [p];
    }
    assert blocks[..|blocks|] == blocks;
    var s := Stamp(b, blocks, Color(k));
    assert forall y :: 0 <= y < Height ==> r[y] == s[y];
  }

  /** `all(row)`: every cell of the row is filled. */
  predicate Full(row: Row) {
    forall x :: 0 <= x < |row| ==> row[x] != 0
  }

  /** The rows that are not full, in their original top-to-bottom order. */
  function KeptRows(b: Grid): (r: Grid)
    ensures |r| <= |b|
  {
    if b == [] then []
    else KeptRows(b[..|b| - 1]) + (if Full(b[|b| - 1]) then [] else [b[|b| - 1]])
  }

  /** The number of full rows. */
  function CountFull(b: Grid): (n: nat)
    ensures n <= |b|
  {
    if b == [] then 0
    else CountFull(b[..|b| - 1]) + (if Full(b[|b| - 1]) then 1 else 0)
  }

  /** The board `clear_lines` builds: one empty row on top for every full row removed, then the kept rows. */
  function ClearedBoard(b: Grid): Grid {
    EmptyRows(CountFull(b)) + KeptRows(b)
  }

  /** Every row is either kept or counted as cleared; kept rows are exactly the non-full rows of the board. */
  lemma {:induction false} KeptRowsPartition(b: Grid)
    ensures |KeptRows(b)| + CountFull(b) == |b|
    ensures forall r :: r in KeptRows(b) <==> r in b && !Full(r)
  {
    if b != [] {
      var front := b[..|b| - 1];
      KeptRowsPartition(front);
      assert b == front + [b[|b| - 1]];
    }
  }

  /** Clearing keeps the board 20x10, leaves no full row behind, and a second clear finds nothing. */
  lemma ClearedBoardProperties(b: Grid)
    requires WellFormed(b)
    ensures WellFormed(ClearedBoard(b))
    ensures forall y :: 0 <= y < Height ==> !Full(ClearedBoard(b)[y])
    ensures CountFull(ClearedBoard(b)) == 0 && ClearedBoard(ClearedBoard(b)) == ClearedBoard(b)
  {
    KeptRowsPartition(b);
    var c := ClearedBoard(b);
    var n := CountFull(b);
    assert EmptyRow()[0] == 0;
    forall y | 0 <= y < Height
      ensures |c[y]| == Width && !Full(c[y])
    {
      if y >= n {
        assert c[y] == KeptRows(b)[y - n];
        assert c[y] in KeptRows(b);
      }
    }
    KeptRowsPartition(c);
    NoFullKeepsAll(c);
  }

  /** On a board without full rows nothing is counted and every row is kept. */
  lemma {:induction false} NoFullKeepsAll(b: Grid)
    requires forall y :: 0 <= y < |b| ==> !Full(b[y])
    ensures CountFull(b) == 0 && KeptRows(b) == b
  {
    if b != [] {
      var front := b[..|b| - 1];
      NoFullKeepsAll(front);
      assert b == front + [b[|b| - 1]];
    }
  }

  /** The second loop of `clear_lines`: insert `n` empty rows at the top, one at a time. */
  method PadTop(rows: Grid, n: nat) returns (r: Grid)
    ensures r == EmptyRows(n) + rows
  {
    r := rows;
    for k := 0 to n
      invariant r == EmptyRows(k) + rows
    {
      r := [EmptyRow()] + r;
      assert EmptyRows(k + 1) == [EmptyRow()] + EmptyRows(k);
    }
  }

  /**
   * `clear_lines`: scans the rows top to bottom, counting the full ones and
   * keeping the others in order, then inserts one empty row at the top for
   * each row cleared.
   */
  method ClearLines(b: Grid) returns (nb: Grid, cleared: nat)
    requires WellFormed(b)
    ensures cleared == CountFull(b) && nb == ClearedBoard(b)
    ensures WellFormed(nb)
  {
    cleared := 0;
    nb := [];
    for i := 0 to |b|
      invariant cleared == CountFull(b[..i])
      invariant nb == KeptRows(b[..i])
    {
      assert b[..i + 1][..i] == b[..i];
      if Full(b[i]) {
        cleared := cleared + 1;
      } else {
        nb := nb + [b[i]];
      }
    }
    assert b[..|b|] == b;
    nb := PadTop(nb, cleared);
    ClearedBoardProperties(b);
  }

  /** `score_for_clear`: 0, 100, 300, 500, 800 for 0 to 4 lines, and 200 per line beyond the table. */
  function ScoreForClear(lines: nat): (r: nat)
    ensures r == 0 <==> lines == 0
  {
    if lines == 0 then 0
    else if lines == 1 then 100
    else if lines == 2 then 300
    else if lines == 3 then 500
    else if lines == 4 then 800
    else lines * 200
  }

  /** More lines cleared at once always score strictly more. */
  lemma ScoreIncreasing(m: nat, n: nat)
    requires m < n
    ensures ScoreForClear(m) < ScoreForClear(n)
  {
  }

  /** Clearing lines together never scores less than clearing them in two separate locks. */
  lemma ScoreSuperadditive(m: nat, n: nat)
    ensures ScoreForClear(m) + ScoreForClear(n) <= ScoreForClear(m + n)
  {
  }

  /** Each cleared line is worth between 100 and 200 points. */
  lemma ScorePerLine(n: nat)
    ensures 100 * n <= ScoreForClear(n) <= 200 * n
  {
  }
}
