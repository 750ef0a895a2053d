// createInitialBoard of src/utils/rules.js: men of A on ranks 2 and 3, men of B
// on ranks 6 and 7, every other cell empty.
module InitialPosition {
  import opened BoardModel

  /** The starting content of a cell on the given rank. */
  function StartCell(rank: int): Cell {
    if rank == 2 || rank == 3 then Some(Piece(A, false))
    else if rank == 6 || rank == 7 then Some(Piece(B, false))
    else None
  }

  /**
   * The starting position: every piece is a man, A's fill ranks 2 and 3, B's
   * fill ranks 6 and 7, and the cells of ranks 1, 4, 5 and 8 are empty.
   */
  function InitialBoard(): (b: Board)
    ensures forall i :: 0 <= i < 64 && b[i].Some? ==> !b[i].value.isKing
    ensures forall i :: 0 <= i < 64 ==> (IsPieceOf(b[i], A) <==> RowOf(i) == 2 || RowOf(i) == 3)
    ensures forall i :: 0 <= i < 64 ==> (IsPieceOf(b[i], B) <==> RowOf(i) == 6 || RowOf(i) == 7)
    ensures forall i :: 0 <= i < 64 ==> (b[i] == None <==> RowOf(i) in {1, 4, 5, 8})
  {
    seq(64, i requires 0 <= i < 64 => StartCell(RowOf(i)))
  }

  /** createInitialBoard: an array of 64 empty cells filled rank by rank, file by file. */
  method CreateInitialBoard() returns (board: Board)
    ensures board == InitialBoard()
  {
    var b := new Cell[64](_ => None);
    var r := 0;
    while r < ROWS
      invariant 0 <= r <= ROWS
      invariant forall j :: 0 <= j < r * 8 ==> b[j] == StartCell(RowOf(j))
    {
      var c := 0;
      while c < COLS
        invariant 0 <= c <= COLS
        invariant forall j :: 0 <= j < r * 8 + c ==> b[j] == StartCell(RowOf(j))
      {
        var idx := r * 8 + c;
        var rank := r + 1;
        assert RowOf(idx) == rank;
        if rank == 2 || rank == 3 {
          b[idx] := Some(Piece(A, false));
        } else if rank == 6 || rank == 7 {
          b[idx] := Some(Piece(B, false));
        } else {
          b[idx] := None;
        }
        c := c + 1;
      }
      r := r + 1;
    }
    board := b[..];
  }

  /** The number of A and of B pieces among the first k cells of the starting position. */
  lemma {:induction false} InitialPrefixCounts(k: int)
    requires 0 <= k <= 64
    ensures CountOf(InitialBoard()[..k], A) == if k <= 8 then 0 else if k <= 24 then k - 8 else 16
    ensures CountOf(InitialBoard()[..k], B) == if k <= 40 then 0 else if k <= 56 then k - 40 else 16
  {
    if k > 0 {
      InitialPrefixCounts(k - 1);
      assert InitialBoard()[..k][..k - 1] == InitialBoard()[..k - 1];
    }
  }

  /** Each side starts with 16 pieces. */
  lemma {:induction false} InitialCounts()
    ensures CountOf(InitialBoard(), A) == 16 && CountOf(InitialBoard(), B) == 16
  {
    InitialPrefixCounts(64);
    assert InitialBoard()[..64] == InitialBoard();
  }
}
