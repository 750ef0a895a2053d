// The 8x8 board of Turkish draughts (Dama): 64 cells in row-major order,
// row 0 being rank 1, with index = (rank - 1) * 8 + (file - 1).
module BoardModel {

  datatype Option<T> = None | Some(value: T)

  /** Side A starts on ranks 2-3 and advances toward rank 8; side B the opposite way. */
  datatype Player = A | B

  datatype Piece = Piece(player: Player, isKing: bool)

  /** A cell is empty (`null` in the source) or holds a piece. */
  type Cell = Option<Piece>

  const ROWS: int := 8
  const COLS: int := 8

  /** The index of one of the 64 cells. */
  type Square = i: int | 0 <= i < 64

  type Board = b: seq<Cell> | |b| == 64 witness seq(64, _ => None)

  predicate IsPieceOf(cell: Cell, p: Player) {
    cell.Some? && cell.value.player == p
  }

  function Opponent(p: Player): (q: Player)
    ensures q != p && (q == A || q == B)
  {
    if p == A then B else A
  }

  // ---------------------------------------------------------------------
  // Coordinates

  /** A square in algebraic form: file letter and 1-based rank. */
  datatype Coord = Coord(file: char, rank: int)

  /**
   * The index of a square given as file letter and rank; no range check is made,
   * but a file in 'a'..'h' and a rank in 1..8 give the square of that rank and file.
   */
  function CoordToIndex(file: char, rank: int): (i: int)
    ensures 'a' <= file <= 'h' && 1 <= rank <= 8 ==>
      0 <= i < 64 && RowOf(i) == rank && ColOf(i) == file as int - 'a' as int + 1
  {
    (rank - 1) * 8 + (file as int - 'a' as int)
  }

  function IndexToCoord(idx: Square): (c: Coord)
    ensures 'a' <= c.file <= 'h' && 1 <= c.rank <= 8
    ensures CoordToIndex(c.file, c.rank) == idx
  {
    Coord(('a' as int + idx % 8) as char, idx / 8 + 1)
  }

  lemma {:induction false} CoordRoundTrip(file: char, rank: int)
    requires 'a' <= file <= 'h' && 1 <= rank <= 8
    ensures 0 <= CoordToIndex(file, rank) < 64
    ensures IndexToCoord(CoordToIndex(file, rank)) == Coord(file, rank)
  {
    var i := CoordToIndex(file, rank);
    var col := file as int - 'a' as int;
    assert i == (rank - 1) * 8 + col && 0 <= col < 8;
    assert i / 8 == rank - 1 && i % 8 == col;
  }

  /** The 1-based rank of a square. */
  function RowOf(idx: Square): (r: int)
    ensures 1 <= r <= ROWS
  {
    idx / 8 + 1
  }

  /** The 1-based file of a square. */
  function ColOf(idx: Square): (c: int)
    ensures 1 <= c <= COLS
  {
    idx % 8 + 1
  }

  predicate InBoard(r: int, c: int) {
    r >= 1 && r <= ROWS && c >= 1 && c <= COLS
  }

  /**
   * A rank and file pass inBoard exactly when they are those of a square: the
   * index `(r - 1) * 8 + (c - 1)` of an in-board pair is a square with that rank
   * and file, and an off-board pair is the rank and file of no square.
   */
  lemma {:induction false} InBoardSquare(r: int, c: int)
    ensures InBoard(r, c) ==>
      0 <= (r - 1) * 8 + (c - 1) < 64 && RowOf((r - 1) * 8 + (c - 1)) == r && ColOf((r - 1) * 8 + (c - 1)) == c
    ensures !InBoard(r, c) ==> forall i :: 0 <= i < 64 ==> RowOf(i) != r || ColOf(i) != c
  {
  }

  /** The square at rank r and file c, both 1-based. */
  function IndexOf(r: int, c: int): (i: Square)
    requires InBoard(r, c)
    ensures RowOf(i) == r && ColOf(i) == c
  {
    (r - 1) * 8 + (c - 1)
  }

  lemma {:induction false} IndexOfRowCol(i: Square)
    ensures IndexOf(RowOf(i), ColOf(i)) == i
  {
  }

  // ---------------------------------------------------------------------
  // Directions and rays

  /** The four orthogonal directions: Up is toward rank 8, Right toward file h. */
  datatype Dir = Up | Down | Left | Right

  /** The rank reached from rank r after k steps in direction d. */
  function RowAt(r: int, d: Dir, k: int): int {
    match d
    case Up => r + k
    case Down => r - k
    case _ => r
  }

  /** The file reached from file c after k steps in direction d. */
  function ColAt(c: int, d: Dir, k: int): int {
    match d
    case Right => c + k
    case Left => c - k
    case _ => c
  }

  predicate OnBoardAt(r: int, c: int, d: Dir, k: int) {
    InBoard(RowAt(r, d, k), ColAt(c, d, k))
  }

  /** The square k steps away from (r, c) in direction d. */
  function SquareAt(r: int, c: int, d: Dir, k: int): Square
    requires OnBoardAt(r, c, d, k)
  {
    IndexOf(RowAt(r, d, k), ColAt(c, d, k))
  }

  predicate EmptyAt(b: Board, r: int, c: int, d: Dir, k: int) {
    OnBoardAt(r, c, d, k) && b[SquareAt(r, c, d, k)] == None
  }

  /** The first n squares from (r, c) in direction d are on the board and empty. */
  predicate ClearThrough(b: Board, r: int, c: int, d: Dir, n: int) {
    forall j :: 1 <= j <= n ==> EmptyAt(b, r, c, d, j)
  }

  /** The number of steps from (r, c) to the edge of the board in direction d. */
  function Reach(r: int, c: int, d: Dir): (n: nat)
    requires InBoard(r, c)
    ensures n <= 7
    ensures forall k :: 1 <= k <= n ==> OnBoardAt(r, c, d, k)
    ensures !OnBoardAt(r, c, d, n + 1)
  {
    match d
    case Up => 8 - r
    case Down => r - 1
    case Right => 8 - c
    case Left => c - 1
  }

  /** Once a ray leaves the board it never comes back. */
  lemma {:induction false} OffBoardStaysOff(r: int, c: int, d: Dir, k: int, k': int)
    requires InBoard(r, c) && 0 <= k <= k'
    requires !OnBoardAt(r, c, d, k)
    ensures !OnBoardAt(r, c, d, k')
  {
  }

  /** Stepping once and then k more times is stepping k + 1 times. */
  lemma {:induction false} StepShift(r: int, c: int, d: Dir, k: int)
    ensures RowAt(RowAt(r, d, 1), d, k) == RowAt(r, d, k + 1)
    ensures ColAt(ColAt(c, d, 1), d, k) == ColAt(c, d, k + 1)
  {
  }

  lemma {:induction false} StepShiftBy(r: int, c: int, d: Dir, m: int, k: int)
    ensures RowAt(RowAt(r, d, m), d, k) == RowAt(r, d, m + k)
    ensures ColAt(ColAt(c, d, m), d, k) == ColAt(c, d, m + k)
  {
  }

  /**
   * The empty squares met when walking from (r, c) in direction d, in order,
   * up to (not including) the first occupied square or the edge.
   */
  function Ray(b: Board, r: int, c: int, d: Dir): seq<Square>
    requires InBoard(r, c)
    decreases Reach(r, c, d)
  {
    if !OnBoardAt(r, c, d, 1) then []
    else
      var next := SquareAt(r, c, d, 1);
      if b[next] != None then []
      else [next] + Ray(b, RowAt(r, d, 1), ColAt(c, d, 1), d)
  }

  /** Seen from the next square, every square of a ray is one step closer. */
  lemma {:induction false} EmptyShift(b: Board, r: int, c: int, d: Dir, k: int)
    ensures OnBoardAt(RowAt(r, d, 1), ColAt(c, d, 1), d, k) <==> OnBoardAt(r, c, d, k + 1)
    ensures OnBoardAt(r, c, d, k + 1) ==> SquareAt(RowAt(r, d, 1), ColAt(c, d, 1), d, k) == SquareAt(r, c, d, k + 1)
    ensures EmptyAt(b, RowAt(r, d, 1), ColAt(c, d, 1), d, k) <==> EmptyAt(b, r, c, d, k + 1)
  {
    StepShift(r, c, d, k);
  }

  /**
   * The ray from (r, c) in direction d lists, in order, the squares at distance
   * 1, 2, ... up to the first square that is off the board or occupied.
   */
  lemma {:induction false} RayShape(b: Board, r: int, c: int, d: Dir)
    requires InBoard(r, c)
    ensures forall k :: 1 <= k <= |Ray(b, r, c, d)| ==>
      EmptyAt(b, r, c, d, k) && Ray(b, r, c, d)[k - 1] == SquareAt(r, c, d, k)
    ensures !EmptyAt(b, r, c, d, |Ray(b, r, c, d)| + 1)
  {
    forall k | 1 <= k <= |Ray(b, r, c, d)|
      ensures EmptyAt(b, r, c, d, k) && Ray(b, r, c, d)[k - 1] == SquareAt(r, c, d, k)
    {
      RaySquare(b, r, c, d, k);
    }
    RayEnd(b, r, c, d);
  }

  /** The k-th square of a ray is the empty square at distance k. */
  lemma {:induction false} RaySquare(b: Board, r: int, c: int, d: Dir, k: int)
    requires InBoard(r, c) && 1 <= k <= |Ray(b, r, c, d)|
    ensures EmptyAt(b, r, c, d, k) && Ray(b, r, c, d)[k - 1] == SquareAt(r, c, d, k)
    decreases k
  {
    if k > 1 {
      var r', c' := RowAt(r, d, 1), ColAt(c, d, 1);
      assert Ray(b, r, c, d) == [SquareAt(r, c, d, 1)] + Ray(b, r', c', d);
      RaySquare(b, r', c', d, k - 1);
      EmptyShift(b, r, c, d, k - 1);
    }
  }

  /** A ray stops at the first square that is off the board or occupied. */
  lemma {:induction false} RayEnd(b: Board, r: int, c: int, d: Dir)
    requires InBoard(r, c)
    ensures !EmptyAt(b, r, c, d, |Ray(b, r, c, d)| + 1)
    decreases Reach(r, c, d)
  {
    if !OnBoardAt(r, c, d, 1) || b[SquareAt(r, c, d, 1)] != None {
      assert |Ray(b, r, c, d)| == 0;
    } else {
      var r', c' := RowAt(r, d, 1), ColAt(c, d, 1);
      var tail := Ray(b, r', c', d);
      assert Reach(r', c', d) == Reach(r, c, d) - 1;
      assert Ray(b, r, c, d) == [SquareAt(r, c, d, 1)] + tail;
      RayEnd(b, r', c', d);
      EmptyShift(b, r, c, d, |tail| + 1);
    }
  }

  /** t is the square at distance k from (r, c) in direction d, and it and every square before it are empty. */
  predicate ReachedAt(b: Board, r: int, c: int, d: Dir, k: int, t: Square) {
    1 <= k && ClearThrough(b, r, c, d, k - 1) && EmptyAt(b, r, c, d, k) && t == SquareAt(r, c, d, k)
  }

  /** One more step along a ray moves its first square from the ray to what is already done. */
  lemma {:induction false} RaySplit(b: Board, r: int, c: int, d: Dir, done: seq<Square>, whole: seq<Square>)
    requires InBoard(r, c) && OnBoardAt(r, c, d, 1) && b[SquareAt(r, c, d, 1)] == None
    requires done + Ray(b, r, c, d) == whole
    ensures InBoard(RowAt(r, d, 1), ColAt(c, d, 1))
    ensures (done + [SquareAt(r, c, d, 1)]) + Ray(b, RowAt(r, d, 1), ColAt(c, d, 1), d) == whole
  {
    var first := SquareAt(r, c, d, 1);
    var rest := Ray(b, RowAt(r, d, 1), ColAt(c, d, 1), d);
    assert Ray(b, r, c, d) == [first] + rest;
    assert (done + [first]) + rest == done + ([first] + rest);
  }

  /** Every square of a ray is empty. */
  lemma {:induction false} RayEmpty(b: Board, r: int, c: int, d: Dir)
    requires InBoard(r, c)
    ensures forall j :: 0 <= j < |Ray(b, r, c, d)| ==> b[Ray(b, r, c, d)[j]] == None
  {
    RayShape(b, r, c, d);
    var ray := Ray(b, r, c, d);
    forall j | 0 <= j < |ray| ensures b[ray[j]] == None {
      assert EmptyAt(b, r, c, d, j + 1);
    }
  }

  /** The squares on a ray are exactly the empty squares reached through empty squares. */
  lemma {:induction false} RayExactly(b: Board, r: int, c: int, d: Dir, t: Square)
    requires InBoard(r, c)
    ensures t in Ray(b, r, c, d) <==>
      exists k :: ReachedAt(b, r, c, d, k, t)
  {
    if t in Ray(b, r, c, d) {
      RayMemberAt(b, r, c, d, t);
    } else {
      forall k | ReachedAt(b, r, c, d, k, t)
        ensures false
      {
        RayContainsClear(b, r, c, d, k);
      }
    }
  }

  lemma {:induction false} RayMemberAt(b: Board, r: int, c: int, d: Dir, t: Square)
    requires InBoard(r, c) && t in Ray(b, r, c, d)
    ensures exists k :: ReachedAt(b, r, c, d, k, t)
  {
    var ray := Ray(b, r, c, d);
    RayShape(b, r, c, d);
    var i :| 0 <= i < |ray| && ray[i] == t;
    var k := i + 1;
    assert ray[k - 1] == t;
    assert ClearThrough(b, r, c, d, k - 1);
    assert ReachedAt(b, r, c, d, k, t);
  }

  lemma {:induction false} RayContainsClear(b: Board, r: int, c: int, d: Dir, k: int)
    requires InBoard(r, c) && 1 <= k
    requires ClearThrough(b, r, c, d, k - 1) && EmptyAt(b, r, c, d, k)
    ensures k <= |Ray(b, r, c, d)| && Ray(b, r, c, d)[k - 1] == SquareAt(r, c, d, k)
  {
    var n := |Ray(b, r, c, d)|;
    RayShape(b, r, c, d);
    assert forall j :: 1 <= j <= k ==> EmptyAt(b, r, c, d, j);
  }

  // ---------------------------------------------------------------------
  // Counting pieces

  /** The number of cells of s that hold a piece of p. */
  function CountOf(s: seq<Cell>, p: Player): (n: nat)
    ensures n <= |s|
  {
    if s == [] then 0
    else CountOf(s[..|s| - 1], p) + (if IsPieceOf(s[|s| - 1], p) then 1 else 0)
  }

  function Indicator(cell: Cell, p: Player): nat {
    if IsPieceOf(cell, p) then 1 else 0
  }

  lemma {:induction false} CountUpdate(s: seq<Cell>, i: int, v: Cell, p: Player)
    requires 0 <= i < |s|
    ensures CountOf(s[i := v], p) == CountOf(s, p) - Indicator(s[i], p) + Indicator(v, p)
  {
    var n := |s| - 1;
    if i < n {
      assert s[i := v][..n] == s[..n][i := v];
      CountUpdate(s[..n], i, v, p);
    } else {
      assert s[i := v][..n] == s[..n];
    }
  }

  /** A player has no pieces exactly when no cell holds one of theirs. */
  lemma {:induction false} CountZeroIff(s: seq<Cell>, p: Player)
    ensures CountOf(s, p) == 0 <==> forall i :: 0 <= i < |s| ==> !IsPieceOf(s[i], p)
  {
    if s != [] {
      var n := |s| - 1;
      CountZeroIff(s[..n], p);
      if CountOf(s, p) == 0 {
        forall i | 0 <= i < |s| ensures !IsPieceOf(s[i], p) {
          if i < n { assert s[i] == s[..n][i]; }
        }
      } else if forall i :: 0 <= i < |s| ==> !IsPieceOf(s[i], p) {
        forall i | 0 <= i < n ensures !IsPieceOf(s[..n][i], p) {
          assert s[..n][i] == s[i];
        }
        assert false;
      }
    }
  }

  // ---------------------------------------------------------------------
  // One jump, as both the capture search and the move applier perform it

  /**
   * The board after the piece on `from` jumps to `to` over `jumped`: the piece is
   * copied to `to`, then `from` and `jumped` are cleared, in that order.
   */
  function JumpBoard(b: Board, from: Square, jumped: Square, to: Square): Board {
    b[to := b[from]][from := None][jumped := None]
  }

  /** A jump of a piece of p over an opponent piece onto an empty square removes exactly one opponent piece. */
  lemma {:induction false} JumpRemovesOne(b: Board, from: Square, jumped: Square, to: Square, p: Player)
    requires IsPieceOf(b[from], p) && IsPieceOf(b[jumped], Opponent(p)) && b[to] == None
    ensures CountOf(JumpBoard(b, from, jumped, to), Opponent(p)) == CountOf(b, Opponent(p)) - 1
    ensures CountOf(JumpBoard(b, from, jumped, to), p) == CountOf(b, p)
  {
    var q := Opponent(p);
    var b1 := b[to := b[from]];
    var b2 := b1[from := None];
    CountUpdate(b, to, b[from], q);
    CountUpdate(b1, from, None, q);
    CountUpdate(b2, jumped, None, q);
    CountUpdate(b, to, b[from], p);
    CountUpdate(b1, from, None, p);
    CountUpdate(b2, jumped, None, p);
  }

  // ---------------------------------------------------------------------
  // Promotion

  /** The rank on which a man of p becomes a king. */
  function PromotionRank(p: Player): (r: int)
    ensures r == 1 || r == 8
    ensures (r == 8) <==> (p == A)
  {
    if p == A then 8 else 1
  }

  predicate Promotes(p: Player, sq: Square) {
    RowOf(sq) == PromotionRank(p)
  }

  /** The direction a man of p advances in. */
  function Forward(p: Player): (d: Dir)
    ensures d == Up || d == Down
  {
    if p == A then Up else Down
  }

  /** A man's directions, in the order the source tries them: forward, left, right. */
  function ManDirs(p: Player): (ds: seq<Dir>)
    ensures Up in ds <==> p == A
    ensures Down in ds <==> p == B
  {
    [Forward(p), Left, Right]
  }

  /** A king's directions, in the order the source tries them. */
  const KingDirs: seq<Dir> := [Up, Down, Right, Left]

  // ---------------------------------------------------------------------
  // Lists built square by square

  /** The lists of t, concatenated in order. */
  function Flatten<T>(t: seq<seq<T>>): seq<T> {
    if t == [] then [] else Flatten(t[..|t| - 1]) + t[|t| - 1]
  }

  lemma {:induction false} FlattenSnoc<T>(t: seq<seq<T>>, k: int)
    requires 0 <= k < |t|
    ensures Flatten(t[..k + 1]) == Flatten(t[..k]) + t[k]
  {
    assert t[..k + 1][..k] == t[..k];
  }

  lemma {:induction false} FlattenMember<T>(t: seq<seq<T>>, x: T)
    ensures x in Flatten(t) <==> exists k :: 0 <= k < |t| && x in t[k]
  {
    if t != [] {
      var n := |t| - 1;
      FlattenMember(t[..n], x);
      if x in Flatten(t) && x !in t[n] {
        var k :| 0 <= k < n && x in t[..n][k];
        assert x in t[k];
      }
      if exists k :: 0 <= k < |t| && x in t[k] {
        var k :| 0 <= k < |t| && x in t[k];
        if k < n {
          assert x in t[..n][k];
        }
      }
    }
  }
}
