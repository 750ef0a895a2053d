// Non-capturing moves (generateAllMovesForPlayer in src/utils/rules.js).
module SimpleMoves {
  import opened BoardModel

  /** A non-capturing move `{ start, to, type: "move" }`. */
  datatype SimpleMove = SimpleMove(start: Square, to: Square)

  // ---------------------------------------------------------------------
  // Specification: the list the generator builds, in the order it builds it

  /** A man's one-step move from `i` in direction d, when that square is on the board and empty. */
  function ManStep(b: Board, i: Square, d: Dir): seq<SimpleMove> {
    var r, c := RowOf(i), ColOf(i);
    if OnBoardAt(r, c, d, 1) && b[SquareAt(r, c, d, 1)] == None then [SimpleMove(i, SquareAt(r, c, d, 1))]
    else []
  }

  /** A man's moves from `i`: forward, then left, then right (the order of ManDirs). */
  function ManMoves(b: Board, i: Square, p: Player): seq<SimpleMove> {
    ManStep(b, i, Forward(p)) + ManStep(b, i, Left) + ManStep(b, i, Right)
  }

  function Targets(i: Square, ts: seq<Square>): seq<SimpleMove> {
    seq(|ts|, k requires 0 <= k < |ts| => SimpleMove(i, ts[k]))
  }

  /** A king's moves from `i` in direction d: one to each square of the ray. */
  function RayMoves(b: Board, i: Square, d: Dir): seq<SimpleMove> {
    Targets(i, Ray(b, RowOf(i), ColOf(i), d))
  }

  /** A king's moves from `i`, direction by direction in the order of KingDirs. */
  function KingTable(b: Board, i: Square): (t: seq<seq<SimpleMove>>)
    ensures |t| == |KingDirs|
  {
    seq(|KingDirs|, j requires 0 <= j < |KingDirs| => RayMoves(b, i, KingDirs[j]))
  }

  function KingMoves(b: Board, i: Square): seq<SimpleMove> {
    Flatten(KingTable(b, i))
  }

  function PieceMoves(b: Board, p: Player, i: Square): seq<SimpleMove> {
    match b[i]
    case None => []
    case Some(pc) =>
      if pc.player != p then []
      else if !pc.isKing then ManMoves(b, i, p)
      else KingMoves(b, i)
  }

  /** The moves of p's pieces, square by square. */
  function MovesTable(b: Board, p: Player): (t: seq<seq<SimpleMove>>)
    ensures |t| == 64
  {
    seq(64, i requires 0 <= i < 64 => PieceMoves(b, p, i))
  }

  /** generateAllMovesForPlayer's result: the moves of p's pieces by increasing square. */
  function AllMoves(b: Board, p: Player): seq<SimpleMove> {
    Flatten(MovesTable(b, p))
  }

  // ---------------------------------------------------------------------
  // Reference: which simple moves the rules allow

  /** The rank change of a man's forward step. */
  function ForwardDelta(p: Player): (delta: int)
    ensures delta == 1 || delta == -1
  {
    if p == A then 1 else -1
  }

  /**
   * A man moves to an empty square one rank forward on its own file, or
   * one file sideways on its own rank; never backward.
   */
  predicate ManTarget(b: Board, p: Player, from: Square, to: Square) {
    b[to] == None &&
    ((RowOf(to) == RowOf(from) + ForwardDelta(p) && ColOf(to) == ColOf(from)) ||
     (RowOf(to) == RowOf(from) && (ColOf(to) == ColOf(from) - 1 || ColOf(to) == ColOf(from) + 1)))
  }

  /** A king moves to any empty square of a rank or file that it reaches over empty squares only. */
  ghost predicate KingTarget(b: Board, from: Square, to: Square) {
    var r, c := RowOf(from), ColOf(from);
    exists d: Dir, k: int :: ReachedAt(b, r, c, d, k, to)
  }

  ghost predicate LegalSimpleMove(b: Board, p: Player, m: SimpleMove) {
    IsPieceOf(b[m.start], p) &&
    if b[m.start].value.isKing then KingTarget(b, m.start, m.to) else ManTarget(b, p, m.start, m.to)
  }

  // ---------------------------------------------------------------------
  // The generated list is exactly the set of legal simple moves

  lemma {:induction false} ManMovesMember(b: Board, i: Square, p: Player, m: SimpleMove)
    ensures m in ManMoves(b, i, p) <==>
      m.start == i && exists d :: d in ManDirs(p) && EmptyAt(b, RowOf(i), ColOf(i), d, 1) && m.to == SquareAt(RowOf(i), ColOf(i), d, 1)
  {
    var r, c := RowOf(i), ColOf(i);
    if m in ManMoves(b, i, p) {
      var d := if m in ManStep(b, i, Forward(p)) then Forward(p) else if m in ManStep(b, i, Left) then Left else Right;
      assert d in ManDirs(p) && m in ManStep(b, i, d);
    }
  }

  lemma {:induction false} KingMovesMember(b: Board, i: Square, m: SimpleMove)
    ensures m in KingMoves(b, i) <==>
      m.start == i && exists d :: d in KingDirs && m.to in Ray(b, RowOf(i), ColOf(i), d)
  {
    var t := KingTable(b, i);
    FlattenMember(t, m);
    if m in KingMoves(b, i) {
      var j :| 0 <= j < |t| && m in t[j];
      TargetsMember(i, Ray(b, RowOf(i), ColOf(i), KingDirs[j]), m);
      assert KingDirs[j] in KingDirs;
    }
    if m.start == i && exists d :: d in KingDirs && m.to in Ray(b, RowOf(i), ColOf(i), d) {
      var d :| d in KingDirs && m.to in Ray(b, RowOf(i), ColOf(i), d);
      var j :| 0 <= j < |KingDirs| && KingDirs[j] == d;
      TargetsMember(i, Ray(b, RowOf(i), ColOf(i), d), m);
      assert m in t[j];
    }
  }

  lemma {:induction false} TargetsMember(i: Square, ts: seq<Square>, m: SimpleMove)
    ensures m in Targets(i, ts) <==> m.start == i && m.to in ts
  {
    if m in Targets(i, ts) {
      var k :| 0 <= k < |ts| && Targets(i, ts)[k] == m;
    }
    if m.start == i && m.to in ts {
      var k :| 0 <= k < |ts| && ts[k] == m.to;
      assert Targets(i, ts)[k] == m;
    }
  }

  /** For a man, the three step directions are exactly the forward and sideways neighbours. */
  lemma {:induction false} ManStepIsTarget(b: Board, p: Player, i: Square, to: Square)
    ensures (exists d :: d in ManDirs(p) && EmptyAt(b, RowOf(i), ColOf(i), d, 1) && to == SquareAt(RowOf(i), ColOf(i), d, 1))
      <==> ManTarget(b, p, i, to)
  {
    var r, c := RowOf(i), ColOf(i);
    IndexOfRowCol(to);
    if ManTarget(b, p, i, to) {
      var d :=
        if RowOf(to) == r + ForwardDelta(p) then Forward(p)
        else if ColOf(to) == c - 1 then Left
        else Right;
      assert d in ManDirs(p);
      assert OnBoardAt(r, c, d, 1);
      assert to == SquareAt(r, c, d, 1);
    }
  }

  lemma {:induction false} PieceMovesStart(b: Board, p: Player, i: Square, m: SimpleMove)
    requires m in PieceMoves(b, p, i)
    ensures m.start == i
  {
    if b[i].Some? && b[i].value.player == p {
      if b[i].value.isKing {
        KingMovesMember(b, i, m);
      } else {
        ManMovesMember(b, i, p, m);
      }
    }
  }

  lemma {:induction false} KingMovesExact(b: Board, i: Square, m: SimpleMove)
    requires m.start == i
    ensures m in KingMoves(b, i) <==> KingTarget(b, i, m.to)
  {
    if m in KingMoves(b, i) {
      KingMovesSound(b, i, m);
    }
    if KingTarget(b, i, m.to) {
      KingMovesComplete(b, i, m);
    }
  }

  lemma {:induction false} KingMovesSound(b: Board, i: Square, m: SimpleMove)
    requires m in KingMoves(b, i)
    ensures KingTarget(b, i, m.to)
  {
    var r, c := RowOf(i), ColOf(i);
    KingMovesMember(b, i, m);
    var d :| d in KingDirs && m.to in Ray(b, r, c, d);
    RayMemberAt(b, r, c, d, m.to);
  }

  lemma {:induction false} KingMovesComplete(b: Board, i: Square, m: SimpleMove)
    requires m.start == i && KingTarget(b, i, m.to)
    ensures m in KingMoves(b, i)
  {
    var r, c := RowOf(i), ColOf(i);
    var d, k :| ReachedAt(b, r, c, d, k, m.to);
    RayContainsClear(b, r, c, d, k);
    assert m.to in Ray(b, r, c, d);
    assert d in KingDirs;
    KingMovesMember(b, i, m);
  }

  lemma {:induction false} PieceMovesExact(b: Board, p: Player, m: SimpleMove)
    ensures m in PieceMoves(b, p, m.start) <==> LegalSimpleMove(b, p, m)
  {
    var i := m.start;
    if IsPieceOf(b[i], p) {
      if b[i].value.isKing {
        KingMovesExact(b, i, m);
      } else {
        ManMovesMember(b, i, p, m);
        ManStepIsTarget(b, p, i, m.to);
      }
    }
  }

  /**
   * The generator returns exactly the legal simple moves: every returned move starts
   * on a piece of p and ends on an empty square its piece may step or slide to, and
   * every such move is returned.
   */
  lemma {:induction false} AllMovesExact(b: Board, p: Player, m: SimpleMove)
    ensures m in AllMoves(b, p) <==> LegalSimpleMove(b, p, m)
  {
    var t := MovesTable(b, p);
    FlattenMember(t, m);
    if m in AllMoves(b, p) {
      var k :| 0 <= k < 64 && m in t[k];
      PieceMovesStart(b, p, k, m);
    }
    assert t[m.start] == PieceMoves(b, p, m.start);
    PieceMovesExact(b, p, m);
  }

  /** A king's destinations in direction d are the squares of the ray in that direction. */
  lemma {:induction false} KingMovesAlongRay(b: Board, p: Player, i: Square, d: Dir, to: Square)
    requires b[i] == Some(Piece(p, true))
    ensures SimpleMove(i, to) in AllMoves(b, p) <== to in Ray(b, RowOf(i), ColOf(i), d)
    ensures SimpleMove(i, to) in AllMoves(b, p) ==> exists d' :: to in Ray(b, RowOf(i), ColOf(i), d')
  {
    var t := MovesTable(b, p);
    FlattenMember(t, SimpleMove(i, to));
    if SimpleMove(i, to) in AllMoves(b, p) {
      var k :| 0 <= k < 64 && SimpleMove(i, to) in t[k];
      PieceMovesStart(b, p, k, SimpleMove(i, to));
    }
    assert t[i] == PieceMoves(b, p, i);
    KingMovesMember(b, i, SimpleMove(i, to));
    assert d in KingDirs;
  }

  // ---------------------------------------------------------------------
  // The generator

  /** A man's step to (nr, nc), the square one step away in direction d, with the source's index arithmetic. */
  method StepTo(b: Board, i: Square, ghost d: Dir, nr: int, nc: int) returns (step: seq<SimpleMove>)
    requires nr == RowAt(RowOf(i), d, 1) && nc == ColAt(ColOf(i), d, 1)
    ensures step == ManStep(b, i, d)
  {
    if InBoard(nr, nc) {
      var idx := (nr - 1) * 8 + (nc - 1);
      assert idx == SquareAt(RowOf(i), ColOf(i), d, 1);
      if b[idx] == None {
        return [SimpleMove(i, idx)];
      }
    }
    return [];
  }

  /** The moves of the man on square i of p, tried forward first, then left, then right. */
  method ManMovesAt(b: Board, i: Square, p: Player) returns (moves: seq<SimpleMove>)
    ensures moves == ManMoves(b, i, p)
  {
    var r := RowOf(i);
    var c := ColOf(i);
    var forward := if p == A then r + 1 else r - 1;
    moves := StepTo(b, i, Forward(p), forward, c);
    var dcs := [-1, 1];
    var k := 0;
    while k < 2
      invariant 0 <= k <= 2
      invariant moves == ManStep(b, i, Forward(p)) + (if k >= 1 then ManStep(b, i, Left) else [])
                         + (if k >= 2 then ManStep(b, i, Right) else [])
    {
      var nc := c + dcs[k];
      var side := StepTo(b, i, if k == 0 then Left else Right, r, nc);
      moves := moves + side;
      k := k + 1;
    }
  }

  /** The king's moves from square i in direction d: every empty square up to the first occupied one. */
  method KingRayMoves(b: Board, i: Square, d: Dir) returns (moves: seq<SimpleMove>)
    ensures moves == RayMoves(b, i, d)
  {
    moves := [];
    var r0, c0 := RowOf(i), ColOf(i);
    var rr, cc := r0, c0;
    ghost var done: seq<Square> := [];
    while true
      invariant InBoard(rr, cc)
      invariant done + Ray(b, rr, cc, d) == Ray(b, r0, c0, d)
      invariant moves == Targets(i, done)
      decreases Reach(rr, cc, d)
    {
      if !OnBoardAt(rr, cc, d, 1) {
        break;
      }
      var tgt := SquareAt(rr, cc, d, 1);
      if b[tgt] != None {
        break;
      }
      moves := moves + [SimpleMove(i, tgt)];
      TargetsSnoc(i, done, tgt);
      RaySplit(b, rr, cc, d, done, Ray(b, r0, c0, d));
      done := done + [tgt];
      rr, cc := RowAt(rr, d, 1), ColAt(cc, d, 1);
    }
  }

  lemma {:induction false} TargetsSnoc(i: Square, ts: seq<Square>, t: Square)
    ensures Targets(i, ts + [t]) == Targets(i, ts) + [SimpleMove(i, t)]
  {
    assert Targets(i, ts + [t])[|ts|] == SimpleMove(i, t);
  }


  /** The moves of the king on square i, direction by direction. */
  method KingMovesAt(b: Board, i: Square) returns (moves: seq<SimpleMove>)
    ensures moves == KingMoves(b, i)
  {
    moves := [];
    ghost var t := KingTable(b, i);
    var k := 0;
    while k < |KingDirs|
      invariant 0 <= k <= |KingDirs|
      invariant moves == Flatten(t[..k])
    {
      var ray := KingRayMoves(b, i, KingDirs[k]);
      FlattenSnoc(t, k);
      moves := moves + ray;
      k := k + 1;
    }
    assert t[..4] == t;
  }

  /** generateAllMovesForPlayer: the simple moves of all of p's pieces, by increasing square. */
  method GenerateAllMovesForPlayer(b: Board, p: Player) returns (moves: seq<SimpleMove>)
    ensures moves == AllMoves(b, p)
  {
    moves := [];
    ghost var t := MovesTable(b, p);
    var i := 0;
    while i < 64
      invariant 0 <= i <= 64
      invariant moves == Flatten(t[..i])
    {
      FlattenSnoc(t, i);
      assert t[i] == PieceMoves(b, p, i);
      var piece := b[i];
      if piece.Some? && piece.value.player == p {
        var pm;
        if !piece.value.isKing {
          pm := ManMovesAt(b, i, p);
        } else {
          pm := KingMovesAt(b, i);
        }
        assert pm == t[i];
        moves := moves + pm;
      } else {
        assert t[i] == [];
      }
      i := i + 1;
    }
    assert t[..64] == t;
  }
}
