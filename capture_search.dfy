// The capture search of src/utils/rules.js as the source runs it: recursion on
// scratch copies of the board, ray scans in `while (true)` loops, and pushes
// into the result list. Each method is proved equal to its specification in
// module Captures.
module CaptureSearch {
  import opened BoardModel
  import opened Captures

  /** generateCapturesFrom: the capture sequences of the piece of p on `start`. */
  method GenerateCapturesFrom(b: Board, start: Square, isKing: bool, p: Player) returns (sequences: seq<seq<Step>>)
    requires b[start] == Some(Piece(p, isKing))
    ensures sequences == CapturesFrom(b, start, isKing, p)
    decreases CountOf(b, Opponent(p)), 9, 0
  {
    if !isKing {
      sequences := ManCaptureSearch(b, start, p);
    } else {
      sequences := KingCaptureSearch(b, start, p);
    }
  }

  /**
   * Jump st on a scratch copy of the board: the piece moves to the landing square
   * and the start and jumped squares are cleared. A man landing on its promotion
   * rank ends the sequence; otherwise the search continues from the landing square.
   */
  method JumpAndContinue(b: Board, start: Square, isKing: bool, p: Player, st: Step) returns (sequences: seq<seq<Step>>)
    requires b[start] == Some(Piece(p, isKing))
    requires IsPieceOf(b[st.jumped], Opponent(p)) && b[st.to] == None
    ensures sequences == Continue(b, start, isKing, p, st)
    decreases CountOf(b, Opponent(p)), 1, 0
  {
    var copy := b[st.to := b[start]];
    copy := copy[start := None];
    copy := copy[st.jumped := None];
    assert copy == JumpBoard(b, start, st.jumped, st.to);
    var landedRank := RowOf(st.to);
    var promotes := (p == A && landedRank == 8) || (p == B && landedRank == 1);
    if !isKing && promotes {
      sequences := [[st]];
    } else {
      JumpRemovesOne(b, start, st.jumped, st.to, p);
      var nextSeqs := GenerateCapturesFrom(copy, st.to, copy[st.to].value.isKing, p);
      if |nextSeqs| == 0 {
        sequences := [[st]];
      } else {
        sequences := [];
        var j := 0;
        while j < |nextSeqs|
          invariant 0 <= j <= |nextSeqs|
          invariant sequences == PrependAll(st, nextSeqs[..j])
        {
          sequences := sequences + [[st] + nextSeqs[j]];
          j := j + 1;
        }
        assert nextSeqs[..j] == nextSeqs;
      }
    }
  }

  /** A man's captures, trying forward, then left, then right. */
  method ManCaptureSearch(b: Board, start: Square, p: Player) returns (sequences: seq<seq<Step>>)
    requires b[start] == Some(Piece(p, false))
    ensures sequences == Flatten(ManJumps(b, start, p))
    decreases CountOf(b, Opponent(p)), 8, 0
  {
    sequences := [];
    var dirs := ManDirs(p);
    ghost var t := ManJumps(b, start, p);
    var k := 0;
    while k < |dirs|
      invariant 0 <= k <= |dirs|
      invariant sequences == Flatten(t[..k])
    {
      var more := ManDirSearch(b, start, p, dirs[k]);
      FlattenSnoc(t, k);
      sequences := sequences + more;
      k := k + 1;
    }
    assert t[..k] == t;
  }

  /** A man's jump in direction d, when the square beyond an adjacent opponent piece is empty. */
  method ManDirSearch(b: Board, start: Square, p: Player, d: Dir) returns (sequences: seq<seq<Step>>)
    requires b[start] == Some(Piece(p, false))
    ensures sequences == ManJump(b, start, p, d)
    decreases CountOf(b, Opponent(p)), 7, 0
  {
    sequences := [];
    var r, c := RowOf(start), ColOf(start);
    var midr, midc := RowAt(r, d, 1), ColAt(c, d, 1);
    var landr, landc := RowAt(r, d, 2), ColAt(c, d, 2);
    if InBoard(midr, midc) && InBoard(landr, landc) {
      var midIdx := (midr - 1) * 8 + (midc - 1);
      var landIdx := (landr - 1) * 8 + (landc - 1);
      assert midIdx == SquareAt(r, c, d, 1) && landIdx == SquareAt(r, c, d, 2);
      if b[midIdx].Some? && b[midIdx].value.player == Opponent(p) && b[landIdx] == None {
        sequences := JumpAndContinue(b, start, false, p, Step(landIdx, midIdx));
      }
    }
  }

  /** A king's captures, direction by direction. */
  method KingCaptureSearch(b: Board, start: Square, p: Player) returns (sequences: seq<seq<Step>>)
    requires b[start] == Some(Piece(p, true))
    ensures sequences == Flatten(KingScans(b, start, p))
    decreases CountOf(b, Opponent(p)), 8, 0
  {
    sequences := [];
    ghost var t := KingScans(b, start, p);
    var k := 0;
    while k < |KingDirs|
      invariant 0 <= k <= |KingDirs|
      invariant sequences == Flatten(t[..k])
    {
      var found := KingDirSearch(b, start, p, KingDirs[k]);
      FlattenSnoc(t, k);
      sequences := sequences + found;
      k := k + 1;
    }
    assert t[..k] == t;
  }

  /**
   * A king's scan in direction d: empty squares are passed; the first occupied
   * square ends the scan, with captures only when it holds an opponent piece.
   */
  method KingDirSearch(b: Board, start: Square, p: Player, d: Dir) returns (found: seq<seq<Step>>)
    requires b[start] == Some(Piece(p, true))
    ensures found == KingScan(b, start, p, d, 1)
    decreases CountOf(b, Opponent(p)), 7, 8
  {
    var r0, c0 := RowOf(start), ColOf(start);
    var rr, cc := r0, c0;
    ghost var dist, n := 0, Reach(r0, c0, d);
    while true
      invariant 0 <= dist <= n && rr == RowAt(r0, d, dist) && cc == ColAt(c0, d, dist)
      invariant KingScan(b, start, p, d, dist + 1) == KingScan(b, start, p, d, 1)
      decreases n - dist
    {
      StepShiftBy(r0, c0, d, dist, 1);
      rr, cc := RowAt(rr, d, 1), ColAt(cc, d, 1);
      dist := dist + 1;
      if !InBoard(rr, cc) {
        ScanOff(b, start, p, d, dist);
        return [];
      }
      var idx := (rr - 1) * 8 + (cc - 1);
      assert idx == SquareAt(r0, c0, d, dist);
      if b[idx] == None {
        ScanEmpty(b, start, p, d, dist);
        continue;
      }
      if b[idx].value.player == Opponent(p) {
        found := KingHit(b, start, p, d, rr, cc, dist);
        return;
      } else {
        ScanOwn(b, start, p, d, dist);
        return [];
      }
    }
  }

  /** The king's scan in direction d meets an opponent piece on (rr, cc), at distance k. */
  method KingHit(b: Board, start: Square, p: Player, d: Dir, rr: int, cc: int, ghost k: int) returns (found: seq<seq<Step>>)
    requires b[start] == Some(Piece(p, true)) && 1 <= k
    requires OnBoardAt(RowOf(start), ColOf(start), d, k)
    requires rr == RowAt(RowOf(start), d, k) && cc == ColAt(ColOf(start), d, k)
    requires IsPieceOf(b[SquareAt(RowOf(start), ColOf(start), d, k)], Opponent(p))
    ensures found == KingScan(b, start, p, d, k)
    decreases CountOf(b, Opponent(p)), 6, 3
  {
    found := KingLandingSearch(b, start, p, d, rr, cc);
  }

  /** Past the edge of the board a king's scan finds nothing. */
  lemma {:induction false} ScanOff(b: Board, start: Square, p: Player, d: Dir, k: int)
    requires b[start] == Some(Piece(p, true)) && 1 <= k
    requires !OnBoardAt(RowOf(start), ColOf(start), d, k)
    ensures KingScan(b, start, p, d, k) == []
  {
  }

  /** A king's scan passes over an empty square. */
  lemma {:induction false} ScanEmpty(b: Board, start: Square, p: Player, d: Dir, k: int)
    requires b[start] == Some(Piece(p, true)) && 1 <= k
    requires OnBoardAt(RowOf(start), ColOf(start), d, k) && b[SquareAt(RowOf(start), ColOf(start), d, k)] == None
    ensures KingScan(b, start, p, d, k) == KingScan(b, start, p, d, k + 1)
  {
  }

  /** A king's scan stops at a piece of its own side. */
  lemma {:induction false} ScanOwn(b: Board, start: Square, p: Player, d: Dir, k: int)
    requires b[start] == Some(Piece(p, true)) && 1 <= k
    requires OnBoardAt(RowOf(start), ColOf(start), d, k)
    requires IsPieceOf(b[SquareAt(RowOf(start), ColOf(start), d, k)], p)
    ensures KingScan(b, start, p, d, k) == []
  {
  }

  /**
   * The captures of a king over the opponent piece on (rr, cc): if there is any
   * empty landing square beyond it, one jump to each such square in turn.
   */
  method KingLandingSearch(b: Board, start: Square, p: Player, d: Dir, rr: int, cc: int) returns (found: seq<seq<Step>>)
    requires b[start] == Some(Piece(p, true)) && InBoard(rr, cc) && IsPieceOf(b[IndexOf(rr, cc)], Opponent(p))
    ensures (RayEmpty(b, rr, cc, d); found == Flatten(KingLandings(b, start, p, IndexOf(rr, cc), Ray(b, rr, cc, d))))
    decreases CountOf(b, Opponent(p)), 6, 2
  {
    RayEmpty(b, rr, cc, d);
    var anyLanding := AnyLanding(b, rr, cc, d);
    if anyLanding {
      found := LandingJumps(b, start, p, d, rr, cc);
    } else {
      found := [];
    }
  }

  /** One jump over (rr, cc) onto each empty square beyond it, nearest first. */
  method LandingJumps(b: Board, start: Square, p: Player, d: Dir, rr: int, cc: int) returns (found: seq<seq<Step>>)
    requires b[start] == Some(Piece(p, true)) && InBoard(rr, cc) && IsPieceOf(b[IndexOf(rr, cc)], Opponent(p))
    requires forall j :: 0 <= j < |Ray(b, rr, cc, d)| ==> b[Ray(b, rr, cc, d)[j]] == None
    ensures found == Flatten(KingLandings(b, start, p, IndexOf(rr, cc), Ray(b, rr, cc, d)))
    decreases CountOf(b, Opponent(p)), 6, 1
  {
    var mid := (rr - 1) * 8 + (cc - 1);
    ghost var whole := Ray(b, rr, cc, d);
    found := [];
    var rr2, cc2 := rr, cc;
    ghost var done: seq<Square> := [];
    while true
      invariant InBoard(rr2, cc2)
      invariant done + Ray(b, rr2, cc2, d) == whole
      invariant found == Flatten(KingLandings(b, start, p, mid, whole)[..|done|])
      decreases |whole| - |done|
    {
      if !OnBoardAt(rr2, cc2, d, 1) {
        break;
      }
      var landing := SquareAt(rr2, cc2, d, 1);
      if b[landing] != None {
        break;
      }
      RaySplit(b, rr2, cc2, d, done, whole);
      found := LandOn(b, start, p, mid, landing, whole, |done|, found);
      done := done + [landing];
      rr2, cc2 := RowAt(rr2, d, 1), ColAt(cc2, d, 1);
    }
    assert done == whole;
    LandingsPrefixAll(b, start, p, mid, whole);
  }

  /** The jump onto the k-th landing square, added to the sequences found so far. */
  method LandOn(b: Board, start: Square, p: Player, mid: Square, landing: Square,
                ghost ls: seq<Square>, ghost k: nat, found: seq<seq<Step>>)
    returns (found': seq<seq<Step>>)
    requires b[start] == Some(Piece(p, true)) && IsPieceOf(b[mid], Opponent(p))
    requires forall j :: 0 <= j < |ls| ==> b[ls[j]] == None
    requires k < |ls| && ls[k] == landing && found == Flatten(KingLandings(b, start, p, mid, ls)[..k])
    ensures found' == Flatten(KingLandings(b, start, p, mid, ls)[..k + 1])
    decreases CountOf(b, Opponent(p)), 6, 0
  {
    FlattenSnoc(KingLandings(b, start, p, mid, ls), k);
    var more := JumpAndContinue(b, start, true, p, Step(landing, mid));
    found' := found + more;
  }

  lemma {:induction false} LandingsPrefixAll(b: Board, start: Square, p: Player, mid: Square, ls: seq<Square>)
    requires b[start] == Some(Piece(p, true)) && IsPieceOf(b[mid], Opponent(p))
    requires forall j :: 0 <= j < |ls| ==> b[ls[j]] == None
    ensures KingLandings(b, start, p, mid, ls)[..|ls|] == KingLandings(b, start, p, mid, ls)
  {
  }

  /** The source's first pass beyond a jumped piece: is there any empty landing square? */
  method AnyLanding(b: Board, rr: int, cc: int, d: Dir) returns (anyLanding: bool)
    requires InBoard(rr, cc)
    ensures anyLanding <==> Ray(b, rr, cc, d) != []
  {
    anyLanding := false;
    var rr2, cc2 := rr, cc;
    ghost var done: seq<Square> := [];
    while true
      invariant InBoard(rr2, cc2)
      invariant done + Ray(b, rr2, cc2, d) == Ray(b, rr, cc, d)
      invariant anyLanding <==> done != []
      decreases Reach(rr2, cc2, d)
    {
      if !OnBoardAt(rr2, cc2, d, 1) {
        break;
      }
      var landing := SquareAt(rr2, cc2, d, 1);
      if b[landing] == None {
        anyLanding := true;
      } else {
        break;
      }
      RaySplit(b, rr2, cc2, d, done, Ray(b, rr, cc, d));
      done := done + [landing];
      rr2, cc2 := RowAt(rr2, d, 1), ColAt(cc2, d, 1);
    }
  }

  /**
   * generateAllCapturesForPlayer: every capture sequence of every piece of p,
   * tagged with its start square, then only those of the greatest length.
   */
  method GenerateAllCapturesForPlayer(b: Board, p: Player) returns (filtered: seq<CaptureEntry>)
    ensures filtered == AllCaptures(b, p)
  {
    var all: seq<CaptureEntry> := [];
    ghost var t := CapturesTable(b, p);
    var i := 0;
    while i < 64
      invariant 0 <= i <= 64
      invariant all == Flatten(t[..i])
    {
      FlattenSnoc(t, i);
      var piece := b[i];
      if piece.Some? && piece.value.player == p {
        var seqs := GenerateCapturesFrom(b, i, piece.value.isKing, p);
        var tagged := TagAll(i, seqs);
        all := all + tagged;
      }
      i := i + 1;
    }
    assert t[..64] == t;
    if |all| == 0 {
      return [];
    }
    var maxCaptured := LongestLength(all);
    filtered := FilterLength(all, maxCaptured);
  }

  /** The sequences of the piece on i, each tagged with i, in order. */
  method TagAll(i: Square, seqs: seq<seq<Step>>) returns (tagged: seq<CaptureEntry>)
    ensures tagged == Tag(i, seqs)
  {
    tagged := [];
    var j := 0;
    while j < |seqs|
      invariant 0 <= j <= |seqs|
      invariant tagged == Tag(i, seqs[..j])
    {
      assert Tag(i, seqs[..j + 1]) == Tag(i, seqs[..j]) + [CaptureEntry(i, seqs[j])];
      tagged := tagged + [CaptureEntry(i, seqs[j])];
      j := j + 1;
    }
    assert seqs[..j] == seqs;
  }

  /** The `maxCaptured` loop: the greatest sequence length among the entries. */
  method LongestLength(all: seq<CaptureEntry>) returns (maxCaptured: nat)
    ensures maxCaptured == MaxLength(all)
  {
    maxCaptured := 0;
    var j := 0;
    while j < |all|
      invariant 0 <= j <= |all|
      invariant maxCaptured == MaxLength(all[..j])
    {
      MaxLengthSnoc(all, j);
      if |all[j].steps| > maxCaptured {
        maxCaptured := |all[j].steps|;
      }
      j := j + 1;
    }
    assert all[..j] == all;
  }

  lemma {:induction false} MaxLengthSnoc(all: seq<CaptureEntry>, j: nat)
    requires j < |all|
    ensures var m := MaxLength(all[..j]);
      MaxLength(all[..j + 1]) == if |all[j].steps| > m then |all[j].steps| else m
  {
    assert all[..j + 1][..j] == all[..j];
  }

  /** The filter: the entries whose sequence has length n, in order. */
  method FilterLength(all: seq<CaptureEntry>, n: nat) returns (filtered: seq<CaptureEntry>)
    ensures filtered == KeepLength(all, n)
  {
    filtered := [];
    var j := 0;
    while j < |all|
      invariant 0 <= j <= |all|
      invariant filtered == KeepLength(all[..j], n)
    {
      assert all[..j + 1][..j] == all[..j];
      if |all[j].steps| == n {
        filtered := filtered + [all[j]];
      }
      j := j + 1;
    }
    assert all[..j] == all;
  }
}
