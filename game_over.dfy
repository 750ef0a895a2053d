// isGameOverCheck of src/utils/rules.js: elimination, then blockade of the side to move.
module GameOver {
  import opened BoardModel
  import opened SimpleMoves
  import opened Captures
  import CaptureSearch

  /** Why the game ended; each reason stands for the message the source builds for it. */
  datatype EndReason = NoPiecesLeft | Blockade

  /** The returned record: `isOver` with its `winner` and message, or "Devam" (play on). */
  datatype Verdict = PlayOn | Over(winner: Player, reason: EndReason)

  /** The verdict on the board for the side to move, in the order the source tests the cases. */
  function GameOverOf(b: Board, toMove: Player): Verdict {
    if CountOf(b, A) == 0 then Over(B, NoPiecesLeft)
    else if CountOf(b, B) == 0 then Over(A, NoPiecesLeft)
    else if AllCaptures(b, toMove) == [] && AllMoves(b, toMove) == [] then Over(Opponent(toMove), Blockade)
    else PlayOn
  }

  /** The side has a piece on the board. */
  predicate HasPieces(b: Board, p: Player) {
    exists i :: 0 <= i < 64 && IsPieceOf(b[i], p)
  }

  /** No piece of p can capture and no simple move of p is legal. */
  ghost predicate Stuck(b: Board, p: Player) {
    (forall i: Square :: IsPieceOf(b[i], p) ==> !CanJump(b, i, b[i].value.isKing, p)) &&
    (forall m :: !LegalSimpleMove(b, p, m))
  }

  lemma {:induction false} HasPiecesIff(b: Board, p: Player)
    ensures CountOf(b, p) == 0 <==> !HasPieces(b, p)
  {
    CountZeroIff(b, p);
  }

  lemma {:induction false} NoMovesIff(b: Board, p: Player)
    ensures AllMoves(b, p) == [] <==> forall m :: !LegalSimpleMove(b, p, m)
  {
    if AllMoves(b, p) != [] {
      AllMovesExact(b, p, AllMoves(b, p)[0]);
    }
    forall m | LegalSimpleMove(b, p, m) ensures AllMoves(b, p) != [] {
      AllMovesExact(b, p, m);
    }
  }

  /**
   * The verdict in the rules' own terms: a side with no pieces left loses, A's
   * elimination being tested first; with both sides on the board, the side to
   * move loses exactly when it can neither capture nor make a simple move.
   */
  lemma {:induction false} GameOverMeaning(b: Board, toMove: Player)
    ensures GameOverOf(b, toMove) == Over(B, NoPiecesLeft) <==> !HasPieces(b, A)
    ensures GameOverOf(b, toMove) == Over(A, NoPiecesLeft) <==> HasPieces(b, A) && !HasPieces(b, B)
    ensures GameOverOf(b, toMove) == Over(Opponent(toMove), Blockade) <==>
      HasPieces(b, A) && HasPieces(b, B) && Stuck(b, toMove)
    ensures GameOverOf(b, toMove) == PlayOn <==> HasPieces(b, A) && HasPieces(b, B) && !Stuck(b, toMove)
    ensures GameOverOf(b, toMove).Over? && GameOverOf(b, toMove).reason == Blockade ==>
      GameOverOf(b, toMove).winner == Opponent(toMove)
  {
    HasPiecesIff(b, A);
    HasPiecesIff(b, B);
    AllCapturesEmptyIff(b, toMove);
    NoMovesIff(b, toMove);
  }

  /** isGameOverCheck: count both sides' pieces, then look for any capture or move of the side to move. */
  method IsGameOverCheck(b: Board, toMove: Player) returns (v: Verdict)
    ensures v == GameOverOf(b, toMove)
  {
    var piecesA, piecesB := 0, 0;
    var i := 0;
    while i < 64
      invariant 0 <= i <= 64
      invariant piecesA == CountOf(b[..i], A) && piecesB == CountOf(b[..i], B)
    {
      assert b[..i + 1][..i] == b[..i];
      var cell := b[i];
      if cell != None {
        if cell.value.player == A {
          piecesA := piecesA + 1;
        } else {
          piecesB := piecesB + 1;
        }
      }
      i := i + 1;
    }
    assert b[..64] == b;
    if piecesA == 0 {
      return Over(B, NoPiecesLeft);
    }
    if piecesB == 0 {
      return Over(A, NoPiecesLeft);
    }
    var caps := CaptureSearch.GenerateAllCapturesForPlayer(b, toMove);
    var moves := GenerateAllMovesForPlayer(b, toMove);
    if |caps| == 0 && |moves| == 0 {
      return Over(Opponent(toMove), Blockade);
    }
    return PlayOn;
  }
}
