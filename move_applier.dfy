// applyMoveOnBoard of src/utils/rules.js: a simple move or a capture sequence
// played on a copy of the board, with promotion and the cut at promotion.
module MoveApplier {
  import opened BoardModel
  import opened Captures
  import opened SimpleMoves

  /** The two kinds of move the function is given: `{type: "move", to}` and `{type: "capture", seq}`. */
  datatype Action = PlainMove(to: Square) | CaptureMove(steps: seq<Step>)

  /** The returned record `{board, captured, promoted}`. */
  datatype Applied = Applied(board: Board, captured: nat, promoted: bool)

  /**
   * The source reads `isKing` of the cell a piece was just copied to; when the
   * move itself erased that cell the property access throws. That happens on a
   * move onto its own square, and on a capture step that lands on the square
   * the piece stands on or on the square it jumps.
   */
  datatype Outcome = Done(applied: Applied) | Thrown

  /** A man of its player standing on its promotion rank is crowned. */
  predicate Crowns(pc: Piece, sq: Square) {
    !pc.isKing && Promotes(pc.player, sq)
  }

  /** The king the piece becomes. */
  function Crowned(pc: Piece): (k: Piece)
    ensures k.player == pc.player && k.isKing
  {
    Piece(pc.player, true)
  }

  /** The result of applyMoveOnBoard on the board, from square `from`. */
  function ApplyMove(b: Board, from: Square, mv: Action): (r: Outcome)
    ensures b[from] == None ==> r == Done(Applied(b, 0, false))
    ensures mv.PlainMove? ==> (r == Thrown <==> b[from] != None && mv.to == from)
    ensures mv.PlainMove? && r.Done? ==> r.applied.captured == 0
    ensures mv.CaptureMove? && r.Done? ==> r.applied.captured <= |mv.steps|
  {
    if b[from] == None then Done(Applied(b, 0, false))
    else
      match mv
      case PlainMove(to) =>
        var moved := b[to := b[from]][from := None];
        if moved[to] == None then Thrown
        else if Crowns(moved[to].value, to) then Done(Applied(moved[to := Some(Crowned(moved[to].value))], 0, true))
        else Done(Applied(moved, 0, false))
      case CaptureMove(steps) => ApplyJumps(b, from, steps, 0)
  }

  /**
   * The capture loop from the piece on `cur`, with `captured` steps already
   * processed: each step moves the piece, clears its square and the jumped
   * square; a man reaching its promotion rank is crowned and the loop stops.
   */
  function ApplyJumps(b: Board, cur: Square, steps: seq<Step>, captured: nat): (r: Outcome)
    requires b[cur] != None
    ensures r.Done? ==> captured <= r.applied.captured <= captured + |steps|
    ensures r.Done? && !r.applied.promoted ==> r.applied.captured == captured + |steps|
    ensures r.Done? && r.applied.promoted ==> steps != [] && r.applied.captured > captured
    decreases |steps|
  {
    if steps == [] then Done(Applied(b, captured, false))
    else
      var to := steps[0].to;
      var after := JumpBoard(b, cur, steps[0].jumped, to);
      if after[to] == None then Thrown
      else if Crowns(after[to].value, to) then
        Done(Applied(after[to := Some(Crowned(after[to].value))], captured + 1, true))
      else ApplyJumps(after, to, steps[1..], captured + 1)
  }

  /** applyMoveOnBoard: writes the cells of a fresh copy `b` of the board one by one. */
  method ApplyMoveOnBoard(board: Board, from: Square, mv: Action) returns (out: Outcome)
    ensures out == ApplyMove(board, from, mv)
  {
    var b := new Cell[64](i requires 0 <= i < 64 => board[i]);
    assert b[..] == board;
    var piece := b[from];
    if piece == None {
      return Done(Applied(board, 0, false));
    }
    var captured := 0;
    var promoted := false;
    match mv {
    case PlainMove(to) =>
      b[to] := b[from];
      b[from] := None;
      var rank := RowOf(to);
      if b[to] == None {
        return Thrown;
      }
      if !b[to].value.isKing {
        if (b[to].value.player == A && rank == 8) || (b[to].value.player == B && rank == 1) {
          b[to] := Some(Piece(b[to].value.player, true));
          promoted := true;
        }
      }
    case CaptureMove(steps) =>
      var curIdx := from;
      var k := 0;
      while k < |steps|
        invariant 0 <= k <= |steps| && captured == k && !promoted
        invariant b[curIdx] != None
        invariant ApplyJumps(b[..], curIdx, steps[k..], captured) == ApplyMove(board, from, mv)
      {
        var to, jumped := steps[k].to, steps[k].jumped;
        ghost var before := b[..];
        b[to] := b[curIdx];
        b[curIdx] := None;
        b[jumped] := None;
        assert b[..] == JumpBoard(before, curIdx, jumped, to);
        assert steps[k..][1..] == steps[k + 1..];
        captured := captured + 1;
        curIdx := to;
        var rank := RowOf(curIdx);
        if b[curIdx] == None {
          return Thrown;
        }
        if !b[curIdx].value.isKing {
          if (b[curIdx].value.player == A && rank == 8) || (b[curIdx].value.player == B && rank == 1) {
            b[curIdx] := Some(Piece(b[curIdx].value.player, true));
            promoted := true;
            return Done(Applied(b[..], captured, promoted));
          }
        }
        k := k + 1;
      }
    }
    return Done(Applied(b[..], captured, promoted));
  }

  // ---------------------------------------------------------------------
  // What the capture loop computes

  /** The board with the piece on sq crowned, if it is a man on its promotion rank. */
  function Landed(b: Board, sq: Square): (r: Board)
    ensures forall i :: 0 <= i < 64 && i != sq ==> r[i] == b[i]
    ensures b[sq] == None ==> r[sq] == None
    ensures b[sq] != None ==> r[sq] != None && r[sq].value.player == b[sq].value.player
    ensures b[sq] != None ==> (r[sq].value.isKing <==> b[sq].value.isKing || Promotes(b[sq].value.player, sq))
  {
    if b[sq] != None && Crowns(b[sq].value, sq) then b[sq := Some(Crowned(b[sq].value))] else b
  }

  /** The i-th step lands a man on its promotion rank, on the board left by the first i jumps. */
  predicate CrownsAt(b: Board, cur: Square, steps: seq<Step>, i: int) {
    1 <= i <= |steps| &&
    var now, sq := AfterJumps(b, cur, steps[..i]), steps[i - 1].to;
    now[sq] != None && Crowns(now[sq].value, sq)
  }

  lemma {:induction false} CrownsAtShift(b: Board, cur: Square, steps: seq<Step>, i: int)
    requires 2 <= i <= |steps|
    ensures var after := JumpBoard(b, cur, steps[0].jumped, steps[0].to);
      AfterJumps(b, cur, steps[..i]) == AfterJumps(after, steps[0].to, steps[1..][..i - 1]) &&
      (CrownsAt(b, cur, steps, i) <==> CrownsAt(after, steps[0].to, steps[1..], i - 1))
  {
    AfterJumpsShift(b, cur, steps, i);
    assert steps[1..][i - 2] == steps[i - 1];
  }

  /**
   * The capture loop processes the steps up to the first one that crowns the
   * piece, or all of them: `captured` counts the processed steps and the board is
   * the one left by their jumps, with the crowning applied.
   */
  lemma {:induction false} JumpsStopAtCrowning(b: Board, cur: Square, steps: seq<Step>, c: nat)
    requires b[cur] != None && ApplyJumps(b, cur, steps, c).Done?
    ensures var a := ApplyJumps(b, cur, steps, c).applied; var n := a.captured - c;
      0 <= n <= |steps| &&
      (forall i :: 1 <= i < n ==> !CrownsAt(b, cur, steps, i)) &&
      (a.promoted ==>
         1 <= n && CrownsAt(b, cur, steps, n) && a.board == Landed(AfterJumps(b, cur, steps[..n]), steps[n - 1].to)) &&
      (!a.promoted ==> n == |steps| && !CrownsAt(b, cur, steps, n) && a.board == AfterJumps(b, cur, steps))
  {
    JumpsBeforeCrowning(b, cur, steps, c);
    if ApplyJumps(b, cur, steps, c).applied.promoted {
      JumpsCrowned(b, cur, steps, c);
    } else {
      JumpsUncrowned(b, cur, steps, c);
    }
  }

  /** No step the loop processes before its last one crowns the piece. */
  lemma {:induction false} JumpsBeforeCrowning(b: Board, cur: Square, steps: seq<Step>, c: nat)
    requires b[cur] != None && ApplyJumps(b, cur, steps, c).Done?
    ensures var n := ApplyJumps(b, cur, steps, c).applied.captured - c;
      forall i :: 1 <= i < n ==> !CrownsAt(b, cur, steps, i)
    decreases |steps|
  {
    if steps != [] {
      var to := steps[0].to;
      var after := JumpBoard(b, cur, steps[0].jumped, to);
      if !Crowns(after[to].value, to) {
        JumpsBeforeCrowning(after, to, steps[1..], c + 1);
        var n := ApplyJumps(b, cur, steps, c).applied.captured - c;
        forall i | 1 <= i < n
          ensures !CrownsAt(b, cur, steps, i)
        {
          if i >= 2 {
            CrownsAtShift(b, cur, steps, i);
          } else {
            assert steps[..1][1..] == [];
            assert AfterJumps(b, cur, steps[..1]) == after;
          }
        }
      }
    }
  }

  /** When the loop crowns the piece, it is at the last step processed, and the board is left as it was then. */
  lemma {:induction false} JumpsCrowned(b: Board, cur: Square, steps: seq<Step>, c: nat)
    requires b[cur] != None && ApplyJumps(b, cur, steps, c).Done? && ApplyJumps(b, cur, steps, c).applied.promoted
    ensures var a := ApplyJumps(b, cur, steps, c).applied; var n := a.captured - c;
      1 <= n <= |steps| && CrownsAt(b, cur, steps, n) && a.board == Landed(AfterJumps(b, cur, steps[..n]), steps[n - 1].to)
    decreases |steps|
  {
    var to := steps[0].to;
    var after := JumpBoard(b, cur, steps[0].jumped, to);
    if Crowns(after[to].value, to) {
      assert steps[..1][1..] == [];
      assert AfterJumps(b, cur, steps[..1]) == after;
    } else {
      JumpsCrowned(after, to, steps[1..], c + 1);
      var n := ApplyJumps(b, cur, steps, c).applied.captured - c;
      CrownsAtShift(b, cur, steps, n);
    }
  }

  /** When the loop crowns nothing, it processes every step and leaves the board of all the jumps. */
  lemma {:induction false} JumpsUncrowned(b: Board, cur: Square, steps: seq<Step>, c: nat)
    requires b[cur] != None && ApplyJumps(b, cur, steps, c).Done? && !ApplyJumps(b, cur, steps, c).applied.promoted
    ensures var a := ApplyJumps(b, cur, steps, c).applied;
      a.captured - c == |steps| && !CrownsAt(b, cur, steps, |steps|) && a.board == AfterJumps(b, cur, steps)
    decreases |steps|
  {
    if steps != [] {
      var to := steps[0].to;
      var after := JumpBoard(b, cur, steps[0].jumped, to);
      JumpsUncrowned(after, to, steps[1..], c + 1);
      if |steps| >= 2 {
        CrownsAtShift(b, cur, steps, |steps|);
      } else {
        assert steps[..1][1..] == [];
        assert AfterJumps(b, cur, steps[..1]) == after;
      }
    }
  }

  /**
   * A complete capture sequence of the piece on `start` is played to its end:
   * nothing throws, every step is counted, exactly one opponent piece goes per
   * step, and the piece is crowned only when a man lands on its promotion rank.
   */
  lemma {:induction false} CompleteApplies(b: Board, start: Square, isKing: bool, p: Player, s: seq<Step>, c: nat)
    requires b[start] == Some(Piece(p, isKing)) && Complete(b, start, isKing, p, s)
    ensures var last, fin := s[|s| - 1].to, AfterJumps(b, start, s);
      fin[last] == Some(Piece(p, isKing)) &&
      CountOf(fin, Opponent(p)) == CountOf(b, Opponent(p)) - |s| && CountOf(fin, p) == CountOf(b, p) &&
      ApplyJumps(b, start, s, c) == Done(Applied(Landed(fin, last), c + |s|, !isKing && Promotes(p, last)))
  {
    CompleteRuns(b, start, isKing, p, s);
    RunsBoard(b, start, p, s);
    RunsApply(b, start, p, s, c);
  }

  /** The jumps leave the piece on its last square and take one opponent piece each. */
  lemma {:induction false} RunsBoard(b: Board, cur: Square, p: Player, s: seq<Step>)
    requires Runs(b, cur, p, s)
    ensures var last, fin := s[|s| - 1].to, AfterJumps(b, cur, s);
      fin[last] == b[cur] &&
      CountOf(fin, Opponent(p)) == CountOf(b, Opponent(p)) - |s| && CountOf(fin, p) == CountOf(b, p)
    decreases |s|
  {
    var st := s[0];
    var after := JumpBoard(b, cur, st.jumped, st.to);
    JumpRemovesOne(b, cur, st.jumped, st.to, p);
    assert after[st.to] == b[cur];
    if |s| > 1 {
      RunsBoard(after, st.to, p, s[1..]);
      assert s[1..][|s| - 2] == s[|s| - 1];
    } else {
      assert AfterJumps(b, cur, s) == after;
    }
  }

  /** The capture loop runs to the last step, crowning the piece only there. */
  lemma {:induction false} RunsApply(b: Board, cur: Square, p: Player, s: seq<Step>, c: nat)
    requires Runs(b, cur, p, s)
    ensures var last := s[|s| - 1].to;
      ApplyJumps(b, cur, s, c) == Done(Applied(Landed(AfterJumps(b, cur, s), last), c + |s|, Crowns(b[cur].value, last)))
    decreases |s|
  {
    var st := s[0];
    var after := JumpBoard(b, cur, st.jumped, st.to);
    assert after[st.to] == b[cur];
    if |s| > 1 {
      JumpThrough(b, cur, s, c);
      RunsApply(after, st.to, p, s[1..], c + 1);
      assert s[1..][|s| - 2] == s[|s| - 1];
    } else {
      JumpLast(b, cur, s, c);
    }
  }

  /** A step that does not crown the piece passes the rest of the steps to the loop. */
  lemma {:induction false} JumpThrough(b: Board, cur: Square, s: seq<Step>, c: nat)
    requires b[cur] != None && |s| > 1
    requires var after := JumpBoard(b, cur, s[0].jumped, s[0].to);
      after[s[0].to] != None && !Crowns(after[s[0].to].value, s[0].to)
    ensures var after := JumpBoard(b, cur, s[0].jumped, s[0].to);
      ApplyJumps(b, cur, s, c) == ApplyJumps(after, s[0].to, s[1..], c + 1) &&
      AfterJumps(b, cur, s) == AfterJumps(after, s[0].to, s[1..])
  {
  }

  /** The last step of a sequence ends the loop, crowning the piece if it is a man reaching its promotion rank. */
  lemma {:induction false} JumpLast(b: Board, cur: Square, s: seq<Step>, c: nat)
    requires b[cur] != None && |s| == 1
    requires JumpBoard(b, cur, s[0].jumped, s[0].to)[s[0].to] == b[cur]
    ensures ApplyJumps(b, cur, s, c) ==
      Done(Applied(Landed(AfterJumps(b, cur, s), s[0].to), c + 1, Crowns(b[cur].value, s[0].to)))
  {
    var after := JumpBoard(b, cur, s[0].jumped, s[0].to);
    assert s[1..] == [];
    assert AfterJumps(b, cur, s) == after;
  }

  /** A capture step from `at` erases the piece it moves: it lands where the piece stands, or on the square it jumps. */
  predicate Erases(st: Step, at: Square) {
    st.to == at || st.to == st.jumped
  }

  /**
   * The capture loop of the piece pc, starting on `cur`, throws at step i: that
   * step erases the piece, and no step before it erased or crowned the piece.
   */
  predicate ThrowsAt(pc: Piece, cur: Square, steps: seq<Step>, i: int) {
    0 <= i < |steps| && Erases(steps[i], PosAfter(cur, steps, i)) &&
    forall j :: 0 <= j < i ==> !Erases(steps[j], PosAfter(cur, steps, j)) && !Crowns(pc, steps[j].to)
  }

  /** Seen from the second step, a throw at step i + 1 is a throw at step i. */
  lemma {:induction false} ThrowsAtShift(pc: Piece, cur: Square, steps: seq<Step>, i: int)
    requires |steps| >= 1 && !Erases(steps[0], cur) && !Crowns(pc, steps[0].to)
    ensures ThrowsAt(pc, cur, steps, i + 1) <==> ThrowsAt(pc, steps[0].to, steps[1..], i)
  {
    var rest := steps[1..];
    forall j | 1 <= j <= |steps|
      ensures PosAfter(cur, steps, j) == PosAfter(steps[0].to, rest, j - 1) && steps[j - 1] == (steps[..1] + rest)[j - 1]
    {
      assert steps == steps[..1] + rest;
    }
    if ThrowsAt(pc, steps[0].to, rest, i) {
      forall j | 0 <= j < i + 1
        ensures !Erases(steps[j], PosAfter(cur, steps, j)) && !Crowns(pc, steps[j].to)
      {
        if j > 0 {
          assert steps[j] == rest[j - 1];
        }
      }
    }
  }

  /**
   * The capture loop throws exactly when some step erases the piece before any
   * step has crowned it; which steps do depends on the squares alone.
   */
  lemma {:induction false} JumpsThrow(b: Board, cur: Square, steps: seq<Step>, c: nat)
    requires b[cur] != None
    ensures ApplyJumps(b, cur, steps, c) == Thrown <==> exists i :: ThrowsAt(b[cur].value, cur, steps, i)
    decreases |steps|
  {
    if steps != [] {
      var pc, st := b[cur].value, steps[0];
      var after := JumpBoard(b, cur, st.jumped, st.to);
      if Erases(st, cur) {
        assert ThrowsAt(pc, cur, steps, 0);
      } else {
        assert after[st.to] == b[cur];
        if Crowns(pc, st.to) {
          forall i ensures !ThrowsAt(pc, cur, steps, i) {
            if 0 < i < |steps| {
              assert Crowns(pc, steps[0].to) && PosAfter(cur, steps, 0) == cur;
            }
          }
        } else {
          JumpsThrow(after, st.to, steps[1..], c + 1);
          if exists i :: ThrowsAt(pc, cur, steps, i) {
            var i :| ThrowsAt(pc, cur, steps, i);
            ThrowsAtShift(pc, cur, steps, i - 1);
          }
          if exists i :: ThrowsAt(pc, st.to, steps[1..], i) {
            var i :| ThrowsAt(pc, st.to, steps[1..], i);
            ThrowsAtShift(pc, cur, steps, i);
          }
        }
      }
    }
  }

  /** applyMoveOnBoard throws on a capture exactly when the origin holds a piece that one of the steps erases before it is crowned. */
  lemma {:induction false} CaptureThrows(b: Board, from: Square, steps: seq<Step>)
    ensures ApplyMove(b, from, CaptureMove(steps)) == Thrown <==>
      b[from] != None && exists i :: ThrowsAt(b[from].value, from, steps, i)
  {
    if b[from] != None {
      JumpsThrow(b, from, steps, 0);
    }
  }

  /**
   * A simple move from an occupied square onto any other square: the piece is
   * copied to the target, crowned exactly when a man reaches its promotion rank,
   * and its square is cleared; nothing else changes and nothing is captured.
   */
  lemma {:induction false} PlainMoveApplies(b: Board, from: Square, to: Square)
    requires b[from] != None && to != from
    ensures var r, pc := ApplyMove(b, from, PlainMove(to)), b[from].value;
      r.Done? && r.applied.captured == 0 && r.applied.promoted == Crowns(pc, to) &&
      r.applied.board[to] == Some(Piece(pc.player, pc.isKing || r.applied.promoted)) &&
      r.applied.board[from] == None &&
      forall i :: 0 <= i < 64 && i != from && i != to ==> r.applied.board[i] == b[i]
  {
  }

  /** The board after a capture keeps every piece of the capturing side. */
  lemma {:induction false} LandedCounts(b: Board, sq: Square, p: Player)
    ensures CountOf(Landed(b, sq), p) == CountOf(b, p)
  {
    if b[sq] != None && Crowns(b[sq].value, sq) {
      CountUpdate(b, sq, Some(Crowned(b[sq].value)), p);
    }
  }

  /**
   * Playing a complete capture sequence of a piece of p: it is carried out in
   * full, removes one opponent piece per step and no piece of p, and leaves the
   * piece on its last landing square, crowned if a man reached its promotion rank.
   */
  lemma {:induction false} LegalCaptureApplies(b: Board, p: Player, e: CaptureEntry)
    requires LegalCapture(b, p, e)
    ensures var r := ApplyMove(b, e.start, CaptureMove(e.steps));
      var pc, last := b[e.start].value, e.steps[|e.steps| - 1].to;
      r.Done? && r.applied.captured == |e.steps| &&
      r.applied.promoted == (!pc.isKing && Promotes(p, last)) &&
      r.applied.board[last] == Some(Piece(p, pc.isKing || r.applied.promoted)) &&
      CountOf(r.applied.board, Opponent(p)) == CountOf(b, Opponent(p)) - |e.steps| &&
      CountOf(r.applied.board, p) == CountOf(b, p)
  {
    var pc := b[e.start].value;
    assert b[e.start] == Some(Piece(p, pc.isKing));
    CompleteRuns(b, e.start, pc.isKing, p, e.steps);
    RunsMove(b, p, e.start, e.steps);
  }

  /** Playing a sequence that can be carried through, as applyMoveOnBoard does. */
  lemma {:induction false} RunsMove(b: Board, p: Player, start: Square, s: seq<Step>)
    requires Runs(b, start, p, s)
    ensures var r := ApplyMove(b, start, CaptureMove(s));
      var pc, last := b[start].value, s[|s| - 1].to;
      r.Done? && r.applied.captured == |s| &&
      r.applied.promoted == (!pc.isKing && Promotes(p, last)) &&
      r.applied.board[last] == Some(Piece(p, pc.isKing || r.applied.promoted)) &&
      CountOf(r.applied.board, Opponent(p)) == CountOf(b, Opponent(p)) - |s| &&
      CountOf(r.applied.board, p) == CountOf(b, p)
  {
    RunsBoard(b, start, p, s);
    RunsApply(b, start, p, s, 0);
    var fin := AfterJumps(b, start, s);
    var last := s[|s| - 1].to;
    assert ApplyMove(b, start, CaptureMove(s)) == ApplyJumps(b, start, s, 0);
    LandedCounts(fin, last, p);
    LandedCounts(fin, last, Opponent(p));
  }

  /** Every sequence the capture generator offers p is a legal one, so the above applies to it. */
  lemma {:induction false} GeneratedCaptureApplies(b: Board, p: Player, e: CaptureEntry)
    requires e in AllCaptures(b, p)
    ensures LegalCapture(b, p, e)
    ensures ApplyMove(b, e.start, CaptureMove(e.steps)).Done?
    ensures ApplyMove(b, e.start, CaptureMove(e.steps)).applied.captured == |e.steps|
  {
    AllCapturesLongest(b, p, e);
    LegalCaptureApplies(b, p, e);
  }

  /** A legal simple move lands on an empty square, so it is a different square from the mover's. */
  lemma {:induction false} LegalMoveEmptyTarget(b: Board, p: Player, m: SimpleMove)
    requires LegalSimpleMove(b, p, m)
    ensures b[m.to] == None && m.to != m.start
  {
    if b[m.start].value.isKing {
      var r, c := RowOf(m.start), ColOf(m.start);
      var d: Dir, k: int :| ReachedAt(b, r, c, d, k, m.to);
    }
  }

  /**
   * Playing a legal simple move of p: the piece leaves its square for the target,
   * crowned exactly when a man reaches its promotion rank; no other square changes
   * and nothing is captured.
   */
  lemma {:induction false} LegalMoveApplies(b: Board, p: Player, m: SimpleMove)
    requires LegalSimpleMove(b, p, m)
    ensures var r, pc := ApplyMove(b, m.start, PlainMove(m.to)), b[m.start].value;
      r.Done? && r.applied.captured == 0 &&
      r.applied.promoted == (!pc.isKing && Promotes(p, m.to)) &&
      r.applied.board[m.to] == Some(Piece(p, pc.isKing || r.applied.promoted)) &&
      r.applied.board[m.start] == None &&
      forall i :: 0 <= i < 64 && i != m.start && i != m.to ==> r.applied.board[i] == b[i]
  {
    LegalMoveEmptyTarget(b, p, m);
  }

  /** Every simple move the generator offers p is legal, so the above applies to it. */
  lemma {:induction false} GeneratedMoveApplies(b: Board, p: Player, m: SimpleMove)
    requires m in AllMoves(b, p)
    ensures LegalSimpleMove(b, p, m)
    ensures ApplyMove(b, m.start, PlainMove(m.to)).Done?
    ensures ApplyMove(b, m.start, PlainMove(m.to)).applied.board[m.start] == None
  {
    AllMovesExact(b, p, m);
    LegalMoveApplies(b, p, m);
  }
}
