// The capture search of src/utils/rules.js: what generateCapturesFrom returns
// for one piece, what generateAllCapturesForPlayer keeps (the longest
// sequences), and the rules those lists satisfy.
module Captures {
  import opened BoardModel

  /** One jump `{ to, jumped }` of a capture sequence. */
  datatype Step = Step(to: Square, jumped: Square)

  /** An entry `{ start, seq }` of generateAllCapturesForPlayer. */
  datatype CaptureEntry = CaptureEntry(start: Square, steps: seq<Step>)

  // ---------------------------------------------------------------------
  // Specification of generateCapturesFrom, in the order the source builds its list.
  // Every recursive call is on a scratch board with one opponent piece fewer.

  function PrependAll(st: Step, ns: seq<seq<Step>>): seq<seq<Step>> {
    seq(|ns|, k requires 0 <= k < |ns| => [st] + ns[k])
  }

  /** The jump alone when nothing follows it, otherwise the jump before each continuation. */
  function Extend(st: Step, next: seq<seq<Step>>): (r: seq<seq<Step>>)
    ensures r != []
  {
    if next == [] then [[st]] else PrependAll(st, next)
  }

  /** The capture sequences of the piece of p on `start`, direction by direction. */
  function CapturesFrom(b: Board, start: Square, isKing: bool, p: Player): seq<seq<Step>>
    requires b[start] == Some(Piece(p, isKing))
    decreases CountOf(b, Opponent(p)), 9, 0
  {
    if !isKing then Flatten(ManJumps(b, start, p)) else Flatten(KingScans(b, start, p))
  }

  /**
   * The sequences that begin with jump st: a man that lands on its promotion rank
   * stops there; otherwise the search goes on from the landing square on a copy
   * of the board with the piece moved and the jumped piece removed.
   */
  function Continue(b: Board, start: Square, isKing: bool, p: Player, st: Step): seq<seq<Step>>
    requires b[start] == Some(Piece(p, isKing))
    requires IsPieceOf(b[st.jumped], Opponent(p)) && b[st.to] == None
    decreases CountOf(b, Opponent(p)), 1, 0
  {
    if !isKing && Promotes(p, st.to) then [[st]]
    else
      JumpRemovesOne(b, start, st.jumped, st.to, p);
      Extend(st, CapturesFrom(JumpBoard(b, start, st.jumped, st.to), st.to, isKing, p))
  }

  /** A man's sequences in each of its directions: forward, left, right. */
  function ManJumps(b: Board, start: Square, p: Player): (t: seq<seq<seq<Step>>>)
    requires b[start] == Some(Piece(p, false))
    ensures |t| == |ManDirs(p)|
    decreases CountOf(b, Opponent(p)), 8, 0
  {
    seq(|ManDirs(p)|, j requires 0 <= j < |ManDirs(p)| => ManJump(b, start, p, ManDirs(p)[j]))
  }

  /** A man's jump in direction d over the adjacent square onto the one beyond it. */
  function ManJump(b: Board, start: Square, p: Player, d: Dir): seq<seq<Step>>
    requires b[start] == Some(Piece(p, false))
    decreases CountOf(b, Opponent(p)), 7, 0
  {
    var r, c := RowOf(start), ColOf(start);
    if !OnBoardAt(r, c, d, 1) || !OnBoardAt(r, c, d, 2) then []
    else
      var mid, land := SquareAt(r, c, d, 1), SquareAt(r, c, d, 2);
      if IsPieceOf(b[mid], Opponent(p)) && b[land] == None then Continue(b, start, false, p, Step(land, mid))
      else []
  }

  /** A king's sequences in each direction of KingDirs. */
  function KingScans(b: Board, start: Square, p: Player): (t: seq<seq<seq<Step>>>)
    requires b[start] == Some(Piece(p, true))
    ensures |t| == |KingDirs|
    decreases CountOf(b, Opponent(p)), 8, 0
  {
    seq(|KingDirs|, j requires 0 <= j < |KingDirs| => KingScan(b, start, p, KingDirs[j], 1))
  }

  /**
   * A king's scan in direction d from distance k on: empty squares are passed,
   * the first occupied one ends the scan, and only an opponent piece there is
   * captured, landing on any of the empty squares just beyond it.
   */
  function KingScan(b: Board, start: Square, p: Player, d: Dir, k: int): seq<seq<Step>>
    requires b[start] == Some(Piece(p, true)) && 1 <= k
    decreases CountOf(b, Opponent(p)), 7, 8 - k
  {
    var r, c := RowOf(start), ColOf(start);
    if !OnBoardAt(r, c, d, k) then []
    else
      var sq := SquareAt(r, c, d, k);
      if b[sq] == None then KingScan(b, start, p, d, k + 1)
      else if b[sq].value.player == Opponent(p) then
        RayEmpty(b, RowAt(r, d, k), ColAt(c, d, k), d);
        Flatten(KingLandings(b, start, p, sq, Ray(b, RowAt(r, d, k), ColAt(c, d, k), d)))
      else []
  }

  /** The sequences of a king jumping over `mid` onto each landing square of ls in turn. */
  function KingLandings(b: Board, start: Square, p: Player, mid: Square, ls: seq<Square>): (t: seq<seq<seq<Step>>>)
    requires b[start] == Some(Piece(p, true)) && IsPieceOf(b[mid], Opponent(p))
    requires forall j :: 0 <= j < |ls| ==> b[ls[j]] == None
    ensures |t| == |ls|
    decreases CountOf(b, Opponent(p)), 6, 0
  {
    seq(|ls|, j requires 0 <= j < |ls| => Continue(b, start, true, p, Step(ls[j], mid)))
  }

  // ---------------------------------------------------------------------
  // Reference: the jumps and sequences the rules allow

  /** A man's jump in direction d: over the adjacent square onto the square beyond. */
  predicate ManJumpAlong(start: Square, st: Step, d: Dir) {
    var r, c := RowOf(start), ColOf(start);
    OnBoardAt(r, c, d, 1) && OnBoardAt(r, c, d, 2) &&
    st.jumped == SquareAt(r, c, d, 1) && st.to == SquareAt(r, c, d, 2)
  }

  /** The squares at distances lo + 1 .. hi from (r, c) in direction d are empty. */
  predicate EmptyBetween(b: Board, r: int, c: int, d: Dir, lo: int, hi: int) {
    forall j :: lo < j <= hi ==> EmptyAt(b, r, c, d, j)
  }

  lemma {:induction false} EmptyBetweenAt(b: Board, r: int, c: int, d: Dir, lo: int, hi: int, j: int)
    requires EmptyBetween(b, r, c, d, lo, hi) && lo < j <= hi
    ensures EmptyAt(b, r, c, d, j)
  {
  }

  /**
   * A king's jump in direction d over the square at distance k1, the first
   * occupied one, onto the square at distance k2, with only empty squares between.
   */
  predicate KingJumpAlong(b: Board, start: Square, st: Step, d: Dir, k1: int, k2: int) {
    var r, c := RowOf(start), ColOf(start);
    1 <= k1 < k2 && EmptyBetween(b, r, c, d, 0, k1 - 1) && EmptyBetween(b, r, c, d, k1, k2) &&
    OnBoardAt(r, c, d, k1) && st.jumped == SquareAt(r, c, d, k1) &&
    OnBoardAt(r, c, d, k2) && st.to == SquareAt(r, c, d, k2)
  }

  /**
   * A jump the rules allow: it removes an opponent piece and lands on an empty
   * square; a man jumps forward or sideways only, a king along a rank or file.
   */
  ghost predicate LegalJump(b: Board, start: Square, isKing: bool, p: Player, st: Step) {
    IsPieceOf(b[st.jumped], Opponent(p)) && b[st.to] == None &&
    if isKing then exists d, k1, k2 :: KingJumpAlong(b, start, st, d, k1, k2)
    else exists d :: d in ManDirs(p) && ManJumpAlong(start, st, d)
  }

  ghost predicate CanJump(b: Board, start: Square, isKing: bool, p: Player) {
    exists st: Step :: LegalJump(b, start, isKing, p, st)
  }

  /**
   * A complete capture sequence: each jump is legal on the board left by the
   * jumps before it; a man stops as soon as it lands on its promotion rank;
   * otherwise the sequence ends only where no further jump is possible.
   */
  ghost predicate Complete(b: Board, start: Square, isKing: bool, p: Player, s: seq<Step>)
    requires b[start] == Some(Piece(p, isKing))
    decreases |s|
  {
    |s| >= 1 && LegalJump(b, start, isKing, p, s[0]) &&
    var after := JumpBoard(b, start, s[0].jumped, s[0].to);
    if !isKing && Promotes(p, s[0].to) then |s| == 1
    else if |s| == 1 then !CanJump(after, s[0].to, isKing, p)
    else Complete(after, s[0].to, isKing, p, s[1..])
  }

  // ---------------------------------------------------------------------
  // One level of the search: its sequences are those of the legal first jumps

  lemma {:induction false} ExtendMember(st: Step, next: seq<seq<Step>>, s: seq<Step>)
    ensures s in Extend(st, next) <==>
      |s| >= 1 && s[0] == st && (if next == [] then |s| == 1 else s[1..] in next)
  {
    if next == [] {
      if |s| == 1 && s[0] == st {
        assert s == [st];
      }
    } else {
      if s in Extend(st, next) {
        var k :| 0 <= k < |next| && PrependAll(st, next)[k] == s;
        assert s == [st] + next[k];
        assert s[1..] == next[k];
      }
      if |s| >= 1 && s[0] == st && s[1..] in next {
        var k :| 0 <= k < |next| && next[k] == s[1..];
        assert s == [st] + s[1..];
        assert PrependAll(st, next)[k] == s;
      }
    }
  }

  lemma {:induction false} ContinueMember(b: Board, start: Square, isKing: bool, p: Player, st: Step, s: seq<Step>)
    requires b[start] == Some(Piece(p, isKing))
    requires IsPieceOf(b[st.jumped], Opponent(p)) && b[st.to] == None
    ensures JumpBoard(b, start, st.jumped, st.to)[st.to] == Some(Piece(p, isKing))
    ensures s in Continue(b, start, isKing, p, st) <==>
      |s| >= 1 && s[0] == st &&
      if !isKing && Promotes(p, st.to) then |s| == 1
      else
        var next := CapturesFrom(JumpBoard(b, start, st.jumped, st.to), st.to, isKing, p);
        if next == [] then |s| == 1 else s[1..] in next
  {
    if !isKing && Promotes(p, st.to) {
      if |s| == 1 && s[0] == st {
        assert s == [st];
      }
    } else {
      ExtendMember(st, CapturesFrom(JumpBoard(b, start, st.jumped, st.to), st.to, isKing, p), s);
    }
  }

  lemma {:induction false} ManJumpMember(b: Board, start: Square, p: Player, d: Dir, s: seq<Step>)
    requires b[start] == Some(Piece(p, false))
    ensures s in ManJump(b, start, p, d) <==>
      exists st :: ManJumpAlong(start, st, d) && IsPieceOf(b[st.jumped], Opponent(p)) && b[st.to] == None &&
        s in Continue(b, start, false, p, st)
  {
    var r, c := RowOf(start), ColOf(start);
    if s in ManJump(b, start, p, d) {
      var st := Step(SquareAt(r, c, d, 2), SquareAt(r, c, d, 1));
      assert ManJumpAlong(start, st, d);
    }
  }

  lemma {:induction false} ManFirstJumpSound(b: Board, start: Square, p: Player, s: seq<Step>)
    requires b[start] == Some(Piece(p, false)) && s in CapturesFrom(b, start, false, p)
    ensures exists st :: LegalJump(b, start, false, p, st) && s in Continue(b, start, false, p, st)
  {
    var t := ManJumps(b, start, p);
    FlattenMember(t, s);
    var j :| 0 <= j < |t| && s in t[j];
    var d := ManDirs(p)[j];
    ManJumpMember(b, start, p, d, s);
    var st :| ManJumpAlong(start, st, d) && IsPieceOf(b[st.jumped], Opponent(p)) && b[st.to] == None &&
      s in Continue(b, start, false, p, st);
    assert d in ManDirs(p);
    assert LegalJump(b, start, false, p, st);
  }

  lemma {:induction false} ManFirstJumpComplete(b: Board, start: Square, p: Player, st: Step, s: seq<Step>)
    requires b[start] == Some(Piece(p, false))
    requires LegalJump(b, start, false, p, st) && s in Continue(b, start, false, p, st)
    ensures s in CapturesFrom(b, start, false, p)
  {
    var t := ManJumps(b, start, p);
    var d :| d in ManDirs(p) && ManJumpAlong(start, st, d);
    var j :| 0 <= j < |ManDirs(p)| && ManDirs(p)[j] == d;
    ManJumpMember(b, start, p, d, s);
    assert s in t[j];
    FlattenMember(t, s);
  }

  lemma {:induction false} KingLandingsMember(b: Board, start: Square, p: Player, mid: Square, ls: seq<Square>, s: seq<Step>)
    requires b[start] == Some(Piece(p, true)) && IsPieceOf(b[mid], Opponent(p))
    requires forall j :: 0 <= j < |ls| ==> b[ls[j]] == None
    ensures s in Flatten(KingLandings(b, start, p, mid, ls)) <==>
      exists l :: l in ls && s in Continue(b, start, true, p, Step(l, mid))
  {
    var t := KingLandings(b, start, p, mid, ls);
    FlattenMember(t, s);
    if s in Flatten(t) {
      var j :| 0 <= j < |t| && s in t[j];
      assert ls[j] in ls;
    }
    if exists l :: l in ls && s in Continue(b, start, true, p, Step(l, mid)) {
      var l :| l in ls && s in Continue(b, start, true, p, Step(l, mid));
      var j :| 0 <= j < |ls| && ls[j] == l;
      assert s in t[j];
    }
  }

  /** Seen from the square k steps away, distance j is distance k + j from the start. */
  lemma {:induction false} EmptyShiftBy(b: Board, r: int, c: int, d: Dir, k: int, j: int)
    ensures OnBoardAt(RowAt(r, d, k), ColAt(c, d, k), d, j) <==> OnBoardAt(r, c, d, k + j)
    ensures OnBoardAt(r, c, d, k + j) ==> SquareAt(RowAt(r, d, k), ColAt(c, d, k), d, j) == SquareAt(r, c, d, k + j)
    ensures EmptyAt(b, RowAt(r, d, k), ColAt(c, d, k), d, j) <==> EmptyAt(b, r, c, d, k + j)
  {
    StepShiftBy(r, c, d, k, j);
  }

  /** Empty squares seen from the square k steps away are empty squares beyond distance k. */
  lemma {:induction false} ClearShift(b: Board, r: int, c: int, d: Dir, k: int, n: int)
    ensures ClearThrough(b, RowAt(r, d, k), ColAt(c, d, k), d, n) <==> EmptyBetween(b, r, c, d, k, k + n)
  {
    var r', c' := RowAt(r, d, k), ColAt(c, d, k);
    if ClearThrough(b, r', c', d, n) {
      forall i | k < i <= k + n ensures EmptyAt(b, r, c, d, i) {
        EmptyShiftBy(b, r, c, d, k, i - k);
        assert EmptyAt(b, r', c', d, i - k);
      }
    }
    if EmptyBetween(b, r, c, d, k, k + n) {
      forall i | 1 <= i <= n ensures EmptyAt(b, r', c', d, i) {
        EmptyShiftBy(b, r, c, d, k, i);
        assert EmptyAt(b, r, c, d, k + i);
      }
    }
  }

  /** l is the square at distance k2 beyond distance k, reached over empty squares only. */
  predicate LandsAt(b: Board, r: int, c: int, d: Dir, k: int, k2: int, l: Square) {
    k < k2 && EmptyBetween(b, r, c, d, k, k2) && OnBoardAt(r, c, d, k2) && l == SquareAt(r, c, d, k2)
  }

  lemma {:induction false} LandingsBeyondSound(b: Board, r: int, c: int, d: Dir, k: int, l: Square)
    requires InBoard(r, c) && 1 <= k && OnBoardAt(r, c, d, k)
    requires l in Ray(b, RowAt(r, d, k), ColAt(c, d, k), d)
    ensures exists k2 :: LandsAt(b, r, c, d, k, k2, l)
  {
    var r', c' := RowAt(r, d, k), ColAt(c, d, k);
    RayMemberAt(b, r', c', d, l);
    var j :| ReachedAt(b, r', c', d, j, l);
    EmptyShiftBy(b, r, c, d, k, j);
    ClearShift(b, r, c, d, k, j - 1);
    forall i | k < i <= k + j
      ensures EmptyAt(b, r, c, d, i)
    {
      if i < k + j {
        EmptyBetweenAt(b, r, c, d, k, k + j - 1, i);
      }
    }
    assert LandsAt(b, r, c, d, k, k + j, l);
  }

  lemma {:induction false} LandingsBeyondComplete(b: Board, r: int, c: int, d: Dir, k: int, k2: int)
    requires InBoard(r, c) && 1 <= k && OnBoardAt(r, c, d, k)
    requires k < k2 && EmptyBetween(b, r, c, d, k, k2) && OnBoardAt(r, c, d, k2)
    ensures SquareAt(r, c, d, k2) in Ray(b, RowAt(r, d, k), ColAt(c, d, k), d)
  {
    var r', c' := RowAt(r, d, k), ColAt(c, d, k);
    var j := k2 - k;
    EmptyShiftBy(b, r, c, d, k, j);
    ClearShift(b, r, c, d, k, j - 1);
    assert EmptyAt(b, r, c, d, k + j);
    assert ReachedAt(b, r', c', d, j, SquareAt(r, c, d, k2));
    RayExactly(b, r', c', d, SquareAt(r, c, d, k2));
  }

  /** The king jumps found by a scan from distance k on, when the squares before k are empty. */
  ghost predicate KingJumpFrom(b: Board, start: Square, d: Dir, k: int, st: Step) {
    exists k1, k2 :: k <= k1 && KingJumpAlong(b, start, st, d, k1, k2)
  }

  /** Past the edge of the board a scan finds no jump. */
  lemma {:induction false} ScanOffBoard(b: Board, start: Square, d: Dir, k: int, st: Step)
    requires 1 <= k && !OnBoardAt(RowOf(start), ColOf(start), d, k)
    ensures !KingJumpFrom(b, start, d, k, st)
  {
    if KingJumpFrom(b, start, d, k, st) {
      var k1, k2 :| k <= k1 && KingJumpAlong(b, start, st, d, k1, k2);
      OffBoardStaysOff(RowOf(start), ColOf(start), d, k, k1);
    }
  }

  /** An empty square is passed over: the jumps over opponent pieces are those found further on. */
  lemma {:induction false} ScanPasses(b: Board, start: Square, d: Dir, k: int, st: Step, p: Player)
    requires 1 <= k && EmptyAt(b, RowOf(start), ColOf(start), d, k)
    ensures IsPieceOf(b[st.jumped], p) ==> (KingJumpFrom(b, start, d, k, st) <==> KingJumpFrom(b, start, d, k + 1, st))
  {
    if IsPieceOf(b[st.jumped], p) && KingJumpFrom(b, start, d, k, st) {
      var k1, k2 :| k <= k1 && KingJumpAlong(b, start, st, d, k1, k2);
      assert k1 != k;
    }
  }

  /** The first occupied square ends the scan: any jump found from k on is over it. */
  lemma {:induction false} ScanStops(b: Board, start: Square, d: Dir, k: int, st: Step)
    requires 1 <= k && OnBoardAt(RowOf(start), ColOf(start), d, k)
    requires b[SquareAt(RowOf(start), ColOf(start), d, k)] != None
    ensures KingJumpFrom(b, start, d, k, st) ==> st.jumped == SquareAt(RowOf(start), ColOf(start), d, k)
  {
    if KingJumpFrom(b, start, d, k, st) {
      var k1, k2 :| k <= k1 && KingJumpAlong(b, start, st, d, k1, k2);
      if k1 > k {
        EmptyBetweenAt(b, RowOf(start), ColOf(start), d, 0, k1 - 1, k);
      }
    }
  }

  /** Over an occupied square at distance k, the landings are the squares of the ray beyond it. */
  lemma {:induction false} ScanLands(b: Board, start: Square, d: Dir, k: int, st: Step)
    requires 1 <= k && OnBoardAt(RowOf(start), ColOf(start), d, k)
    requires EmptyBetween(b, RowOf(start), ColOf(start), d, 0, k - 1)
    requires b[SquareAt(RowOf(start), ColOf(start), d, k)] != None
    ensures KingJumpFrom(b, start, d, k, st) <==>
      st.jumped == SquareAt(RowOf(start), ColOf(start), d, k) &&
      st.to in Ray(b, RowAt(RowOf(start), d, k), ColAt(ColOf(start), d, k), d)
  {
    var r, c := RowOf(start), ColOf(start);
    ScanStops(b, start, d, k, st);
    if KingJumpFrom(b, start, d, k, st) {
      var k1, k2 :| k <= k1 && KingJumpAlong(b, start, st, d, k1, k2);
      LandingsBeyondComplete(b, r, c, d, k, k2);
    }
    if st.jumped == SquareAt(r, c, d, k) && st.to in Ray(b, RowAt(r, d, k), ColAt(c, d, k), d) {
      LandingsBeyondSound(b, r, c, d, k, st.to);
      var k2 :| LandsAt(b, r, c, d, k, k2, st.to);
      assert KingJumpAlong(b, start, st, d, k, k2);
    }
  }

  /** The sequences of a scan that meets an opponent piece at distance k: those of its landings. */
  lemma {:induction false} ScanHitLandings(b: Board, start: Square, p: Player, d: Dir, k: int, s: seq<Step>)
    requires b[start] == Some(Piece(p, true)) && 1 <= k
    requires OnBoardAt(RowOf(start), ColOf(start), d, k)
    requires IsPieceOf(b[SquareAt(RowOf(start), ColOf(start), d, k)], Opponent(p))
    ensures s in KingScan(b, start, p, d, k) <==>
      exists l :: l in Ray(b, RowAt(RowOf(start), d, k), ColAt(ColOf(start), d, k), d) && b[l] == None &&
        s in Continue(b, start, true, p, Step(l, SquareAt(RowOf(start), ColOf(start), d, k)))
  {
    var r, c := RowOf(start), ColOf(start);
    RayEmpty(b, RowAt(r, d, k), ColAt(c, d, k), d);
    KingLandingsMember(b, start, p, SquareAt(r, c, d, k), Ray(b, RowAt(r, d, k), ColAt(c, d, k), d), s);
  }

  lemma {:induction false} ScanHitMember(b: Board, start: Square, p: Player, d: Dir, k: int, s: seq<Step>)
    requires b[start] == Some(Piece(p, true)) && 1 <= k
    requires EmptyBetween(b, RowOf(start), ColOf(start), d, 0, k - 1)
    requires OnBoardAt(RowOf(start), ColOf(start), d, k)
    requires IsPieceOf(b[SquareAt(RowOf(start), ColOf(start), d, k)], Opponent(p))
    ensures s in KingScan(b, start, p, d, k) <==>
      exists st :: KingJumpFrom(b, start, d, k, st) && IsPieceOf(b[st.jumped], Opponent(p)) && b[st.to] == None &&
        s in Continue(b, start, true, p, st)
  {
    if s in KingScan(b, start, p, d, k) {
      ScanHitSound(b, start, p, d, k, s);
    }
    forall st | KingJumpFrom(b, start, d, k, st) && IsPieceOf(b[st.jumped], Opponent(p)) && b[st.to] == None &&
        s in Continue(b, start, true, p, st)
      ensures s in KingScan(b, start, p, d, k)
    {
      ScanHitComplete(b, start, p, d, k, st, s);
    }
  }

  lemma {:induction false} ScanHitSound(b: Board, start: Square, p: Player, d: Dir, k: int, s: seq<Step>)
    requires b[start] == Some(Piece(p, true)) && 1 <= k
    requires EmptyBetween(b, RowOf(start), ColOf(start), d, 0, k - 1)
    requires OnBoardAt(RowOf(start), ColOf(start), d, k)
    requires IsPieceOf(b[SquareAt(RowOf(start), ColOf(start), d, k)], Opponent(p))
    requires s in KingScan(b, start, p, d, k)
    ensures exists st :: KingJumpFrom(b, start, d, k, st) && IsPieceOf(b[st.jumped], Opponent(p)) && b[st.to] == None &&
                         s in Continue(b, start, true, p, st)
  {
    var r, c := RowOf(start), ColOf(start);
    var sq := SquareAt(r, c, d, k);
    var ray := Ray(b, RowAt(r, d, k), ColAt(c, d, k), d);
    ScanHitLandings(b, start, p, d, k, s);
    var l :| l in ray && b[l] == None && s in Continue(b, start, true, p, Step(l, sq));
    ScanLands(b, start, d, k, Step(l, sq));
    assert KingJumpFrom(b, start, d, k, Step(l, sq));
  }

  lemma {:induction false} ScanHitComplete(b: Board, start: Square, p: Player, d: Dir, k: int, st: Step, s: seq<Step>)
    requires b[start] == Some(Piece(p, true)) && 1 <= k
    requires EmptyBetween(b, RowOf(start), ColOf(start), d, 0, k - 1)
    requires OnBoardAt(RowOf(start), ColOf(start), d, k)
    requires IsPieceOf(b[SquareAt(RowOf(start), ColOf(start), d, k)], Opponent(p))
    requires KingJumpFrom(b, start, d, k, st) && IsPieceOf(b[st.jumped], Opponent(p)) && b[st.to] == None
    requires s in Continue(b, start, true, p, st)
    ensures s in KingScan(b, start, p, d, k)
  {
    var r, c := RowOf(start), ColOf(start);
    var sq := SquareAt(r, c, d, k);
    ScanLands(b, start, d, k, st);
    assert st == Step(st.to, sq);
    ScanHitLandings(b, start, p, d, k, s);
  }

  lemma {:induction false} KingScanMember(b: Board, start: Square, p: Player, d: Dir, k: int, s: seq<Step>)
    requires b[start] == Some(Piece(p, true)) && 1 <= k
    requires EmptyBetween(b, RowOf(start), ColOf(start), d, 0, k - 1)
    ensures s in KingScan(b, start, p, d, k) <==>
      exists st :: KingJumpFrom(b, start, d, k, st) && IsPieceOf(b[st.jumped], Opponent(p)) && b[st.to] == None &&
        s in Continue(b, start, true, p, st)
    decreases 8 - k
  {
    var r, c := RowOf(start), ColOf(start);
    if !OnBoardAt(r, c, d, k) {
      forall st: Step ensures !KingJumpFrom(b, start, d, k, st) {
        ScanOffBoard(b, start, d, k, st);
      }
    } else {
      var sq := SquareAt(r, c, d, k);
      if b[sq] == None {
        assert EmptyBetween(b, r, c, d, 0, k);
        KingScanMember(b, start, p, d, k + 1, s);
        forall st: Step ensures IsPieceOf(b[st.jumped], Opponent(p)) ==>
          (KingJumpFrom(b, start, d, k, st) <==> KingJumpFrom(b, start, d, k + 1, st))
        {
          ScanPasses(b, start, d, k, st, Opponent(p));
        }
      } else if b[sq].value.player == Opponent(p) {
        ScanHitMember(b, start, p, d, k, s);
      } else {
        forall st: Step ensures KingJumpFrom(b, start, d, k, st) ==> st.jumped == sq {
          ScanStops(b, start, d, k, st);
        }
      }
    }
  }

  lemma {:induction false} KingFirstJumpSound(b: Board, start: Square, p: Player, s: seq<Step>)
    requires b[start] == Some(Piece(p, true)) && s in CapturesFrom(b, start, true, p)
    ensures exists st :: LegalJump(b, start, true, p, st) && s in Continue(b, start, true, p, st)
  {
    var t := KingScans(b, start, p);
    FlattenMember(t, s);
    var j :| 0 <= j < |t| && s in t[j];
    var d := KingDirs[j];
    KingScanMember(b, start, p, d, 1, s);
    var st :| KingJumpFrom(b, start, d, 1, st) && IsPieceOf(b[st.jumped], Opponent(p)) && b[st.to] == None &&
      s in Continue(b, start, true, p, st);
    var k1, k2 :| 1 <= k1 && KingJumpAlong(b, start, st, d, k1, k2);
    assert LegalJump(b, start, true, p, st);
  }

  lemma {:induction false} KingFirstJumpComplete(b: Board, start: Square, p: Player, st: Step, s: seq<Step>)
    requires b[start] == Some(Piece(p, true))
    requires LegalJump(b, start, true, p, st) && s in Continue(b, start, true, p, st)
    ensures s in CapturesFrom(b, start, true, p)
  {
    var t := KingScans(b, start, p);
    var d, k1, k2 :| KingJumpAlong(b, start, st, d, k1, k2);
    var j := match d case Up => 0 case Down => 1 case Right => 2 case Left => 3;
    assert KingDirs[j] == d;
    assert KingJumpFrom(b, start, d, 1, st);
    KingScanMember(b, start, p, d, 1, s);
    assert s in t[j];
    FlattenMember(t, s);
  }

  /** A sequence is found exactly when it is one of the continuations of some legal first jump. */
  lemma {:induction false} FirstJump(b: Board, start: Square, isKing: bool, p: Player, s: seq<Step>)
    requires b[start] == Some(Piece(p, isKing))
    ensures s in CapturesFrom(b, start, isKing, p) <==>
      exists st :: LegalJump(b, start, isKing, p, st) && s in Continue(b, start, isKing, p, st)
  {
    if s in CapturesFrom(b, start, isKing, p) {
      if isKing {
        KingFirstJumpSound(b, start, p, s);
      } else {
        ManFirstJumpSound(b, start, p, s);
      }
    }
    if exists st :: LegalJump(b, start, isKing, p, st) && s in Continue(b, start, isKing, p, st) {
      var st :| LegalJump(b, start, isKing, p, st) && s in Continue(b, start, isKing, p, st);
      if isKing {
        KingFirstJumpComplete(b, start, p, st, s);
      } else {
        ManFirstJumpComplete(b, start, p, st, s);
      }
    }
  }

  // ---------------------------------------------------------------------
  // The search finds exactly the complete sequences

  /** The search finds nothing exactly when the piece has no legal jump. */
  lemma {:induction false} CapturesEmptyIff(b: Board, start: Square, isKing: bool, p: Player)
    requires b[start] == Some(Piece(p, isKing))
    ensures CapturesFrom(b, start, isKing, p) == [] <==> !CanJump(b, start, isKing, p)
  {
    if CanJump(b, start, isKing, p) {
      var st :| LegalJump(b, start, isKing, p, st);
      var cs := Continue(b, start, isKing, p, st);
      assert cs != [];
      FirstJump(b, start, isKing, p, cs[0]);
    } else if CapturesFrom(b, start, isKing, p) != [] {
      FirstJump(b, start, isKing, p, CapturesFrom(b, start, isKing, p)[0]);
    }
  }

  /**
   * generateCapturesFrom returns exactly the complete capture sequences of the
   * piece: every jump removes an opponent piece that is still on the board, a man
   * moves forward or sideways only and stops on promotion, a king captures the
   * first piece it meets in a direction and may land on any empty square beyond it.
   */
  lemma {:induction false} CapturesExact(b: Board, start: Square, isKing: bool, p: Player, s: seq<Step>)
    requires b[start] == Some(Piece(p, isKing))
    ensures s in CapturesFrom(b, start, isKing, p) <==> Complete(b, start, isKing, p, s)
    decreases |s|
  {
    FirstJump(b, start, isKing, p, s);
    if |s| >= 1 && LegalJump(b, start, isKing, p, s[0]) {
      var st := s[0];
      ContinueMember(b, start, isKing, p, st, s);
      var after := JumpBoard(b, start, st.jumped, st.to);
      if !(!isKing && Promotes(p, st.to)) {
        CapturesEmptyIff(after, st.to, isKing, p);
        CapturesExact(after, st.to, isKing, p, s[1..]);
      }
      if s in CapturesFrom(b, start, isKing, p) {
        var st' :| LegalJump(b, start, isKing, p, st') && s in Continue(b, start, isKing, p, st');
        ContinueMember(b, start, isKing, p, st', s);
      }
    } else if s in CapturesFrom(b, start, isKing, p) {
      var st' :| LegalJump(b, start, isKing, p, st') && s in Continue(b, start, isKing, p, st');
      ContinueMember(b, start, isKing, p, st', s);
    }
  }

  // ---------------------------------------------------------------------
  // What every complete sequence satisfies

  /** The scratch board after the jumps of s, made by the piece standing on cur. */
  function AfterJumps(b: Board, cur: Square, s: seq<Step>): Board
    decreases |s|
  {
    if s == [] then b else AfterJumps(JumpBoard(b, cur, s[0].jumped, s[0].to), s[0].to, s[1..])
  }

  /** The square the piece stands on after the first i jumps of s. */
  function PosAfter(cur: Square, s: seq<Step>, i: int): Square
    requires 0 <= i <= |s|
  {
    if i == 0 then cur else s[i - 1].to
  }

  lemma {:induction false} AfterJumpsShift(b: Board, cur: Square, s: seq<Step>, i: int)
    requires 1 <= i <= |s|
    ensures AfterJumps(b, cur, s[..i]) == AfterJumps(JumpBoard(b, cur, s[0].jumped, s[0].to), s[0].to, s[1..][..i - 1])
  {
    assert s[..i][1..] == s[1..][..i - 1];
  }

  /**
   * The piece of p on `cur` can be carried through the steps of s: each jumps
   * an opponent piece onto an empty square, and a man is not on its promotion
   * rank after any step but the last.
   */
  predicate Runs(b: Board, cur: Square, p: Player, s: seq<Step>)
    decreases |s|
  {
    |s| >= 1 && IsPieceOf(b[cur], p) && IsPieceOf(b[s[0].jumped], Opponent(p)) && b[s[0].to] == None &&
    (|s| > 1 ==> !(!b[cur].value.isKing && Promotes(p, s[0].to)) &&
                 Runs(JumpBoard(b, cur, s[0].jumped, s[0].to), s[0].to, p, s[1..]))
  }

  /** A complete capture sequence can be carried through. */
  lemma {:induction false} CompleteRuns(b: Board, start: Square, isKing: bool, p: Player, s: seq<Step>)
    requires b[start] == Some(Piece(p, isKing)) && Complete(b, start, isKing, p, s)
    ensures Runs(b, start, p, s)
    decreases |s|
  {
    var st := s[0];
    var after := JumpBoard(b, start, st.jumped, st.to);
    assert IsPieceOf(b[st.jumped], Opponent(p)) && b[st.to] == None;
    assert after[st.to] == Some(Piece(p, isKing));
    if |s| > 1 {
      CompleteRuns(after, st.to, isKing, p, s[1..]);
    }
  }

  /**
   * At each jump of a complete sequence the piece is still on its square, the
   * jumped square holds an opponent piece and the landing square is empty, on
   * the board left by the jumps before it.
   */
  lemma {:induction false} JumpedHeldOpponent(b: Board, start: Square, isKing: bool, p: Player, s: seq<Step>, i: int)
    requires b[start] == Some(Piece(p, isKing)) && Complete(b, start, isKing, p, s)
    requires 0 <= i < |s|
    ensures var now := AfterJumps(b, start, s[..i]);
      now[PosAfter(start, s, i)] == Some(Piece(p, isKing)) &&
      IsPieceOf(now[s[i].jumped], Opponent(p)) && now[s[i].to] == None
  {
    CompleteRuns(b, start, isKing, p, s);
    RunsHeld(b, start, p, s, i);
  }

  lemma {:induction false} RunsHeld(b: Board, start: Square, p: Player, s: seq<Step>, i: int)
    requires Runs(b, start, p, s) && 0 <= i < |s|
    ensures var now := AfterJumps(b, start, s[..i]);
      now[PosAfter(start, s, i)] == b[start] &&
      IsPieceOf(now[s[i].jumped], Opponent(p)) && now[s[i].to] == None
    decreases i
  {
    if i > 0 {
      var after := JumpBoard(b, start, s[0].jumped, s[0].to);
      assert after[s[0].to] == b[start];
      AfterJumpsShift(b, start, s, i);
      RunsHeld(after, s[0].to, p, s[1..], i - 1);
      assert s[1..][i - 1] == s[i];
      assert PosAfter(s[0].to, s[1..], i - 1) == PosAfter(start, s, i);
    }
  }

  /** A square that does not hold an opponent piece is never jumped later in the sequence. */
  lemma {:induction false} NotOpponentNeverJumped(b: Board, cur: Square, p: Player, s: seq<Step>, q: Square)
    requires Runs(b, cur, p, s)
    requires !IsPieceOf(b[q], Opponent(p))
    ensures forall i :: 0 <= i < |s| ==> s[i].jumped != q
    decreases |s|
  {
    if |s| > 1 {
      var after := JumpBoard(b, cur, s[0].jumped, s[0].to);
      assert !IsPieceOf(after[q], Opponent(p));
      NotOpponentNeverJumped(after, s[0].to, p, s[1..], q);
      forall i | 1 <= i < |s| ensures s[i].jumped != q {
        assert s[i] == s[1..][i - 1];
      }
    }
  }

  /** No square is jumped twice in a capture sequence: a captured piece leaves the board. */
  lemma {:induction false} JumpsDistinct(b: Board, start: Square, isKing: bool, p: Player, s: seq<Step>)
    requires b[start] == Some(Piece(p, isKing)) && Complete(b, start, isKing, p, s)
    ensures forall i, j :: 0 <= i < j < |s| ==> s[i].jumped != s[j].jumped
  {
    CompleteRuns(b, start, isKing, p, s);
    RunsDistinct(b, start, p, s);
  }

  lemma {:induction false} RunsDistinct(b: Board, start: Square, p: Player, s: seq<Step>)
    requires Runs(b, start, p, s)
    ensures forall i, j :: 0 <= i < j < |s| ==> s[i].jumped != s[j].jumped
    decreases |s|
  {
    if |s| > 1 {
      var after := JumpBoard(b, start, s[0].jumped, s[0].to);
      NotOpponentNeverJumped(after, s[0].to, p, s[1..], s[0].jumped);
      RunsDistinct(after, s[0].to, p, s[1..]);
      forall i, j | 0 <= i < j < |s| ensures s[i].jumped != s[j].jumped {
        assert s[j] == s[1..][j - 1];
        if i > 0 {
          assert s[i] == s[1..][i - 1];
        }
      }
    }
  }

  /** A man's sequence ends at its first landing on the promotion rank: no jump follows it. */
  lemma {:induction false} ManStopsOnPromotion(b: Board, start: Square, p: Player, s: seq<Step>)
    requires b[start] == Some(Piece(p, false)) && Complete(b, start, false, p, s)
    ensures forall i :: 0 <= i < |s| - 1 ==> !Promotes(p, s[i].to)
  {
    CompleteRuns(b, start, false, p, s);
    RunsStopOnPromotion(b, start, p, s);
  }

  lemma {:induction false} RunsStopOnPromotion(b: Board, start: Square, p: Player, s: seq<Step>)
    requires Runs(b, start, p, s) && !b[start].value.isKing
    ensures forall i :: 0 <= i < |s| - 1 ==> !Promotes(p, s[i].to)
    decreases |s|
  {
    if |s| > 1 {
      var after := JumpBoard(b, start, s[0].jumped, s[0].to);
      assert after[s[0].to] == b[start];
      RunsStopOnPromotion(after, s[0].to, p, s[1..]);
      forall i | 1 <= i < |s| - 1 ensures !Promotes(p, s[i].to) {
        assert s[i] == s[1..][i - 1];
      }
    }
  }

  // ---------------------------------------------------------------------
  // generateAllCapturesForPlayer: all sequences of a side, then the longest

  function Tag(i: Square, ss: seq<seq<Step>>): seq<CaptureEntry> {
    seq(|ss|, k requires 0 <= k < |ss| => CaptureEntry(i, ss[k]))
  }

  /** The entries contributed by square i: its piece's sequences, if it is a piece of p. */
  function PieceCaptures(b: Board, p: Player, i: Square): seq<CaptureEntry> {
    match b[i]
    case None => []
    case Some(pc) => if pc.player != p then [] else Tag(i, CapturesFrom(b, i, pc.isKing, p))
  }

  function CapturesTable(b: Board, p: Player): (t: seq<seq<CaptureEntry>>)
    ensures |t| == 64
  {
    seq(64, i requires 0 <= i < 64 => PieceCaptures(b, p, i))
  }

  /** The list `all` built square by square before the filter. */
  function Collected(b: Board, p: Player): seq<CaptureEntry> {
    Flatten(CapturesTable(b, p))
  }

  /** `maxCaptured`: the largest sequence length in es, 0 for none. */
  function MaxLength(es: seq<CaptureEntry>): (n: nat)
    ensures forall e :: e in es ==> |e.steps| <= n
    ensures es != [] ==> exists e :: e in es && |e.steps| == n
    ensures es == [] ==> n == 0
  {
    if es == [] then 0
    else
      var m, l := MaxLength(es[..|es| - 1]), |es[|es| - 1].steps|;
      assert es == es[..|es| - 1] + [es[|es| - 1]];
      if l > m then l else m
  }

  /** The entries of es whose sequence has length n, in their order. */
  function KeepLength(es: seq<CaptureEntry>, n: nat): (r: seq<CaptureEntry>)
    ensures forall e :: e in r <==> e in es && |e.steps| == n
  {
    if es == [] then []
    else
      var last := es[|es| - 1];
      assert es == es[..|es| - 1] + [last];
      KeepLength(es[..|es| - 1], n) + (if |last.steps| == n then [last] else [])
  }

  function AllCaptures(b: Board, p: Player): seq<CaptureEntry> {
    var all := Collected(b, p);
    if all == [] then [] else KeepLength(all, MaxLength(all))
  }

  /** A legal capture entry of p: a complete sequence of the piece of p on its start square. */
  ghost predicate LegalCapture(b: Board, p: Player, e: CaptureEntry) {
    IsPieceOf(b[e.start], p) && Complete(b, e.start, b[e.start].value.isKing, p, e.steps)
  }

  lemma {:induction false} TagMember(i: Square, ss: seq<seq<Step>>, e: CaptureEntry)
    ensures e in Tag(i, ss) <==> e.start == i && e.steps in ss
  {
    if e.start == i && e.steps in ss {
      var k :| 0 <= k < |ss| && ss[k] == e.steps;
      assert Tag(i, ss)[k] == e;
    }
  }

  /** Before the filter, the list holds exactly the legal capture entries of p. */
  lemma {:induction false} CollectedExact(b: Board, p: Player, e: CaptureEntry)
    ensures e in Collected(b, p) <==> LegalCapture(b, p, e)
  {
    var t := CapturesTable(b, p);
    FlattenMember(t, e);
    if e in Collected(b, p) {
      var k :| 0 <= k < 64 && e in t[k];
      assert t[k] == PieceCaptures(b, p, k);
      TagMember(k, CapturesFrom(b, k, b[k].value.isKing, p), e);
    }
    assert t[e.start] == PieceCaptures(b, p, e.start);
    if IsPieceOf(b[e.start], p) {
      TagMember(e.start, CapturesFrom(b, e.start, b[e.start].value.isKing, p), e);
      CapturesExact(b, e.start, b[e.start].value.isKing, p, e.steps);
    }
  }

  /**
   * The maximal-capture rule: the result holds exactly the legal capture entries
   * of p that no other legal capture entry of p outnumbers.
   */
  lemma {:induction false} AllCapturesLongest(b: Board, p: Player, e: CaptureEntry)
    ensures e in AllCaptures(b, p) <==>
      LegalCapture(b, p, e) && forall e' :: LegalCapture(b, p, e') ==> |e'.steps| <= |e.steps|
  {
    var all := Collected(b, p);
    CollectedExact(b, p, e);
    if e in AllCaptures(b, p) {
      forall e' | LegalCapture(b, p, e') ensures |e'.steps| <= |e.steps| {
        CollectedExact(b, p, e');
      }
    }
    if LegalCapture(b, p, e) && forall e' :: LegalCapture(b, p, e') ==> |e'.steps| <= |e.steps| {
      var w :| w in all && |w.steps| == MaxLength(all);
      CollectedExact(b, p, w);
    }
  }

  /** All entries of the result have the same length, the longest found. */
  lemma {:induction false} AllCapturesSameLength(b: Board, p: Player)
    ensures forall e :: e in AllCaptures(b, p) ==> |e.steps| == MaxLength(Collected(b, p))
    ensures forall e, e' :: e in AllCaptures(b, p) && e' in Collected(b, p) ==> |e'.steps| <= |e.steps|
  {
  }

  /** The result is empty exactly when no piece of p can capture. */
  lemma {:induction false} AllCapturesEmptyIff(b: Board, p: Player)
    ensures AllCaptures(b, p) == [] <==>
      forall i: Square :: IsPieceOf(b[i], p) ==> !CanJump(b, i, b[i].value.isKing, p)
  {
    var all := Collected(b, p);
    if all != [] {
      var n := MaxLength(all);
      var w :| w in all && |w.steps| == n;
      assert w in AllCaptures(b, p);
      CollectedExact(b, p, w);
      CapturesExact(b, w.start, b[w.start].value.isKing, p, w.steps);
      CapturesEmptyIff(b, w.start, b[w.start].value.isKing, p);
    } else {
      forall i: Square | IsPieceOf(b[i], p) ensures !CanJump(b, i, b[i].value.isKing, p) {
        CapturesEmptyIff(b, i, b[i].value.isKing, p);
        if CapturesFrom(b, i, b[i].value.isKing, p) != [] {
          var s := CapturesFrom(b, i, b[i].value.isKing, p)[0];
          CapturesExact(b, i, b[i].value.isKing, p, s);
          CollectedExact(b, p, CaptureEntry(i, s));
        }
      }
    }
  }
}
