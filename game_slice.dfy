// The game slice of src/features/gameSlice.js: the game state and its reducers
// restart, selectSquare, tryMove and setSettings, as a class whose methods
// update its fields.
module GameSlice {
  import opened BoardModel
  import opened SimpleMoves
  import opened Captures
  import CaptureSearch
  import opened MoveApplier
  import opened GameOver
  import opened InitialPosition

  // ---------------------------------------------------------------------
  // Values held by the state

  /** The `settings` record; no rule reads it. */
  datatype TieBreak = MostKings | PreferKingStart | FreeChoice
  datatype Settings = Settings(tieBreak: TieBreak, noCaptureLimit: int, allowRevisitSquare: bool)

  /** The payload of setSettings: the fields it gives override the current ones. */
  datatype SettingsPatch = SettingsPatch(tieBreak: Option<TieBreak>, noCaptureLimit: Option<int>, allowRevisitSquare: Option<bool>)

  const DefaultSettings: Settings := Settings(MostKings, 50, true)

  /** The status line; each value stands for one message text of the source. */
  datatype Message = GameStarted | NoPlainMoveWhileCapture | Won(winner: Player, reason: EndReason) | TurnOf(player: Player)

  /** The payload of tryMove: `{from, type: "move", to}`, `{from, type: "capture", seq}` or any other type. */
  datatype Payload = MovePayload(from: Square, to: Square) | CapturePayload(from: Square, steps: seq<Step>) | OtherPayload(from: Square)

  /** An entry `{player, from, payload}` of the move history. */
  datatype HistoryEntry = HistoryEntry(player: Player, from: Square, payload: Payload)

  /** The merge `{...settings, ...patch}`. */
  function Merge(s: Settings, patch: SettingsPatch): (r: Settings)
    ensures r.tieBreak == (if patch.tieBreak.Some? then patch.tieBreak.value else s.tieBreak)
    ensures r.noCaptureLimit == (if patch.noCaptureLimit.Some? then patch.noCaptureLimit.value else s.noCaptureLimit)
    ensures r.allowRevisitSquare == (if patch.allowRevisitSquare.Some? then patch.allowRevisitSquare.value else s.allowRevisitSquare)
  {
    Settings(
      match patch.tieBreak case Some(t) => t case None => s.tieBreak,
      match patch.noCaptureLimit case Some(n) => n case None => s.noCaptureLimit,
      match patch.allowRevisitSquare case Some(a) => a case None => s.allowRevisitSquare)
  }

  // ---------------------------------------------------------------------
  // The moves offered for a selected piece

  /** `captures.filter(c => c.start === idx).map(c => ({type: "capture", seq: c.seq}))` */
  function CaptureChoices(es: seq<CaptureEntry>, idx: Square): (r: seq<Action>)
    ensures forall a :: a in r <==> a.CaptureMove? && CaptureEntry(idx, a.steps) in es
  {
    if es == [] then []
    else
      var rest := CaptureChoices(es[1..], idx);
      assert forall e :: e in es <==> e == es[0] || e in es[1..];
      (if es[0].start == idx then [CaptureMove(es[0].steps)] else []) + rest
  }

  /** `moves.filter(m => m.start === idx).map(m => ({type: "move", to: m.to}))` */
  function MoveChoices(ms: seq<SimpleMove>, idx: Square): (r: seq<Action>)
    ensures forall a :: a in r <==> a.PlainMove? && SimpleMove(idx, a.to) in ms
  {
    if ms == [] then []
    else
      var rest := MoveChoices(ms[1..], idx);
      assert forall m :: m in ms <==> m == ms[0] || m in ms[1..];
      (if ms[0].start == idx then [PlainMove(ms[0].to)] else []) + rest
  }

  /** The moves selectSquare offers for the piece on idx: its captures if the side has any, otherwise its simple moves. */
  function Choices(b: Board, p: Player, idx: Square): seq<Action> {
    var captures := AllCaptures(b, p);
    if captures != [] then CaptureChoices(captures, idx) else MoveChoices(AllMoves(b, p), idx)
  }

  /** Some piece of p has a capture. */
  ghost predicate SomeCapture(b: Board, p: Player) {
    exists i: Square :: IsPieceOf(b[i], p) && CanJump(b, i, b[i].value.isKing, p)
  }

  /**
   * Capture is mandatory: while any piece of p can capture, the piece on idx is
   * offered exactly its legal capture sequences of the greatest length found on
   * the board; otherwise exactly its legal simple moves.
   */
  lemma {:induction false} ChoicesMeaning(b: Board, p: Player, idx: Square, a: Action)
    ensures SomeCapture(b, p) ==>
      (a in Choices(b, p, idx) <==>
         a.CaptureMove? && LegalCapture(b, p, CaptureEntry(idx, a.steps)) &&
         forall e :: LegalCapture(b, p, e) ==> |e.steps| <= |a.steps|)
    ensures !SomeCapture(b, p) ==>
      (a in Choices(b, p, idx) <==> a.PlainMove? && LegalSimpleMove(b, p, SimpleMove(idx, a.to)))
  {
    AllCapturesEmptyIff(b, p);
    if a.CaptureMove? {
      AllCapturesLongest(b, p, CaptureEntry(idx, a.steps));
    } else {
      AllMovesExact(b, p, SimpleMove(idx, a.to));
    }
  }

  /** Every move offered for the piece on idx can be played: the move applier does not throw on it. */
  lemma {:induction false} ChoicesPlayable(b: Board, p: Player, idx: Square, a: Action)
    requires a in Choices(b, p, idx)
    ensures ApplyMove(b, idx, a).Done?
    ensures a.CaptureMove? ==> ApplyMove(b, idx, a).applied.captured == |a.steps| > 0
  {
    if a.CaptureMove? {
      GeneratedCaptureApplies(b, p, CaptureEntry(idx, a.steps));
    } else {
      GeneratedMoveApplies(b, p, SimpleMove(idx, a.to));
    }
  }

  /** The move tryMove hands to the applier, if the payload has a known type. */
  function PayloadAction(payload: Payload): (r: Option<Action>)
    ensures r == None <==> payload.OtherPayload?
    ensures payload.MovePayload? ==> r == Some(PlainMove(payload.to))
    ensures payload.CapturePayload? ==> r == Some(CaptureMove(payload.steps))
  {
    match payload
    case MovePayload(_, to) => Some(PlainMove(to))
    case CapturePayload(_, steps) => Some(CaptureMove(steps))
    case OtherPayload(_) => None
  }

  // ---------------------------------------------------------------------
  // The reducers on the state as a value

  /** The fields of the slice's state. */
  datatype GameView = GameView(
    board: Board, currentPlayer: Player, selected: Option<Square>, possibleMoves: seq<Action>,
    moveHistory: seq<HistoryEntry>, settings: Settings, noCaptureCounter: nat,
    winner: Option<Player>, message: Message)

  /**
   * The state's invariant: a selection is a piece of the side to move, offered
   * exactly its choices; without a selection nothing is offered; a finished game
   * has no selection.
   */
  predicate ValidView(v: GameView) {
    (v.selected == None ==> v.possibleMoves == []) &&
    (v.selected.Some? ==> IsPieceOf(v.board[v.selected.value], v.currentPlayer) &&
                          v.possibleMoves == Choices(v.board, v.currentPlayer, v.selected.value)) &&
    (v.winner.Some? ==> v.selected == None)
  }

  /** initialState */
  function InitialView(): (v: GameView)
    ensures v.board == InitialBoard() && v.currentPlayer == A && v.selected == None && v.possibleMoves == []
    ensures v.moveHistory == [] && v.settings == DefaultSettings && v.noCaptureCounter == 0
    ensures v.winner == None && v.message == GameStarted
    ensures ValidView(v)
  {
    GameView(InitialBoard(), A, None, [], [], DefaultSettings, 0, None, GameStarted)
  }

  /** restart: everything but the settings goes back to the initial state. */
  function RestartView(v: GameView): (r: GameView)
    ensures r == InitialView().(settings := v.settings)
    ensures ValidView(r)
  {
    v.(board := InitialBoard(), currentPlayer := A, selected := None, possibleMoves := [],
       moveHistory := [], noCaptureCounter := 0, winner := None, message := GameStarted)
  }

  /** selectSquare */
  function SelectView(v: GameView, idx: Square): (r: GameView)
    ensures ValidView(v) ==> ValidView(r)
    ensures v.winner.Some? || !IsPieceOf(v.board[idx], v.currentPlayer) ==> r == v
    ensures v.winner == None && IsPieceOf(v.board[idx], v.currentPlayer) ==>
      r == v.(selected := Some(idx), possibleMoves := Choices(v.board, v.currentPlayer, idx))
  {
    if v.winner.Some? then v
    else if IsPieceOf(v.board[idx], v.currentPlayer) then
      v.(selected := Some(idx), possibleMoves := Choices(v.board, v.currentPlayer, idx))
    else v
  }

  /**
   * The end of tryMove once a move was applied: the new board, one more history
   * entry, the no-capture counter, then the game-over check for the other side,
   * which either ends the game or passes the turn; the selection is cleared.
   */
  function AfterMove(v: GameView, newBoard: Board, from: Square, payload: Payload, captured: nat): (r: GameView)
    ensures r.board == newBoard && r.settings == v.settings
    ensures r.moveHistory == v.moveHistory + [HistoryEntry(v.currentPlayer, from, payload)]
    ensures r.noCaptureCounter == if captured > 0 then 0 else v.noCaptureCounter + 1
    ensures r.selected == None && r.possibleMoves == []
    ensures var verdict := GameOverOf(newBoard, Opponent(v.currentPlayer));
      (verdict.Over? ==> r.winner == Some(verdict.winner) && r.message == Won(verdict.winner, verdict.reason) &&
                         r.currentPlayer == v.currentPlayer) &&
      (verdict == PlayOn ==> r.winner == v.winner && r.currentPlayer == Opponent(v.currentPlayer) &&
                             r.message == TurnOf(Opponent(v.currentPlayer)))
    ensures ValidView(r)
  {
    Concluded(Recorded(v, newBoard, from, payload, captured))
  }

  /** The move is on the board and in the history, the counter is updated, the selection cleared. */
  function Recorded(v: GameView, newBoard: Board, from: Square, payload: Payload, captured: nat): (r: GameView)
    ensures r.board == newBoard && r.currentPlayer == v.currentPlayer && r.winner == v.winner
    ensures r.moveHistory == v.moveHistory + [HistoryEntry(v.currentPlayer, from, payload)]
    ensures r.selected == None && r.possibleMoves == []
  {
    v.(board := newBoard, moveHistory := v.moveHistory + [HistoryEntry(v.currentPlayer, from, payload)],
       noCaptureCounter := if captured > 0 then 0 else v.noCaptureCounter + 1,
       selected := None, possibleMoves := [])
  }

  /** The game-over check for the side about to move: the game ends, or the turn passes to it. */
  function Concluded(v: GameView): (r: GameView)
    ensures r.board == v.board && r.moveHistory == v.moveHistory && r.selected == v.selected
    ensures var verdict := GameOverOf(v.board, Opponent(v.currentPlayer));
      (verdict.Over? ==> r.winner == Some(verdict.winner) && r.currentPlayer == v.currentPlayer) &&
      (verdict == PlayOn ==> r.winner == v.winner && r.currentPlayer == Opponent(v.currentPlayer))
  {
    var mover := v.currentPlayer;
    match GameOverOf(v.board, Opponent(mover))
    case Over(w, reason) => v.(winner := Some(w), message := Won(w, reason))
    case PlayOn => v.(currentPlayer := Opponent(mover), message := TurnOf(Opponent(mover)))
  }

  /** What tryMove does: the new state, and whether the move applier threw (the state is then kept). */
  datatype TryResult = TryResult(view: GameView, raised: bool)

  /** tryMove */
  function TryMoveView(v: GameView, payload: Payload): (r: TryResult)
    ensures r.raised ==> r.view == v
    ensures ValidView(v) ==> ValidView(r.view)
  {
    if v.winner.Some? || payload.OtherPayload? then TryResult(v, false)
    else if payload.MovePayload? && AllCaptures(v.board, v.currentPlayer) != [] then
      TryResult(v.(message := NoPlainMoveWhileCapture), false)
    else
      match ApplyMove(v.board, payload.from, PayloadAction(payload).value)
      case Thrown => TryResult(v, true)
      case Done(a) =>
        TryResult(AfterMove(v, a.board, payload.from, payload, if payload.CapturePayload? then a.captured else 0), false)
  }

  /**
   * The guards of tryMove: a finished game and an unknown payload type change
   * nothing; a simple move while the side to move has a capture only sets the
   * message; otherwise the payload is applied as given, without checking it
   * against the moves offered.
   */
  lemma {:induction false} TryMoveGuards(v: GameView, payload: Payload)
    ensures v.winner.Some? ==> TryMoveView(v, payload) == TryResult(v, false)
    ensures payload.OtherPayload? ==> TryMoveView(v, payload) == TryResult(v, false)
    ensures v.winner == None && payload.MovePayload? && SomeCapture(v.board, v.currentPlayer) ==>
      TryMoveView(v, payload) == TryResult(v.(message := NoPlainMoveWhileCapture), false)
    ensures v.winner == None && (payload.CapturePayload? || (payload.MovePayload? && !SomeCapture(v.board, v.currentPlayer))) ==>
      var outcome := ApplyMove(v.board, payload.from, PayloadAction(payload).value);
      (TryMoveView(v, payload).raised <==> outcome == Thrown) &&
      (outcome.Done? ==>
         TryMoveView(v, payload).view == AfterMove(v, outcome.applied.board, payload.from, payload, outcome.applied.captured))
  {
    AllCapturesEmptyIff(v.board, v.currentPlayer);
  }

  /**
   * When tryMove raises: on a capture payload, exactly when its origin holds a
   * piece that one of the steps erases before it is crowned; on a move payload,
   * exactly when no capture is pending and an occupied origin is moved onto itself.
   */
  lemma {:induction false} TryMoveRaises(v: GameView, payload: Payload)
    ensures payload.CapturePayload? ==>
      (TryMoveView(v, payload).raised <==>
         v.winner == None && v.board[payload.from] != None &&
         exists i :: ThrowsAt(v.board[payload.from].value, payload.from, payload.steps, i))
    ensures payload.MovePayload? ==>
      (TryMoveView(v, payload).raised <==>
         v.winner == None && !SomeCapture(v.board, v.currentPlayer) &&
         v.board[payload.from] != None && payload.to == payload.from)
    ensures payload.OtherPayload? ==> !TryMoveView(v, payload).raised
  {
    AllCapturesEmptyIff(v.board, v.currentPlayer);
    if payload.CapturePayload? {
      CaptureThrows(v.board, payload.from, payload.steps);
    }
  }

  /**
   * Playing one of the moves offered for the selected piece never throws: the
   * move is recorded, and a capture resets the no-capture counter.
   */
  lemma {:induction false} OfferedMoveIsPlayed(v: GameView, payload: Payload)
    requires ValidView(v) && v.winner == None && v.selected == Some(payload.from)
    requires PayloadAction(payload).Some? && PayloadAction(payload).value in v.possibleMoves
    ensures !TryMoveView(v, payload).raised
    ensures TryMoveView(v, payload).view.moveHistory == v.moveHistory + [HistoryEntry(v.currentPlayer, payload.from, payload)]
    ensures payload.CapturePayload? ==> TryMoveView(v, payload).view.noCaptureCounter == 0
  {
    var a := PayloadAction(payload).value;
    ChoicesPlayable(v.board, v.currentPlayer, payload.from, a);
    ChoicesMeaning(v.board, v.currentPlayer, payload.from, a);
    AllCapturesEmptyIff(v.board, v.currentPlayer);
  }

  /**
   * The payload is not checked against the board: a move or capture from an
   * empty square leaves the board as it is, yet is recorded as a move without
   * capture and the turn is decided as after any other move.
   */
  lemma {:induction false} EmptyOriginIsRecorded(v: GameView, payload: Payload)
    requires v.winner == None && !payload.OtherPayload? && v.board[payload.from] == None
    requires payload.MovePayload? ==> !SomeCapture(v.board, v.currentPlayer)
    ensures !TryMoveView(v, payload).raised
    ensures TryMoveView(v, payload).view == AfterMove(v, v.board, payload.from, payload, 0)
  {
    AllCapturesEmptyIff(v.board, v.currentPlayer);
  }

  /** setSettings */
  function SettingsView(v: GameView, patch: SettingsPatch): (r: GameView)
    ensures r == v.(settings := Merge(v.settings, patch))
    ensures ValidView(v) ==> ValidView(r)
  {
    v.(settings := Merge(v.settings, patch))
  }

  // ---------------------------------------------------------------------
  // The state and its reducers

  class GameState {
    var board: Board
    var currentPlayer: Player
    var selected: Option<Square>
    var possibleMoves: seq<Action>
    var moveHistory: seq<HistoryEntry>
    var settings: Settings
    var noCaptureCounter: nat
    var winner: Option<Player>
    var message: Message

    function View(): GameView
      reads this
    {
      GameView(board, currentPlayer, selected, possibleMoves, moveHistory, settings, noCaptureCounter, winner, message)
    }

    predicate Valid()
      reads this
    {
      ValidView(View())
    }

    /** initialState */
    constructor()
      ensures View() == InitialView() && Valid()
    {
      var initialBoard := CreateInitialBoard();
      board := initialBoard;
      currentPlayer := A;
      selected := None;
      possibleMoves := [];
      moveHistory := [];
      settings := DefaultSettings;
      noCaptureCounter := 0;
      winner := None;
      message := GameStarted;
    }

    method Restart()
      modifies this
      ensures View() == RestartView(old(View())) && Valid()
    {
      board := CreateInitialBoard();
      currentPlayer := A;
      selected := None;
      possibleMoves := [];
      moveHistory := [];
      noCaptureCounter := 0;
      winner := None;
      message := GameStarted;
    }

    method SelectSquare(idx: Square)
      requires Valid()
      modifies this
      ensures View() == SelectView(old(View()), idx) && Valid()
    {
      if winner.Some? {
        return;
      }
      var piece := board[idx];
      if piece.Some? && piece.value.player == currentPlayer {
        selected := Some(idx);
        var captures := CaptureSearch.GenerateAllCapturesForPlayer(board, currentPlayer);
        if |captures| > 0 {
          possibleMoves := CaptureChoices(captures, idx);
        } else {
          var moves := GenerateAllMovesForPlayer(board, currentPlayer);
          possibleMoves := MoveChoices(moves, idx);
        }
      } else {
        if selected == None {
          return;
        }
      }
    }

    /** tryMove; `raised` tells that the move applier threw, the state being left as it was. */
    method TryMove(payload: Payload) returns (raised: bool)
      requires Valid()
      modifies this
      ensures TryResult(View(), raised) == TryMoveView(old(View()), payload) && Valid()
    {
      raised := false;
      if winner.Some? {
        return;
      }
      var from := payload.from;
      var captures := CaptureSearch.GenerateAllCapturesForPlayer(board, currentPlayer);
      var globalHasCaptures := |captures| > 0;
      var newBoard := board;
      var capturedCount := 0;
      match payload {
        case CapturePayload(_, steps) =>
          var res := ApplyMoveOnBoard(newBoard, from, CaptureMove(steps));
          if res.Thrown? {
            return true;
          }
          newBoard := res.applied.board;
          capturedCount := res.applied.captured;
        case MovePayload(_, to) =>
          if globalHasCaptures {
            message := NoPlainMoveWhileCapture;
            return;
          }
          var res := ApplyMoveOnBoard(newBoard, from, PlainMove(to));
          if res.Thrown? {
            return true;
          }
          newBoard := res.applied.board;
        case OtherPayload(_) =>
          return;
      }
      RecordMove(newBoard, from, payload, capturedCount);
    }

    /** The second half of tryMove, once a move was applied. */
    method RecordMove(newBoard: Board, from: Square, payload: Payload, capturedCount: nat)
      modifies this
      ensures View() == AfterMove(old(View()), newBoard, from, payload, capturedCount) && Valid()
    {
      ghost var before := View();
      board := newBoard;
      moveHistory := moveHistory + [HistoryEntry(currentPlayer, from, payload)];
      if capturedCount > 0 {
        noCaptureCounter := 0;
      } else {
        noCaptureCounter := noCaptureCounter + 1;
      }
      selected := None;
      possibleMoves := [];
      assert View() == Recorded(before, newBoard, from, payload, capturedCount);
      Conclude();
    }

    /** The game-over check after a move: declare the winner, or hand the turn over. */
    method Conclude()
      modifies this
      ensures View() == Concluded(old(View()))
    {
      var over := IsGameOverCheck(board, if currentPlayer == A then B else A);
      if over.Over? {
        winner := Some(over.winner);
        message := Won(over.winner, over.reason);
        return;
      }
      currentPlayer := if currentPlayer == A then B else A;
      message := TurnOf(currentPlayer);
    }

    method SetSettings(patch: SettingsPatch)
      requires Valid()
      modifies this
      ensures View() == SettingsView(old(View()), patch) && Valid()
    {
      settings := Merge(settings, patch);
    }
  }
}
