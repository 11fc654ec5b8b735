/**
  The state of the game-session manager as a value, and one function per
  operation giving the state it leaves behind. The `ChessGameManager` class
  is proved against these functions; the lemmas here state what the
  operations promise.
 */
module GameSession {
  import opened Wrappers
  import opened ChessHistory
  import opened ChessGame
  import ChessBoard
  import Fen

  /** The manager's fields; `position` is the FEN record of the library's current position. */
  datatype GameState = GameState(
    position: string,
    lastMoveSan: Option<string>,           // SAN of the library's last move; None after a load
    historyElements: seq<HistoryItem>,
    selectedNodeIndex: Option<int>,
    pendingPromotion: ChessBoard.PendingPromotion,
    pendingPromotionStartSquare: Option<int>,
    pendingPromotionEndSquare: Option<int>,
    lastMoveArrow: Option<LastMoveArrow>,
    isFirstHistoryNode: bool,
    positionFenBeforeLastMove: Option<string>,
    startPosition: string,
    whitePlayerType: ChessBoard.PlayerType,
    blackPlayerType: ChessBoard.PlayerType,
    occurrences: map<string, int>,
    gameInProgress: bool)

  /** The side to move read from the position's FEN record, as `isWhiteTurn` does. */
  predicate WhiteToPlay(position: string)
  {
    Fen.SideToMoveIsWhite(position) == Some(true)
  }

  predicate SelectionInRange(s: GameState)
  {
    s.selectedNodeIndex.Some? ==> 0 <= s.selectedNodeIndex.value < |s.historyElements|
  }

  /** A selected history node is always a move. */
  predicate SelectionOnMove(s: GameState)
  {
    SelectionInRange(s) && (s.selectedNodeIndex.Some? ==> s.historyElements[s.selectedNodeIndex.value].MoveItem?)
  }

  /** The pending side and the two pending squares are set and cleared together. */
  predicate PendingConsistent(s: GameState)
  {
    && (s.pendingPromotion == ChessBoard.NoPending ==> s.pendingPromotionStartSquare.None? && s.pendingPromotionEndSquare.None?)
    && (s.pendingPromotion != ChessBoard.NoPending ==> s.pendingPromotionStartSquare.Some? && s.pendingPromotionEndSquare.Some?)
  }

  predicate Valid(s: GameState)
  {
    SelectionOnMove(s) && PendingConsistent(s)
  }

  /** The state before any game: empty history, nothing selected, standard start position. */
  function Initial(o: Oracle): (s: GameState)
  {
    GameState(o.load(Fen.DefaultPosition), None, [], None, ChessBoard.NoPending, None, None, None, false, None,
              Fen.DefaultPosition, ChessBoard.Human, ChessBoard.Human, map[], false)
  }

  /** `loadPosition`: a new game set up from the record; it has no last move. */
  function LoadPosition(o: Oracle, s: GameState, positionFen: string): GameState
  {
    s.(position := o.load(positionFen), lastMoveSan := None)
  }

  /** `resetGame`. The repetition table is keyed by the start text exactly as given. */
  function Reset(o: Oracle, s: GameState): GameState
  {
    var p := o.load(s.startPosition);
    s.(position := p, lastMoveSan := None,
       occurrences := map[s.startPosition := 1],
       whitePlayerType := ChessBoard.Human, blackPlayerType := ChessBoard.Human,
       historyElements := [MoveNumberItem(o.moveNumber(p), WhiteToPlay(p))],
       pendingPromotion := ChessBoard.NoPending,
       pendingPromotionStartSquare := None, pendingPromotionEndSquare := None,
       lastMoveArrow := None, isFirstHistoryNode := true, positionFenBeforeLastMove := None,
       selectedNodeIndex := None, gameInProgress := true)
  }

  /** `setStartPosition`: kept only when the library accepts the record. */
  function SetStartPosition(o: Oracle, s: GameState, startPosition: string): GameState
  {
    if o.acceptsFen(startPosition) then s.(startPosition := startPosition) else s
  }

  /** The history items `addMoveToHistory` appends after a move has been played. */
  function HistoryAddition(o: Oracle, s: GameState, moveCoordinates: MoveCoordinates): seq<HistoryItem>
    requires s.lastMoveSan.Some?
  {
    var isWhiteTurnBeforeMove := !WhiteToPlay(s.position);
    var numberItem := if isWhiteTurnBeforeMove && !s.isFirstHistoryNode
                      then [MoveNumberItem(o.moveNumber(s.position), true)] else [];
    numberItem + [MoveItem(s.lastMoveSan.value, s.position, isWhiteTurnBeforeMove, moveCoordinates)]
  }

  function AddMoveToHistory(o: Oracle, s: GameState, moveCoordinates: MoveCoordinates): GameState
    requires s.lastMoveSan.Some?
  {
    s.(historyElements := s.historyElements + HistoryAddition(o, s, moveCoordinates), isFirstHistoryNode := false)
  }

  /** One more occurrence of the current position's record. */
  function CountOccurrence(s: GameState): GameState
  {
    var count := if s.position in s.occurrences then s.occurrences[s.position] + 1 else 1;
    s.(occurrences := s.occurrences[s.position := count])
  }

  /** The index of the last move item of the history, if any. */
  function LastMoveItemIndex(h: seq<HistoryItem>): (r: Option<int>)
    ensures r.Some? ==> && 0 <= r.value < |h| && h[r.value].MoveItem?
                        && forall k :: r.value < k < |h| ==> !h[k].MoveItem?
    ensures r.None? ==> forall k :: 0 <= k < |h| ==> !h[k].MoveItem?
    decreases |h|
  {
    if |h| == 0 then None
    else if h[|h| - 1].MoveItem? then Some(|h| - 1)
    else
      var r := LastMoveItemIndex(h[..|h| - 1]);
      assert forall k :: 0 <= k < |h| - 1 ==> h[..|h| - 1][k] == h[k];
      r
  }

  /** The index of the first move item at or after `from`, if any. */
  function FirstMoveItemFrom(h: seq<HistoryItem>, from: nat): (r: Option<int>)
    requires from <= |h|
    ensures r.Some? ==> && from <= r.value < |h| && h[r.value].MoveItem?
                        && forall k :: from <= k < r.value ==> !h[k].MoveItem?
    ensures r.None? ==> forall k :: from <= k < |h| ==> !h[k].MoveItem?
    decreases |h| - from
  {
    if from == |h| then None
    else if h[from].MoveItem? then Some(from)
    else FirstMoveItemFrom(h, from + 1)
  }

  /** `stopGame`: no game in progress, nobody to play, the last move selected. */
  function Stopped(s: GameState): GameState
  {
    s.(gameInProgress := false, whitePlayerType := ChessBoard.NoPlayer, blackPlayerType := ChessBoard.NoPlayer,
       selectedNodeIndex := LastMoveItemIndex(s.historyElements))
  }

  /** Which of the callbacks, if any, `handleGameEndingStatus` fires. */
  datatype Ending = NoEnding | Checkmate(whiteWon: bool) | Stalemate | ThreeFoldRepetition
                  | InsufficientMaterial | FiftyMovesRuleDraw

  /** The ending rules in the order they are tried. */
  function EndingOf(o: Oracle, s: GameState): Ending
    requires s.position in s.occurrences
  {
    var p := s.position;
    if o.isMate(p) then Checkmate(!WhiteToPlay(p))
    else if o.isStaleMate(p) then Stalemate
    else if s.occurrences[p] >= 3 then ThreeFoldRepetition
    else if MissingMatingMaterial(o, p) then InsufficientMaterial
    else if o.isTerminal(p) then FiftyMovesRuleDraw
    else NoEnding
  }

  /** A new state and the ending callback fired while reaching it. */
  datatype Outcome = Outcome(state: GameState, ending: Ending)

  function HandleGameEnding(o: Oracle, s: GameState): Outcome
    requires s.position in s.occurrences
  {
    var e := EndingOf(o, s);
    Outcome(if e == NoEnding then s else Stopped(s), e)
  }

  /**
    The common tail of the three ways a move gets played: remember the
    position, play, record the history, draw the arrow, count the
    repetition and look for the end of the game.
   */
  function ApplyMove(o: Oracle, s: GameState, m: Move, moveCoordinates: MoveCoordinates): Outcome
  {
    var before := s.position;
    var played := s.(positionFenBeforeLastMove := Some(before), position := o.play(before, m),
                     lastMoveSan := Some(o.san(before, m)));
    var recorded := AddMoveToHistory(o, played, moveCoordinates).(lastMoveArrow := Some(ArrowOf(moveCoordinates)));
    HandleGameEnding(o, CountOccurrence(recorded))
  }

  /** `playMove` for a drop from (startFile, startRank) to (endFile, endRank). */
  function PlayMove(o: Oracle, s: GameState, startFile: int, startRank: int, endFile: int, endRank: int): Outcome
  {
    var startSquareIndex := CoorToSqi(startFile, startRank);
    var endSquareIndex := CoorToSqi(endFile, endRank);
    var legalMoves := o.legalMoves(s.position);
    var moveWithoutPromotion := FindLegalMove(legalMoves, startSquareIndex, endSquareIndex, NoPromotion);
    var moveWithPromotion := FindLegalMove(legalMoves, startSquareIndex, endSquareIndex, PromoteTo(Queen));
    if moveWithoutPromotion.Some? then
      ApplyMove(o, s, moveWithoutPromotion.value, MoveCoordinates(startFile, startRank, endFile, endRank))
    else if moveWithPromotion.Some? then
      Outcome(s.(pendingPromotion := if WhiteToPlay(s.position) then ChessBoard.WhitePending else ChessBoard.BlackPending,
                 pendingPromotionStartSquare := Some(startSquareIndex),
                 pendingPromotionEndSquare := Some(endSquareIndex)), NoEnding)
    else Outcome(s, NoEnding)
  }

  function CancelPromotion(s: GameState): GameState
  {
    s.(pendingPromotion := ChessBoard.NoPending, pendingPromotionStartSquare := None, pendingPromotionEndSquare := None)
  }

  /** The library piece of a promotion choice. */
  function PromotionPiece(t: ChessBoard.PromotionType): PieceKind
  {
    match t
    case Queen => PieceKind.Queen
    case Rook => PieceKind.Rook
    case Bishop => PieceKind.Bishop
    case Knight => PieceKind.Knight
  }

  /** `commitPromotion` with the chosen piece. */
  function CommitPromotion(o: Oracle, s: GameState, pieceType: ChessBoard.PromotionType): Outcome
    requires PendingConsistent(s)
  {
    if s.pendingPromotion == ChessBoard.NoPending then Outcome(s, NoEnding)
    else
      var from := s.pendingPromotionStartSquare.value;
      var to := s.pendingPromotionEndSquare.value;
      var matchingMove := FindLegalMove(o.legalMoves(s.position), from, to, PromoteTo(PromotionPiece(pieceType)));
      if matchingMove.None? then Outcome(s, NoEnding)
      else ApplyMove(o, CancelPromotion(s), matchingMove.value,
                     MoveCoordinates(SqiToCol(from), SqiToRow(from), SqiToCol(to), SqiToRow(to)))
  }

  /** The end of an engine move: completed with its outcome, or thrown out of with a partial update. */
  datatype EngineOutcome = Completed(outcome: Outcome) | Failed(state: GameState)

  /**
    `processEngineMove`. Text shorter than four characters fails while
    cutting out the squares; an illegal move is not played but the rest goes
    on, and fails on the missing last move only when no move has been played
    since the last load.
   */
  function ProcessEngineMove(o: Oracle, s: GameState, uciMove: string): EngineOutcome
  {
    var s1 := s.(positionFenBeforeLastMove := Some(s.position));
    if |uciMove| < 4 then Failed(s1)
    else
      var s3 := EngineMovePlayed(o, s1, uciMove);
      if s3.lastMoveSan.None? then Failed(s3)
      else Completed(RecordMove(o, s3, ToMoveCoordinates(ToLastMoveArrow(uciMove).value)))
  }

  /**
    `Position.playMove` on a UCI move of at least four characters: played
    when legal, ignored otherwise; then the arrow of its squares is drawn.
   */
  function EngineMovePlayed(o: Oracle, s: GameState, uciMove: string): GameState
    requires |uciMove| >= 4
  {
    var from := StrToSqi(uciMove[0], uciMove[1]);
    var to := StrToSqi(uciMove[2], uciMove[3]);
    var promotion := if |uciMove| >= 5 then o.promotionPiece(uciMove[4]) else NoPromotion;
    var matchingMove := FindLegalMove(o.legalMoves(s.position), from, to, promotion);
    var played := if matchingMove.Some?
                  then s.(position := o.play(s.position, matchingMove.value),
                          lastMoveSan := Some(o.san(s.position, matchingMove.value)))
                  else s;
    played.(lastMoveArrow := ToLastMoveArrow(uciMove))
  }

  /** The bookkeeping after the library's last move: history, repetition count, ending. */
  function RecordMove(o: Oracle, s: GameState, moveCoordinates: MoveCoordinates): Outcome
    requires s.lastMoveSan.Some?
  {
    HandleGameEnding(o, CountOccurrence(AddMoveToHistory(o, s, moveCoordinates)))
  }

  /** The position of move item `j` shown on the board, with its arrow. */
  function ShowMoveItem(o: Oracle, s: GameState, j: int): GameState
    requires 0 <= j < |s.historyElements| && s.historyElements[j].MoveItem?
  {
    var item := s.historyElements[j];
    LoadPosition(o, s.(selectedNodeIndex := Some(j)), item.positionFen)
      .(lastMoveArrow := Some(ArrowOf(item.movesCoordinates)))
  }

  /** The start position shown, with nothing selected. */
  function ShowStart(o: Oracle, s: GameState): GameState
  {
    LoadPosition(o, s, s.startPosition).(selectedNodeIndex := None, lastMoveArrow := None)
  }

  /** `requestPosition`: refused during a game. */
  function RequestPosition(o: Oracle, s: GameState, positionFen: string, moveCoordinates: MoveCoordinates,
                           nodeToSelectIndex: int): (GameState, bool)
  {
    if s.gameInProgress then (s, false)
    else (LoadPosition(o, s, positionFen).(lastMoveArrow := Some(ArrowOf(moveCoordinates)),
                                           selectedNodeIndex := Some(nodeToSelectIndex)), true)
  }

  /** `requestBackOneMove`: the nearest move item before the selection, if any. */
  function BackOneMove(s: GameState): Option<int>
    requires SelectionInRange(s)
  {
    if s.gameInProgress || s.selectedNodeIndex.None? || s.selectedNodeIndex.value <= 0 then None
    else LastMoveItemIndex(s.historyElements[..s.selectedNodeIndex.value])
  }

  /** `requestGotoPreviousHistoryNode`. */
  function GotoPrevious(o: Oracle, s: GameState): (GameState, bool)
    requires SelectionInRange(s)
  {
    if s.gameInProgress || s.selectedNodeIndex.None? then (s, false)
    else
      var back := BackOneMove(s);
      if back.Some? then
        assert s.historyElements[..s.selectedNodeIndex.value][back.value] == s.historyElements[back.value];
        (ShowMoveItem(o, s, back.value), true)
      else (ShowStart(o, s), true)
  }

  /** `requestForwardOneMove`: the nearest move item after the selection, if any. */
  function ForwardOneMove(s: GameState): Option<int>
    requires SelectionInRange(s) && (s.gameInProgress || |s.historyElements| > 0)
  {
    if s.gameInProgress then None
    else if s.selectedNodeIndex.Some? && s.selectedNodeIndex.value >= |s.historyElements| - 1 then None
    else FirstMoveItemFrom(s.historyElements, if s.selectedNodeIndex.None? then 0 else s.selectedNodeIndex.value + 1)
  }

  /** `requestGotoNextHistoryNode`. */
  function GotoNext(o: Oracle, s: GameState): (GameState, bool)
    requires SelectionInRange(s) && (s.gameInProgress || |s.historyElements| > 0)
  {
    var next := ForwardOneMove(s);
    if next.Some? then (ShowMoveItem(o, s, next.value), true) else (s, false)
  }

  /** Where `requestGotoFirstPosition` ends: the start position, unless nothing was selected. */
  function FirstPosition(o: Oracle, s: GameState): GameState
  {
    if s.selectedNodeIndex.None? then s else ShowStart(o, s)
  }

  /** Where `requestGotoLastHistoryNode` ends: the last move, unless it is not ahead of the selection. */
  function LastPosition(o: Oracle, s: GameState): GameState
  {
    var last := LastMoveItemIndex(s.historyElements);
    if last.None? then s
    else if s.selectedNodeIndex.Some? && s.selectedNodeIndex.value >= last.value then s
    else ShowMoveItem(o, s, last.value)
  }

  /** Number of move items in a history. */
  function MoveItemCount(h: seq<HistoryItem>): nat
  {
    if |h| == 0 then 0 else MoveItemCount(h[..|h| - 1]) + (if h[|h| - 1].MoveItem? then 1 else 0)
  }

  lemma {:induction false} MoveItemCountAppend(a: seq<HistoryItem>, b: seq<HistoryItem>)
    ensures MoveItemCount(a + b) == MoveItemCount(a) + MoveItemCount(b)
    decreases |b|
  {
    if |b| > 0 {
      assert (a + b)[..|a + b| - 1] == a + b[..|b| - 1];
      MoveItemCountAppend(a, b[..|b| - 1]);
    } else {
      assert a + b == a;
    }
  }

  /** The same state, but for what navigation changes. */
  predicate SameButNavigation(a: GameState, b: GameState)
  {
    a.(position := b.position, lastMoveSan := b.lastMoveSan, lastMoveArrow := b.lastMoveArrow,
       selectedNodeIndex := b.selectedNodeIndex) == b
  }

  // ---------------------------------------------------------------- lemmas

  /** A reset game is valid, in progress, with one move-number item and the start seen once. */
  lemma ResetSeedsHistory(o: Oracle, s: GameState)
    ensures var r := Reset(o, s);
            && Valid(r) && r.gameInProgress
            && |r.historyElements| == 1 && r.historyElements[0].MoveNumberItem?
            && MoveItemCount(r.historyElements) == 0
            && r.occurrences == map[s.startPosition := 1]
            && r.whitePlayerType == ChessBoard.Human && r.blackPlayerType == ChessBoard.Human
  {
    var h := Reset(o, s).historyElements;
    assert h[..0] == [];
  }

  /**
    A played move appends exactly one move item, preceded by a move-number
    item exactly when White moved and it is not the first move since the
    reset; the earlier history is kept.
   */
  lemma {:induction false} ApplyMoveAppendsOneMove(o: Oracle, s: GameState, m: Move, c: MoveCoordinates)
    ensures var r := ApplyMove(o, s, m, c).state;
            var whiteMoved := !WhiteToPlay(o.play(s.position, m));
            && |r.historyElements| == |s.historyElements| + (if whiteMoved && !s.isFirstHistoryNode then 2 else 1)
            && r.historyElements[..|s.historyElements|] == s.historyElements
            && r.historyElements[|r.historyElements| - 1]
               == MoveItem(o.san(s.position, m), o.play(s.position, m), whiteMoved, c)
            && MoveItemCount(r.historyElements) == MoveItemCount(s.historyElements) + 1
            && !r.isFirstHistoryNode
  {
    var played := s.(positionFenBeforeLastMove := Some(s.position), position := o.play(s.position, m),
                     lastMoveSan := Some(o.san(s.position, m)));
    ApplyMoveRecordsAddition(o, s, m, c);
    HistoryAdditionAppends(o, played, c, s.historyElements);
  }

  /** The history a played move leaves: the earlier one and the addition for the new position. */
  lemma ApplyMoveRecordsAddition(o: Oracle, s: GameState, m: Move, c: MoveCoordinates)
    ensures var played := s.(positionFenBeforeLastMove := Some(s.position), position := o.play(s.position, m),
                             lastMoveSan := Some(o.san(s.position, m)));
            && ApplyMove(o, s, m, c).state.historyElements == s.historyElements + HistoryAddition(o, played, c)
            && !ApplyMove(o, s, m, c).state.isFirstHistoryNode
  {
  }

  /** Appending one move's addition to a history `h`. */
  lemma HistoryAdditionAppends(o: Oracle, played: GameState, c: MoveCoordinates, h: seq<HistoryItem>)
    requires played.lastMoveSan.Some?
    ensures var added := HistoryAddition(o, played, c);
            var whiteMoved := !WhiteToPlay(played.position);
            && |h + added| == |h| + (if whiteMoved && !played.isFirstHistoryNode then 2 else 1)
            && (h + added)[..|h|] == h
            && (h + added)[|h + added| - 1] == MoveItem(played.lastMoveSan.value, played.position, whiteMoved, c)
            && MoveItemCount(h + added) == MoveItemCount(h) + 1
  {
    var added := HistoryAddition(o, played, c);
    MoveItemCountAppend(h, added);
    var whiteMoved := !WhiteToPlay(played.position);
    if whiteMoved && !played.isFirstHistoryNode {
      assert |added| == 2 && !added[0].MoveItem? && added[1].MoveItem?;
      assert MoveItemCount(added[..1]) == 0 by {
        assert added[..1][..0] == [];
      }
      assert added[..|added| - 1] == added[..1];
    } else {
      assert MoveItemCount(added) == 1 by {
        assert added[..|added| - 1] == [];
      }
    }
    assert (h + added)[..|h|] == h;
  }

  /** After a played move its position has been seen once more; other counts are kept. */
  lemma ApplyMoveCountsOccurrence(o: Oracle, s: GameState, m: Move, c: MoveCoordinates)
    ensures var r := ApplyMove(o, s, m, c).state;
            var p := o.play(s.position, m);
            && r.position == p
            && r.positionFenBeforeLastMove == Some(s.position)
            && r.occurrences == s.occurrences[p := if p in s.occurrences then s.occurrences[p] + 1 else 1]
  {
  }

  /**
    Every ending stops the game: no game in progress, nobody to play and the
    last move selected; without an ending the state is left as it is. The
    checkmate callback says White won exactly when Black is to move.
   */
  lemma EndingStopsTheGame(o: Oracle, s: GameState)
    requires s.position in s.occurrences
    ensures var r := HandleGameEnding(o, s);
            && (r.ending == NoEnding ==> r.state == s)
            && (r.ending != NoEnding ==>
                  && !r.state.gameInProgress
                  && r.state.whitePlayerType == ChessBoard.NoPlayer && r.state.blackPlayerType == ChessBoard.NoPlayer
                  && r.state.selectedNodeIndex == LastMoveItemIndex(s.historyElements)
                  && SelectionOnMove(r.state)
                  && SameButSession(r.state, s))
            && (r.ending.Checkmate? ==> (r.ending.whiteWon <==> !WhiteToPlay(s.position)))
  {
  }

  /** Only the in-progress flag, the player types and the selection differ. */
  predicate SameButSession(a: GameState, b: GameState)
  {
    a.(gameInProgress := b.gameInProgress, whitePlayerType := b.whitePlayerType,
       blackPlayerType := b.blackPlayerType, selectedNodeIndex := b.selectedNodeIndex) == b
  }

  /**
    The endings are tried in the order checkmate, stalemate, threefold
    repetition, missing material, other terminal state: each ending reported
    means its own condition and none of the earlier ones.
   */
  lemma EndingsInPriorityOrder(o: Oracle, s: GameState)
    requires s.position in s.occurrences
    ensures var e := EndingOf(o, s);
            var p := s.position;
            && (e.Checkmate? <==> o.isMate(p))
            && (e == Stalemate <==> !o.isMate(p) && o.isStaleMate(p))
            && (e == ThreeFoldRepetition <==> !o.isMate(p) && !o.isStaleMate(p) && s.occurrences[p] >= 3)
            && (e == InsufficientMaterial <==> !o.isMate(p) && !o.isStaleMate(p) && s.occurrences[p] < 3
                                                && MissingMatingMaterial(o, p))
            && (e == FiftyMovesRuleDraw <==> !o.isMate(p) && !o.isStaleMate(p) && s.occurrences[p] < 3
                                              && !MissingMatingMaterial(o, p) && o.isTerminal(p))
  {
  }

  /** The third occurrence of a position ends the game unless it is mate or stalemate. */
  lemma ThirdOccurrenceEndsTheGame(o: Oracle, s: GameState, m: Move, c: MoveCoordinates)
    requires var p := o.play(s.position, m); p in s.occurrences && s.occurrences[p] == 2
    requires !o.isMate(o.play(s.position, m)) && !o.isStaleMate(o.play(s.position, m))
    ensures ApplyMove(o, s, m, c).ending == ThreeFoldRepetition
    ensures !ApplyMove(o, s, m, c).state.gameInProgress
  {
  }

  /**
    The three outcomes of a drop: a legal move without promotion is played;
    otherwise a legal queen promotion on those squares makes the side to move
    choose a piece and changes nothing else; otherwise nothing changes.
   */
  lemma PlayMoveOutcomes(o: Oracle, s: GameState, startFile: int, startRank: int, endFile: int, endRank: int)
    ensures var from, to := CoorToSqi(startFile, startRank), CoorToSqi(endFile, endRank);
            var moves := o.legalMoves(s.position);
            var r := PlayMove(o, s, startFile, startRank, endFile, endRank);
            if exists i :: 0 <= i < |moves| && Matches(moves[i], from, to, NoPromotion) then
              var m := FindLegalMove(moves, from, to, NoPromotion).value;
              m in moves && Matches(m, from, to, NoPromotion)
              && r == ApplyMove(o, s, m, MoveCoordinates(startFile, startRank, endFile, endRank))
            else if exists i :: 0 <= i < |moves| && Matches(moves[i], from, to, PromoteTo(Queen)) then
              && r.ending == NoEnding
              && r.state.pendingPromotion == (if WhiteToPlay(s.position) then ChessBoard.WhitePending else ChessBoard.BlackPending)
              && r.state.pendingPromotionStartSquare == Some(from) && r.state.pendingPromotionEndSquare == Some(to)
              && r.state == s.(pendingPromotion := r.state.pendingPromotion,
                               pendingPromotionStartSquare := Some(from), pendingPromotionEndSquare := Some(to))
            else r == Outcome(s, NoEnding)
  {
  }

  /** Cancelling clears the pending side and both squares. */
  lemma CancelPromotionClears(s: GameState)
    ensures var r := CancelPromotion(s);
            && r.pendingPromotion == ChessBoard.NoPending
            && r.pendingPromotionStartSquare.None? && r.pendingPromotionEndSquare.None?
            && PendingConsistent(r)
  {
  }

  /**
    Committing does nothing while no promotion is pending, and leaves the
    pending state as it is when the chosen promotion is not legal; a legal
    choice is played from the pending squares and clears the pending state.
   */
  lemma CommitPromotionOutcomes(o: Oracle, s: GameState, pieceType: ChessBoard.PromotionType)
    requires PendingConsistent(s)
    ensures var r := CommitPromotion(o, s, pieceType);
            if s.pendingPromotion == ChessBoard.NoPending then r == Outcome(s, NoEnding)
            else
              var from, to := s.pendingPromotionStartSquare.value, s.pendingPromotionEndSquare.value;
              var moves := o.legalMoves(s.position);
              var promotion := PromoteTo(PromotionPiece(pieceType));
              if forall i :: 0 <= i < |moves| ==> !Matches(moves[i], from, to, promotion) then
                r == Outcome(s, NoEnding)
              else
                && r.state.pendingPromotion == ChessBoard.NoPending
                && r.state.pendingPromotionStartSquare.None? && r.state.pendingPromotionEndSquare.None?
                && MoveItemCount(r.state.historyElements) == MoveItemCount(s.historyElements) + 1
                && exists m :: m in moves && Matches(m, from, to, promotion)
                               && r.state.position == o.play(s.position, m)
  {
    if s.pendingPromotion != ChessBoard.NoPending {
      var from, to := s.pendingPromotionStartSquare.value, s.pendingPromotionEndSquare.value;
      var promotion := PromoteTo(PromotionPiece(pieceType));
      var found := FindLegalMove(o.legalMoves(s.position), from, to, promotion);
      if found.Some? {
        ApplyMoveAppendsOneMove(o, CancelPromotion(s), found.value,
                                MoveCoordinates(SqiToCol(from), SqiToRow(from), SqiToCol(to), SqiToRow(to)));
      }
    }
  }

  /** A promotion chosen on a drop is recorded with the squares of the drop. */
  lemma PromotionSquaresRoundTrip(startFile: int, startRank: int, endFile: int, endRank: int)
    requires 0 <= startFile < 8 && 0 <= startRank < 8 && 0 <= endFile < 8 && 0 <= endRank < 8
    ensures var from, to := CoorToSqi(startFile, startRank), CoorToSqi(endFile, endRank);
            MoveCoordinates(SqiToCol(from), SqiToRow(from), SqiToCol(to), SqiToRow(to))
            == MoveCoordinates(startFile, startRank, endFile, endRank)
  {
    SquareIndexRoundTrip(startFile, startRank);
    SquareIndexRoundTrip(endFile, endRank);
  }

  /** An engine move too short to name two squares fails having only remembered the position. */
  lemma ShortEngineMoveFails(o: Oracle, s: GameState, uciMove: string)
    requires |uciMove| < 4
    ensures ProcessEngineMove(o, s, uciMove) == Failed(s.(positionFenBeforeLastMove := Some(s.position)))
  {
  }

  /**
    An illegal engine move after a move has been played is not played, yet
    the previous move's SAN is appended again with the unchanged position,
    whose occurrence count goes up.
   */
  lemma IllegalEngineMoveRepeatsLastMove(o: Oracle, s: GameState, uciMove: string)
    requires |uciMove| >= 4 && s.lastMoveSan.Some?
    requires var promotion := if |uciMove| >= 5 then o.promotionPiece(uciMove[4]) else NoPromotion;
             var moves := o.legalMoves(s.position);
             forall i :: 0 <= i < |moves|
                         ==> !Matches(moves[i], StrToSqi(uciMove[0], uciMove[1]), StrToSqi(uciMove[2], uciMove[3]), promotion)
    ensures var r := ProcessEngineMove(o, s, uciMove);
            && r.Completed?
            && r.outcome.state.position == s.position
            && r.outcome.state.historyElements[|r.outcome.state.historyElements| - 1].MoveItem?
            && r.outcome.state.historyElements[|r.outcome.state.historyElements| - 1].san == s.lastMoveSan.value
            && r.outcome.state.occurrences[s.position] == (if s.position in s.occurrences then s.occurrences[s.position] + 1 else 1)
  {
  }

  /** An illegal engine move right after a load fails on the missing last move. */
  lemma IllegalEngineMoveAfterLoadFails(o: Oracle, s: GameState, uciMove: string)
    requires |uciMove| >= 4 && s.lastMoveSan.None?
    requires var promotion := if |uciMove| >= 5 then o.promotionPiece(uciMove[4]) else NoPromotion;
             var moves := o.legalMoves(s.position);
             forall i :: 0 <= i < |moves|
                         ==> !Matches(moves[i], StrToSqi(uciMove[0], uciMove[1]), StrToSqi(uciMove[2], uciMove[3]), promotion)
    ensures ProcessEngineMove(o, s, uciMove).Failed?
    ensures ProcessEngineMove(o, s, uciMove).state.lastMoveArrow == ToLastMoveArrow(uciMove)
  {
  }

  /** A legal engine move is played like a drop, with the arrow parsed from its text. */
  lemma LegalEngineMoveIsApplied(o: Oracle, s: GameState, uciMove: string, m: Move)
    requires |uciMove| >= 4
    requires var promotion := if |uciMove| >= 5 then o.promotionPiece(uciMove[4]) else NoPromotion;
             FindLegalMove(o.legalMoves(s.position), StrToSqi(uciMove[0], uciMove[1]),
                           StrToSqi(uciMove[2], uciMove[3]), promotion) == Some(m)
    ensures ProcessEngineMove(o, s, uciMove)
            == Completed(ApplyMove(o, s, m, ToMoveCoordinates(ToLastMoveArrow(uciMove).value)))
  {
  }

  /** While a game is in progress every navigation request is refused and changes nothing. */
  lemma NavigationRefusedDuringGame(o: Oracle, s: GameState, fen: string, c: MoveCoordinates, index: int)
    requires SelectionInRange(s) && s.gameInProgress
    ensures GotoPrevious(o, s) == (s, false)
    ensures GotoNext(o, s) == (s, false)
    ensures RequestPosition(o, s, fen, c, index) == (s, false)
  {
  }

  /**
    A step forward lands strictly later, on the nearest move item, and shows
    its stored position; it is refused only when no move item lies ahead.
   */
  lemma ForwardStepLandsOnNextMove(o: Oracle, s: GameState)
    requires SelectionInRange(s) && !s.gameInProgress && |s.historyElements| > 0
    ensures var (r, ok) := GotoNext(o, s);
            var after := if s.selectedNodeIndex.None? then -1 else s.selectedNodeIndex.value;
            && (ok <==> exists k :: after < k < |s.historyElements| && s.historyElements[k].MoveItem?)
            && (ok ==> && r.selectedNodeIndex.Some?
                       && var j := r.selectedNodeIndex.value;
                       && after < j < |s.historyElements| && s.historyElements[j].MoveItem?
                       && (forall k :: after < k < j ==> !s.historyElements[k].MoveItem?)
                       && r.position == o.load(s.historyElements[j].positionFen)
                       && r.lastMoveArrow == Some(ArrowOf(s.historyElements[j].movesCoordinates))
                       && SameButNavigation(r, s))
            && (!ok ==> r == s)
  {
  }

  /**
    A step back lands strictly earlier, on the nearest move item; from the
    first move item it clears the selection and shows the start position.
   */
  lemma BackStepLandsOnPreviousMove(o: Oracle, s: GameState)
    requires SelectionInRange(s) && !s.gameInProgress && s.selectedNodeIndex.Some?
    ensures var (r, ok) := GotoPrevious(o, s);
            var i := s.selectedNodeIndex.value;
            && ok
            && SameButNavigation(r, s)
            && ((exists k :: 0 <= k < i && s.historyElements[k].MoveItem?) ==>
                  && r.selectedNodeIndex.Some?
                  && var j := r.selectedNodeIndex.value;
                  && 0 <= j < i && s.historyElements[j].MoveItem?
                  && (forall k :: j < k < i ==> !s.historyElements[k].MoveItem?)
                  && r.position == o.load(s.historyElements[j].positionFen))
            && ((forall k :: 0 <= k < i ==> !s.historyElements[k].MoveItem?) ==>
                  r == ShowStart(o, s) && r.selectedNodeIndex.None? && r.position == o.load(s.startPosition)
                  && r.lastMoveArrow.None?)
  {
    var i := s.selectedNodeIndex.value;
    var h := s.historyElements;
    if i > 0 {
      forall k | 0 <= k < i
        ensures h[..i][k] == h[k]
      {
      }
    }
  }

  /** Going to the first position always ends with nothing selected. */
  lemma FirstPositionClearsSelection(o: Oracle, s: GameState)
    ensures FirstPosition(o, s).selectedNodeIndex.None?
    ensures SameButNavigation(FirstPosition(o, s), s)
  {
  }

  /**
    Going to the last move ends on the last move item whenever the history
    holds one and the selection is on a move item.
   */
  lemma LastPositionSelectsLastMove(o: Oracle, s: GameState)
    requires SelectionOnMove(s)
    ensures var r := LastPosition(o, s);
            && SameButNavigation(r, s)
            && r.selectedNodeIndex == LastMoveItemIndex(s.historyElements)
            && (r.selectedNodeIndex != s.selectedNodeIndex ==>
                  r.position == o.load(s.historyElements[r.selectedNodeIndex.value].positionFen))
  {
    var last := LastMoveItemIndex(s.historyElements);
    if last.Some? && s.selectedNodeIndex.Some? && s.selectedNodeIndex.value >= last.value {
      assert s.selectedNodeIndex.value == last.value;
    }
  }

  /** Every operation that changes the game keeps the state valid. */
  lemma {:induction false} ApplyMoveKeepsValid(o: Oracle, s: GameState, m: Move, c: MoveCoordinates)
    requires Valid(s)
    ensures Valid(ApplyMove(o, s, m, c).state)
  {
    ApplyMoveAppendsOneMove(o, s, m, c);
    var r := ApplyMove(o, s, m, c).state;
    if s.selectedNodeIndex.Some? {
      assert r.historyElements[s.selectedNodeIndex.value] == s.historyElements[s.selectedNodeIndex.value];
    }
  }

  lemma PlayMoveKeepsValid(o: Oracle, s: GameState, startFile: int, startRank: int, endFile: int, endRank: int)
    requires Valid(s)
    ensures Valid(PlayMove(o, s, startFile, startRank, endFile, endRank).state)
  {
    var from, to := CoorToSqi(startFile, startRank), CoorToSqi(endFile, endRank);
    var m := FindLegalMove(o.legalMoves(s.position), from, to, NoPromotion);
    if m.Some? {
      ApplyMoveKeepsValid(o, s, m.value, MoveCoordinates(startFile, startRank, endFile, endRank));
    }
  }

  lemma CommitPromotionKeepsValid(o: Oracle, s: GameState, pieceType: ChessBoard.PromotionType)
    requires Valid(s)
    ensures Valid(CommitPromotion(o, s, pieceType).state)
  {
    if s.pendingPromotion != ChessBoard.NoPending {
      var from, to := s.pendingPromotionStartSquare.value, s.pendingPromotionEndSquare.value;
      var m := FindLegalMove(o.legalMoves(s.position), from, to, PromoteTo(PromotionPiece(pieceType)));
      if m.Some? {
        ApplyMoveKeepsValid(o, CancelPromotion(s), m.value,
                            MoveCoordinates(SqiToCol(from), SqiToRow(from), SqiToCol(to), SqiToRow(to)));
      }
    }
  }

  /** Growing the history behind an unchanged selection and pending promotion keeps the state valid. */
  lemma HistoryGrowthKeepsValid(s: GameState, t: GameState)
    requires Valid(s)
    requires |s.historyElements| <= |t.historyElements| && t.historyElements[..|s.historyElements|] == s.historyElements
    requires t.selectedNodeIndex == s.selectedNodeIndex
    requires t.pendingPromotion == s.pendingPromotion
    requires t.pendingPromotionStartSquare == s.pendingPromotionStartSquare
    requires t.pendingPromotionEndSquare == s.pendingPromotionEndSquare
    ensures Valid(t)
  {
    if s.selectedNodeIndex.Some? {
      var i := s.selectedNodeIndex.value;
      assert t.historyElements[..|s.historyElements|][i] == t.historyElements[i];
    }
  }

  lemma HandleGameEndingKeepsValid(o: Oracle, s: GameState)
    requires Valid(s) && s.position in s.occurrences
    ensures Valid(HandleGameEnding(o, s).state)
  {
  }

  lemma ProcessEngineMoveKeepsValid(o: Oracle, s: GameState, uciMove: string)
    requires Valid(s)
    ensures var r := ProcessEngineMove(o, s, uciMove);
            Valid(if r.Completed? then r.outcome.state else r.state)
  {
    var r := ProcessEngineMove(o, s, uciMove);
    if r.Completed? {
      var s3 := EngineMovePlayed(o, s.(positionFenBeforeLastMove := Some(s.position)), uciMove);
      var c := ToMoveCoordinates(ToLastMoveArrow(uciMove).value);
      var t := CountOccurrence(AddMoveToHistory(o, s3, c));
      assert t.historyElements == s.historyElements + HistoryAddition(o, s3, c);
      assert t.historyElements[..|s.historyElements|] == s.historyElements;
      HistoryGrowthKeepsValid(s, t);
      HandleGameEndingKeepsValid(o, t);
    }
  }

  lemma NavigationKeepsValid(o: Oracle, s: GameState, fen: string, c: MoveCoordinates, index: int)
    requires Valid(s)
    requires 0 <= index < |s.historyElements| && s.historyElements[index].MoveItem?
    ensures Valid(GotoPrevious(o, s).0)
    ensures |s.historyElements| > 0 ==> Valid(GotoNext(o, s).0)
    ensures Valid(FirstPosition(o, s)) && Valid(LastPosition(o, s))
    ensures Valid(RequestPosition(o, s, fen, c, index).0)
    ensures Valid(Stopped(s)) && Valid(CancelPromotion(s))
  {
    GotoPreviousKeepsValid(o, s);
    if |s.historyElements| > 0 {
      GotoNextKeepsValid(o, s);
    }
    assert Valid(FirstPosition(o, s));
    assert Valid(LastPosition(o, s));
  }

  lemma GotoPreviousKeepsValid(o: Oracle, s: GameState)
    requires Valid(s)
    ensures Valid(GotoPrevious(o, s).0)
  {
    var h := s.historyElements;
    if s.selectedNodeIndex.Some? && s.selectedNodeIndex.value > 0 {
      var i := s.selectedNodeIndex.value;
      forall k | 0 <= k < i
        ensures h[..i][k] == h[k]
      {
      }
    }
  }

  lemma GotoNextKeepsValid(o: Oracle, s: GameState)
    requires Valid(s) && |s.historyElements| > 0
    ensures Valid(GotoNext(o, s).0)
  {
  }

  /** The last move item of a prefix one item longer: that item, if it is a move. */
  lemma LastMoveItemOfLongerPrefix(h: seq<HistoryItem>, i: int)
    requires 0 <= i < |h|
    ensures LastMoveItemIndex(h[..i + 1]) == if h[i].MoveItem? then Some(i) else LastMoveItemIndex(h[..i])
  {
    assert h[..i + 1][..i] == h[..i];
  }

  /**
    A step back keeps the first position where it is: repeated steps end
    where `FirstPosition` says; a refused step means nothing is selected.
   */
  lemma BackStepKeepsFirstPosition(o: Oracle, s: GameState)
    requires SelectionInRange(s) && !s.gameInProgress
    ensures var (r, ok) := GotoPrevious(o, s);
            && SelectionInRange(r) && !r.gameInProgress && SameButNavigation(r, s)
            && FirstPosition(o, r) == FirstPosition(o, s)
            && (ok ==> s.selectedNodeIndex.Some?
                       && (r.selectedNodeIndex.None? || r.selectedNodeIndex.value < s.selectedNodeIndex.value))
            && (!ok ==> r == s && s.selectedNodeIndex.None?)
  {
    if s.selectedNodeIndex.Some? {
      BackStepLandsOnPreviousMove(o, s);
    }
  }

  /**
    A step forward keeps the last position where it is: repeated steps end
    where `LastPosition` says; a refused step happens only there.
   */
  lemma ForwardStepKeepsLastPosition(o: Oracle, s: GameState)
    requires SelectionInRange(s) && !s.gameInProgress && |s.historyElements| > 0
    ensures var (r, ok) := GotoNext(o, s);
            && SelectionInRange(r) && !r.gameInProgress && SameButNavigation(r, s)
            && LastPosition(o, r) == LastPosition(o, s)
            && (ok ==> r.selectedNodeIndex.Some?
                       && (s.selectedNodeIndex.None? || r.selectedNodeIndex.value > s.selectedNodeIndex.value))
            && (!ok ==> LastPosition(o, s) == s)
  {
    ForwardStepLandsOnNextMove(o, s);
    var (r, ok) := GotoNext(o, s);
    var last := LastMoveItemIndex(s.historyElements);
    if ok {
      var j := r.selectedNodeIndex.value;
      assert last.Some? && j <= last.value;
      assert LastMoveItemIndex(r.historyElements) == last;
    }
  }
}
