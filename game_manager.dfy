/**
  `ChessGameManager`: the game in progress, its history and the navigation
  through that history once the game is over. Every method is proved to
  leave the state that the matching function of `GameSession` describes.
 */
module GameManager {
  import opened Wrappers
  import opened ChessHistory
  import opened ChessGame
  import opened GameSession
  import ChessBoard
  import Fen

  class ChessGameManager {
    /** The chess library. */
    const oracle: Oracle

    /** FEN record of the library's current position. */
    var position: string
    /** SAN of the library's last move; None after a load. */
    var lastMoveSan: Option<string>
    var historyElements: seq<HistoryItem>
    var selectedNodeIndex: Option<int>
    var pendingPromotion: ChessBoard.PendingPromotion
    var pendingPromotionStartSquare: Option<int>
    var pendingPromotionEndSquare: Option<int>
    var lastMoveArrow: Option<LastMoveArrow>
    var isFirstHistoryNode: bool
    var positionFenBeforeLastMove: Option<string>
    var startPosition: string
    var whitePlayerType: ChessBoard.PlayerType
    var blackPlayerType: ChessBoard.PlayerType
    var occurrences: map<string, int>
    var gameInProgress: bool

    function State(): GameState
      reads this
    {
      GameState(position, lastMoveSan, historyElements, selectedNodeIndex, pendingPromotion,
                pendingPromotionStartSquare, pendingPromotionEndSquare, lastMoveArrow, isFirstHistoryNode,
                positionFenBeforeLastMove, startPosition, whitePlayerType, blackPlayerType, occurrences,
                gameInProgress)
    }

    constructor(o: Oracle)
      ensures oracle == o && State() == Initial(o)
    {
      oracle := o;
      position := o.load(Fen.DefaultPosition);
      lastMoveSan := None;
      historyElements := [];
      selectedNodeIndex := None;
      pendingPromotion := ChessBoard.NoPending;
      pendingPromotionStartSquare := None;
      pendingPromotionEndSquare := None;
      lastMoveArrow := None;
      isFirstHistoryNode := false;
      positionFenBeforeLastMove := None;
      startPosition := Fen.DefaultPosition;
      whitePlayerType := ChessBoard.Human;
      blackPlayerType := ChessBoard.Human;
      occurrences := map[];
      gameInProgress := false;
    }

    /** `getPieces`: the board of the current position, one string of cells per row. */
    function GetPieces(): (pieces: seq<string>)
      reads this
    {
      Fen.PiecesOfFen(position)
    }

    /** `isWhiteTurn`; None where the record has no side-to-move field. */
    function IsWhiteTurn(): (white: Option<bool>)
      reads this
    {
      Fen.SideToMoveIsWhite(position)
    }

    method SetWhitePlayerType(playerType: ChessBoard.PlayerType)
      modifies this
      ensures State() == old(State()).(whitePlayerType := playerType)
    {
      whitePlayerType := playerType;
    }

    method SetBlackPlayerType(playerType: ChessBoard.PlayerType)
      modifies this
      ensures State() == old(State()).(blackPlayerType := playerType)
    {
      blackPlayerType := playerType;
    }

    method SetStartPosition(fen: string)
      modifies this
      ensures State() == GameSession.SetStartPosition(oracle, old(State()), fen)
    {
      if oracle.acceptsFen(fen) {
        startPosition := fen;
      }
    }

    method LoadPosition(positionFen: string)
      modifies this
      ensures State() == GameSession.LoadPosition(oracle, old(State()), positionFen)
    {
      position := oracle.load(positionFen);
      lastMoveSan := None;
    }

    method ResetGame()
      modifies this
      ensures State() == Reset(oracle, old(State()))
    {
      LoadPosition(startPosition);
      var isWhiteTurn := WhiteToPlay(position);
      var moveNumber := oracle.moveNumber(position);
      occurrences := map[startPosition := 1];
      whitePlayerType := ChessBoard.Human;
      blackPlayerType := ChessBoard.Human;
      historyElements := [MoveNumberItem(moveNumber, isWhiteTurn)];
      pendingPromotion := ChessBoard.NoPending;
      pendingPromotionStartSquare := None;
      pendingPromotionEndSquare := None;
      lastMoveArrow := None;
      isFirstHistoryNode := true;
      positionFenBeforeLastMove := None;
      selectedNodeIndex := None;
      gameInProgress := true;
    }

    method StopGame()
      modifies this
      ensures State() == Stopped(old(State()))
    {
      gameInProgress := false;
      whitePlayerType := ChessBoard.NoPlayer;
      blackPlayerType := ChessBoard.NoPlayer;
      SelectLastHistoryMoveNodeIfAny();
    }

    method SelectLastHistoryMoveNodeIfAny()
      modifies this
      ensures State() == old(State()).(selectedNodeIndex := LastMoveItemIndex(historyElements))
    {
      var i := |historyElements| - 1;
      assert historyElements[..i + 1] == historyElements;
      while i >= 0 && !historyElements[i].MoveItem?
        invariant -1 <= i < |historyElements|
        invariant LastMoveItemIndex(historyElements[..i + 1]) == LastMoveItemIndex(historyElements)
        invariant unchanged(this)
        decreases i
      {
        LastMoveItemOfLongerPrefix(historyElements, i);
        i := i - 1;
      }
      if i >= 0 {
        LastMoveItemOfLongerPrefix(historyElements, i);
      } else {
        assert historyElements[..i + 1] == [];
      }
      selectedNodeIndex := if i >= 0 then Some(i) else None;
    }

    method AddMoveToHistory(moveCoordinates: MoveCoordinates)
      requires lastMoveSan.Some?
      modifies this
      ensures State() == GameSession.AddMoveToHistory(oracle, old(State()), moveCoordinates)
    {
      var isWhiteTurnBeforeMove := !WhiteToPlay(position);
      var needingToAddMoveNumber := isWhiteTurnBeforeMove && !isFirstHistoryNode;
      if needingToAddMoveNumber {
        historyElements := historyElements + [MoveNumberItem(oracle.moveNumber(position), true)];
      }
      historyElements := historyElements + [MoveItem(lastMoveSan.value, position, isWhiteTurnBeforeMove, moveCoordinates)];
      isFirstHistoryNode := false;
    }

    method CountOccurrence()
      modifies this
      ensures State() == GameSession.CountOccurrence(old(State()))
    {
      occurrences := occurrences[position := if position in occurrences then occurrences[position] + 1 else 1];
    }

    /** `handleGameEndingStatus`: the ending returned is the callback fired. */
    method HandleGameEndingStatus() returns (ending: Ending)
      requires position in occurrences
      modifies this
      ensures Outcome(State(), ending) == HandleGameEnding(oracle, old(State()))
    {
      if oracle.isMate(position) {
        ending := Checkmate(!WhiteToPlay(position));
      } else if oracle.isStaleMate(position) {
        ending := Stalemate;
      } else if occurrences[position] >= 3 {
        ending := ThreeFoldRepetition;
      } else {
        var missing := IsMissingMatingMaterial(oracle, position);
        if missing {
          ending := InsufficientMaterial;
        } else if oracle.isTerminal(position) {
          ending := FiftyMovesRuleDraw;
        } else {
          ending := NoEnding;
        }
      }
      if ending != NoEnding {
        StopGame();
      }
    }

    /** Plays a legal move and does the bookkeeping that follows it. */
    method PlayLegalMove(m: Move, moveCoordinates: MoveCoordinates) returns (ending: Ending)
      modifies this
      ensures Outcome(State(), ending) == ApplyMove(oracle, old(State()), m, moveCoordinates)
    {
      ghost var s0 := State();
      var before := position;
      positionFenBeforeLastMove := Some(before);
      position := oracle.play(before, m);
      lastMoveSan := Some(oracle.san(before, m));
      ghost var played := State();
      assert played == s0.(positionFenBeforeLastMove := Some(before), position := oracle.play(before, m),
                           lastMoveSan := Some(oracle.san(before, m)));
      AddMoveToHistory(moveCoordinates);
      lastMoveArrow := Some(ArrowOf(moveCoordinates));
      ghost var recorded := State();
      assert recorded == GameSession.AddMoveToHistory(oracle, played, moveCoordinates)
                         .(lastMoveArrow := Some(ArrowOf(moveCoordinates)));
      CountOccurrence();
      assert State() == GameSession.CountOccurrence(recorded);
      ending := HandleGameEndingStatus();
    }

    method PlayMove(startFile: int, startRank: int, endFile: int, endRank: int) returns (ending: Ending)
      modifies this
      ensures Outcome(State(), ending) == GameSession.PlayMove(oracle, old(State()), startFile, startRank, endFile, endRank)
    {
      var startSquareIndex := CoorToSqi(startFile, startRank);
      var endSquareIndex := CoorToSqi(endFile, endRank);
      var moveWithoutPromotion := GetLegalMove(oracle, position, startSquareIndex, endSquareIndex, NoPromotion);
      var moveWithPromotion := GetLegalMove(oracle, position, startSquareIndex, endSquareIndex, PromoteTo(Queen));
      ending := NoEnding;
      if moveWithoutPromotion.Some? {
        ending := PlayLegalMove(moveWithoutPromotion.value, MoveCoordinates(startFile, startRank, endFile, endRank));
      } else if moveWithPromotion.Some? {
        pendingPromotion := if WhiteToPlay(position) then ChessBoard.WhitePending else ChessBoard.BlackPending;
        pendingPromotionStartSquare := Some(startSquareIndex);
        pendingPromotionEndSquare := Some(endSquareIndex);
      }
    }

    method CancelPromotion()
      modifies this
      ensures State() == GameSession.CancelPromotion(old(State()))
    {
      pendingPromotion := ChessBoard.NoPending;
      pendingPromotionStartSquare := None;
      pendingPromotionEndSquare := None;
    }

    method CommitPromotion(pieceType: ChessBoard.PromotionType) returns (ending: Ending)
      requires PendingConsistent(State())
      modifies this
      ensures Outcome(State(), ending) == GameSession.CommitPromotion(oracle, old(State()), pieceType)
    {
      ending := NoEnding;
      if pendingPromotion == ChessBoard.NoPending {
        return;
      }
      var from := pendingPromotionStartSquare.value;
      var to := pendingPromotionEndSquare.value;
      var matchingMove := GetLegalMove(oracle, position, from, to, PromoteTo(PromotionPiece(pieceType)));
      if matchingMove.Some? {
        CancelPromotion();
        ending := PlayLegalMove(matchingMove.value, MoveCoordinates(SqiToCol(from), SqiToRow(from), SqiToCol(to), SqiToRow(to)));
      }
    }

    /** `processEngineMove`; None when the call ends by throwing. */
    method ProcessEngineMove(uciMove: string) returns (ending: Option<Ending>)
      modifies this
      ensures var r := GameSession.ProcessEngineMove(oracle, old(State()), uciMove);
              if r.Completed? then State() == r.outcome.state && ending == Some(r.outcome.ending)
              else State() == r.state && ending.None?
    {
      positionFenBeforeLastMove := Some(position);
      if |uciMove| < 4 {
        return None;
      }
      PlayEngineMove(uciMove);
      if lastMoveSan.None? {
        return None;
      }
      var e := RecordLastMove(ToMoveCoordinates(ToLastMoveArrow(uciMove).value));
      ending := Some(e);
    }

    /** `Position.playMove` followed by the arrow of the move's squares. */
    method PlayEngineMove(uciMove: string)
      requires |uciMove| >= 4
      modifies this
      ensures State() == EngineMovePlayed(oracle, old(State()), uciMove)
    {
      var from := StrToSqi(uciMove[0], uciMove[1]);
      var to := StrToSqi(uciMove[2], uciMove[3]);
      var promotion := if |uciMove| >= 5 then oracle.promotionPiece(uciMove[4]) else NoPromotion;
      var matchingMove := GetLegalMove(oracle, position, from, to, promotion);
      if matchingMove.Some? {
        var before := position;
        position := oracle.play(before, matchingMove.value);
        lastMoveSan := Some(oracle.san(before, matchingMove.value));
      }
      lastMoveArrow := ToLastMoveArrow(uciMove);
    }

    method RecordLastMove(moveCoordinates: MoveCoordinates) returns (ending: Ending)
      requires lastMoveSan.Some?
      modifies this
      ensures Outcome(State(), ending) == RecordMove(oracle, old(State()), moveCoordinates)
    {
      AddMoveToHistory(moveCoordinates);
      CountOccurrence();
      ending := HandleGameEndingStatus();
    }

    method RequestPosition(positionFen: string, moveCoordinates: MoveCoordinates, nodeToSelectIndex: int)
      returns (accepted: bool)
      modifies this
      ensures (State(), accepted)
              == GameSession.RequestPosition(oracle, old(State()), positionFen, moveCoordinates, nodeToSelectIndex)
    {
      if gameInProgress {
        return false;
      }
      LoadPosition(positionFen);
      lastMoveArrow := Some(ArrowOf(moveCoordinates));
      selectedNodeIndex := Some(nodeToSelectIndex);
      return true;
    }

    /** Shows move item `j`: its position and its arrow. */
    method ShowMoveItem(j: int)
      requires 0 <= j < |historyElements| && historyElements[j].MoveItem?
      modifies this
      ensures State() == GameSession.ShowMoveItem(oracle, old(State()), j)
    {
      selectedNodeIndex := Some(j);
      var currentHistoryNode := historyElements[j];
      LoadPosition(currentHistoryNode.positionFen);
      lastMoveArrow := Some(ArrowOf(currentHistoryNode.movesCoordinates));
    }

    method RequestBackOneMove() returns (moved: bool)
      requires SelectionInRange(State())
      modifies this
      ensures var back := BackOneMove(old(State()));
              && moved == back.Some?
              && State() == if back.Some? then old(State()).(selectedNodeIndex := back) else old(State())
    {
      if gameInProgress || selectedNodeIndex.None? || selectedNodeIndex.value <= 0 {
        return false;
      }
      var selected := selectedNodeIndex.value;
      assert selected < |historyElements|;
      var i := selected - 1;
      assert historyElements[..selected] == historyElements[..i + 1];
      while i >= 0 && !historyElements[i].MoveItem?
        invariant -1 <= i < selected < |historyElements|
        invariant LastMoveItemIndex(historyElements[..i + 1]) == LastMoveItemIndex(historyElements[..selected])
        invariant unchanged(this)
        decreases i
      {
        LastMoveItemOfLongerPrefix(historyElements, i);
        i := i - 1;
      }
      if i >= 0 {
        LastMoveItemOfLongerPrefix(historyElements, i);
        selectedNodeIndex := Some(i);
        return true;
      }
      assert historyElements[..i + 1] == [];
      return false;
    }

    method RequestForwardOneMove() returns (moved: bool)
      requires SelectionInRange(State()) && (gameInProgress || |historyElements| > 0)
      modifies this
      ensures var next := ForwardOneMove(old(State()));
              && moved == next.Some?
              && State() == if next.Some? then GameSession.ShowMoveItem(oracle, old(State()), next.value) else old(State())
    {
      if gameInProgress {
        return false;
      }
      if selectedNodeIndex.Some? && selectedNodeIndex.value >= |historyElements| - 1 {
        return false;
      }
      var newSelectedNodeIndex := if selectedNodeIndex.None? then 0 else selectedNodeIndex.value + 1;
      ghost var from := newSelectedNodeIndex;
      while newSelectedNodeIndex < |historyElements| - 1 && !historyElements[newSelectedNodeIndex].MoveItem?
        invariant from <= newSelectedNodeIndex <= |historyElements| - 1
        invariant FirstMoveItemFrom(historyElements, newSelectedNodeIndex) == FirstMoveItemFrom(historyElements, from)
        decreases |historyElements| - newSelectedNodeIndex
      {
        newSelectedNodeIndex := newSelectedNodeIndex + 1;
      }
      if !historyElements[newSelectedNodeIndex].MoveItem? {
        return false;
      }
      ShowMoveItem(newSelectedNodeIndex);
      return true;
    }

    method RequestGotoPreviousHistoryNode() returns (accepted: bool)
      requires SelectionInRange(State())
      modifies this
      ensures (State(), accepted) == GotoPrevious(oracle, old(State()))
    {
      if gameInProgress || selectedNodeIndex.None? {
        return false;
      }
      ghost var s := State();
      var moved := RequestBackOneMove();
      if moved {
        var j := selectedNodeIndex.value;
        assert s.historyElements[..s.selectedNodeIndex.value][j] == historyElements[j];
        var currentHistoryNode := historyElements[j];
        LoadPosition(currentHistoryNode.positionFen);
        lastMoveArrow := Some(ArrowOf(currentHistoryNode.movesCoordinates));
      } else {
        LoadPosition(startPosition);
        selectedNodeIndex := None;
        lastMoveArrow := None;
      }
      return true;
    }

    method RequestGotoNextHistoryNode() returns (accepted: bool)
      requires SelectionInRange(State()) && (gameInProgress || |historyElements| > 0)
      modifies this
      ensures (State(), accepted) == GotoNext(oracle, old(State()))
    {
      if gameInProgress {
        return false;
      }
      accepted := RequestForwardOneMove();
    }

    /** Steps back until refused, which is when the start position is shown. */
    method RequestGotoFirstPosition() returns (accepted: bool)
      requires SelectionInRange(State())
      modifies this
      ensures accepted == !old(gameInProgress)
      ensures State() == if old(gameInProgress) then old(State()) else FirstPosition(oracle, old(State()))
    {
      if gameInProgress {
        return false;
      }
      ghost var s0 := State();
      var stepped := true;
      while stepped
        invariant SelectionInRange(State()) && !gameInProgress && SameButNavigation(State(), s0)
        invariant FirstPosition(oracle, State()) == FirstPosition(oracle, s0)
        invariant !stepped ==> State() == FirstPosition(oracle, s0)
        decreases if selectedNodeIndex.None? then 0 else selectedNodeIndex.value + 1, stepped
      {
        BackStepKeepsFirstPosition(oracle, State());
        stepped := RequestGotoPreviousHistoryNode();
      }
      return true;
    }

    /** Steps forward until refused, which is when the last move is shown. */
    method RequestGotoLastHistoryNode() returns (accepted: bool)
      requires SelectionInRange(State()) && (gameInProgress || |historyElements| > 0)
      modifies this
      ensures accepted == !old(gameInProgress)
      ensures State() == if old(gameInProgress) then old(State()) else LastPosition(oracle, old(State()))
    {
      if gameInProgress {
        return false;
      }
      ghost var s0 := State();
      var stepped := true;
      while stepped
        invariant SelectionInRange(State()) && !gameInProgress && SameButNavigation(State(), s0)
        invariant |historyElements| > 0
        invariant LastPosition(oracle, State()) == LastPosition(oracle, s0)
        invariant !stepped ==> State() == LastPosition(oracle, s0)
        decreases |historyElements| - (if selectedNodeIndex.None? then -1 else selectedNodeIndex.value), stepped
      {
        ForwardStepKeepsLastPosition(oracle, State());
        stepped := RequestGotoNextHistoryNode();
      }
      return true;
    }
  }
}
