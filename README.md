# ChessAgainstEngine, modelled in Dafny

ChessAgainstEngine is a desktop application for playing chess against a UCI
engine. This project models the core of its game logic and screens:

- the **game manager** (`ChessGameManager`). It holds the position, the
  players, the move history, the pending promotion, the last-move arrow, the
  repetition table and the in-progress flag. It plays a dropped move, a
  promotion or an engine move. It detects the end of the game and lets the
  user browse the history once the game is over;
- the **game screen** (`GamePage`). Its handlers decide when the engine is
  asked for a move or an evaluation. They switch a side between human and
  computer, run the two clocks and stop the game on timeout;
- the **chess board component**. It covers board orientation, the colour and
  highlighting of cells, the drawn piece of each cell, the picture of each
  piece and the drag-and-drop state machine;
- the **history component**. It covers game-termination texts, move-number
  labels and the position request sent when a move is clicked;
- the **helpers on positions**: the last-move arrow read from a UCI move,
  looking up a legal move, counting pieces and the insufficient-material rule;
- the **FEN legality check** run on a start position;
- the **position editor**. It covers the grid of cells built from a FEN
  record, the cell click, the compression of the grid back into a placement
  field and the en-passant menu;
- the **PGN game browser**. It covers index navigation, the number picker
  and the tag defaults.

The chess library (chesspresso) is not part of this model. Everything the
code asks of it goes through `ChessGame.Oracle`, a datatype of total
functions. Its queries are: load a FEN record, list the legal moves, play a
move, give a move's SAN, report mate, stalemate or another terminal state,
give the move number and give the stone on a square. Positions are FEN
records.

The manager's and the screen's handlers are methods of classes whose fields
mirror the Kotlin state. Each method is proved against a function on a value
of that state (`GameSession.GameState`, `GameScreen.PageState`). The lemmas
state what those functions promise. The loops of the source are kept as
loops with invariants:

- scanning the legal moves;
- counting pieces;
- finding the first square of a piece;
- the two history scans;
- stepping to the first or last history node;
- compressing a row of cells.

Kotlin's truncating `/` and `%` are modelled in `KotlinInt`.

## Model

| member | source | states |
|---|---|---|
| ChessBoard.VectorForPiece | src/jvmMain/kotlin/components/ChessBoard.kt:485-503 | a picture exists exactly for the twelve piece letters `PNBRQKpnbrqk` (any other letter is the thrown error), and it is a file of the vectors folder |
| ChessBoard.ImageNameOfSide | src/jvmMain/kotlin/components/ChessBoard.kt:485-503 | for either side's letters, the picture is the lower-cased letter in the light set (White) or the dark set (Black) |
| ChessBoard.VectorForPieceName | src/jvmMain/kotlin/components/ChessBoard.kt:485-503 | each picture is named after its letter: the lower-cased letter, with the light set for upper case (White) and the dark set for lower case (Black) |
| ChessBoard.VectorForPieceInjective | src/jvmMain/kotlin/components/ChessBoard.kt:485-503 | two pieces drawn with the same picture are the same piece letter |
| ChessBoard.OrientationIsInvolution | src/jvmMain/kotlin/components/ChessBoard.kt:330-331 | the screen-to-board mapping of a column to a file and of a row to a rank is its own inverse in both orientations, and it maps on-board indices exactly onto on-board squares |
| ChessBoard.DrawnPieceIsPickedPiece | src/jvmMain/kotlin/components/ChessBoard.kt:290-360 | the piece drawn in screen cell (row, column) is the grid's piece on the square that cell shows, in both orientations |
| ChessBoard.IsLightSquare | src/jvmMain/kotlin/components/ChessBoard.kt:292-358 | a screen cell is drawn light exactly when its row and column indices have an even sum |
| ChessBoard.SquareColourFollowsTheSquare | src/jvmMain/kotlin/components/ChessBoard.kt:292-358 | turning the board keeps every square's colour: a cell is light exactly when its file and rank have an odd sum |
| ChessBoard.CellBackground | src/jvmMain/kotlin/components/ChessBoard.kt:464-469 | the background follows the precedence promotion end > promotion start > drag end > drag start > cross lines > square colour, each colour stated as an if-and-only-if |
| ChessBoard.CellFlagsFor | src/jvmMain/kotlin/components/ChessBoard.kt:333-348 | without a drag no drag flag is set; the promotion flags mark exactly the pending squares; the drop cell always lies on the cross lines |
| ChessBoard.IdleBoardShowsSquareColours | src/jvmMain/kotlin/components/ChessBoard.kt:333-358 | with no drag and no pending promotion every cell shows its plain square colour |
| ChessBoard.DragAndDropLayer.constructor | src/jvmMain/kotlin/components/ChessBoard.kt:190 | the layer starts with no drag in progress |
| ChessBoard.DragAndDropLayer.OnDragStart | src/jvmMain/kotlin/components/ChessBoard.kt:193-222 | when the layer is active and the pressed square is accepted, a drag starts and ends on that square and carries its piece; otherwise nothing changes |
| ChessBoard.DragAndDropLayer.OnDrag | src/jvmMain/kotlin/components/ChessBoard.kt:224-242 | during an active drag only the end square moves, to the square under the cursor; otherwise nothing changes |
| ChessBoard.DragAndDropLayer.OnDragEnd | src/jvmMain/kotlin/components/ChessBoard.kt:244-250 | an active drag is handed once to `tryPlayingMove` and cleared; otherwise nothing is handed on |
| ChessBoard.DragAndDropLayer.OnDragCancel | src/jvmMain/kotlin/components/ChessBoard.kt:251-256 | an active layer drops its drag; an inactive one keeps it |
| ChessGame.SquareIndexRoundTrip | src/jvmMain/kotlin/logic/ChessGame.kt:278-279 | board coordinates become a square index in 0..63, from which the column and row read back the same coordinates |
| ChessGame.SquareCoordinatesRoundTrip | src/jvmMain/kotlin/logic/ChessGame.kt:350-353 | every square index is rebuilt from its column and row |
| ChessGame.StrToSqi | src/jvmMain/kotlin/logic/ChessGame.kt:48-49 | a square name reads as a square index in 0..63, or as the no-square marker |
| ChessGame.WhiteSquareParity | src/jvmMain/kotlin/logic/ChessGame.kt:88 | a square is white exactly when its column and row have an odd sum |
| ChessGame.ToLastMoveArrow | src/jvmMain/kotlin/logic/ChessGame.kt:21-36 | text of fewer than four characters is refused (the thrown error); otherwise the arrow's files and ranks are the offsets of characters 0-3 from 'a' and '1' |
| ChessGame.ArrowCoordinatesInverse | src/jvmMain/kotlin/logic/ChessGame.kt:38-45 | the conversion from arrow to move coordinates and back is the identity in both directions |
| ChessGame.ArrowOfUciRoundTrip | src/jvmMain/kotlin/logic/ChessGame.kt:21-36 | the arrow read from the UCI text of an on-board move, with any promotion suffix, is that move's arrow |
| ChessGame.ArrowMatchesPlayedSquares | src/jvmMain/kotlin/logic/ChessGame.kt:47-56 | for a UCI move naming two squares, the arrow drawn joins exactly the two squares the move is looked up between |
| ChessGame.FindLegalMove | src/jvmMain/kotlin/logic/ChessGame.kt:58-73 | the result is absent exactly when no legal move matches the from-square, to-square and promotion; otherwise it is the first matching move |
| ChessGame.GetLegalMove | src/jvmMain/kotlin/logic/ChessGame.kt:58-73 | the scan of the legal moves returns the first match, as `FindLegalMove` specifies |
| ChessGame.CountPiece | src/jvmMain/kotlin/logic/ChessGame.kt:75-83 | the loop over the 64 squares counts the squares holding the stone |
| ChessGame.CountPositiveIffPresent | src/jvmMain/kotlin/logic/ChessGame.kt:75-83 | the count is positive exactly when some square holds the stone |
| ChessGame.CountOfAtMostOne | src/jvmMain/kotlin/logic/ChessGame.kt:75-83 | a stone found on no square but one is counted once if it is there and zero times otherwise |
| ChessGame.FirstSquareFrom | src/jvmMain/kotlin/logic/ChessGame.kt:85-92 | the result is the lowest square holding the stone, or absent when no square holds it |
| ChessGame.FirstSquareColorIsWhiteForPiece | src/jvmMain/kotlin/logic/ChessGame.kt:85-92 | the result is absent exactly when the stone is nowhere (the thrown error); otherwise it is the colour of the first square holding the stone |
| ChessGame.IsMissingMatingMaterial | src/jvmMain/kotlin/logic/ChessGame.kt:94-133 | the method with its counting loops computes the insufficient-material rule |
| ChessGame.QueenRookOrPawnSuffices | src/jvmMain/kotlin/logic/ChessGame.kt:107-112 | one queen, rook or pawn of either side on the board means mating material is not missing |
| ChessGame.AtMostOneMinorPieceLacksMaterial | src/jvmMain/kotlin/logic/ChessGame.kt:114-124 | the two kings alone, or with a single knight or bishop, lack mating material |
| ChessGame.LoneBishopsLackMaterialIffSameColour | src/jvmMain/kotlin/logic/ChessGame.kt:125-130 | with the kings and one bishop each, material is missing exactly when the bishops stand on squares of the same colour |
| ChessGame.OneBishopEachLacksMaterialIffSameColour | src/jvmMain/kotlin/logic/ChessGame.kt:107-132 | with no queen, rook or pawn and exactly one bishop a side, material is missing exactly when neither side has more than two minor pieces and the two bishops stand on squares of one colour (K+B+N against K+B included) |
| ChessGame.NoBishopOnOneSideSuffices | src/jvmMain/kotlin/logic/ChessGame.kt:114-132 | when one side has no bishop and both sides have a knight or bishop, material is never reported missing (K+N against K+N) |
| ChessGame.TwoMinorsAgainstNoMinorSuffice | src/jvmMain/kotlin/logic/ChessGame.kt:114-132 | two or more minor pieces of one side against a side with none are never reported as missing material |
| ChessGame.TwoBishopsAgainstAMinorSuffice | src/jvmMain/kotlin/logic/ChessGame.kt:114-132 | two bishops of one side against a side with any minor piece are never reported as missing material (K+B+B against K+B) |
| ChessHistory.ToText | src/jvmMain/kotlin/components/ChessHistory.kt:32-37 | a termination is written as one of `*`, `1-0`, `0-1`, `1/2-1/2` |
| ChessHistory.TerminationTextRoundTrip | src/jvmMain/kotlin/components/ChessHistory.kt:32-37 | each termination text reads back as the termination that wrote it |
| ChessHistory.ToTextInjective | src/jvmMain/kotlin/components/ChessHistory.kt:32-37 | different terminations have different texts |
| ChessHistory.MoveNumberText | src/jvmMain/kotlin/components/ChessHistory.kt:88 | a move-number label is at least two characters long and ends with a dot |
| ChessHistory.MoveNumberTextReadsBack | src/jvmMain/kotlin/components/ChessHistory.kt:88 | the label is the number's decimal digits followed by `.` for White or `...` for Black |
| ChessHistory.MoveNumberTextInjective | src/jvmMain/kotlin/components/ChessHistory.kt:88 | different numbers or sides get different labels |
| ChessHistory.PositionRequestFor | src/jvmMain/kotlin/components/ChessHistory.kt:99-104 | only a move item asks for a position, and it asks for the position stored in it |
| Fen.SideToMoveIsWhite | src/jvmMain/kotlin/screens/PgnGamesPage.kt:46-48 | the side is known exactly when the record has a second space-separated field (otherwise the list lookup fails), and it is White exactly when that field is `w` |
| Fen.SideToMoveOfRecord | src/jvmMain/kotlin/logic/ChessGame.kt:222-225 | in a record made of a placement, a side field and the rest, White is to move exactly when the side field is `w` |
| Fen.ExpandRow | src/jvmMain/kotlin/logic/ChessGame.kt:185-192 | an expanded row has no digits, and a row without digits expands to itself |
| Fen.ExpandRowAppend | src/jvmMain/kotlin/logic/ChessGame.kt:185-192 | the expansion works character by character: the expansion of a concatenation is the concatenation of the expansions |
| Fen.ExpandRowOfOneCharacter | src/jvmMain/kotlin/logic/ChessGame.kt:186-190 | a digit becomes that many empty cells and any other character stays as it is |
| Fen.PlacementRows | src/jvmMain/kotlin/logic/ChessGame.kt:182-183 | the placement field splits into one more row than it has slashes, and no row holds a slash or a space |
| Fen.PiecesOfFen | src/jvmMain/kotlin/screens/EditPositionPage.kt:31-41 | the grid has one row per placement row, each the expansion of that row and free of digits |
| GameSession.LastMoveItemIndex | src/jvmMain/kotlin/logic/ChessGame.kt:549-555 | the result is the last move item of the history, or absent when the history holds none |
| GameSession.FirstMoveItemFrom | src/jvmMain/kotlin/logic/ChessGame.kt:438-458 | the result is the first move item at or after the start index, or absent when there is none |
| GameSession.MoveItemCountAppend | src/jvmMain/kotlin/logic/ChessGame.kt:476-497 | the move items of two history pieces add up |
| GameSession.ResetSeedsHistory | src/jvmMain/kotlin/logic/ChessGame.kt:249-267 | a reset game is valid and in progress; both sides are human; the history is one move-number item and no move; the start position has been seen once |
| GameSession.ApplyMoveAppendsOneMove | src/jvmMain/kotlin/logic/ChessGame.kt:476-497 | a played move keeps the earlier history and appends exactly one move item, with its SAN, position and side; a move-number item comes before it exactly when White moved and it is not the first move |
| GameSession.ApplyMoveCountsOccurrence | src/jvmMain/kotlin/logic/ChessGame.kt:285-304 | after a move the position played to is counted once more, the other counts are kept, and the position before the move is remembered |
| GameSession.EndingStopsTheGame | src/jvmMain/kotlin/logic/ChessGame.kt:499-546 | with no ending nothing changes; any ending stops the game, sets both players to none and selects the last move; a checkmate names White as winner exactly when Black is to move |
| GameSession.EndingsInPriorityOrder | src/jvmMain/kotlin/logic/ChessGame.kt:499-546 | the endings are tried in the order checkmate, stalemate, threefold repetition, missing material, fifty-move draw; each is reported exactly when its condition holds and no earlier one does |
| GameSession.ThirdOccurrenceEndsTheGame | src/jvmMain/kotlin/logic/ChessGame.kt:506-531 | a move reaching a position for the third time ends the game by repetition, unless it is mate or stalemate |
| GameSession.PlayMoveOutcomes | src/jvmMain/kotlin/logic/ChessGame.kt:269-317 | a drop plays the first legal non-promotion move between the squares; failing that, a legal queen promotion only records the pending promotion for the side to move and its squares; failing that, nothing changes |
| GameSession.CancelPromotionClears | src/jvmMain/kotlin/logic/ChessGame.kt:319-323 | cancelling clears the pending side and both pending squares |
| GameSession.CommitPromotionOutcomes | src/jvmMain/kotlin/logic/ChessGame.kt:325-380 | with nothing pending, or with an illegal choice, nothing changes; a legal choice plays the matching promotion from the pending squares, clears the pending state and adds one move |
| GameSession.PromotionSquaresRoundTrip | src/jvmMain/kotlin/logic/ChessGame.kt:348-362 | a committed promotion is recorded with the drop's own coordinates |
| GameSession.ShortEngineMoveFails | src/jvmMain/kotlin/logic/ChessGame.kt:151-177 | an engine move shorter than four characters fails, having changed only the remembered position |
| GameSession.IllegalEngineMoveRepeatsLastMove | src/jvmMain/kotlin/logic/ChessGame.kt:151-177 | after a played move, an illegal engine move is not played, yet the previous SAN is appended again and the unchanged position is counted once more |
| GameSession.IllegalEngineMoveAfterLoadFails | src/jvmMain/kotlin/logic/ChessGame.kt:151-177 | right after a load, an illegal engine move fails on the missing last move, with the arrow of the text already drawn |
| GameSession.LegalEngineMoveIsApplied | src/jvmMain/kotlin/logic/ChessGame.kt:151-177 | a legal engine move is played like a drop, with the arrow read from its text |
| GameSession.NavigationRefusedDuringGame | src/jvmMain/kotlin/logic/ChessGame.kt:382-424 | during a game the previous, next and position requests are refused and change nothing |
| GameSession.ForwardStepLandsOnNextMove | src/jvmMain/kotlin/logic/ChessGame.kt:421-458 | a forward step succeeds exactly when a move item lies after the selection; it then selects the nearest such item and shows its position and arrow, changing nothing else |
| GameSession.BackStepLandsOnPreviousMove | src/jvmMain/kotlin/logic/ChessGame.kt:400-419 | a step back from a selection always succeeds: it lands on the nearest earlier move item, or shows the start position with nothing selected and no arrow when there is none |
| GameSession.FirstPositionClearsSelection | src/jvmMain/kotlin/logic/ChessGame.kt:426-430 | going to the first position ends with nothing selected and changes only what navigation changes |
| GameSession.LastPositionSelectsLastMove | src/jvmMain/kotlin/logic/ChessGame.kt:432-436 | going to the last node selects the last move item and shows its position when the selection moved |
| GameSession.ApplyMoveKeepsValid | src/jvmMain/kotlin/logic/ChessGame.kt:476-546 | playing a move keeps the selection on a move item and the pending promotion consistent |
| GameSession.PlayMoveKeepsValid | src/jvmMain/kotlin/logic/ChessGame.kt:269-317 | a drop keeps the state valid |
| GameSession.CommitPromotionKeepsValid | src/jvmMain/kotlin/logic/ChessGame.kt:325-380 | committing a promotion keeps the state valid |
| GameSession.HistoryGrowthKeepsValid | src/jvmMain/kotlin/logic/ChessGame.kt:476-497 | extending the history at its end keeps the state valid |
| GameSession.HandleGameEndingKeepsValid | src/jvmMain/kotlin/logic/ChessGame.kt:499-546 | handling the ending keeps the state valid |
| GameSession.ProcessEngineMoveKeepsValid | src/jvmMain/kotlin/logic/ChessGame.kt:151-177 | an engine move, completed or failed, keeps the state valid |
| GameSession.NavigationKeepsValid | src/jvmMain/kotlin/logic/ChessGame.kt:382-474 | every navigation request, stopping and cancelling keep the state valid |
| GameSession.LastMoveItemOfLongerPrefix | src/jvmMain/kotlin/logic/ChessGame.kt:460-474 | the last move item of a history one item longer is that item if it is a move, and otherwise the previous answer |
| GameSession.BackStepKeepsFirstPosition | src/jvmMain/kotlin/logic/ChessGame.kt:426-430 | each accepted step back leaves the target of going to the first position unchanged, which is what the stepping loop relies on |
| GameSession.ForwardStepKeepsLastPosition | src/jvmMain/kotlin/logic/ChessGame.kt:432-436 | each accepted step forward leaves the target of going to the last node unchanged |
| GameManager.ChessGameManager.constructor | src/jvmMain/kotlin/logic/ChessGame.kt:136-149 | a new manager is in the initial state: standard position, empty history, human players, no game in progress |
| GameManager.ChessGameManager.SetWhitePlayerType | src/jvmMain/kotlin/logic/ChessGame.kt:196-198 | only White's player type changes |
| GameManager.ChessGameManager.SetBlackPlayerType | src/jvmMain/kotlin/logic/ChessGame.kt:200-202 | only Black's player type changes |
| GameManager.ChessGameManager.SetStartPosition | src/jvmMain/kotlin/logic/ChessGame.kt:227-235 | the start position is kept only when the library accepts the record; otherwise nothing changes |
| GameManager.ChessGameManager.LoadPosition | src/jvmMain/kotlin/logic/ChessGame.kt:395-398 | the library is set up from the record and has no last move |
| GameManager.ChessGameManager.ResetGame | src/jvmMain/kotlin/logic/ChessGame.kt:249-267 | the new state is the reset state, whose properties `ResetSeedsHistory` states |
| GameManager.ChessGameManager.StopGame | src/jvmMain/kotlin/logic/ChessGame.kt:237-242 | the game stops, both players become none and the last move is selected |
| GameManager.ChessGameManager.SelectLastHistoryMoveNodeIfAny | src/jvmMain/kotlin/logic/ChessGame.kt:549-555 | the backward scan selects the last move item of the history, or clears the selection when there is none |
| GameManager.ChessGameManager.AddMoveToHistory | src/jvmMain/kotlin/logic/ChessGame.kt:476-497 | the history grows as `ApplyMoveAppendsOneMove` states |
| GameManager.ChessGameManager.CountOccurrence | src/jvmMain/kotlin/logic/ChessGame.kt:303-304 | the current position is counted once more |
| GameManager.ChessGameManager.HandleGameEndingStatus | src/jvmMain/kotlin/logic/ChessGame.kt:499-546 | the ending returned is the callback fired, and the state is the one `EndingStopsTheGame` describes |
| GameManager.ChessGameManager.PlayLegalMove | src/jvmMain/kotlin/logic/ChessGame.kt:285-311 | the common tail of every played move: remember, play, record, draw the arrow, count, look for the end |
| GameManager.ChessGameManager.PlayMove | src/jvmMain/kotlin/logic/ChessGame.kt:269-317 | the new state and the ending are those of the drop specification |
| GameManager.ChessGameManager.CancelPromotion | src/jvmMain/kotlin/logic/ChessGame.kt:319-323 | the pending promotion is cleared |
| GameManager.ChessGameManager.CommitPromotion | src/jvmMain/kotlin/logic/ChessGame.kt:325-380 | the new state and the ending are those of the commit specification |
| GameManager.ChessGameManager.ProcessEngineMove | src/jvmMain/kotlin/logic/ChessGame.kt:151-177 | a completed call returns its ending; a throwing call returns none and leaves the partial update the specification gives |
| GameManager.ChessGameManager.PlayEngineMove | src/jvmMain/kotlin/logic/ChessGame.kt:160-162 | a legal UCI move is played and an illegal one ignored; then the arrow of its text is drawn |
| GameManager.ChessGameManager.RecordLastMove | src/jvmMain/kotlin/logic/ChessGame.kt:163-171 | the bookkeeping after the library's last move: history, repetition count, ending |
| GameManager.ChessGameManager.RequestPosition | src/jvmMain/kotlin/logic/ChessGame.kt:382-393 | refused during a game; otherwise the position, arrow and selection are set |
| GameManager.ChessGameManager.ShowMoveItem | src/jvmMain/kotlin/logic/ChessGame.kt:403-411 | the selected move item's position and arrow are shown |
| GameManager.ChessGameManager.RequestBackOneMove | src/jvmMain/kotlin/logic/ChessGame.kt:460-474 | the backward scan selects the nearest earlier move item, and reports whether there was one |
| GameManager.ChessGameManager.RequestForwardOneMove | src/jvmMain/kotlin/logic/ChessGame.kt:438-458 | the forward scan selects and shows the nearest later move item, and reports whether there was one |
| GameManager.ChessGameManager.RequestGotoPreviousHistoryNode | src/jvmMain/kotlin/logic/ChessGame.kt:400-419 | the state and the answer are those `BackStepLandsOnPreviousMove` describes |
| GameManager.ChessGameManager.RequestGotoNextHistoryNode | src/jvmMain/kotlin/logic/ChessGame.kt:421-424 | the state and the answer are those `ForwardStepLandsOnNextMove` describes |
| GameManager.ChessGameManager.RequestGotoFirstPosition | src/jvmMain/kotlin/logic/ChessGame.kt:426-430 | the loop of backward steps ends at the start position, with nothing selected, unless a game is in progress |
| GameManager.ChessGameManager.RequestGotoLastHistoryNode | src/jvmMain/kotlin/logic/ChessGame.kt:432-436 | the loop of forward steps ends on the last move item unless a game is in progress |
| GameScreen.TimeDecomposition | src/jvmMain/kotlin/screens/GamePage.kt:315-332 | hours, minutes and seconds rebuild the time up to its tenths; for a time that is not negative the minutes and seconds lie in 0..59 |
| GameScreen.PartsOfFromParts | src/jvmMain/kotlin/screens/GamePage.kt:315-353 | a time built from parts within range reads back the same parts |
| GameScreen.UpdateAllocatedKeepsOtherParts | src/jvmMain/kotlin/screens/GamePage.kt:334-353 | changing one picker sets that part and keeps the other two |
| GameScreen.TimePatternShowsLeadingUnit | src/jvmMain/kotlin/screens/GamePage.kt:843-846 | hours are shown exactly when there is a whole hour, minutes exactly when there is a whole minute but no hour |
| GameScreen.MakeCpuPlayOnlyOnComputerTurn | src/jvmMain/kotlin/screens/GamePage.kt:238-248 | the engine is asked for a move exactly when a game is on, the engine is idle and the side to move is the computer; the request carries the clocks exactly when the clock is active |
| GameScreen.ChainRequestsEvaluationForHuman | src/jvmMain/kotlin/screens/GamePage.kt:250-259 | after a move, a human to move gets an evaluation request; otherwise the engine may be asked to play; the clocks are left alone |
| GameScreen.DropAlwaysFlipsClock | src/jvmMain/kotlin/screens/GamePage.kt:261-275 | every drop during a game flips the running clock, even one matching no legal move, which leaves the game as it was |
| GameScreen.PromotionChoiceFlipsClock | src/jvmMain/kotlin/screens/GamePage.kt:787-798 | a promotion choice during a game flips the running clock, legal or not |
| GameScreen.MoveRequestsIgnoredWithoutGame | src/jvmMain/kotlin/screens/GamePage.kt:767-797 | without a game, a drop, a promotion cancel or a promotion choice changes nothing |
| GameScreen.BestMoveCallbackGuard | src/jvmMain/kotlin/screens/GamePage.kt:392-415 | a best move arriving while the engine is idle is ignored; an accepted one flips the clock, and the engine keeps thinking exactly when the game goes on and the computer is to move |
| GameScreen.SideSwitchOutcomes | src/jvmMain/kotlin/screens/GamePage.kt:283-313 | without a game only the box is ticked; during a game, handing to a human the side the engine is thinking for stops the engine |
| GameScreen.ClockSwitch | src/jvmMain/kotlin/screens/GamePage.kt:115-141 | enabling the clock starts both counters at the allocated time and the job; disabling stops the job and keeps the counters |
| GameScreen.TickTakesOneTenthFromRunningSide | src/jvmMain/kotlin/screens/GamePage.kt:122-135 | a tick takes one tenth from the running side only; running out stops the game, the clock and the engine and names the other side winner unless it lacks material |
| GameScreen.StopByTimeoutStops | src/jvmMain/kotlin/screens/GamePage.kt:76-113 | a timeout stops the game, the clock and the engine, leaves both times as they are and names the result: a draw when the side on time lacks material, otherwise a win for it |
| GameScreen.StopGameStopsEverything | src/jvmMain/kotlin/screens/GamePage.kt:207-223 | stopping from the screen stops the clock, the engine and the game, and selects the last move |
| GameScreen.GamePage.constructor | src/jvmMain/kotlin/screens/GamePage.kt:50-74 | the screen starts from the manager's fields, with an idle engine, the clock off and one minute (600 tenths of a second) allocated |
| GameScreen.GamePage.LaunchMoveComputation | src/jvmMain/kotlin/screens/GamePage.kt:225-236 | one best-move request is sent for the manager's position, with the clocks when the clock is active |
| GameScreen.GamePage.MakeCpuPlayIfAppropriated | src/jvmMain/kotlin/screens/GamePage.kt:238-248 | the screen ends as `MakeCpuPlayOnlyOnComputerTurn` states |
| GameScreen.GamePage.ChainCpuMoveIfAppropriated | src/jvmMain/kotlin/screens/GamePage.kt:250-259 | the screen ends as `ChainRequestsEvaluationForHuman` states |
| GameScreen.GamePage.SyncWithManager | src/jvmMain/kotlin/screens/GamePage.kt:212-215 | the screen's copies of the game flag, selection and player types equal the manager's |
| GameScreen.GamePage.OnMovePlayed | src/jvmMain/kotlin/screens/GamePage.kt:261-275 | the copies are refreshed, the clock flips and the next request is chained |
| GameScreen.GamePage.RefreshAfterMove | src/jvmMain/kotlin/screens/GamePage.kt:262-272 | the other clock runs, the side to move is read from the position, and the game flag, player types and selection are copied from the manager |
| GameScreen.GamePage.TryPlayingMove | src/jvmMain/kotlin/screens/GamePage.kt:767-781 | ignored without a game; otherwise the manager plays the drop and the screen follows it |
| GameScreen.GamePage.OnCancelPromotion | src/jvmMain/kotlin/screens/GamePage.kt:782-786 | during a game the manager's pending promotion is cleared; otherwise nothing changes |
| GameScreen.GamePage.OnValidatePromotion | src/jvmMain/kotlin/screens/GamePage.kt:787-798 | during a game the manager commits the choice and the screen follows it |
| GameScreen.GamePage.OnBestMove | src/jvmMain/kotlin/screens/GamePage.kt:392-415 | the callback's effect on screen and manager is the one `BestMoveCallbackGuard` describes |
| GameScreen.GamePage.AfterEngineMove | src/jvmMain/kotlin/screens/GamePage.kt:402-414 | after the engine's move the copies are refreshed, the engine is idle and the next request is chained |
| GameScreen.GamePage.HandleWhiteSideTypeChange | src/jvmMain/kotlin/screens/GamePage.kt:283-297 | the effect is the one `SideSwitchOutcomes` describes, for White |
| GameScreen.GamePage.HandleBlackSideTypeChange | src/jvmMain/kotlin/screens/GamePage.kt:299-313 | the effect is the one `SideSwitchOutcomes` describes, for Black |
| GameScreen.GamePage.SwitchSideType | src/jvmMain/kotlin/screens/GamePage.kt:284-292 | the side's box and player type are set; the engine is stopped when it was thinking for the side to move and that side becomes human |
| GameScreen.GamePage.RecordSideChoice | src/jvmMain/kotlin/screens/GamePage.kt:284-286 | only the side's box and its player type change |
| GameScreen.GamePage.HandleClockActiveChange | src/jvmMain/kotlin/screens/GamePage.kt:115-141 | the screen ends as `ClockSwitch` states |
| GameScreen.GamePage.StopGameByTimeout | src/jvmMain/kotlin/screens/GamePage.kt:76-113 | the game, the engine and the clock stop; the message is a draw when the side on time lacks material, and otherwise a win for that side |
| GameScreen.GamePage.Tick | src/jvmMain/kotlin/screens/GamePage.kt:122-135 | one pass of the clock job's loop, as `TickTakesOneTenthFromRunningSide` states |
| GameScreen.GamePage.StopGame | src/jvmMain/kotlin/screens/GamePage.kt:207-223 | the screen and the manager end as `StopGameStopsEverything` states |
| GameScreen.GamePage.UpdateAllocatedHours | src/jvmMain/kotlin/screens/GamePage.kt:334-339 | only the allocated time changes, to the one `UpdateAllocatedKeepsOtherParts` describes |
| GameScreen.GamePage.UpdateAllocatedMinutes | src/jvmMain/kotlin/screens/GamePage.kt:341-346 | as for hours, with the minutes |
| GameScreen.GamePage.UpdateAllocatedSeconds | src/jvmMain/kotlin/screens/GamePage.kt:348-353 | as for hours, with the seconds |
| ChessGameLegalState.TestIfIsLegalChessFen | src/jvmMain/kotlin/logic/ChessGameLegalState.kt:14-20 | the field count is wrong exactly when the text has other than five spaces, and is then reported with the count of fields; otherwise the record is refused exactly when the king not to move is attacked |
| ChessGameLegalState.FieldCountCheckedFirst | src/jvmMain/kotlin/logic/ChessGameLegalState.kt:15-17 | a text with the wrong number of fields is refused whatever the attack check says |
| ChessGameLegalState.SixFieldsPassTheCount | src/jvmMain/kotlin/logic/ChessGameLegalState.kt:15-19 | six space-free fields joined by single spaces pass the count, and the verdict is then the attack check's |
| EditPosition.RunText | src/jvmMain/kotlin/screens/EditPositionPage.kt:52-54 | a run is written as nothing exactly when it is empty, and otherwise as digits |
| EditPosition.CompressFromAvoids | src/jvmMain/kotlin/screens/EditPositionPage.kt:43-61 | the intended compression leaves no empty cell in the row, and neither compression adds a slash |
| EditPosition.CompressedRows | src/jvmMain/kotlin/screens/EditPositionPage.kt:43-61 | each row of the grid is compressed on its own |
| EditPosition.CompressStep | src/jvmMain/kotlin/screens/EditPositionPage.kt:48-56 | one element consumed either lengthens the run or writes the run and the element |
| EditPosition.CompressLine | src/jvmMain/kotlin/screens/EditPositionPage.kt:44-59 | the loop over a row's elements computes the row's compression |
| EditPosition.BoardPositionFromPiecesValues | src/jvmMain/kotlin/screens/EditPositionPage.kt:43-61 | the compressed rows joined by slashes |
| EditPosition.DigitFreeRowIsCopied | src/jvmMain/kotlin/screens/EditPositionPage.kt:48-56 | as written, a row with no digit is copied out unchanged, empty cells included |
| EditPosition.AsWrittenCompressionCopiesExpandedRows | src/jvmMain/kotlin/screens/EditPositionPage.kt:43-61 | as written, compressing the grid of any FEN record gives back the expanded rows, not the placement field |
| EditPosition.AsWrittenLosesEmptyRun | src/jvmMain/kotlin/screens/EditPositionPage.kt:48-56 | as written, the empty rank `8` expands to eight empty cells and comes back as eight empty cells, not `8` |
| EditPosition.CanonicalSuffix | src/jvmMain/kotlin/screens/EditPositionPage.kt:31-41 | every suffix of a canonical row is canonical |
| EditPosition.EmptyRunIsCounted | src/jvmMain/kotlin/screens/EditPositionPage.kt:48-56 | a run of empty cells in front only lengthens the pending run |
| EditPosition.RunTextOfDigit | src/jvmMain/kotlin/screens/EditPositionPage.kt:52-54 | a run of one to nine holes is written as its single digit |
| EditPosition.CompressExpandRow | src/jvmMain/kotlin/screens/EditPositionPage.kt:31-61 | compressing the expansion of a canonical row gives the row back |
| EditPosition.ExpandRunText | src/jvmMain/kotlin/screens/EditPositionPage.kt:31-54 | the text of a run of at most nine holes expands back into the run |
| EditPosition.ExpandCompressFrom | src/jvmMain/kotlin/screens/EditPositionPage.kt:31-61 | expanding the compression of a digit-free row of at most nine cells gives the row back |
| EditPosition.JoinAvoids | src/jvmMain/kotlin/screens/EditPositionPage.kt:44 | joining adds only separators |
| EditPosition.PlacementRoundTrip | src/jvmMain/kotlin/screens/EditPositionPage.kt:31-61 | for a record whose rows are canonical, the corrected compression of its grid is its placement field |
| EditPosition.GridRoundTrip | src/jvmMain/kotlin/screens/EditPositionPage.kt:31-61 | a grid of digit-free rows of at most nine cells, compressed and read back, is the same grid |
| EditPosition.Replace | src/jvmMain/kotlin/screens/EditPositionPage.kt:63-70 | the grid keeps its shape and every other cell, and the target cell holds the new value when it lies in the grid |
| EditPosition.ReplaceOutsideTheGrid | src/jvmMain/kotlin/screens/EditPositionPage.kt:63-70 | indices outside the grid change nothing |
| EditPosition.ReplaceUndone | src/jvmMain/kotlin/screens/EditPositionPage.kt:63-70 | writing back the old value undoes a replacement |
| EditPosition.ReplaceLastWriteWins | src/jvmMain/kotlin/screens/EditPositionPage.kt:63-70 | of two writes to the same cell the later one wins |
| EditPosition.EnPassantCaption | src/jvmMain/kotlin/screens/EditPositionPage.kt:340 | no file shows `-`; file f in 0..7 shows the letter `a` + f |
| EditPosition.EnPassantMenuIsConsistent | src/jvmMain/kotlin/screens/EditPositionPage.kt:350 | every menu entry selects the file whose caption it shows |
| EditPosition.EditPositionPage.constructor | src/jvmMain/kotlin/screens/EditPositionPage.kt:81-89 | the editor opens on the standard starting position's grid, the empty cell as editing piece, and no en-passant file |
| EditPosition.EditPositionPage.OnEditingPieceChange | src/jvmMain/kotlin/screens/EditPositionPage.kt:170 | only the editing piece changes |
| EditPosition.EditPositionPage.OnEnPassantSelection | src/jvmMain/kotlin/screens/EditPositionPage.kt:184-185 | only the en-passant file changes |
| EditPosition.EditPositionPage.OnCellClick | src/jvmMain/kotlin/screens/EditPositionPage.kt:154-156 | the editing piece is written at row 7 - rank, column file, and nothing else changes |
| EditPosition.CellClickLandsOnTheSquare | src/jvmMain/kotlin/screens/EditPositionPage.kt:154-156 | a clicked square reads back the written piece at the drawn position of that square, and every other square keeps its piece |
| PgnGames.FenOrDefault | src/jvmMain/kotlin/screens/PgnGamesPage.kt:52-53 | a missing or empty FEN tag falls back to the standard position, and any other is kept |
| PgnGames.PlayerOrUnknown | src/jvmMain/kotlin/screens/PgnGamesPage.kt:54-55 | an empty player tag shows the unknown-player label, and any other is kept |
| PgnGames.FenOrDefaultIsSettled | src/jvmMain/kotlin/screens/PgnGamesPage.kt:52-53 | the position shown is never empty, and applying the default twice changes nothing |
| PgnGames.PreviousGameIndex | src/jvmMain/kotlin/screens/PgnGamesPage.kt:98-100 | the index goes down by one unless it is already at zero |
| PgnGames.NextGameIndex | src/jvmMain/kotlin/screens/PgnGamesPage.kt:102-104 | the index goes up by one unless it is already at the last game |
| PgnGames.LastGameIndex | src/jvmMain/kotlin/screens/PgnGamesPage.kt:106-108 | the last index is one less than the number of games |
| PgnGames.PickerValue | src/jvmMain/kotlin/screens/PgnGamesPage.kt:193-194 | the picker shows the index plus one |
| PgnGames.PickedIndex | src/jvmMain/kotlin/screens/PgnGamesPage.kt:196-198 | the picked number is shown again for the index it selects |
| PgnGames.NavigationKeepsIndexInRange | src/jvmMain/kotlin/screens/PgnGamesPage.kt:94-108 | with at least one game, the four moves keep the index among the games |
| PgnGames.PreviousAndNextAreInverse | src/jvmMain/kotlin/screens/PgnGamesPage.kt:98-104 | a step back then forward, or forward then back, returns to the same game away from the ends |
| PgnGames.PickerRoundTrip | src/jvmMain/kotlin/screens/PgnGamesPage.kt:193-199 | picking the number shown selects the game shown, and picks within 1..size select a game |
| PgnGames.NavigatedIndexInRange | src/jvmMain/kotlin/screens/PgnGamesPage.kt:94-108 | with at least one game, each of the four buttons and every number the picker offers (1..size, lines 193-198) selects an index among the games |
| PgnGames.PgnGamesPage.constructor | src/jvmMain/kotlin/screens/PgnGamesPage.kt:86-92 | with games, the page opens on the first one and shows it; without, it keeps no game and the defaults |
| PgnGames.PgnGamesPage.LoadDataFromCurrentGame | src/jvmMain/kotlin/screens/PgnGamesPage.kt:50-56 | the page shows the current game's position and players, with their defaults |
| PgnGames.PgnGamesPage.GotoFirstGame | src/jvmMain/kotlin/screens/PgnGamesPage.kt:94-96 | the click handler alone: only the index changes, to zero |
| PgnGames.PgnGamesPage.GotoPreviousGame | src/jvmMain/kotlin/screens/PgnGamesPage.kt:98-100 | the click handler alone: only the index changes, as `PreviousGameIndex` states |
| PgnGames.PgnGamesPage.GotoNextGame | src/jvmMain/kotlin/screens/PgnGamesPage.kt:102-104 | the click handler alone: only the index changes, as `NextGameIndex` states |
| PgnGames.PgnGamesPage.GotoLastGame | src/jvmMain/kotlin/screens/PgnGamesPage.kt:106-108 | the click handler alone: only the index changes, to the last game |
| PgnGames.PgnGamesPage.OnPickerChanged | src/jvmMain/kotlin/screens/PgnGamesPage.kt:196-198 | the change handler alone: only the index changes, to the picked number less one |
| PgnGames.PgnGamesPage.Recompose | src/jvmMain/kotlin/screens/PgnGamesPage.kt:86-92 | a run of the page's body keeps the games read and, when there are any, shows the game at the index again; the page stays `Valid` |
| PgnGames.PgnGamesPage.Navigate | src/jvmMain/kotlin/screens/PgnGamesPage.kt:86-108 | a button or picker change followed by the body's re-run: the index is the navigated one and the page shows that game's position and players |

## Left out

- The chess library: positions, legal moves, SAN, mate, stalemate and terminal-state tests, and the move number are queries of `ChessGame.Oracle`. Its rules of chess are not part of this model.
- The engine process and the UCI channel are left out: the process runner, its reading thread and the text protocol. The screen's requests to the engine are recorded in `engineRequests`; the engine's answer arrives as the argument of `OnBestMove`.
- Compose's re-running of a page body is modelled for the game browser only: `PgnGames.PgnGamesPage.Recompose` reloads the shown game, and `PgnGames.PgnGamesPage.Navigate` is a click followed by that reload. On the game screen, the body calls `chainCpuMoveIfAppropriated` on every run (GamePage.kt:431). The model calls it only after the handlers, so `GameScreen.GamePage.constructor` does not send the request of the first run, for example the evaluation request on a human's turn. The requests repeated by later runs are not modelled either.
- Coroutines, `delay` and the clock job's infinite loop are left out. One pass of the loop is `Tick`, and the job itself is the flag `clockJobRunning`.
- The evaluation bar's score and its floating-point pixel conversion are left out, because they are floating point.
- PGN reading and writing (`writePGNTo`, the importer) are left out, because they are file I/O. The games read arrive as a parameter of the browser's constructor.
- Preferences, localised strings, snackbars, dialogs, layout and rendering are left out. Only the values the UI computes are modelled.
- The screen's mirror copies of the board, the last-move arrow, the pending promotion squares and the position text are left out. `onPromotionCancelled` only copies manager fields back, so it is left out too. The copies the handlers branch on are modelled.
- `isOppositeKingAttacked` is a parameter of `TestIfIsLegalChessFen`, because it needs the chess library. So are the library's `ChessGame(fen)` constructor and any error it throws on a malformed record.
- `GamePage.StopGameByTimeout` and `GamePage.Tick`: the library's insufficient-material verdict on the side still on time is the parameter `winnerLacksMaterial`.
- Kotlin `Int` overflow is not modelled: integers are unbounded. The clocks, counters and indices stay far below 2^31 in the application.
- `IsDigit` recognises only the ASCII digits, not every Unicode digit that `Char.isDigit` accepts. Letters are lowered in ASCII only.
- The time text: `SimpleDateFormat` rendering is left out; only the pattern chosen is modelled.
- `GameManager.ChessGameManager.RequestGotoNextHistoryNode` and `GameManager.ChessGameManager.RequestGotoLastHistoryNode` require a game in progress or a non-empty history. With an empty history and no game, the source computes the index `-1` and would fail on the list lookup; that call is not modelled.
- `GameManager.ChessGameManager.CommitPromotion` requires the pending side and squares to be set together. The source keeps them so, as `GameSession.Valid` proves, and otherwise fails on `!!`.
- `ChessHistory`: the snapshot's `MoveItem` class has no `movesCoordinates`, which the manager nevertheless reads. The screen's history callback also takes three arguments where the component passes one. The model gives `MoveItem` its coordinates, as the manager's use requires.
- `EditPosition.BoardPositionFromPiecesValues` is not called anywhere in the code. The model proves both its as-written and its corrected behaviour.
- The editor page's validate action (`onValidate`, EditPositionPage.kt:91-93) has an empty body, so the page never compresses its grid. `EditPosition.EditPositionPage` has no method for it either.
- The position editor's castling, side-to-move, half-move and move-number controls and the FEN text it assembles from them are left out. They are plain field updates with no logic.
- `Fen.SideToMoveIsWhite` returns `None` where the Kotlin list lookup fails on a record without a second field. This stands for the thrown exception.

## Findings

| source | as written | input that shows it | evidently intended | confidence | as-written member | corrected member |
|---|---|---|---|---|---|---|
| src/jvmMain/kotlin/screens/EditPositionPage.kt:48-56 | runs are counted over elements that are digits, but a grid of cells holds empty cells and never digits, so empty cells are copied out as spaces | the empty rank `8`: it expands to eight empty cells and is compressed back to eight empty cells, not to `8` | count runs of empty cells, so that compressing the grid of a record gives back its placement field | not executed | EditPosition.AsWrittenLosesEmptyRun | EditPosition.PlacementRoundTrip |
