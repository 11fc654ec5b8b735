/**
  The game screen's coordination of turns, engine requests and the clock.
  The screen keeps copies of some manager fields and its own state; the
  functions below give the state each handler leaves, and `GamePage` is
  proved against them.
 */
module GameScreen {
  import opened Wrappers
  import opened ChessGame
  import opened GameSession
  import GameManager
  import ChessBoard
  import KotlinInt

  // ------------------------------------------------------------ time arithmetic

  /** `hoursFor`: whole hours of a time in tenths of a second. */
  function HoursFor(timeInDeciSeconds: int): int
  {
    KotlinInt.Div(KotlinInt.Div(timeInDeciSeconds, 10), 3600)
  }

  /** `minutesFor`: minutes past the whole hours. */
  function MinutesFor(timeInDeciSeconds: int): int
  {
    KotlinInt.Div(KotlinInt.Rem(KotlinInt.Div(timeInDeciSeconds, 10), 3600), 60)
  }

  /** `secondsFor`: seconds past the whole minutes. */
  function SecondsFor(timeInDeciSeconds: int): int
  {
    KotlinInt.Rem(KotlinInt.Rem(KotlinInt.Div(timeInDeciSeconds, 10), 3600), 60)
  }

  /** The time rebuilt from its three parts, in tenths of a second. */
  function FromParts(hours: int, minutes: int, seconds: int): int
  {
    hours * 36000 + minutes * 600 + seconds * 10
  }

  function AllocatedWithHours(allocatedTime: int, newHoursCount: int): int
  {
    FromParts(newHoursCount, MinutesFor(allocatedTime), SecondsFor(allocatedTime))
  }

  function AllocatedWithMinutes(allocatedTime: int, newMinutesCount: int): int
  {
    FromParts(HoursFor(allocatedTime), newMinutesCount, SecondsFor(allocatedTime))
  }

  function AllocatedWithSeconds(allocatedTime: int, newSecondsCount: int): int
  {
    FromParts(HoursFor(allocatedTime), MinutesFor(allocatedTime), newSecondsCount)
  }

  /** The format `getTimeText` picks for a time. */
  function TimePattern(timeInDeciSeconds: int): string
  {
    if timeInDeciSeconds >= 36000 then "HH:mm:ss"
    else if timeInDeciSeconds >= 600 then "mm:ss"
    else "ss.S"
  }

  /**
    The three parts rebuild the time up to its tenths, and for a time that
    is not negative the minutes and seconds lie in 0..59.
   */
  lemma {:induction false} TimeDecomposition(t: int)
    ensures FromParts(HoursFor(t), MinutesFor(t), SecondsFor(t)) == t - KotlinInt.Rem(t, 10)
    ensures t >= 0 ==> 0 <= HoursFor(t) && 0 <= MinutesFor(t) <= 59 && 0 <= SecondsFor(t) <= 59
  {
    var q := KotlinInt.Div(t, 10);
    var r := KotlinInt.Rem(q, 3600);
    assert q == KotlinInt.Div(q, 3600) * 3600 + r;
    assert r == KotlinInt.Div(r, 60) * 60 + KotlinInt.Rem(r, 60);
    assert FromParts(HoursFor(t), MinutesFor(t), SecondsFor(t))
        == 10 * (KotlinInt.Div(q, 3600) * 3600 + (KotlinInt.Div(r, 60) * 60 + KotlinInt.Rem(r, 60)));
    if t >= 0 {
      KotlinInt.DivRemProperties(t, 10);
      KotlinInt.DivRemProperties(q, 3600);
      KotlinInt.DivRemProperties(r, 60);
      assert 0 <= r < 3600;
      assert KotlinInt.Div(r, 60) == r / 60;
    }
  }

  /** Reading back parts within range gives those parts. */
  lemma {:induction false} PartsOfFromParts(h: int, m: int, s: int)
    requires h >= 0 && 0 <= m <= 59 && 0 <= s <= 59
    ensures HoursFor(FromParts(h, m, s)) == h
    ensures MinutesFor(FromParts(h, m, s)) == m
    ensures SecondsFor(FromParts(h, m, s)) == s
  {
    var t := FromParts(h, m, s);
    KotlinInt.DivOfMultiplePlusRest(h * 3600 + m * 60 + s, 0, 10);
    assert t == (h * 3600 + m * 60 + s) * 10 + 0;
    KotlinInt.DivOfMultiplePlusRest(h, m * 60 + s, 3600);
    KotlinInt.DivOfMultiplePlusRest(m, s, 60);
  }

  /**
    Changing one picker keeps the other two parts of the allocated time and
    sets the changed part to the value picked.
   */
  lemma {:induction false} UpdateAllocatedKeepsOtherParts(allocatedTime: int, v: int)
    requires allocatedTime >= 0
    ensures v >= 0 ==> var t := AllocatedWithHours(allocatedTime, v);
            HoursFor(t) == v && MinutesFor(t) == MinutesFor(allocatedTime) && SecondsFor(t) == SecondsFor(allocatedTime)
    ensures 0 <= v <= 59 ==> var t := AllocatedWithMinutes(allocatedTime, v);
            HoursFor(t) == HoursFor(allocatedTime) && MinutesFor(t) == v && SecondsFor(t) == SecondsFor(allocatedTime)
    ensures 0 <= v <= 59 ==> var t := AllocatedWithSeconds(allocatedTime, v);
            HoursFor(t) == HoursFor(allocatedTime) && MinutesFor(t) == MinutesFor(allocatedTime) && SecondsFor(t) == v
  {
    TimeDecomposition(allocatedTime);
    var h, m, s := HoursFor(allocatedTime), MinutesFor(allocatedTime), SecondsFor(allocatedTime);
    if v >= 0 {
      PartsOfFromParts(v, m, s);
    }
    if 0 <= v <= 59 {
      PartsOfFromParts(h, v, s);
      PartsOfFromParts(h, m, v);
    }
  }

  /** The format shows hours exactly when there is a whole hour, and minutes exactly when there is a whole minute. */
  lemma {:induction false} TimePatternShowsLeadingUnit(t: int)
    requires t >= 0
    ensures TimePattern(t) == "HH:mm:ss" <==> HoursFor(t) >= 1
    ensures TimePattern(t) == "mm:ss" <==> HoursFor(t) == 0 && MinutesFor(t) >= 1
    ensures TimePattern(t) == "ss.S" <==> HoursFor(t) == 0 && MinutesFor(t) == 0
  {
    TimeDecomposition(t);
    KotlinInt.DivRemProperties(t, 10);
    var q := KotlinInt.Div(t, 10);
    KotlinInt.DivRemProperties(q, 3600);
    assert t >= 36000 <==> q >= 3600;
    assert HoursFor(t) == q / 3600;
    var r := KotlinInt.Rem(q, 3600);
    KotlinInt.DivRemProperties(r, 60);
    assert MinutesFor(t) == r / 60;
    assert HoursFor(t) == 0 ==> r == q;
    assert t >= 600 <==> q >= 60;
  }

  // ------------------------------------------------------------ screen state

  /** The move time sent to the engine when the game is timed. */
  datatype MoveTime = MoveTime(whiteTimeMillis: int, blackTimeMillis: int)

  /** What the screen asks of the engine, in order. */
  datatype EngineRequest =
    | BestMoveRequest(position: string, moveTime: Option<MoveTime>)
    | EvaluationRequest(position: string)
    | StopRequest

  /** The snackbar shown when a side runs out of time. */
  datatype TimeoutMessage = DrawOnTimeByInsufficientMaterial | BlackWonOnTime | WhiteWonOnTime

  datatype PageState = PageState(
    gameInProgress: bool,
    isWhiteTurn: bool,
    whitePlayerType: ChessBoard.PlayerType,
    blackPlayerType: ChessBoard.PlayerType,
    selectedHistoryNodeIndex: Option<int>,
    engineIsThinking: bool,
    cpuPlaysWhiteChecked: bool,
    cpuPlaysBlackChecked: bool,
    whiteTimeInDeciSeconds: int,
    blackTimeInDeciSeconds: int,
    whiteTimeActive: bool,
    clockActive: bool,
    allocatedTimeInDeciSeconds: int,
    clockJobRunning: bool,
    engineRequests: seq<EngineRequest>)

  /** The screen and the manager after a handler. */
  datatype Step = Step(page: PageState, game: GameState)

  predicate IsCpuTurn(p: PageState)
  {
    (p.isWhiteTurn && p.whitePlayerType == ChessBoard.Computer)
    || (!p.isWhiteTurn && p.blackPlayerType == ChessBoard.Computer)
  }

  predicate IsPlayerTurn(p: PageState)
  {
    (p.isWhiteTurn && p.whitePlayerType == ChessBoard.Human)
    || (!p.isWhiteTurn && p.blackPlayerType == ChessBoard.Human)
  }

  /** `launchMoveComputation`: a best-move request, with the clocks when the game is timed. */
  function ComputationLaunched(p: PageState, position: string): PageState
  {
    var moveTime := if p.clockActive
                    then Some(MoveTime(p.whiteTimeInDeciSeconds * 100, p.blackTimeInDeciSeconds * 100))
                    else None;
    p.(engineRequests := p.engineRequests + [BestMoveRequest(position, moveTime)])
  }

  function MakeCpuPlay(p: PageState, position: string): PageState
  {
    if !p.gameInProgress || p.engineIsThinking || !IsCpuTurn(p) then p
    else ComputationLaunched(p.(engineIsThinking := true), position)
  }

  function ChainCpuMove(p: PageState, position: string): PageState
  {
    if IsPlayerTurn(p) then p.(engineRequests := p.engineRequests + [EvaluationRequest(position)])
    else MakeCpuPlay(p, position)
  }

  /** The copies of the manager's fields the screen refreshes after stopping a game. */
  function SyncedWith(p: PageState, s: GameState): PageState
  {
    p.(gameInProgress := s.gameInProgress, selectedHistoryNodeIndex := s.selectedNodeIndex,
       whitePlayerType := s.whitePlayerType, blackPlayerType := s.blackPlayerType)
  }

  /** After a move attempt: the other clock runs and the copies are refreshed. */
  function Refreshed(p: PageState, s: GameState): PageState
  {
    SyncedWith(p, s).(whiteTimeActive := !p.whiteTimeActive, isWhiteTurn := WhiteToPlay(s.position))
  }

  /** `onMovePlayed` once the manager is in state `s`. */
  function MovePlayed(p: PageState, s: GameState): PageState
  {
    ChainCpuMove(Refreshed(p, s), s.position)
  }

  /** The board's `tryPlayingMove`: ignored without a game; otherwise a drop, then `onMovePlayed`. */
  function DropAttempted(o: Oracle, p: PageState, s: GameState, d: ChessBoard.DragAndDropData): Step
  {
    if !p.gameInProgress then Step(p, s)
    else
      var s1 := PlayMove(o, s, d.startFile, d.startRank, d.endFile, d.endRank).state;
      Step(MovePlayed(p, s1), s1)
  }

  function CancelPromotionRequest(p: PageState, s: GameState): Step
  {
    if !p.gameInProgress then Step(p, s) else Step(p, CancelPromotion(s))
  }

  function ValidatePromotion(o: Oracle, p: PageState, s: GameState, pieceType: ChessBoard.PromotionType): Step
    requires PendingConsistent(s)
  {
    if !p.gameInProgress then Step(p, s)
    else
      var s1 := CommitPromotion(o, s, pieceType).state;
      Step(MovePlayed(p, s1), s1)
  }

  /**
    The best-move callback: ignored unless the engine was asked to think.
    A failing engine move ends the callback with what the manager did.
   */
  function BestMove(o: Oracle, p: PageState, s: GameState, uciMove: string): Step
  {
    if !p.engineIsThinking then Step(p, s)
    else match ProcessEngineMove(o, s, uciMove)
      case Failed(s1) => Step(p, s1)
      case Completed(out) =>
        Step(ChainCpuMove(Refreshed(p, out.state).(engineIsThinking := false), out.state.position), out.state)
  }

  /** The box of a side ticked or unticked. */
  function Checked(p: PageState, white: bool, newState: bool): PageState
  {
    if white then p.(cpuPlaysWhiteChecked := newState) else p.(cpuPlaysBlackChecked := newState)
  }

  function PlayerTypeFor(newState: bool): ChessBoard.PlayerType
  {
    if newState then ChessBoard.Computer else ChessBoard.Human
  }

  /**
    During a game, the side's new player type on the screen, and the engine
    stopped if it was thinking for a side now played by a human.
   */
  function SideSwitched(p: PageState, white: bool, newState: bool): PageState
  {
    var p2 := WithPlayerType(Checked(p, white, newState), white, PlayerTypeFor(newState));
    var sideToMove := if white then p.isWhiteTurn else !p.isWhiteTurn;
    if !newState && p.engineIsThinking && sideToMove
    then p2.(engineIsThinking := false, engineRequests := p2.engineRequests + [StopRequest])
    else p2
  }

  function WithPlayerType(p: PageState, white: bool, t: ChessBoard.PlayerType): PageState
  {
    if white then p.(whitePlayerType := t) else p.(blackPlayerType := t)
  }

  /** The manager's player type for the side. */
  function PlayerTypeSet(s: GameState, white: bool, newState: bool): GameState
  {
    if white then s.(whitePlayerType := PlayerTypeFor(newState)) else s.(blackPlayerType := PlayerTypeFor(newState))
  }

  /** `handleWhiteSideTypeChange` (`white`) or `handleBlackSideTypeChange`. */
  function SideTypeChange(p: PageState, s: GameState, white: bool, newState: bool): Step
  {
    if !p.gameInProgress then Step(Checked(p, white, newState), s)
    else Step(MakeCpuPlay(SideSwitched(p, white, newState), s.position), PlayerTypeSet(s, white, newState))
  }

  /** `handleClockActiveChange`. */
  function ClockActiveChange(p: PageState, newState: bool): PageState
  {
    if newState then
      p.(clockActive := true, whiteTimeInDeciSeconds := p.allocatedTimeInDeciSeconds,
         blackTimeInDeciSeconds := p.allocatedTimeInDeciSeconds, clockJobRunning := true)
    else p.(clockActive := false, clockJobRunning := false)
  }

  /** `stopGameByTimeout`; `winnerLacksMaterial` is the library's verdict on the side still on time. */
  function StopByTimeout(p: PageState, s: GameState, whiteTimeout: bool, winnerLacksMaterial: bool): (Step, TimeoutMessage)
  {
    var s1 := Stopped(s);
    var p1 := p.(engineIsThinking := false, clockJobRunning := false, clockActive := false);
    (Step(SyncedWith(p1, s1), s1),
     if winnerLacksMaterial then DrawOnTimeByInsufficientMaterial
     else if whiteTimeout then BlackWonOnTime else WhiteWonOnTime)
  }

  /** One 100 ms tick of the clock job. */
  function Ticked(p: PageState, s: GameState, winnerLacksMaterial: bool): (Step, Option<TimeoutMessage>)
  {
    if p.whiteTimeActive then
      var p1 := p.(whiteTimeInDeciSeconds := p.whiteTimeInDeciSeconds - 1);
      if p1.whiteTimeInDeciSeconds <= 0 then
        var (st, message) := StopByTimeout(p1, s, true, winnerLacksMaterial);
        (st, Some(message))
      else (Step(p1, s), None)
    else
      var p1 := p.(blackTimeInDeciSeconds := p.blackTimeInDeciSeconds - 1);
      if p1.blackTimeInDeciSeconds <= 0 then
        var (st, message) := StopByTimeout(p1, s, false, winnerLacksMaterial);
        (st, Some(message))
      else (Step(p1, s), None)
  }

  /** The screen's `stopGame`. */
  function GameStopped(p: PageState, s: GameState): Step
  {
    var s1 := Stopped(s);
    Step(SyncedWith(ClockActiveChange(p, false).(engineIsThinking := false), s1), s1)
  }

  // ------------------------------------------------------------ lemmas

  /**
    The engine is asked for a move exactly when a game is in progress, it is
    not already thinking and the side to move is played by the computer.
   */
  lemma MakeCpuPlayOnlyOnComputerTurn(p: PageState, position: string)
    ensures var r := MakeCpuPlay(p, position);
            var starts := p.gameInProgress && !p.engineIsThinking && IsCpuTurn(p);
            && r.engineIsThinking == (p.engineIsThinking || starts)
            && (starts ==> |r.engineRequests| == |p.engineRequests| + 1
                           && r.engineRequests[..|p.engineRequests|] == p.engineRequests
                           && r.engineRequests[|p.engineRequests|].BestMoveRequest?
                           && r.engineRequests[|p.engineRequests|].position == position
                           && (r.engineRequests[|p.engineRequests|].moveTime.Some? <==> p.clockActive))
            && (!starts ==> r == p)
  {
  }

  /** After a move, a human to move gets an evaluation; otherwise the engine may be asked to play. */
  lemma ChainRequestsEvaluationForHuman(p: PageState, position: string)
    ensures var r := ChainCpuMove(p, position);
            && (IsPlayerTurn(p) ==> r == p.(engineRequests := p.engineRequests + [EvaluationRequest(position)]))
            && (!IsPlayerTurn(p) ==> r == MakeCpuPlay(p, position))
            && r.whiteTimeActive == p.whiteTimeActive
            && r.whiteTimeInDeciSeconds == p.whiteTimeInDeciSeconds
            && r.blackTimeInDeciSeconds == p.blackTimeInDeciSeconds
  {
  }

  /**
    Every drop attempt during a game flips the running clock, even one on
    squares where no move is legal, which leaves the game as it was.
   */
  lemma {:induction false} DropAlwaysFlipsClock(o: Oracle, p: PageState, s: GameState, d: ChessBoard.DragAndDropData)
    requires p.gameInProgress
    ensures DropAttempted(o, p, s, d).page.whiteTimeActive == !p.whiteTimeActive
    ensures var moves := o.legalMoves(s.position);
            var from, to := CoorToSqi(d.startFile, d.startRank), CoorToSqi(d.endFile, d.endRank);
            (forall i :: 0 <= i < |moves| ==> !Matches(moves[i], from, to, NoPromotion)
                                              && !Matches(moves[i], from, to, PromoteTo(Queen)))
            ==> DropAttempted(o, p, s, d).game == s
  {
    var s1 := PlayMove(o, s, d.startFile, d.startRank, d.endFile, d.endRank).state;
    ChainRequestsEvaluationForHuman(Refreshed(p, s1), s1.position);
  }

  /** A promotion choice during a game flips the running clock too, legal or not. */
  lemma {:induction false} PromotionChoiceFlipsClock(o: Oracle, p: PageState, s: GameState, t: ChessBoard.PromotionType)
    requires p.gameInProgress && PendingConsistent(s)
    ensures ValidatePromotion(o, p, s, t).page.whiteTimeActive == !p.whiteTimeActive
  {
    var s1 := CommitPromotion(o, s, t).state;
    ChainRequestsEvaluationForHuman(Refreshed(p, s1), s1.position);
  }

  /** Without a game, a drop, a promotion cancel or a promotion choice changes nothing. */
  lemma MoveRequestsIgnoredWithoutGame(o: Oracle, p: PageState, s: GameState, d: ChessBoard.DragAndDropData,
                                       t: ChessBoard.PromotionType)
    requires !p.gameInProgress
    ensures DropAttempted(o, p, s, d) == Step(p, s)
    ensures CancelPromotionRequest(p, s) == Step(p, s)
    ensures PendingConsistent(s) ==> ValidatePromotion(o, p, s, t) == Step(p, s)
  {
  }

  /**
    A best move arriving while the engine is not thinking is ignored. An
    accepted one flips the clock and leaves the engine thinking only if the
    side now to move is played by the computer in a game still in progress.
   */
  lemma {:induction false} BestMoveCallbackGuard(o: Oracle, p: PageState, s: GameState, uciMove: string)
    ensures !p.engineIsThinking ==> BestMove(o, p, s, uciMove) == Step(p, s)
    ensures p.engineIsThinking && ProcessEngineMove(o, s, uciMove).Completed? ==>
              var st := ProcessEngineMove(o, s, uciMove).outcome.state;
              var r := BestMove(o, p, s, uciMove).page;
              && r.whiteTimeActive == !p.whiteTimeActive
              && r.gameInProgress == st.gameInProgress
              && (r.engineIsThinking <==> st.gameInProgress && IsCpuTurn(Refreshed(p, st)))
  {
    if p.engineIsThinking && ProcessEngineMove(o, s, uciMove).Completed? {
      var st := ProcessEngineMove(o, s, uciMove).outcome.state;
      var q := Refreshed(p, st).(engineIsThinking := false);
      ChainRequestsEvaluationForHuman(q, st.position);
      MakeCpuPlayOnlyOnComputerTurn(q, st.position);
    }
  }

  /**
    Switching a side without a game only ticks the box. During a game,
    switching to the human the side that the engine is thinking for stops
    the engine.
   */
  lemma SideSwitchOutcomes(p: PageState, s: GameState, white: bool, newState: bool)
    ensures !p.gameInProgress ==>
              SideTypeChange(p, s, white, newState)
              == Step(if white then p.(cpuPlaysWhiteChecked := newState) else p.(cpuPlaysBlackChecked := newState), s)
    ensures p.gameInProgress && !newState && p.engineIsThinking && (white <==> p.isWhiteTurn) ==>
              var r := SideTypeChange(p, s, white, newState);
              && !r.page.engineIsThinking
              && r.page.engineRequests == p.engineRequests + [StopRequest]
              && (if white then r.game.whitePlayerType else r.game.blackPlayerType) == ChessBoard.Human
  {
  }

  /** Enabling the clock starts both counters at the allocated time; disabling stops the job. */
  lemma ClockSwitch(p: PageState)
    ensures var r := ClockActiveChange(p, true);
            && r.clockActive && r.clockJobRunning
            && r.whiteTimeInDeciSeconds == p.allocatedTimeInDeciSeconds
            && r.blackTimeInDeciSeconds == p.allocatedTimeInDeciSeconds
    ensures var r := ClockActiveChange(p, false);
            && !r.clockActive && !r.clockJobRunning
            && r.whiteTimeInDeciSeconds == p.whiteTimeInDeciSeconds
            && r.blackTimeInDeciSeconds == p.blackTimeInDeciSeconds
  {
  }

  /**
    A tick takes one tenth from the running side only. That side's time
    running out stops the game and the clock, and the message names the
    other side as winner unless it lacks mating material.
   */
  lemma TickTakesOneTenthFromRunningSide(p: PageState, s: GameState, winnerLacksMaterial: bool)
    ensures var (st, message) := Ticked(p, s, winnerLacksMaterial);
            var w := p.whiteTimeInDeciSeconds;
            var b := p.blackTimeInDeciSeconds;
            && st.page.whiteTimeInDeciSeconds == (if p.whiteTimeActive then w - 1 else w)
            && st.page.blackTimeInDeciSeconds == (if p.whiteTimeActive then b else b - 1)
            && (message.Some? <==> (if p.whiteTimeActive then w - 1 else b - 1) <= 0)
            && (message.Some? ==> && !st.page.clockActive && !st.page.clockJobRunning
                                  && !st.page.engineIsThinking
                                  && !st.game.gameInProgress && !st.page.gameInProgress
                                  && message.value == (if winnerLacksMaterial then DrawOnTimeByInsufficientMaterial
                                                       else if p.whiteTimeActive then BlackWonOnTime
                                                       else WhiteWonOnTime))
            && (message.None? ==> st.game == s)
  {
    if p.whiteTimeActive {
      StopByTimeoutStops(p.(whiteTimeInDeciSeconds := p.whiteTimeInDeciSeconds - 1), s, true, winnerLacksMaterial);
    } else {
      StopByTimeoutStops(p.(blackTimeInDeciSeconds := p.blackTimeInDeciSeconds - 1), s, false, winnerLacksMaterial);
    }
  }

  /** A timeout stops the game, the clock and the engine, keeps both times and names the result. */
  lemma StopByTimeoutStops(p: PageState, s: GameState, whiteTimeout: bool, winnerLacksMaterial: bool)
    ensures var (st, message) := StopByTimeout(p, s, whiteTimeout, winnerLacksMaterial);
            && st.page.whiteTimeInDeciSeconds == p.whiteTimeInDeciSeconds
            && st.page.blackTimeInDeciSeconds == p.blackTimeInDeciSeconds
            && !st.page.clockActive && !st.page.clockJobRunning && !st.page.engineIsThinking
            && !st.game.gameInProgress && !st.page.gameInProgress
            && message == (if winnerLacksMaterial then DrawOnTimeByInsufficientMaterial
                           else if whiteTimeout then BlackWonOnTime else WhiteWonOnTime)
  {
  }

  /** Stopping the game from the screen stops the clock and the engine. */
  lemma StopGameStopsEverything(p: PageState, s: GameState)
    ensures var r := GameStopped(p, s);
            && !r.page.clockActive && !r.page.clockJobRunning && !r.page.engineIsThinking
            && !r.page.gameInProgress && r.game == Stopped(s)
            && r.page.selectedHistoryNodeIndex == LastMoveItemIndex(s.historyElements)
  {
  }

  // ------------------------------------------------------------ the screen

  class GamePage {
    const manager: GameManager.ChessGameManager

    var gameInProgress: bool
    var isWhiteTurn: bool
    var whitePlayerType: ChessBoard.PlayerType
    var blackPlayerType: ChessBoard.PlayerType
    var selectedHistoryNodeIndex: Option<int>
    var engineIsThinking: bool
    var cpuPlaysWhiteChecked: bool
    var cpuPlaysBlackChecked: bool
    var whiteTimeInDeciSeconds: int
    var blackTimeInDeciSeconds: int
    var whiteTimeActive: bool
    var clockActive: bool
    var allocatedTimeInDeciSeconds: int
    /** Whether the clock job is set (not null). */
    var clockJobRunning: bool
    /** The requests sent to the engine so far. */
    var engineRequests: seq<EngineRequest>

    function Page(): PageState
      reads this
    {
      PageState(gameInProgress, isWhiteTurn, whitePlayerType, blackPlayerType, selectedHistoryNodeIndex,
                engineIsThinking, cpuPlaysWhiteChecked, cpuPlaysBlackChecked, whiteTimeInDeciSeconds,
                blackTimeInDeciSeconds, whiteTimeActive, clockActive, allocatedTimeInDeciSeconds,
                clockJobRunning, engineRequests)
    }

    /** The screen's initial state, read from the manager. */
    constructor(m: GameManager.ChessGameManager)
      ensures manager == m
      ensures Page() == PageState(m.gameInProgress, WhiteToPlay(m.position), m.whitePlayerType, m.blackPlayerType,
                                  m.selectedNodeIndex, false, false, false, 0, 0, true, false, 600, false, [])
    {
      manager := m;
      gameInProgress := m.gameInProgress;
      isWhiteTurn := WhiteToPlay(m.position);
      whitePlayerType := m.whitePlayerType;
      blackPlayerType := m.blackPlayerType;
      selectedHistoryNodeIndex := m.selectedNodeIndex;
      engineIsThinking := false;
      cpuPlaysWhiteChecked := false;
      cpuPlaysBlackChecked := false;
      whiteTimeInDeciSeconds := 0;
      blackTimeInDeciSeconds := 0;
      whiteTimeActive := true;
      clockActive := false;
      allocatedTimeInDeciSeconds := 600;
      clockJobRunning := false;
      engineRequests := [];
    }

    method LaunchMoveComputation()
      modifies this
      ensures Page() == ComputationLaunched(old(Page()), manager.position)
    {
      var moveTime := if clockActive
                      then Some(MoveTime(whiteTimeInDeciSeconds * 100, blackTimeInDeciSeconds * 100))
                      else None;
      engineRequests := engineRequests + [BestMoveRequest(manager.position, moveTime)];
    }

    method MakeCpuPlayIfAppropriated()
      modifies this
      ensures Page() == MakeCpuPlay(old(Page()), manager.position)
    {
      if !gameInProgress {
        return;
      }
      if engineIsThinking {
        return;
      }
      var isCpuTurn := (isWhiteTurn && whitePlayerType == ChessBoard.Computer)
                       || (!isWhiteTurn && blackPlayerType == ChessBoard.Computer);
      if isCpuTurn {
        engineIsThinking := true;
        LaunchMoveComputation();
      }
    }

    method ChainCpuMoveIfAppropriated()
      modifies this
      ensures Page() == ChainCpuMove(old(Page()), manager.position)
    {
      var isPlayerTurn := (isWhiteTurn && whitePlayerType == ChessBoard.Human)
                          || (!isWhiteTurn && blackPlayerType == ChessBoard.Human);
      if isPlayerTurn {
        engineRequests := engineRequests + [EvaluationRequest(manager.position)];
      } else {
        MakeCpuPlayIfAppropriated();
      }
    }

    /** Copies the manager fields the screen shows after a stop. */
    method SyncWithManager()
      modifies this
      ensures Page() == SyncedWith(old(Page()), manager.State())
    {
      gameInProgress := manager.gameInProgress;
      selectedHistoryNodeIndex := manager.selectedNodeIndex;
      whitePlayerType := manager.whitePlayerType;
      blackPlayerType := manager.blackPlayerType;
    }

    method OnMovePlayed()
      modifies this
      ensures Page() == MovePlayed(old(Page()), manager.State())
    {
      RefreshAfterMove();
      ChainCpuMoveIfAppropriated();
    }

    /** The part shared by both move callbacks: the other clock runs and the copies are refreshed. */
    method RefreshAfterMove()
      modifies this
      ensures Page() == Refreshed(old(Page()), manager.State())
    {
      whiteTimeActive := !whiteTimeActive;
      isWhiteTurn := WhiteToPlay(manager.position);
      SyncWithManager();
    }

    method TryPlayingMove(d: ChessBoard.DragAndDropData) returns (ending: Ending)
      modifies this, manager
      ensures Step(Page(), manager.State()) == DropAttempted(manager.oracle, old(Page()), old(manager.State()), d)
      ensures ending == if old(gameInProgress)
                        then PlayMove(manager.oracle, old(manager.State()), d.startFile, d.startRank, d.endFile, d.endRank).ending
                        else NoEnding
    {
      ending := NoEnding;
      if !gameInProgress {
        return;
      }
      ending := manager.PlayMove(d.startFile, d.startRank, d.endFile, d.endRank);
      OnMovePlayed();
    }

    method OnCancelPromotion()
      modifies this, manager
      ensures Step(Page(), manager.State()) == CancelPromotionRequest(old(Page()), old(manager.State()))
    {
      if !gameInProgress {
        return;
      }
      manager.CancelPromotion();
    }

    method OnValidatePromotion(pieceType: ChessBoard.PromotionType) returns (ending: Ending)
      requires PendingConsistent(manager.State())
      modifies this, manager
      ensures Step(Page(), manager.State()) == ValidatePromotion(manager.oracle, old(Page()), old(manager.State()), pieceType)
    {
      ending := NoEnding;
      if !gameInProgress {
        return;
      }
      ending := manager.CommitPromotion(pieceType);
      OnMovePlayed();
    }

    /** The engine's best-move callback; None when the manager threw. */
    method OnBestMove(uciMove: string) returns (ending: Option<Ending>)
      modifies this, manager
      ensures Step(Page(), manager.State()) == BestMove(manager.oracle, old(Page()), old(manager.State()), uciMove)
    {
      ending := Some(NoEnding);
      if !engineIsThinking {
        return;
      }
      ending := manager.ProcessEngineMove(uciMove);
      if ending.None? {
        return;
      }
      AfterEngineMove();
    }

    /** The rest of the best-move callback once the manager has played. */
    method AfterEngineMove()
      modifies this
      ensures Page() == ChainCpuMove(Refreshed(old(Page()), manager.State()).(engineIsThinking := false), manager.position)
    {
      RefreshAfterMove();
      engineIsThinking := false;
      ChainCpuMoveIfAppropriated();
    }

    method HandleWhiteSideTypeChange(newState: bool)
      modifies this, manager
      ensures Step(Page(), manager.State()) == SideTypeChange(old(Page()), old(manager.State()), true, newState)
    {
      if gameInProgress {
        ghost var s0 := manager.State();
        SwitchSideType(true, newState);
        ghost var switched := Page();
        assert whitePlayerType == PlayerTypeFor(newState);
        manager.SetWhitePlayerType(whitePlayerType);
        assert manager.State() == PlayerTypeSet(s0, true, newState);
        assert Page() == switched;
        MakeCpuPlayIfAppropriated();
      } else {
        cpuPlaysWhiteChecked := newState;
      }
    }

    method HandleBlackSideTypeChange(newState: bool)
      modifies this, manager
      ensures Step(Page(), manager.State()) == SideTypeChange(old(Page()), old(manager.State()), false, newState)
    {
      if gameInProgress {
        ghost var s0 := manager.State();
        SwitchSideType(false, newState);
        ghost var switched := Page();
        assert blackPlayerType == PlayerTypeFor(newState);
        manager.SetBlackPlayerType(blackPlayerType);
        assert manager.State() == PlayerTypeSet(s0, false, newState);
        assert Page() == switched;
        MakeCpuPlayIfAppropriated();
      } else {
        cpuPlaysBlackChecked := newState;
      }
    }

    /** The screen's part of both side handlers, before the manager is told and the engine asked. */
    method SwitchSideType(white: bool, newState: bool)
      modifies this
      ensures Page() == SideSwitched(old(Page()), white, newState)
      ensures (if white then whitePlayerType else blackPlayerType) == PlayerTypeFor(newState)
    {
      var sideToMove := if white then isWhiteTurn else !isWhiteTurn;
      RecordSideChoice(white, newState);
      var weMustCancelCpuThinking := !newState && engineIsThinking && sideToMove;
      if weMustCancelCpuThinking {
        engineIsThinking := false;
        engineRequests := engineRequests + [StopRequest];
      }
    }

    /** Ticks the side's checkbox and sets the side's player type accordingly. */
    method RecordSideChoice(white: bool, newState: bool)
      modifies this
      ensures Page() == WithPlayerType(Checked(old(Page()), white, newState), white, PlayerTypeFor(newState))
      ensures (if white then whitePlayerType else blackPlayerType) == PlayerTypeFor(newState)
    {
      var t := if newState then ChessBoard.Computer else ChessBoard.Human;
      if white {
        cpuPlaysWhiteChecked := newState;
        whitePlayerType := t;
      } else {
        cpuPlaysBlackChecked := newState;
        blackPlayerType := t;
      }
    }

    method HandleClockActiveChange(newState: bool)
      modifies this
      ensures Page() == ClockActiveChange(old(Page()), newState)
    {
      clockActive := newState;
      if newState {
        whiteTimeInDeciSeconds := allocatedTimeInDeciSeconds;
        blackTimeInDeciSeconds := allocatedTimeInDeciSeconds;
        clockJobRunning := true;
      } else {
        clockJobRunning := false;
      }
    }

    method StopGameByTimeout(whiteTimeout: bool, winnerLacksMaterial: bool) returns (message: TimeoutMessage)
      modifies this, manager
      ensures (Step(Page(), manager.State()), message)
              == StopByTimeout(old(Page()), old(manager.State()), whiteTimeout, winnerLacksMaterial)
    {
      engineIsThinking := false;
      clockJobRunning := false;
      clockActive := false;
      manager.StopGame();
      SyncWithManager();
      if winnerLacksMaterial {
        message := DrawOnTimeByInsufficientMaterial;
      } else {
        message := if whiteTimeout then BlackWonOnTime else WhiteWonOnTime;
      }
    }

    /** The body of the clock job's loop, run every 100 ms while the job is set. */
    method Tick(winnerLacksMaterial: bool) returns (message: Option<TimeoutMessage>)
      requires clockJobRunning
      modifies this, manager
      ensures (Step(Page(), manager.State()), message) == Ticked(old(Page()), old(manager.State()), winnerLacksMaterial)
    {
      message := None;
      if whiteTimeActive {
        whiteTimeInDeciSeconds := whiteTimeInDeciSeconds - 1;
        if whiteTimeInDeciSeconds <= 0 {
          var m := StopGameByTimeout(true, winnerLacksMaterial);
          message := Some(m);
        }
      } else {
        blackTimeInDeciSeconds := blackTimeInDeciSeconds - 1;
        if blackTimeInDeciSeconds <= 0 {
          var m := StopGameByTimeout(false, winnerLacksMaterial);
          message := Some(m);
        }
      }
    }

    method StopGame()
      modifies this, manager
      ensures Step(Page(), manager.State()) == GameStopped(old(Page()), old(manager.State()))
    {
      HandleClockActiveChange(false);
      engineIsThinking := false;
      manager.StopGame();
      SyncWithManager();
    }

    method UpdateAllocatedHours(newHoursCount: int)
      modifies this
      ensures Page() == old(Page()).(allocatedTimeInDeciSeconds := AllocatedWithHours(old(allocatedTimeInDeciSeconds), newHoursCount))
    {
      var currentAllocatedMinutes := MinutesFor(allocatedTimeInDeciSeconds);
      var currentAllocatedSeconds := SecondsFor(allocatedTimeInDeciSeconds);
      allocatedTimeInDeciSeconds := newHoursCount * 36000 + currentAllocatedMinutes * 600 + currentAllocatedSeconds * 10;
    }

    method UpdateAllocatedMinutes(newMinutesCount: int)
      modifies this
      ensures Page() == old(Page()).(allocatedTimeInDeciSeconds := AllocatedWithMinutes(old(allocatedTimeInDeciSeconds), newMinutesCount))
    {
      var currentAllocatedHours := HoursFor(allocatedTimeInDeciSeconds);
      var currentAllocatedSeconds := SecondsFor(allocatedTimeInDeciSeconds);
      allocatedTimeInDeciSeconds := currentAllocatedHours * 36000 + newMinutesCount * 600 + currentAllocatedSeconds * 10;
    }

    method UpdateAllocatedSeconds(newSecondsCount: int)
      modifies this
      ensures Page() == old(Page()).(allocatedTimeInDeciSeconds := AllocatedWithSeconds(old(allocatedTimeInDeciSeconds), newSecondsCount))
    {
      var currentAllocatedHours := HoursFor(allocatedTimeInDeciSeconds);
      var currentAllocatedMinutes := MinutesFor(allocatedTimeInDeciSeconds);
      allocatedTimeInDeciSeconds := currentAllocatedHours * 36000 + currentAllocatedMinutes * 600 + newSecondsCount * 10;
    }
  }
}
