/**
  The PGN game browser: the games read from a PGN file, the index of the one
  on show, the clamped first/previous/next/last navigation over that index,
  the 1-based number picker, and the defaults used when a game lacks its FEN
  or player tags. Reading the file (the PGN importer) is not modelled: the
  games arrive as a parameter.
 */
module PgnGames {
  import opened Wrappers
  import Fen

  /** The tags of one imported game that the page reads: FEN (possibly absent), White, Black. */
  datatype PgnGame = PgnGame(fenTag: Option<string>, whiteTag: string, blackTag: string)

  // ------------------------------------------------------------ tag defaults

  /** `fenValue?.ifEmpty { defaultPosition } ?: defaultPosition`. */
  function FenOrDefault(fenTag: Option<string>): (fen: string)
    ensures fenTag.Some? && fenTag.value != "" ==> fen == fenTag.value
    ensures fenTag.None? || fenTag.value == "" ==> fen == Fen.DefaultPosition
  {
    match fenTag
    case None => Fen.DefaultPosition
    case Some(value) => if value == "" then Fen.DefaultPosition else value
  }

  /** `tag.ifEmpty { unknownPlayer }`. */
  function PlayerOrUnknown(tag: string, unknownPlayer: string): (name: string)
    ensures tag != "" ==> name == tag
    ensures tag == "" ==> name == unknownPlayer
  {
    if tag == "" then unknownPlayer else tag
  }

  /** The position shown is never empty, and taking the default twice changes nothing. */
  lemma FenOrDefaultIsSettled(fenTag: Option<string>)
    ensures FenOrDefault(fenTag) != ""
    ensures FenOrDefault(Some(FenOrDefault(fenTag))) == FenOrDefault(fenTag)
  {
  }

  // ------------------------------------------------------------ index navigation

  function PreviousGameIndex(index: int): (r: int)
    ensures index > 0 ==> r == index - 1
    ensures index <= 0 ==> r == index
  {
    if index > 0 then index - 1 else index
  }

  function NextGameIndex(index: int, gamesCount: nat): (r: int)
    ensures index < gamesCount - 1 ==> r == index + 1
    ensures index >= gamesCount - 1 ==> r == index
  {
    if index < gamesCount - 1 then index + 1 else index
  }

  function LastGameIndex(gamesCount: nat): (r: int)
    ensures r + 1 == gamesCount
  {
    gamesCount - 1
  }

  /** The number the picker shows for an index, and the index a picked number selects. */
  function PickerValue(index: int): (v: int)
    ensures v - 1 == index
  {
    index + 1
  }

  function PickedIndex(value: int): (index: int)
    ensures PickerValue(index) == value
  {
    value - 1
  }

  /** With at least one game, all four moves keep the index among the games. */
  lemma NavigationKeepsIndexInRange(index: int, gamesCount: nat)
    requires gamesCount >= 1 && 0 <= index < gamesCount
    ensures 0 <= PreviousGameIndex(index) < gamesCount
    ensures 0 <= NextGameIndex(index, gamesCount) < gamesCount
    ensures 0 <= LastGameIndex(gamesCount) < gamesCount
  {
  }

  /** Stepping back and then forward returns to the same game, and forward then back likewise. */
  lemma PreviousAndNextAreInverse(index: int, gamesCount: nat)
    requires 0 <= index < gamesCount
    ensures index > 0 ==> NextGameIndex(PreviousGameIndex(index), gamesCount) == index
    ensures index < gamesCount - 1 ==> PreviousGameIndex(NextGameIndex(index, gamesCount)) == index
  {
  }

  /** Picking the number shown selects the game shown; picks within 1..size select a game. */
  lemma PickerRoundTrip(index: int, value: int, gamesCount: nat)
    ensures PickedIndex(PickerValue(index)) == index
    ensures 1 <= value <= gamesCount ==> 0 <= PickedIndex(value) < gamesCount
  {
  }

  /** The page's ways of choosing a game: the four buttons and the number picker. */
  datatype Navigation = FirstGame | PreviousGame | NextGame | LastGame | PickedGame(value: int)

  /** The index a navigation selects from `index` among `gamesCount` games. */
  function NavigatedIndex(nav: Navigation, index: int, gamesCount: nat): int
  {
    match nav
    case FirstGame => 0
    case PreviousGame => PreviousGameIndex(index)
    case NextGame => NextGameIndex(index, gamesCount)
    case LastGame => LastGameIndex(gamesCount)
    case PickedGame(value) => PickedIndex(value)
  }

  /** The picker only offers the numbers 1..size. */
  predicate PickerOffers(nav: Navigation, gamesCount: nat)
  {
    nav.PickedGame? ==> 1 <= nav.value <= gamesCount
  }

  /** Every navigation the page offers keeps the index among the games. */
  lemma NavigatedIndexInRange(nav: Navigation, index: int, gamesCount: nat)
    requires gamesCount >= 1 && 0 <= index < gamesCount && PickerOffers(nav, gamesCount)
    ensures 0 <= NavigatedIndex(nav, index, gamesCount) < gamesCount
  {
    NavigationKeepsIndexInRange(index, gamesCount);
    if nav.PickedGame? {
      PickerRoundTrip(index, nav.value, gamesCount);
    }
  }

  // ------------------------------------------------------------ the page

  class PgnGamesPage {
    /** The games read from the file. */
    const games: seq<PgnGame>
    /** The label shown for a game without a player name. */
    const unknownPlayer: string

    var allGames: seq<PgnGame>
    var currentGameIndex: int
    var currentFen: string
    var whitePlayer: string
    var blackPlayer: string

    /** The page opens on the first game when the file held any, and keeps no game otherwise. */
    constructor(gamesRead: seq<PgnGame>, unknownLabel: string)
      ensures games == gamesRead && unknownPlayer == unknownLabel
      ensures currentGameIndex == 0 && allGames == gamesRead
      ensures |gamesRead| > 0 ==> ShowsGame(gamesRead[0])
      ensures |gamesRead| == 0 ==> currentFen == Fen.DefaultPosition && whitePlayer == "" && blackPlayer == ""
      ensures Valid()
    {
      games := gamesRead;
      unknownPlayer := unknownLabel;
      currentGameIndex := 0;
      currentFen := Fen.DefaultPosition;
      whitePlayer := "";
      blackPlayer := "";
      allGames := [];
      new;
      if |gamesRead| > 0 {
        allGames := gamesRead;
        LoadDataFromCurrentGame();
      } else {
        allGames := [];
      }
    }

    /**
      What holds after every run of the page's body: the games kept are the
      games read, and with games the page shows the one at the index.
     */
    predicate Valid()
      reads this
    {
      && allGames == games
      && (|games| > 0 ==> 0 <= currentGameIndex < |games| && ShowsGame(games[currentGameIndex]))
    }

    /** The page shows the position and the players of `game`. */
    predicate ShowsGame(game: PgnGame)
      reads this
    {
      && currentFen == FenOrDefault(game.fenTag)
      && whitePlayer == PlayerOrUnknown(game.whiteTag, unknownPlayer)
      && blackPlayer == PlayerOrUnknown(game.blackTag, unknownPlayer)
    }

    /** `loadDataFromCurrentGame`; the list lookup needs an index among the games. */
    method LoadDataFromCurrentGame()
      requires 0 <= currentGameIndex < |allGames|
      modifies this
      ensures allGames == old(allGames) && currentGameIndex == old(currentGameIndex)
      ensures ShowsGame(allGames[currentGameIndex])
    {
      var currentGame := allGames[currentGameIndex];
      currentFen := FenOrDefault(currentGame.fenTag);
      whitePlayer := PlayerOrUnknown(currentGame.whiteTag, unknownPlayer);
      blackPlayer := PlayerOrUnknown(currentGame.blackTag, unknownPlayer);
    }

    method GotoFirstGame()
      modifies this
      ensures currentGameIndex == 0
      ensures allGames == old(allGames) && currentFen == old(currentFen)
      ensures whitePlayer == old(whitePlayer) && blackPlayer == old(blackPlayer)
    {
      currentGameIndex := 0;
    }

    method GotoPreviousGame()
      modifies this
      ensures currentGameIndex == PreviousGameIndex(old(currentGameIndex))
      ensures allGames == old(allGames) && currentFen == old(currentFen)
      ensures whitePlayer == old(whitePlayer) && blackPlayer == old(blackPlayer)
    {
      if currentGameIndex > 0 {
        currentGameIndex := currentGameIndex - 1;
      }
    }

    method GotoNextGame()
      modifies this
      ensures currentGameIndex == NextGameIndex(old(currentGameIndex), |games|)
      ensures allGames == old(allGames) && currentFen == old(currentFen)
      ensures whitePlayer == old(whitePlayer) && blackPlayer == old(blackPlayer)
    {
      if currentGameIndex < |games| - 1 {
        currentGameIndex := currentGameIndex + 1;
      }
    }

    method GotoLastGame()
      modifies this
      ensures currentGameIndex == LastGameIndex(|games|)
      ensures allGames == old(allGames) && currentFen == old(currentFen)
      ensures whitePlayer == old(whitePlayer) && blackPlayer == old(blackPlayer)
    {
      currentGameIndex := |games| - 1;
    }

    /** The number picker's change callback. */
    method OnPickerChanged(value: int)
      modifies this
      ensures currentGameIndex == PickedIndex(value)
      ensures allGames == old(allGames) && currentFen == old(currentFen)
      ensures whitePlayer == old(whitePlayer) && blackPlayer == old(blackPlayer)
    {
      currentGameIndex := value - 1;
    }

    /**
      A run of the page's body after its state changed: the games read are
      kept, and with games the current one is shown again.
     */
    method Recompose()
      requires |games| > 0 ==> 0 <= currentGameIndex < |games|
      modifies this
      ensures allGames == games && currentGameIndex == old(currentGameIndex)
      ensures |games| > 0 ==> ShowsGame(games[currentGameIndex])
      ensures |games| == 0 ==> currentFen == old(currentFen) && whitePlayer == old(whitePlayer) && blackPlayer == old(blackPlayer)
      ensures Valid()
    {
      if |games| > 0 {
        allGames := games;
        LoadDataFromCurrentGame();
      } else {
        allGames := [];
      }
    }

    /**
      A navigation as the user sees it: the index changes, then the page's
      body runs again and shows the game now selected.
     */
    method Navigate(nav: Navigation)
      requires Valid() && PickerOffers(nav, |games|)
      modifies this
      ensures currentGameIndex == NavigatedIndex(nav, old(currentGameIndex), |games|)
      ensures |games| > 0 ==> ShowsGame(games[currentGameIndex])
      ensures Valid()
    {
      if |games| > 0 {
        NavigatedIndexInRange(nav, currentGameIndex, |games|);
      }
      match nav {
        case FirstGame => GotoFirstGame();
        case PreviousGame => GotoPreviousGame();
        case NextGame => GotoNextGame();
        case LastGame => GotoLastGame();
        case PickedGame(value) => OnPickerChanged(value);
      }
      Recompose();
    }
  }
}
