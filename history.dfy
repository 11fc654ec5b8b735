/**
  The move history shown beside the board: game termination markers (the
  game termination markers of section 8.2.6 of the PGN standard), the items
  of the history list, the label drawn for a move number and the position a
  click on a move asks for.
 */
module ChessHistory {
  import opened Wrappers
  import opened Text

  datatype GameTermination = InProgress | WhiteWin | BlackWin | Draw

  /** The PGN game termination marker of a termination. */
  function ToText(t: GameTermination): (s: string)
    ensures s in {"*", "1-0", "0-1", "1/2-1/2"}
  {
    match t
    case InProgress => "*"
    case WhiteWin => "1-0"
    case BlackWin => "0-1"
    case Draw => "1/2-1/2"
  }

  /** Reads a PGN game termination marker back; any other text is not a marker. */
  function TerminationFromText(s: string): Option<GameTermination>
  {
    if s == "*" then Some(InProgress)
    else if s == "1-0" then Some(WhiteWin)
    else if s == "0-1" then Some(BlackWin)
    else if s == "1/2-1/2" then Some(Draw)
    else None
  }

  /** Every marker reads back as the termination it was written for. */
  lemma TerminationTextRoundTrip(t: GameTermination)
    ensures TerminationFromText(ToText(t)) == Some(t)
  {
  }

  /** Distinct terminations are written as distinct markers. */
  lemma ToTextInjective(a: GameTermination, b: GameTermination)
    requires ToText(a) == ToText(b)
    ensures a == b
  {
    TerminationTextRoundTrip(a);
    TerminationTextRoundTrip(b);
  }

  /** Start and end squares of a move, as file and rank numbers 0..7. */
  datatype MoveCoordinates = MoveCoordinates(startFile: int, startRank: int, endFile: int, endRank: int)

  /** The arrow drawn over the board for the last move. */
  datatype LastMoveArrow = LastMoveArrow(startFile: int, startRank: int, endFile: int, endRank: int)

  /**
    An entry of the history list. A `MoveItem` keeps the position reached by
    its move, so that navigation loads it directly.
   */
  datatype HistoryItem =
    | MoveNumberItem(number: int, isWhiteTurn: bool)
    | GameTerminationItem(termination: GameTermination)
    | MoveItem(san: string, positionFen: string, isWhiteMove: bool, movesCoordinates: MoveCoordinates)

  /** The label of a move number: "n." before White's move, "n..." before Black's. */
  function MoveNumberText(number: int, isWhiteTurn: bool): (s: string)
    ensures |s| >= 2 && s[|s| - 1] == '.'
  {
    IntToString(number) + (if isWhiteTurn then "." else "...")
  }

  /**
    For a non-negative number the label is its decimal digits followed by
    the dots: reading the digits back gives the number, and there are three
    dots exactly when it is Black's turn.
   */
  lemma MoveNumberTextReadsBack(n: nat, isWhiteTurn: bool)
    ensures var s := MoveNumberText(n, isWhiteTurn);
            var k := |NatToString(n)|;
            && k < |s|
            && (forall i :: 0 <= i < k ==> IsDigit(s[i]))
            && DecimalValue(s[..k]) == n
            && s[k..] == (if isWhiteTurn then "." else "...")
  {
    var s := MoveNumberText(n, isWhiteTurn);
    var k := |NatToString(n)|;
    assert s[..k] == NatToString(n);
    DecimalOfNatToString(n);
  }

  /** Distinct move numbers, or the same number for the two sides, get distinct labels. */
  lemma MoveNumberTextInjective(m: nat, mWhite: bool, n: nat, nWhite: bool)
    requires MoveNumberText(m, mWhite) == MoveNumberText(n, nWhite)
    ensures m == n && mWhite == nWhite
  {
    var s := MoveNumberText(m, mWhite);
    var a, b := NatToString(m), NatToString(n);
    MoveNumberTextReadsBack(m, mWhite);
    MoveNumberTextReadsBack(n, nWhite);
    // the first '.' of the label ends the digits
    assert s[|a|] == '.' && s[|b|] == '.';
    assert |a| == |b|;
    assert a == s[..|a|] && b == s[..|b|];
    NatToStringInjective(m, n);
    assert s[|a|..] == (if mWhite then "." else "...");
    assert s[|b|..] == (if nWhite then "." else "...");
  }

  /** The position a click on a history item requests: only move items are clickable. */
  function PositionRequestFor(item: HistoryItem): (r: Option<string>)
    ensures r.Some? <==> item.MoveItem?
    ensures r.Some? ==> r.value == item.positionFen
  {
    match item
    case MoveItem(_, fen, _, _) => Some(fen)
    case _ => None
  }
}
