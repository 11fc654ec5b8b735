/**
  The legality check run on a FEN record before it is accepted as a start
  position: the text must have the six space-separated fields of a FEN
  record (section 16.1 of the PGN standard), and the king of the side that
  is not to move must not stand in check. The two exceptions the source
  throws become the two failure cases of `FenCheck`.
 */
module ChessGameLegalState {
  import opened Text

  datatype FenCheck =
    | Legal
      /** `WrongFieldsCountException(count)`: the number of parts the text split into. */
    | WrongFieldsCount(count: nat)
      /** `KingNotInTurnIsInCheck`. */
    | KingNotInTurnIsInCheck

  /** The number of fields of a FEN record. */
  const FenFieldsCount: nat := 6

  /**
    `String.testIfIsLegalChessFen`. The oracle predicate `oppositeKingAttacked`
    is `isOppositeKingAttacked` evaluated on a game loaded from the text; it is
    consulted only once the field count is right.
   */
  function TestIfIsLegalChessFen(fen: string, oppositeKingAttacked: string -> bool): (r: FenCheck)
    ensures r.WrongFieldsCount? <==> Occurrences(fen, ' ') != FenFieldsCount - 1
    ensures r.WrongFieldsCount? ==> r.count == Occurrences(fen, ' ') + 1
    ensures r == KingNotInTurnIsInCheck <==> Occurrences(fen, ' ') == FenFieldsCount - 1 && oppositeKingAttacked(fen)
    ensures r == Legal <==> Occurrences(fen, ' ') == FenFieldsCount - 1 && !oppositeKingAttacked(fen)
  {
    var parts := Split(fen, ' ');
    SplitCount(fen, ' ');
    if |parts| != FenFieldsCount then WrongFieldsCount(|parts|)
    else if oppositeKingAttacked(fen) then KingNotInTurnIsInCheck
    else Legal
  }

  /** A text with the wrong number of fields is refused whatever the oracle says. */
  lemma FieldCountCheckedFirst(fen: string, attacked1: string -> bool, attacked2: string -> bool)
    requires TestIfIsLegalChessFen(fen, attacked1).WrongFieldsCount?
    ensures TestIfIsLegalChessFen(fen, attacked2) == TestIfIsLegalChessFen(fen, attacked1)
  {
  }

  /**
    Six fields without spaces, written with single spaces between them, pass
    the field-count check; the verdict is then the oracle's alone.
   */
  lemma SixFieldsPassTheCount(fields: seq<string>, oppositeKingAttacked: string -> bool)
    requires |fields| == FenFieldsCount
    requires forall i :: 0 <= i < |fields| ==> ' ' !in fields[i]
    ensures var r := TestIfIsLegalChessFen(Join(fields, ' '), oppositeKingAttacked);
            r == (if oppositeKingAttacked(Join(fields, ' ')) then KingNotInTurnIsInCheck else Legal)
  {
    SplitOfJoin(fields, ' ');
    SplitCount(Join(fields, ' '), ' ');
  }
}
