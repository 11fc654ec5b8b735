/**
  The parts of a FEN record (section 16.1 of the PGN standard) that the
  application reads itself: the side-to-move field and the expansion of
  the piece-placement field into a grid of cells.
 */
module Fen {
  import opened Wrappers
  import opened Text
  import ChessBoard

  /** The standard starting position. */
  const DefaultPosition: string := "rnbqkbnr/pppppppp/8/8/8/8/PPPPPPPP/RNBQKBNR w KQkq - 0 1"

  /** A board with no piece at all. */
  const EmptyPosition: string := "8/8/8/8/8/8/8/8 w - - 0 1"

  /**
    `fen.split(" ")[1] == "w"`: whether White is to move; None where the
    source would index past the end of the split (no space in the text).
   */
  function SideToMoveIsWhite(fen: string): (r: Option<bool>)
    ensures r.Some? <==> |Split(fen, ' ')| >= 2
    ensures r.Some? ==> (r.value <==> Split(fen, ' ')[1] == "w")
  {
    var fields := Split(fen, ' ');
    if |fields| < 2 then None else Some(fields[1] == "w")
  }

  /**
    For a record written as placement, side and the remaining fields, the
    side read back is the side field: White exactly when it is "w".
   */
  lemma SideToMoveOfRecord(placement: string, side: string, rest: string)
    requires ' ' !in placement && ' ' !in side
    ensures SideToMoveIsWhite(placement + " " + side + " " + rest) == Some(side == "w")
  {
    var fen := placement + " " + side + " " + rest;
    assert fen == placement + [' '] + (side + [' '] + rest);
    SplitAround(placement, ' ', side + [' '] + rest);
    SplitAround(side, ' ', rest);
    SplitWithoutSeparator(placement, ' ');
    SplitWithoutSeparator(side, ' ');
  }

  /** The cells of one row of the placement field: a digit d stands for d empty cells. */
  function ExpandRow(row: string): (cells: string)
    ensures DigitFree(cells)
    ensures DigitFree(row) ==> cells == row
    decreases |row|
  {
    if |row| == 0 then ""
    else
      var head := if IsDigit(row[0]) then Repeat(ChessBoard.EmptyCell, DigitValue(row[0])) else [row[0]];
      var tail := ExpandRow(row[1..]);
      assert DigitFree(row) ==> DigitFree(row[1..]) by {
        forall i | 0 <= i < |row| - 1 && DigitFree(row)
          ensures !IsDigit(row[1..][i])
        {
          assert row[1..][i] == row[i + 1];
        }
      }
      DigitFreeAppend(head, tail);
      assert DigitFree(row) ==> head + tail == [row[0]] + row[1..] == row;
      head + tail
  }

  lemma DigitFreeAppend(a: string, b: string)
    requires DigitFree(a) && DigitFree(b)
    ensures DigitFree(a + b)
  {
    forall i | 0 <= i < |a + b|
      ensures !IsDigit((a + b)[i])
    {
      if i < |a| { assert (a + b)[i] == a[i]; } else { assert (a + b)[i] == b[i - |a|]; }
    }
  }

  /** Expansion works character by character: it distributes over concatenation. */
  lemma {:induction false} ExpandRowAppend(a: string, b: string)
    ensures ExpandRow(a + b) == ExpandRow(a) + ExpandRow(b)
    decreases |a|
  {
    if |a| == 0 {
      assert a + b == b;
    } else {
      assert (a + b)[0] == a[0];
      assert (a + b)[1..] == a[1..] + b;
      ExpandRowAppend(a[1..], b);
    }
  }

  /** A single digit d expands to d empty cells; any other character is kept. */
  lemma ExpandRowOfOneCharacter(c: char)
    ensures IsDigit(c) ==> ExpandRow([c]) == Repeat(ChessBoard.EmptyCell, DigitValue(c))
    ensures !IsDigit(c) ==> ExpandRow([c]) == [c]
  {
    assert [c][1..] == "";
  }

  /** The rows of the placement field: the text before the first space, split on '/'. */
  function PlacementRows(fen: string): (rows: seq<string>)
    ensures |rows| == Occurrences(Split(fen, ' ')[0], '/') + 1
    ensures forall i :: 0 <= i < |rows| ==> '/' !in rows[i] && ' ' !in rows[i]
  {
    var placement := Split(fen, ' ')[0];
    SplitCount(placement, '/');
    var rows := Split(placement, '/');
    SplitPiecesAvoidSeparator(fen, ' ');
    SplitPiecesAvoidSeparator(placement, '/');
    assert forall i :: 0 <= i < |rows| ==> ' ' !in rows[i] by {
      forall i | 0 <= i < |rows|
        ensures ' ' !in rows[i]
      {
        SplitPiecesAreSubstrings(placement, '/', ' ');
      }
    }
    rows
  }

  /** A character absent from the text is absent from every piece of its split. */
  lemma {:induction false} SplitPiecesAreSubstrings(s: string, sep: char, c: char)
    requires c !in s
    ensures forall i :: 0 <= i < |Split(s, sep)| ==> c !in Split(s, sep)[i]
    decreases |s|
  {
    if |s| > 0 {
      SplitPiecesAreSubstrings(s[1..], sep, c);
    }
  }

  /**
    The grid of cells of a FEN record (`getPieces`, `positionFenToPiecesArray`):
    one row per row of the placement field, in which no digit is left.
   */
  function PiecesOfFen(fen: string): (grid: seq<string>)
    ensures |grid| == |PlacementRows(fen)|
    ensures forall r :: 0 <= r < |grid| ==> grid[r] == ExpandRow(PlacementRows(fen)[r])
    ensures forall r :: 0 <= r < |grid| ==> DigitFree(grid[r])
  {
    var rows := PlacementRows(fen);
    seq(|rows|, r requires 0 <= r < |rows| => ExpandRow(rows[r]))
  }
}
