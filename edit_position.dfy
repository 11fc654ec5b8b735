/**
  The position editor: the grid of cells the editor shows is the expansion
  of a FEN record's piece-placement field (`Fen.PiecesOfFen`); a click on a
  cell writes the piece being edited into the grid; the grid is turned back
  into a placement field by compressing each row.

  The compression as written counts runs of DIGIT elements, which never occur
  in an expanded grid, so it copies empty cells out as spaces. `HoleTest`
  chooses what a row's "holes" are: `DigitElements` is the code as written,
  `EmptyCells` the evidently intended compression that makes the two
  conversions inverse to each other.
 */
module EditPosition {
  import opened Wrappers
  import opened Text
  import Fen
  import ChessBoard

  // ------------------------------------------------------------ compression

  datatype HoleTest = DigitElements | EmptyCells

  predicate IsHole(test: HoleTest, c: char)
  {
    match test
    case DigitElements => IsDigit(c)
    case EmptyCells => c == ChessBoard.EmptyCell
  }

  /** The text written for a run of `groupedHoles` holes: nothing for an empty run. */
  function RunText(groupedHoles: nat): (r: string)
    ensures groupedHoles == 0 <==> r == ""
    ensures forall i :: 0 <= i < |r| ==> IsDigit(r[i])
  {
    if groupedHoles > 0 then NatToString(groupedHoles) else ""
  }

  /**
    The rest of a row's compression once `groupedHoles` holes have been seen
    and not yet written: holes are counted, every other element is copied
    after the pending run's length.
   */
  function CompressFrom(test: HoleTest, line: string, groupedHoles: nat): string
    decreases |line|
  {
    if |line| == 0 then RunText(groupedHoles)
    else if IsHole(test, line[0]) then CompressFrom(test, line[1..], groupedHoles + 1)
    else RunText(groupedHoles) + [line[0]] + CompressFrom(test, line[1..], 0)
  }

  /**
    The compression keeps no empty cell when empty cells are the holes, and
    adds no '/' to a row without one.
   */
  lemma {:induction false} CompressFromAvoids(test: HoleTest, line: string, groupedHoles: nat)
    ensures test == EmptyCells ==> ChessBoard.EmptyCell !in CompressFrom(test, line, groupedHoles)
    ensures '/' !in line ==> '/' !in CompressFrom(test, line, groupedHoles)
    decreases |line|
  {
    if |line| > 0 {
      CompressFromAvoids(test, line[1..], if IsHole(test, line[0]) then groupedHoles + 1 else 0);
    }
  }

  /** One row of the placement field written from one row of cells. */
  function CompressRow(test: HoleTest, line: string): string
  {
    CompressFrom(test, line, 0)
  }

  /** Every row of the grid compressed. */
  function CompressedRows(test: HoleTest, piecesValues: seq<seq<char>>): (rows: seq<string>)
    ensures |rows| == |piecesValues|
    ensures forall r :: 0 <= r < |rows| ==> rows[r] == CompressRow(test, piecesValues[r])
  {
    seq(|piecesValues|, r requires 0 <= r < |piecesValues| => CompressRow(test, piecesValues[r]))
  }

  /** `boardPositionFromPiecesValues`: the compressed rows joined by '/'. */
  function BoardPosition(test: HoleTest, piecesValues: seq<seq<char>>): string
  {
    Join(CompressedRows(test, piecesValues), '/')
  }

  /** One element of the row consumed by the compression. */
  lemma CompressStep(test: HoleTest, line: string, i: nat, groupedHoles: nat)
    requires i < |line|
    ensures CompressFrom(test, line[i..], groupedHoles)
            == if IsHole(test, line[i]) then CompressFrom(test, line[i + 1..], groupedHoles + 1)
               else RunText(groupedHoles) + [line[i]] + CompressFrom(test, line[i + 1..], 0)
  {
    assert line[i..][0] == line[i] && line[i..][1..] == line[i + 1..];
  }

  /** One pass of the row loop, stated on the text written so far. */
  lemma CompressLineStep(test: HoleTest, line: string, i: nat, result: string, groupedHoles: nat)
    requires i < |line|
    ensures IsHole(test, line[i]) ==>
              result + CompressFrom(test, line[i..], groupedHoles)
              == result + CompressFrom(test, line[i + 1..], groupedHoles + 1)
    ensures !IsHole(test, line[i]) ==>
              result + CompressFrom(test, line[i..], groupedHoles)
              == (result + RunText(groupedHoles) + [line[i]]) + CompressFrom(test, line[i + 1..], 0)
  {
    CompressStep(test, line, i, groupedHoles);
  }

  /** The body of the `joinToString` lambda: one pass over the row's elements. */
  method CompressLine(test: HoleTest, line: string) returns (result: string)
    ensures result == CompressRow(test, line)
  {
    result := "";
    var groupedHoles: nat := 0;
    for i := 0 to |line|
      invariant result + CompressFrom(test, line[i..], groupedHoles) == CompressRow(test, line)
    {
      var elem := line[i];
      CompressLineStep(test, line, i, result, groupedHoles);
      if IsHole(test, elem) {
        groupedHoles := groupedHoles + 1;
      } else {
        ghost var written := result + RunText(groupedHoles) + [elem];
        if groupedHoles > 0 {
          result := result + NatToString(groupedHoles);
        }
        groupedHoles := 0;
        result := result + [elem];
        assert result == written;
      }
    }
    assert line[|line|..] == [];
    ghost var final := result + RunText(groupedHoles);
    if groupedHoles > 0 {
      result := result + NatToString(groupedHoles);
    }
    assert result == final;
  }

  /** `boardPositionFromPiecesValues`: each row compressed in turn, then joined. */
  method BoardPositionFromPiecesValues(test: HoleTest, piecesValues: seq<seq<char>>) returns (placement: string)
    ensures placement == BoardPosition(test, piecesValues)
  {
    var rows: seq<string> := [];
    for r := 0 to |piecesValues|
      invariant rows == CompressedRows(test, piecesValues[..r])
    {
      var line := CompressLine(test, piecesValues[r]);
      rows := rows + [line];
    }
    assert piecesValues[..|piecesValues|] == piecesValues;
    placement := Join(rows, '/');
  }

  // ------------------------------------------------------------ the code as written

  /** As written, a row without digit elements is emitted unchanged, empty cells included. */
  lemma {:induction false} DigitFreeRowIsCopied(line: string, groupedHoles: nat)
    requires DigitFree(line)
    ensures CompressFrom(DigitElements, line, groupedHoles) == RunText(groupedHoles) + line
    decreases |line|
  {
    if |line| > 0 {
      assert DigitFree(line[1..]) by {
        forall i | 0 <= i < |line[1..]|
          ensures !IsDigit(line[1..][i])
        {
          assert line[1..][i] == line[i + 1];
        }
      }
      DigitFreeRowIsCopied(line[1..], 0);
      assert [line[0]] + line[1..] == line;
    }
  }

  /**
    As written, compressing an expanded grid changes none of its rows: the
    text produced is the expansion itself, with a space for every empty cell.
   */
  lemma AsWrittenCompressionCopiesExpandedRows(fen: string)
    ensures CompressedRows(DigitElements, Fen.PiecesOfFen(fen)) == Fen.PiecesOfFen(fen)
  {
    var grid := Fen.PiecesOfFen(fen);
    forall r | 0 <= r < |grid|
      ensures CompressRow(DigitElements, grid[r]) == grid[r]
    {
      DigitFreeRowIsCopied(grid[r], 0);
    }
  }

  /**
    The row "8" of the empty board expands to eight empty cells, which the
    code as written gives back as eight spaces instead of "8".
   */
  lemma AsWrittenLosesEmptyRun()
    ensures Fen.ExpandRow("8") == Repeat(ChessBoard.EmptyCell, 8)
    ensures CompressRow(DigitElements, Fen.ExpandRow("8")) == Repeat(ChessBoard.EmptyCell, 8)
    ensures CompressRow(DigitElements, Fen.ExpandRow("8")) != "8"
  {
    Fen.ExpandRowOfOneCharacter('8');
    DigitFreeRowIsCopied(Repeat(ChessBoard.EmptyCell, 8), 0);
  }

  // ------------------------------------------------------------ the corrected compression

  /** A row as FEN writes it: no space, every digit 1..9, never two digits in a row. */
  predicate CanonicalRow(row: string)
  {
    && ChessBoard.EmptyCell !in row
    && forall i :: 0 <= i < |row| && IsDigit(row[i]) ==> row[i] != '0' && (i + 1 < |row| ==> !IsDigit(row[i + 1]))
  }

  lemma CanonicalSuffix(row: string, k: nat)
    requires CanonicalRow(row) && k <= |row|
    ensures CanonicalRow(row[k..])
  {
    forall i | 0 <= i < |row[k..]| && IsDigit(row[k..][i])
      ensures row[k..][i] != '0' && (i + 1 < |row[k..]| ==> !IsDigit(row[k..][i + 1]))
    {
      assert row[k..][i] == row[k + i];
      if i + 1 < |row[k..]| {
        assert row[k..][i + 1] == row[k + i + 1];
      }
    }
  }

  /** A run of empty cells in front of the rest only lengthens the pending run. */
  lemma {:induction false} EmptyRunIsCounted(d: nat, s: string, groupedHoles: nat)
    ensures CompressFrom(EmptyCells, Repeat(ChessBoard.EmptyCell, d) + s, groupedHoles)
            == CompressFrom(EmptyCells, s, groupedHoles + d)
    decreases d
  {
    if d > 0 {
      var t := Repeat(ChessBoard.EmptyCell, d) + s;
      assert Repeat(ChessBoard.EmptyCell, d) == [ChessBoard.EmptyCell] + Repeat(ChessBoard.EmptyCell, d - 1);
      assert t[0] == ChessBoard.EmptyCell && IsHole(EmptyCells, t[0]);
      assert t[1..] == Repeat(ChessBoard.EmptyCell, d - 1) + s;
      assert CompressFrom(EmptyCells, t, groupedHoles) == CompressFrom(EmptyCells, t[1..], groupedHoles + 1);
      EmptyRunIsCounted(d - 1, s, groupedHoles + 1);
    } else {
      assert Repeat(ChessBoard.EmptyCell, d) + s == s;
    }
  }

  /** The text of a single digit's run is that digit. */
  lemma RunTextOfDigit(c: char)
    requires IsDigit(c) && c != '0'
    ensures RunText(DigitValue(c)) == [c]
  {
  }

  /** Compressing the expansion of a canonical row gives the row back. */
  lemma {:induction false} CompressExpandRow(row: string)
    requires CanonicalRow(row)
    ensures CompressRow(EmptyCells, Fen.ExpandRow(row)) == row
    decreases |row|
  {
    if |row| > 0 {
      if IsDigit(row[0]) {
        if |row| > 1 {
          CanonicalSuffix(row, 2);
          CompressExpandRow(row[2..]);
        }
        CompressExpandDigit(row);
      } else {
        CanonicalSuffix(row, 1);
        CompressExpandRow(row[1..]);
        CompressExpandPiece(row);
      }
    }
  }

  /** The step of `CompressExpandRow` for a row that starts with a digit. */
  lemma CompressExpandDigit(row: string)
    requires CanonicalRow(row) && |row| > 0 && IsDigit(row[0])
    requires |row| > 1 ==> CompressRow(EmptyCells, Fen.ExpandRow(row[2..])) == row[2..]
    ensures CompressRow(EmptyCells, Fen.ExpandRow(row)) == row
  {
    var tail := row[1..];
    var d := DigitValue(row[0]);
    assert Fen.ExpandRow(row) == Repeat(ChessBoard.EmptyCell, d) + Fen.ExpandRow(tail);
    EmptyRunIsCounted(d, Fen.ExpandRow(tail), 0);
    RunTextOfDigit(row[0]);
    if |tail| == 0 {
      assert row == [row[0]];
    } else {
      var c := tail[0];
      assert c == row[1] && !IsDigit(c) && c != ChessBoard.EmptyCell;
      assert tail[1..] == row[2..];
      CompressBeforePiece(c, Fen.ExpandRow(tail), Fen.ExpandRow(row[2..]), d);
      assert row == [row[0]] + [c] + row[2..];
    }
  }

  /** The step of `CompressExpandRow` for a row that starts with a piece. */
  lemma CompressExpandPiece(row: string)
    requires CanonicalRow(row) && |row| > 0 && !IsDigit(row[0])
    requires CompressRow(EmptyCells, Fen.ExpandRow(row[1..])) == row[1..]
    ensures CompressRow(EmptyCells, Fen.ExpandRow(row)) == row
  {
    assert row[0] != ChessBoard.EmptyCell;
    CompressBeforePiece(row[0], Fen.ExpandRow(row), Fen.ExpandRow(row[1..]), 0);
    assert row == [row[0]] + row[1..];
  }

  /** A piece in front of the cells ends the pending run and is written as itself. */
  lemma CompressBeforePiece(c: char, cells: string, rest: string, groupedHoles: nat)
    requires c != ChessBoard.EmptyCell && cells == [c] + rest
    ensures CompressFrom(EmptyCells, cells, groupedHoles) == RunText(groupedHoles) + [c] + CompressFrom(EmptyCells, rest, 0)
  {
    assert cells[0] == c && cells[1..] == rest;
  }

  /** A run of at most nine holes is written as one digit, which expands back into the run. */
  lemma ExpandRunText(groupedHoles: nat)
    requires groupedHoles <= 9
    ensures Fen.ExpandRow(RunText(groupedHoles)) == Repeat(ChessBoard.EmptyCell, groupedHoles)
  {
    if groupedHoles > 0 {
      Fen.ExpandRowOfOneCharacter(DigitChar(groupedHoles));
    }
  }

  lemma DigitFreeTail(s: string)
    requires |s| > 0 && DigitFree(s)
    ensures DigitFree(s[1..])
  {
    forall i | 0 <= i < |s[1..]|
      ensures !IsDigit(s[1..][i])
    {
      assert s[1..][i] == s[i + 1];
    }
  }

  /** The step of `ExpandCompressFrom` for a row that starts with an empty cell. */
  lemma ExpandCompressHole(s: string, groupedHoles: nat)
    requires |s| > 0 && s[0] == ChessBoard.EmptyCell
    requires Fen.ExpandRow(CompressFrom(EmptyCells, s[1..], groupedHoles + 1))
             == Repeat(ChessBoard.EmptyCell, groupedHoles + 1) + s[1..]
    ensures Fen.ExpandRow(CompressFrom(EmptyCells, s, groupedHoles)) == Repeat(ChessBoard.EmptyCell, groupedHoles) + s
  {
    assert IsHole(EmptyCells, s[0]);
    assert CompressFrom(EmptyCells, s, groupedHoles) == CompressFrom(EmptyCells, s[1..], groupedHoles + 1);
    var longer := Repeat(ChessBoard.EmptyCell, groupedHoles + 1) + s[1..];
    var target := Repeat(ChessBoard.EmptyCell, groupedHoles) + s;
    assert |longer| == |target|;
    forall i | 0 <= i < |target|
      ensures longer[i] == target[i]
    {
      if i > groupedHoles {
        assert longer[i] == s[1..][i - groupedHoles - 1] == s[i - groupedHoles];
      }
    }
    assert longer == target;
  }

  /** The step of `ExpandCompressFrom` for a row that starts with a piece. */
  lemma ExpandCompressPiece(s: string, groupedHoles: nat)
    requires |s| > 0 && s[0] != ChessBoard.EmptyCell && !IsDigit(s[0]) && groupedHoles <= 9
    requires Fen.ExpandRow(CompressFrom(EmptyCells, s[1..], 0)) == s[1..]
    ensures Fen.ExpandRow(CompressFrom(EmptyCells, s, groupedHoles)) == Repeat(ChessBoard.EmptyCell, groupedHoles) + s
  {
    var run := RunText(groupedHoles);
    var rest := CompressFrom(EmptyCells, s[1..], 0);
    CompressStep(EmptyCells, s, 0, groupedHoles);
    assert s[0..] == s;
    assert CompressFrom(EmptyCells, s, groupedHoles) == run + [s[0]] + rest;
    ExpandRunText(groupedHoles);
    ExpandAroundPiece(run, s[0], rest, Repeat(ChessBoard.EmptyCell, groupedHoles), s[1..]);
    assert [s[0]] + s[1..] == s;
  }

  /** A piece between two texts expands to itself between their expansions. */
  lemma ExpandAroundPiece(before: string, c: char, after: string, beforeCells: string, afterCells: string)
    requires !IsDigit(c)
    requires Fen.ExpandRow(before) == beforeCells && Fen.ExpandRow(after) == afterCells
    ensures Fen.ExpandRow(before + [c] + after) == beforeCells + ([c] + afterCells)
  {
    Fen.ExpandRowOfOneCharacter(c);
    Fen.ExpandRowAppend(before + [c], after);
    Fen.ExpandRowAppend(before, [c]);
    assert (beforeCells + [c]) + afterCells == beforeCells + ([c] + afterCells);
  }

  /**
    Expanding the compression of a digit-free row of at most nine cells gives
    the row back (a run of ten or more would be written with two digits).
   */
  lemma {:induction false} ExpandCompressFrom(s: string, groupedHoles: nat)
    requires DigitFree(s) && groupedHoles + |s| <= 9
    ensures Fen.ExpandRow(CompressFrom(EmptyCells, s, groupedHoles)) == Repeat(ChessBoard.EmptyCell, groupedHoles) + s
    decreases |s|
  {
    if |s| == 0 {
      ExpandRunText(groupedHoles);
      assert Repeat(ChessBoard.EmptyCell, groupedHoles) + s == Repeat(ChessBoard.EmptyCell, groupedHoles);
    } else {
      DigitFreeTail(s);
      if s[0] == ChessBoard.EmptyCell {
        ExpandCompressFrom(s[1..], groupedHoles + 1);
        ExpandCompressHole(s, groupedHoles);
      } else {
        ExpandCompressFrom(s[1..], 0);
        assert Repeat(ChessBoard.EmptyCell, 0) + s[1..] == s[1..];
        ExpandCompressPiece(s, groupedHoles);
      }
    }
  }

  /** A character absent from every piece, other than the separator, is absent from the join. */
  lemma {:induction false} JoinAvoids(parts: seq<string>, sep: char, c: char)
    requires c != sep && forall i :: 0 <= i < |parts| ==> c !in parts[i]
    ensures c !in Join(parts, sep)
    decreases |parts|
  {
    if |parts| > 1 {
      JoinAvoids(parts[1..], sep, c);
    }
  }

  /**
    With empty cells as the holes, a FEN record whose placement rows are
    canonical gives back its placement field after expansion and compression.
   */
  lemma PlacementRoundTrip(fen: string)
    requires forall r :: 0 <= r < |Fen.PlacementRows(fen)| ==> CanonicalRow(Fen.PlacementRows(fen)[r])
    ensures BoardPosition(EmptyCells, Fen.PiecesOfFen(fen)) == Split(fen, ' ')[0]
  {
    var rows := Fen.PlacementRows(fen);
    var compressed := CompressedRows(EmptyCells, Fen.PiecesOfFen(fen));
    forall r | 0 <= r < |rows|
      ensures compressed[r] == rows[r]
    {
      CompressExpandRow(rows[r]);
    }
    assert compressed == rows;
    JoinSplit(Split(fen, ' ')[0], '/');
  }

  /**
    With empty cells as the holes, a grid of digit-free rows of at most nine
    cells, written as a placement field and followed by the other fields,
    expands back into the same grid.
   */
  lemma GridRoundTrip(piecesValues: seq<seq<char>>, rest: string)
    requires |piecesValues| >= 1
    requires forall r :: 0 <= r < |piecesValues| ==>
               DigitFree(piecesValues[r]) && '/' !in piecesValues[r] && |piecesValues[r]| <= 9
    ensures Fen.PiecesOfFen(BoardPosition(EmptyCells, piecesValues) + " " + rest) == piecesValues
  {
    var rows := CompressedRows(EmptyCells, piecesValues);
    var placement := Join(rows, '/');
    var fen := placement + " " + rest;
    forall r | 0 <= r < |rows|
      ensures ChessBoard.EmptyCell !in rows[r] && '/' !in rows[r]
    {
      CompressFromAvoids(EmptyCells, piecesValues[r], 0);
    }
    JoinAvoids(rows, '/', ChessBoard.EmptyCell);
    assert fen == placement + [' '] + rest;
    SplitAround(placement, ' ', rest);
    SplitWithoutSeparator(placement, ' ');
    assert Split(fen, ' ')[0] == placement;
    SplitOfJoin(rows, '/');
    assert Fen.PlacementRows(fen) == rows;
    var grid := Fen.PiecesOfFen(fen);
    forall r | 0 <= r < |piecesValues|
      ensures grid[r] == piecesValues[r]
    {
      ExpandCompressFrom(piecesValues[r], 0);
    }
  }

  // ------------------------------------------------------------ grid update

  /** `List<List<T>>.replace(row, col, newValue)`. */
  function Replace<T>(grid: seq<seq<T>>, row: int, col: int, newValue: T): (r: seq<seq<T>>)
    ensures |r| == |grid|
    ensures forall i :: 0 <= i < |r| ==> |r[i]| == |grid[i]|
    ensures forall i, j :: 0 <= i < |r| && 0 <= j < |r[i]| && (i != row || j != col) ==> r[i][j] == grid[i][j]
    ensures 0 <= row < |grid| && 0 <= col < |grid[row]| ==> r[row][col] == newValue
  {
    seq(|grid|, i requires 0 <= i < |grid| =>
      seq(|grid[i]|, j requires 0 <= j < |grid[i]| => if i == row && j == col then newValue else grid[i][j]))
  }

  /** Indices outside the grid leave it as it is. */
  lemma ReplaceOutsideTheGrid<T>(grid: seq<seq<T>>, row: int, col: int, newValue: T)
    requires !(0 <= row < |grid| && 0 <= col < |grid[row]|)
    ensures Replace(grid, row, col, newValue) == grid
  {
    var r := Replace(grid, row, col, newValue);
    forall i | 0 <= i < |grid|
      ensures r[i] == grid[i]
    {
    }
  }

  /** Writing back a cell's old value undoes a replacement. */
  lemma ReplaceUndone<T>(grid: seq<seq<T>>, row: int, col: int, newValue: T)
    requires 0 <= row < |grid| && 0 <= col < |grid[row]|
    ensures Replace(Replace(grid, row, col, newValue), row, col, grid[row][col]) == grid
  {
    var r := Replace(Replace(grid, row, col, newValue), row, col, grid[row][col]);
    forall i | 0 <= i < |grid|
      ensures r[i] == grid[i]
    {
    }
  }

  /** Of two writes to the same cell the later one wins. */
  lemma ReplaceLastWriteWins<T>(grid: seq<seq<T>>, row: int, col: int, v1: T, v2: T)
    ensures Replace(Replace(grid, row, col, v1), row, col, v2) == Replace(grid, row, col, v2)
  {
    var a := Replace(Replace(grid, row, col, v1), row, col, v2);
    var b := Replace(grid, row, col, v2);
    forall i | 0 <= i < |grid|
      ensures a[i] == b[i]
    {
    }
  }

  // ------------------------------------------------------------ en passant caption

  const NoEnPassant: string := "-"

  /** The captions of the en-passant menu and the file each one selects. */
  const EnPassantValues: seq<string> := [NoEnPassant, "a", "b", "c", "d", "e", "f", "g", "h"]
  const EnPassantFiles: seq<Option<int>> := [None, Some(0), Some(1), Some(2), Some(3), Some(4), Some(5), Some(6), Some(7)]

  /**
    The caption shown for the selected en-passant file: index 0 for none,
    `file + 1` otherwise (the list lookup fails outside the list).
   */
  function EnPassantCaption(file: Option<int>): (caption: string)
    requires file.None? || -1 <= file.value <= 7
    ensures file.None? ==> caption == NoEnPassant
    ensures file.Some? && 0 <= file.value <= 7 ==> caption == [('a' as int + file.value) as char]
  {
    EnPassantValues[if file.None? then 0 else file.value + 1]
  }

  /** Every menu entry selects the file whose caption it shows. */
  lemma EnPassantMenuIsConsistent()
    ensures |EnPassantValues| == |EnPassantFiles|
    ensures forall i :: 0 <= i < |EnPassantFiles| ==> EnPassantCaption(EnPassantFiles[i]) == EnPassantValues[i]
  {
  }

  // ------------------------------------------------------------ the editor

  class EditPositionPage {
    var piecesValues: seq<seq<char>>
    var currentEditingPiece: char
    var enPassantFile: Option<int>

    /** The editor opens on the standard starting position, with the empty cell as the piece to write. */
    constructor()
      ensures piecesValues == Fen.PiecesOfFen(Fen.DefaultPosition)
      ensures currentEditingPiece == ChessBoard.EmptyCell && enPassantFile == None
    {
      piecesValues := Fen.PiecesOfFen(Fen.DefaultPosition);
      currentEditingPiece := ChessBoard.EmptyCell;
      enPassantFile := None;
    }

    method OnEditingPieceChange(newPiece: char)
      modifies this
      ensures currentEditingPiece == newPiece
      ensures piecesValues == old(piecesValues) && enPassantFile == old(enPassantFile)
    {
      currentEditingPiece := newPiece;
    }

    method OnEnPassantSelection(file: Option<int>)
      modifies this
      ensures enPassantFile == file
      ensures piecesValues == old(piecesValues) && currentEditingPiece == old(currentEditingPiece)
    {
      enPassantFile := file;
    }

    /** A click on the cell at (file, rank) writes the editing piece at row 7 - rank, column file. */
    method OnCellClick(file: int, rank: int)
      modifies this
      ensures piecesValues == Replace(old(piecesValues), 7 - rank, file, currentEditingPiece)
      ensures currentEditingPiece == old(currentEditingPiece) && enPassantFile == old(enPassantFile)
    {
      piecesValues := Replace(piecesValues, 7 - rank, file, currentEditingPiece);
    }
  }

  /** A click on a board square is read back at the drawn position of that square. */
  lemma CellClickLandsOnTheSquare(grid: seq<seq<char>>, file: int, rank: int, piece: char)
    requires |grid| == 8 && forall r :: 0 <= r < 8 ==> |grid[r]| == 8
    requires 0 <= file < 8 && 0 <= rank < 8
    ensures Replace(grid, 7 - rank, file, piece)[7 - rank][file] == piece
    ensures forall f, k :: 0 <= f < 8 && 0 <= k < 8 && (f, k) != (file, rank) ==>
              Replace(grid, 7 - rank, file, piece)[7 - k][f] == grid[7 - k][f]
  {
  }
}
