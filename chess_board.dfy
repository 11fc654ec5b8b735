/**
  The integer side of the board component: which piece image a letter
  selects, how screen columns and rows map to files and ranks in both
  orientations, the colour of a square, the precedence of cell highlights,
  and the drag-and-drop gesture state.
 */
module ChessBoard {
  import opened Wrappers

  /** The character that marks an empty cell in a grid of pieces. */
  const EmptyCell: char := ' '

  /** Which side, if any, is choosing a promotion piece (the source's None, White, Black). */
  datatype PendingPromotion = NoPending | WhitePending | BlackPending

  datatype PromotionType = Queen | Rook | Bishop | Knight

  /** Who plays a side (the source's Human, Computer, None). */
  datatype PlayerType = Human | Computer | NoPlayer

  predicate IsUpper(c: char)
  {
    'A' <= c <= 'Z'
  }

  function ToLower(c: char): char
  {
    if IsUpper(c) then (c as int + 32) as char else c
  }

  /** A grid of 8 rows of 8 cells, as the expansion of a legal board field gives. */
  predicate IsBoardGrid(pieces: seq<seq<char>>)
  {
    |pieces| == 8 && forall r :: 0 <= r < 8 ==> |pieces[r]| == 8
  }

  const VectorsFolder: string := "chess_vectors/"

  /**
    The image resource for a piece letter; any character other than the
    twelve piece letters is refused (the source throws).
   */
  function VectorForPiece(pieceValue: char): (r: Option<string>)
    ensures r.Some? <==> IsPieceLetter(pieceValue)
    ensures r.Some? ==> |r.value| > |VectorsFolder| && r.value[..|VectorsFolder|] == VectorsFolder
  {
    var name :=
      match pieceValue
      case 'P' => Some("Chess_plt45.svg")
      case 'N' => Some("Chess_nlt45.svg")
      case 'B' => Some("Chess_blt45.svg")
      case 'R' => Some("Chess_rlt45.svg")
      case 'Q' => Some("Chess_qlt45.svg")
      case 'K' => Some("Chess_klt45.svg")
      case 'p' => Some("Chess_pdt45.svg")
      case 'n' => Some("Chess_ndt45.svg")
      case 'b' => Some("Chess_bdt45.svg")
      case 'r' => Some("Chess_rdt45.svg")
      case 'q' => Some("Chess_qdt45.svg")
      case 'k' => Some("Chess_kdt45.svg")
      case _ => None;
    if name.Some? then Some(VectorsFolder + name.value) else None
  }

  /** The twelve letters FEN uses for pieces: upper case for White, lower case for Black. */
  predicate IsPieceLetter(c: char)
  {
    c in {'P', 'N', 'B', 'R', 'Q', 'K', 'p', 'n', 'b', 'r', 'q', 'k'}
  }

  /** The image name a piece letter is expected to have: its lower-case letter, then the light or dark set. */
  function ImageName(pieceValue: char): string
  {
    VectorsFolder + "Chess_" + [ToLower(pieceValue)] + (if IsUpper(pieceValue) then "lt45.svg" else "dt45.svg")
  }

  /**
    Every picture is named after its letter: the lower-cased letter, with the
    light set for White's upper-case letters and the dark set for Black's.
   */
  lemma VectorForPieceName(pieceValue: char)
    requires IsPieceLetter(pieceValue)
    ensures VectorForPiece(pieceValue) == Some(ImageName(pieceValue))
  {
    ImageNameOfSide(pieceValue, IsUpper(pieceValue));
  }

  /**
    The picture of one side's letter: the light set for White, the dark set
    for Black, named after the lower-cased letter.
   */
  lemma ImageNameOfSide(pieceValue: char, white: bool)
    requires IsPieceLetter(pieceValue) && IsUpper(pieceValue) == white
    ensures VectorForPiece(pieceValue) == Some(ImageName(pieceValue))
  {
    var shade := if white then "lt45.svg" else "dt45.svg";
    var kind := ToLower(pieceValue);
    assert ImageName(pieceValue) == VectorsFolder + ("Chess_" + [kind] + shade);
    if kind == 'p' {
      assert "Chess_" + [kind] + shade == if white then "Chess_plt45.svg" else "Chess_pdt45.svg";
    } else if kind == 'n' {
      assert "Chess_" + [kind] + shade == if white then "Chess_nlt45.svg" else "Chess_ndt45.svg";
    } else if kind == 'b' {
      assert "Chess_" + [kind] + shade == if white then "Chess_blt45.svg" else "Chess_bdt45.svg";
    } else if kind == 'r' {
      assert "Chess_" + [kind] + shade == if white then "Chess_rlt45.svg" else "Chess_rdt45.svg";
    } else if kind == 'q' {
      assert "Chess_" + [kind] + shade == if white then "Chess_qlt45.svg" else "Chess_qdt45.svg";
    } else {
      assert "Chess_" + [kind] + shade == if white then "Chess_klt45.svg" else "Chess_kdt45.svg";
    }
  }

  /** Two different piece letters never share an image. */
  lemma VectorForPieceInjective(a: char, b: char)
    requires VectorForPiece(a).Some? && VectorForPiece(a) == VectorForPiece(b)
    ensures a == b
  {
    VectorForPieceName(a);
    VectorForPieceName(b);
    var p := VectorsFolder + "Chess_";
    var s := ImageName(a);
    assert s[|p|] == ToLower(a) == ToLower(b);
    assert s[|p| + 1] == (if IsUpper(a) then 'l' else 'd') == (if IsUpper(b) then 'l' else 'd');
  }

  /** The file shown in screen column `col`. */
  function FileOf(col: int, reversed: bool): int
  {
    if reversed then 7 - col else col
  }

  /** The rank shown in screen row `row` (row 0 is the top of the board). */
  function RankOf(row: int, reversed: bool): int
  {
    if reversed then row else 7 - row
  }

  /**
    The orientation mapping is its own inverse and maps the board's 0..7
    range onto itself, in both orientations: a bijection of the 64 cells.
   */
  lemma OrientationIsInvolution(col: int, row: int, reversed: bool)
    ensures FileOf(FileOf(col, reversed), reversed) == col
    ensures RankOf(RankOf(row, reversed), reversed) == row
    ensures 0 <= col <= 7 <==> 0 <= FileOf(col, reversed) <= 7
    ensures 0 <= row <= 7 <==> 0 <= RankOf(row, reversed) <= 7
  {
  }

  /** The piece drawn in screen cell (rowIndex, colIndex). */
  function DrawnPiece(pieces: seq<seq<char>>, rowIndex: int, colIndex: int, reversed: bool): char
    requires IsBoardGrid(pieces) && 0 <= rowIndex <= 7 && 0 <= colIndex <= 7
  {
    pieces[if reversed then 7 - rowIndex else rowIndex][if reversed then 7 - colIndex else colIndex]
  }

  /**
    Drawing and picking agree: the piece drawn in a cell is the one a drag
    starting on that cell picks up, `pieces[7 - rank][file]`.
   */
  lemma DrawnPieceIsPickedPiece(pieces: seq<seq<char>>, rowIndex: int, colIndex: int, reversed: bool)
    requires IsBoardGrid(pieces) && 0 <= rowIndex <= 7 && 0 <= colIndex <= 7
    ensures DrawnPiece(pieces, rowIndex, colIndex, reversed)
            == pieces[7 - RankOf(rowIndex, reversed)][FileOf(colIndex, reversed)]
  {
  }

  /** Whether screen cell (rowIndex, colIndex) is drawn in the light colour. */
  function IsLightSquare(rowIndex: nat, colIndex: nat): (light: bool)
    ensures light <==> (rowIndex + colIndex) % 2 == 0
  {
    var firstIsWhite := rowIndex % 2 == 0;
    if colIndex % 2 == 0 then firstIsWhite else !firstIsWhite
  }

  /**
    The colour of a square does not depend on the orientation: a cell is
    light exactly when the file and rank it shows have an odd sum (a1 is dark).
   */
  lemma SquareColourFollowsTheSquare(rowIndex: nat, colIndex: nat, reversed: bool)
    requires rowIndex <= 7 && colIndex <= 7
    ensures IsLightSquare(rowIndex, colIndex)
            <==> (FileOf(colIndex, reversed) + RankOf(rowIndex, reversed)) % 2 == 1
  {
  }

  datatype CellColor = LightCell | DarkCell | CrossLineCell | DragStartCell | DragEndCell

  /**
    The background of a cell: the square colour, overridden in turn by the
    drag cross-lines, the drag start, the drag end, the promotion start and
    the promotion end; the later override wins.
   */
  function CellBackground(isWhite: bool, crossLines: bool, dragStart: bool, dragEnd: bool,
                          promotionStart: bool, promotionEnd: bool): (c: CellColor)
    ensures c == DragEndCell <==> promotionEnd || (dragEnd && !promotionStart)
    ensures c == DragStartCell <==> !promotionEnd && (promotionStart || (dragStart && !dragEnd))
    ensures c == CrossLineCell <==> crossLines && !dragStart && !dragEnd && !promotionStart && !promotionEnd
    ensures c == LightCell <==> isWhite && !crossLines && !dragStart && !dragEnd && !promotionStart && !promotionEnd
    ensures c == DarkCell <==> !isWhite && !crossLines && !dragStart && !dragEnd && !promotionStart && !promotionEnd
  {
    var c0 := if isWhite then LightCell else DarkCell;
    var c1 := if crossLines then CrossLineCell else c0;
    var c2 := if dragStart then DragStartCell else c1;
    var c3 := if dragEnd then DragEndCell else c2;
    var c4 := if promotionStart then DragStartCell else c3;
    if promotionEnd then DragEndCell else c4
  }

  /** What the drag layer carries: the squares picked and hovered, and the piece. */
  datatype DragAndDropData = DragAndDropData(startFile: int, startRank: int, endFile: int, endRank: int,
                                             carriedPiece: char)

  /** The highlight flags of the cell showing (file, rank). */
  datatype CellFlags = CellFlags(isDraggedPieceOrigin: bool, crossLines: bool, dragStart: bool,
                                 dragEnd: bool, promotionStart: bool, promotionEnd: bool)

  function CellFlagsFor(file: int, rank: int, dnd: Option<DragAndDropData>,
                        promotionStartFile: Option<int>, promotionStartRank: Option<int>,
                        promotionEndFile: Option<int>, promotionEndRank: Option<int>): (f: CellFlags)
    ensures dnd.None? ==> !f.isDraggedPieceOrigin && !f.crossLines && !f.dragStart && !f.dragEnd
    ensures f.promotionStart <==> promotionStartFile == Some(file) && promotionStartRank == Some(rank)
    ensures f.promotionEnd <==> promotionEndFile == Some(file) && promotionEndRank == Some(rank)
    ensures f.dragEnd ==> f.crossLines
  {
    var origin := dnd.Some? && file == dnd.value.startFile && rank == dnd.value.startRank;
    CellFlags(
      origin,
      dnd.Some? && (file == dnd.value.endFile || rank == dnd.value.endRank),
      origin,
      dnd.Some? && file == dnd.value.endFile && rank == dnd.value.endRank,
      promotionStartFile == Some(file) && promotionStartRank == Some(rank),
      promotionEndFile == Some(file) && promotionEndRank == Some(rank))
  }

  /** Without a drag or a pending promotion every cell shows its square colour. */
  lemma IdleBoardShowsSquareColours(rowIndex: nat, colIndex: nat, reversed: bool)
    requires rowIndex <= 7 && colIndex <= 7
    ensures var f := CellFlagsFor(FileOf(colIndex, reversed), RankOf(rowIndex, reversed), None,
                                  None, None, None, None);
            CellBackground(IsLightSquare(rowIndex, colIndex), f.crossLines, f.dragStart, f.dragEnd,
                           f.promotionStart, f.promotionEnd)
            == (if (rowIndex + colIndex) % 2 == 0 then LightCell else DarkCell)
  {
  }

  /** The drag layer reacts to gestures only while no promotion is pending. */
  function DragLayerIsActive(pendingPromotion: PendingPromotion): bool
  {
    pendingPromotion == NoPending
  }

  /**
    A drag may start on (file, rank) when the square is on the board, holds
    a piece, and the piece belongs to the side to move (upper case for White).
   */
  predicate DragStartAccepted(pieces: seq<seq<char>>, file: int, rank: int, isWhiteTurn: bool)
    requires IsBoardGrid(pieces)
  {
    && 0 <= file <= 7 && 0 <= rank <= 7
    && pieces[7 - rank][file] != EmptyCell
    && IsUpper(pieces[7 - rank][file]) == isWhiteTurn
  }

  /** The gesture state of the drag-and-drop layer. */
  class DragAndDropLayer {
    var dndData: Option<DragAndDropData>

    constructor ()
      ensures dndData == None
    {
      dndData := None;
    }

    /**
      A press on screen cell (col, row). When accepted the drag starts and
      ends on the pressed square; otherwise nothing changes.
     */
    method OnDragStart(isActive: bool, col: int, row: int, reversed: bool,
                       pieces: seq<seq<char>>, isWhiteTurn: bool)
      requires IsBoardGrid(pieces)
      modifies this
      ensures var file, rank := FileOf(col, reversed), RankOf(row, reversed);
              if isActive && DragStartAccepted(pieces, file, rank, isWhiteTurn)
              then dndData == Some(DragAndDropData(file, rank, file, rank, pieces[7 - rank][file]))
              else dndData == old(dndData)
    {
      if !isActive { return; }
      var file := FileOf(col, reversed);
      var rank := RankOf(row, reversed);
      if file < 0 || file > 7 { return; }
      if rank < 0 || rank > 7 { return; }
      var piece := pieces[7 - rank][file];
      if piece == EmptyCell { return; }
      var isOurPiece := IsUpper(piece) == isWhiteTurn;
      if !isOurPiece { return; }
      dndData := Some(DragAndDropData(file, rank, file, rank, piece));
    }

    /** The cursor moved over screen cell (col, row): only the end square follows it. */
    method OnDrag(isActive: bool, col: int, row: int, reversed: bool)
      modifies this
      ensures if isActive && old(dndData).Some?
              then dndData == Some(old(dndData).value.(endFile := FileOf(col, reversed),
                                                       endRank := RankOf(row, reversed)))
              else dndData == old(dndData)
    {
      if !isActive { return; }
      if dndData.None? { return; }
      dndData := Some(dndData.value.(endFile := FileOf(col, reversed), endRank := RankOf(row, reversed)));
    }

    /**
      The mouse button was released: the carried move is handed once to
      `tryPlayingMove` (returned here) and the drag data is cleared.
     */
    method OnDragEnd(isActive: bool) returns (tryPlayingMove: Option<DragAndDropData>)
      modifies this
      ensures if isActive && old(dndData).Some?
              then tryPlayingMove == old(dndData) && dndData == None
              else tryPlayingMove == None && dndData == old(dndData)
    {
      tryPlayingMove := None;
      if !isActive { return; }
      if dndData.None? { return; }
      tryPlayingMove := dndData;
      dndData := None;
    }

    /** The gesture was cancelled: the drag data is cleared and no move is tried. */
    method OnDragCancel(isActive: bool)
      modifies this
      ensures dndData == if isActive then None else old(dndData)
    {
      if !isActive { return; }
      if dndData.None? { return; }
      dndData := None;
    }
  }
}
