/**
  The helpers of the game logic that sit on top of the chess library: square
  indices, the arrow parsed from a UCI move, the search of a legal move by
  its squares, piece counting and the insufficient-material rule.

  The chess library itself (move generation, FEN parsing and writing, SAN,
  mate and stalemate detection) is not modelled: it is the `Oracle`, a value
  of total functions over positions written as FEN records.
 */
module ChessGame {
  import opened Wrappers
  import opened ChessHistory
  import KotlinInt

  datatype Color = White | Black

  datatype PieceKind = King | Pawn | Queen | Rook | Bishop | Knight

  /** What stands on a square. */
  datatype Stone = NoStone | Stone(color: Color, kind: PieceKind)

  /** The promotion piece a move carries. */
  datatype Promotion = NoPromotion | PromoteTo(kind: PieceKind)

  /**
    A move of the library: its squares, its promotion piece and the rest of
    its encoding (capture, castling and en-passant bits), which the
    application never reads.
   */
  datatype Move = Move(from: int, to: int, promotion: Promotion, special: int)

  /**
    The chess library, as the functions the application calls. Positions are
    the FEN records the library writes for them.
   */
  datatype Oracle = Oracle(
    load: string -> string,            // a new game set up from a FEN record, written back as FEN
    legalMoves: string -> seq<Move>,   // `position.allMoves`, in the library's order
    play: (string, Move) -> string,    // `position.doMove(move)`
    san: (string, Move) -> string,     // SAN of a move played from a position
    moveNumber: string -> int,         // `Chess.plyToMoveNumber(position.plyNumber)`
    stoneAt: (string, int) -> Stone,   // the piece on a square index
    isMate: string -> bool,
    isStaleMate: string -> bool,
    isTerminal: string -> bool,
    promotionPiece: char -> Promotion, // `Chess.charToPiece`
    acceptsFen: string -> bool)        // strict `FEN.initFromFEN` does not throw

  const NumOfSquares: int := 64
  const NoSquare: int := -1

  /** `Chess.coorToSqi`: a1 is 0, h1 is 7, a2 is 8, ..., h8 is 63. */
  function CoorToSqi(col: int, row: int): int
  {
    row * 8 + col
  }

  function SqiToCol(sqi: int): int
  {
    KotlinInt.Rem(sqi, 8)
  }

  function SqiToRow(sqi: int): int
  {
    KotlinInt.Div(sqi, 8)
  }

  /** Square indices and board coordinates are in one-to-one correspondence. */
  lemma SquareIndexRoundTrip(col: int, row: int)
    requires 0 <= col < 8 && 0 <= row < 8
    ensures 0 <= CoorToSqi(col, row) < NumOfSquares
    ensures SqiToCol(CoorToSqi(col, row)) == col && SqiToRow(CoorToSqi(col, row)) == row
  {
    var sqi := CoorToSqi(col, row);
    assert sqi / 8 == row && sqi % 8 == col;
    KotlinInt.DivRemProperties(sqi, 8);
  }

  /** Every square index is the index of its own coordinates. */
  lemma SquareCoordinatesRoundTrip(sqi: int)
    requires 0 <= sqi < NumOfSquares
    ensures 0 <= SqiToCol(sqi) < 8 && 0 <= SqiToRow(sqi) < 8
    ensures CoorToSqi(SqiToCol(sqi), SqiToRow(sqi)) == sqi
  {
    KotlinInt.DivRemProperties(sqi, 8);
  }

  /** `Chess.strToSqi` on the two characters of a square name; `NoSquare` when it names none. */
  function StrToSqi(fileChar: char, rankChar: char): (sqi: int)
    ensures sqi == NoSquare || 0 <= sqi < NumOfSquares
  {
    if 'a' <= fileChar <= 'h' && '1' <= rankChar <= '8'
    then CoorToSqi(fileChar as int - 'a' as int, rankChar as int - '1' as int)
    else NoSquare
  }

  /** `Chess.isWhiteSquare`: a1 is a dark square. */
  function IsWhiteSquare(sqi: int): bool
  {
    KotlinInt.Rem(SqiToCol(sqi) + SqiToRow(sqi), 2) != 0
  }

  /** A square of the board is light exactly when its file and rank have an odd sum. */
  lemma WhiteSquareParity(col: int, row: int)
    requires 0 <= col < 8 && 0 <= row < 8
    ensures IsWhiteSquare(CoorToSqi(col, row)) <==> (col + row) % 2 == 1
  {
    SquareIndexRoundTrip(col, row);
    ColourOfCoordinates(CoorToSqi(col, row), col, row);
    OddByKotlinRemainder(col + row);
  }

  /** The colour of a square is read off its file and rank. */
  lemma ColourOfCoordinates(sqi: int, col: int, row: int)
    requires SqiToCol(sqi) == col && SqiToRow(sqi) == row
    ensures IsWhiteSquare(sqi) <==> KotlinInt.Rem(col + row, 2) != 0
  {
  }

  lemma OddByKotlinRemainder(n: int)
    requires n >= 0
    ensures KotlinInt.Rem(n, 2) != 0 <==> n % 2 == 1
  {
    KotlinInt.DivRemProperties(n, 2);
  }

  /**
    `toLastMoveArrow`: the squares of a UCI move as file and rank numbers,
    read from its first four characters; shorter text is not a move.
   */
  function ToLastMoveArrow(uci: string): (r: Option<LastMoveArrow>)
    ensures r.Some? <==> |uci| >= 4
    ensures r.Some? ==> r.value == LastMoveArrow(uci[0] as int - 'a' as int, uci[1] as int - '1' as int,
                                                 uci[2] as int - 'a' as int, uci[3] as int - '1' as int)
  {
    if |uci| < 4 then None
    else Some(LastMoveArrow(uci[0] as int - 'a' as int, uci[1] as int - '1' as int,
                            uci[2] as int - 'a' as int, uci[3] as int - '1' as int))
  }

  function ToMoveCoordinates(a: LastMoveArrow): MoveCoordinates
  {
    MoveCoordinates(a.startFile, a.startRank, a.endFile, a.endRank)
  }

  function ArrowOf(c: MoveCoordinates): LastMoveArrow
  {
    LastMoveArrow(c.startFile, c.startRank, c.endFile, c.endRank)
  }

  /** Arrows and move coordinates carry the same four numbers. */
  lemma ArrowCoordinatesInverse(a: LastMoveArrow, c: MoveCoordinates)
    ensures ArrowOf(ToMoveCoordinates(a)) == a
    ensures ToMoveCoordinates(ArrowOf(c)) == c
  {
  }

  predicate OnBoard(c: MoveCoordinates)
  {
    0 <= c.startFile < 8 && 0 <= c.startRank < 8 && 0 <= c.endFile < 8 && 0 <= c.endRank < 8
  }

  /** The UCI name of a square. */
  function SquareName(file: int, rank: int): (s: string)
    requires 0 <= file < 8 && 0 <= rank < 8
    ensures |s| == 2
  {
    [('a' as int + file) as char, ('1' as int + rank) as char]
  }

  /** The UCI text of a move between two squares, followed by an optional promotion letter. */
  function UciOf(c: MoveCoordinates, promotion: string): (s: string)
    requires OnBoard(c)
  {
    SquareName(c.startFile, c.startRank) + SquareName(c.endFile, c.endRank) + promotion
  }

  /** Parsing the arrow of a UCI move written for some squares gives back those squares. */
  lemma ArrowOfUciRoundTrip(c: MoveCoordinates, promotion: string)
    requires OnBoard(c)
    ensures ToLastMoveArrow(UciOf(c, promotion)) == Some(ArrowOf(c))
  {
    var s := UciOf(c, promotion);
    assert s[0] == ('a' as int + c.startFile) as char && s[1] == ('1' as int + c.startRank) as char;
    assert s[2] == ('a' as int + c.endFile) as char && s[3] == ('1' as int + c.endRank) as char;
  }

  /**
    The arrow drawn for an engine move names the squares the move is played
    between, whenever the text names two squares of the board.
   */
  lemma ArrowMatchesPlayedSquares(uci: string)
    requires |uci| >= 4
    requires StrToSqi(uci[0], uci[1]) != NoSquare && StrToSqi(uci[2], uci[3]) != NoSquare
    ensures var a := ToLastMoveArrow(uci).value;
            && OnBoard(ToMoveCoordinates(a))
            && StrToSqi(uci[0], uci[1]) == CoorToSqi(a.startFile, a.startRank)
            && StrToSqi(uci[2], uci[3]) == CoorToSqi(a.endFile, a.endRank)
  {
  }

  predicate Matches(m: Move, from: int, to: int, promotion: Promotion)
  {
    m.from == from && m.to == to && m.promotion == promotion
  }

  /** The first legal move with the given squares and promotion piece, if any. */
  function FindLegalMove(moves: seq<Move>, from: int, to: int, promotion: Promotion): (r: Option<Move>)
    ensures r.None? <==> forall i :: 0 <= i < |moves| ==> !Matches(moves[i], from, to, promotion)
    ensures r.Some? ==> exists i :: 0 <= i < |moves| && moves[i] == r.value
                                    && Matches(moves[i], from, to, promotion)
                                    && forall j :: 0 <= j < i ==> !Matches(moves[j], from, to, promotion)
    decreases |moves|
  {
    if |moves| == 0 then None
    else if Matches(moves[0], from, to, promotion) then Some(moves[0])
    else
      var r := FindLegalMove(moves[1..], from, to, promotion);
      assert r.Some? ==> exists i :: 1 <= i < |moves| && moves[i] == r.value
                                     && Matches(moves[i], from, to, promotion)
                                     && forall j :: 0 <= j < i ==> !Matches(moves[j], from, to, promotion) by {
        if r.Some? {
          var k :| 0 <= k < |moves[1..]| && moves[1..][k] == r.value
                   && Matches(moves[1..][k], from, to, promotion)
                   && forall j :: 0 <= j < k ==> !Matches(moves[1..][j], from, to, promotion);
          assert moves[k + 1] == r.value;
          forall j | 0 <= j < k + 1
            ensures !Matches(moves[j], from, to, promotion)
          {
            if j > 0 { assert moves[j] == moves[1..][j - 1]; }
          }
        }
      }
      assert r.None? ==> forall i :: 0 <= i < |moves| ==> !Matches(moves[i], from, to, promotion) by {
        if r.None? {
          forall i | 1 <= i < |moves|
            ensures !Matches(moves[i], from, to, promotion)
          {
            assert moves[i] == moves[1..][i - 1];
          }
        }
      }
      r
  }

  /** `getLegalMove`: scans the legal moves of the position in order. */
  method GetLegalMove(o: Oracle, position: string, from: int, to: int, promotion: Promotion)
    returns (r: Option<Move>)
    ensures r == FindLegalMove(o.legalMoves(position), from, to, promotion)
  {
    var legalMoves := o.legalMoves(position);
    var i := 0;
    while i < |legalMoves|
      invariant 0 <= i <= |legalMoves|
      invariant FindLegalMove(legalMoves[i..], from, to, promotion) == FindLegalMove(legalMoves, from, to, promotion)
    {
      if Matches(legalMoves[i], from, to, promotion) {
        return Some(legalMoves[i]);
      }
      assert legalMoves[i..][1..] == legalMoves[i + 1..];
      i := i + 1;
    }
    return None;
  }

  /** How many of the squares 0 .. n-1 hold `stone`. */
  function CountOf(o: Oracle, position: string, stone: Stone, n: nat): (c: nat)
    requires n <= NumOfSquares
    ensures c <= n
  {
    if n == 0 then 0
    else CountOf(o, position, stone, n - 1) + (if o.stoneAt(position, n - 1) == stone then 1 else 0)
  }

  function PieceCount(o: Oracle, position: string, stone: Stone): nat
  {
    CountOf(o, position, stone, NumOfSquares)
  }

  /** `countPiece`: counts the squares holding the piece. */
  method CountPiece(o: Oracle, position: string, stone: Stone) returns (count: int)
    ensures count == PieceCount(o, position, stone)
  {
    count := 0;
    for sqi := 0 to NumOfSquares
      invariant count == CountOf(o, position, stone, sqi)
    {
      if o.stoneAt(position, sqi) == stone {
        count := count + 1;
      }
    }
  }

  /** Some square holds the piece exactly when its count is positive. */
  lemma {:induction false} CountPositiveIffPresent(o: Oracle, position: string, stone: Stone, n: nat)
    requires n <= NumOfSquares
    ensures CountOf(o, position, stone, n) > 0 <==> exists sqi :: 0 <= sqi < n && o.stoneAt(position, sqi) == stone
  {
    if n > 0 {
      CountPositiveIffPresent(o, position, stone, n - 1);
    }
  }

  /** A piece counted on the board has a first square. */
  lemma PresentPieceIsFound(o: Oracle, position: string, stone: Stone)
    requires PieceCount(o, position, stone) > 0
    ensures FirstSquareFrom(o, position, stone, 0).Some?
  {
    CountPositiveIffPresent(o, position, stone, NumOfSquares);
    var sqi :| 0 <= sqi < NumOfSquares && o.stoneAt(position, sqi) == stone;
  }

  /** When no square but `sq` can hold the piece, the count is 1 or 0 as `sq` holds it or not. */
  lemma {:induction false} CountOfAtMostOne(o: Oracle, position: string, stone: Stone, n: nat, sq: int)
    requires n <= NumOfSquares
    requires forall s :: 0 <= s < n && s != sq ==> o.stoneAt(position, s) != stone
    ensures CountOf(o, position, stone, n) == if 0 <= sq < n && o.stoneAt(position, sq) == stone then 1 else 0
  {
    if n > 0 {
      CountOfAtMostOne(o, position, stone, n - 1, sq);
    }
  }

  /** The first square from `from` on that holds the piece. */
  function FirstSquareFrom(o: Oracle, position: string, stone: Stone, from: nat): (r: Option<int>)
    requires from <= NumOfSquares
    ensures r.Some? ==> && from <= r.value < NumOfSquares
                        && o.stoneAt(position, r.value) == stone
                        && forall s :: from <= s < r.value ==> o.stoneAt(position, s) != stone
    ensures r.None? ==> forall s :: from <= s < NumOfSquares ==> o.stoneAt(position, s) != stone
    decreases NumOfSquares - from
  {
    if from == NumOfSquares then None
    else if o.stoneAt(position, from) == stone then Some(from)
    else FirstSquareFrom(o, position, stone, from + 1)
  }

  /**
    `firstSquareColorIsWhiteForPiece`: the colour of the first square holding
    the piece; None where the source throws because the piece is absent.
   */
  method FirstSquareColorIsWhiteForPiece(o: Oracle, position: string, stone: Stone) returns (r: Option<bool>)
    ensures r.None? <==> forall s :: 0 <= s < NumOfSquares ==> o.stoneAt(position, s) != stone
    ensures r.Some? ==> r == Some(IsWhiteSquare(FirstSquareFrom(o, position, stone, 0).value))
  {
    for sqi := 0 to NumOfSquares
      invariant FirstSquareFrom(o, position, stone, sqi) == FirstSquareFrom(o, position, stone, 0)
    {
      if o.stoneAt(position, sqi) == stone {
        return Some(IsWhiteSquare(sqi));
      }
    }
    return None;
  }

  /** The piece counts the insufficient-material rule looks at. */
  datatype Material = Material(
    whiteQueens: nat, blackQueens: nat, whitePawns: nat, blackPawns: nat,
    whiteRooks: nat, blackRooks: nat, whiteKnights: nat, blackKnights: nat,
    whiteBishops: nat, blackBishops: nat)

  function MaterialOf(o: Oracle, position: string): Material
  {
    Material(
      PieceCount(o, position, Stone(White, Queen)), PieceCount(o, position, Stone(Black, Queen)),
      PieceCount(o, position, Stone(White, Pawn)), PieceCount(o, position, Stone(Black, Pawn)),
      PieceCount(o, position, Stone(White, Rook)), PieceCount(o, position, Stone(Black, Rook)),
      PieceCount(o, position, Stone(White, Knight)), PieceCount(o, position, Stone(Black, Knight)),
      PieceCount(o, position, Stone(White, Bishop)), PieceCount(o, position, Stone(Black, Bishop)))
  }

  /**
    The rule over the counts; `bishopsOnSameColour` is only consulted when
    each side has exactly one bishop.
   */
  function MissingByCounts(m: Material, bishopsOnSameColour: bool): bool
  {
    if m.whiteQueens > 0 || m.blackQueens > 0 || m.whiteRooks > 0 || m.blackRooks > 0
       || m.whitePawns > 0 || m.blackPawns > 0 then false
    else
      var whiteMinors := m.whiteBishops + m.whiteKnights;
      var blackMinors := m.blackBishops + m.blackKnights;
      if whiteMinors <= 2 && blackMinors <= 2 then
        if (whiteMinors == 0 && blackMinors <= 1) || (whiteMinors <= 1 && blackMinors == 0) then true
        else if m.whiteBishops == 1 && m.blackBishops == 1 then bishopsOnSameColour
        else false
      else false
  }

  /** Whether the first white bishop and the first black bishop stand on squares of one colour. */
  function BishopsOnSameColour(o: Oracle, position: string): bool
  {
    var w := FirstSquareFrom(o, position, Stone(White, Bishop), 0);
    var b := FirstSquareFrom(o, position, Stone(Black, Bishop), 0);
    w.Some? && b.Some? && IsWhiteSquare(w.value) == IsWhiteSquare(b.value)
  }

  /** `isMissingMatingMaterial` of a position. */
  function MissingMatingMaterial(o: Oracle, position: string): bool
  {
    MissingByCounts(MaterialOf(o, position), BishopsOnSameColour(o, position))
  }

  /** `isMissingMatingMaterial`: the counting scans, then the rule. */
  method IsMissingMatingMaterial(o: Oracle, position: string) returns (missing: bool)
    ensures missing == MissingMatingMaterial(o, position)
  {
    var whiteQueensCount := CountPiece(o, position, Stone(White, Queen));
    var blackQueensCount := CountPiece(o, position, Stone(Black, Queen));
    var whitePawnCount := CountPiece(o, position, Stone(White, Pawn));
    var blackPawnCount := CountPiece(o, position, Stone(Black, Pawn));
    var whiteRookCount := CountPiece(o, position, Stone(White, Rook));
    var blackRookCount := CountPiece(o, position, Stone(Black, Rook));
    var whiteKnightCount := CountPiece(o, position, Stone(White, Knight));
    var blackKnightCount := CountPiece(o, position, Stone(Black, Knight));
    var whiteBishopCount := CountPiece(o, position, Stone(White, Bishop));
    var blackBishopCount := CountPiece(o, position, Stone(Black, Bishop));
    ghost var m := Material(whiteQueensCount, blackQueensCount, whitePawnCount, blackPawnCount,
                            whiteRookCount, blackRookCount, whiteKnightCount, blackKnightCount,
                            whiteBishopCount, blackBishopCount);
    assert MissingMatingMaterial(o, position) == MissingByCounts(m, BishopsOnSameColour(o, position));

    if whiteQueensCount > 0 { return false; }
    if blackQueensCount > 0 { return false; }
    if whiteRookCount > 0 { return false; }
    if blackRookCount > 0 { return false; }
    if whitePawnCount > 0 { return false; }
    if blackPawnCount > 0 { return false; }

    var whiteKnightsAndBishops := whiteBishopCount + whiteKnightCount;
    var blackKnightsAndBishops := blackBishopCount + blackKnightCount;

    if whiteKnightsAndBishops <= 2 && blackKnightsAndBishops <= 2 {
      if (whiteKnightsAndBishops == 0 && blackKnightsAndBishops <= 1)
         || (whiteKnightsAndBishops <= 1 && blackKnightsAndBishops == 0) {
        return true;
      } else if whiteBishopCount == 1 && blackBishopCount == 1 {
        PresentPieceIsFound(o, position, Stone(White, Bishop));
        PresentPieceIsFound(o, position, Stone(Black, Bishop));
        var whiteBishopSquareWhite := FirstSquareColorIsWhiteForPiece(o, position, Stone(White, Bishop));
        var blackBishopSquareWhite := FirstSquareColorIsWhiteForPiece(o, position, Stone(Black, Bishop));
        assert BishopsOnSameColour(o, position) == (whiteBishopSquareWhite.value == blackBishopSquareWhite.value);
        return whiteBishopSquareWhite.value == blackBishopSquareWhite.value;
      }
    }
    return false;
  }

  /** A queen, a rook or a pawn of either side anywhere on the board is enough to mate. */
  lemma QueenRookOrPawnSuffices(o: Oracle, position: string, sqi: int)
    requires 0 <= sqi < NumOfSquares
    requires o.stoneAt(position, sqi).Stone? && o.stoneAt(position, sqi).kind in {Queen, Rook, Pawn}
    ensures !MissingMatingMaterial(o, position)
  {
    var stone := o.stoneAt(position, sqi);
    CountPositiveIffPresent(o, position, stone, NumOfSquares);
    assert PieceCount(o, position, stone) > 0;
    var m := MaterialOf(o, position);
    var c, k := stone.color, stone.kind;
    assert stone == Stone(c, k);
    if k == Queen {
      assert (if c == White then m.whiteQueens else m.blackQueens) > 0;
    } else if k == Rook {
      assert (if c == White then m.whiteRooks else m.blackRooks) > 0;
    } else {
      assert (if c == White then m.whitePawns else m.blackPawns) > 0;
    }
  }

  /** Every square but `sq` is empty or holds a king. */
  predicate KingsOnlyBut(o: Oracle, position: string, sq: int)
  {
    forall s :: 0 <= s < NumOfSquares && s != sq ==> o.stoneAt(position, s).NoStone? || o.stoneAt(position, s).kind == King
  }

  /** Kings alone, or kings and a single knight or bishop, cannot mate. */
  lemma AtMostOneMinorPieceLacksMaterial(o: Oracle, position: string, sq: int)
    requires 0 <= sq < NumOfSquares && KingsOnlyBut(o, position, sq)
    requires o.stoneAt(position, sq).Stone? ==> o.stoneAt(position, sq).kind in {King, Knight, Bishop}
    ensures MissingMatingMaterial(o, position)
  {
    forall c: Color, k: PieceKind | k != King
      ensures PieceCount(o, position, Stone(c, k)) == if o.stoneAt(position, sq) == Stone(c, k) then 1 else 0
    {
      CountOfAtMostOne(o, position, Stone(c, k), NumOfSquares, sq);
    }
  }

  /**
    With one bishop a side and nothing else but the kings, the position
    lacks mating material exactly when the bishops stand on one colour.
   */
  lemma LoneBishopsLackMaterialIffSameColour(o: Oracle, position: string, wb: int, bb: int)
    requires 0 <= wb < NumOfSquares && 0 <= bb < NumOfSquares
    requires o.stoneAt(position, wb) == Stone(White, Bishop) && o.stoneAt(position, bb) == Stone(Black, Bishop)
    requires forall s :: 0 <= s < NumOfSquares && s != wb && s != bb
                         ==> o.stoneAt(position, s).NoStone? || o.stoneAt(position, s).kind == King
    ensures MissingMatingMaterial(o, position) <==> IsWhiteSquare(wb) == IsWhiteSquare(bb)
  {
    forall c: Color, k: PieceKind | k != King
      ensures PieceCount(o, position, Stone(c, k)) == if Stone(c, k) == Stone(White, Bishop) || Stone(c, k) == Stone(Black, Bishop) then 1 else 0
    {
      if Stone(c, k) == Stone(Black, Bishop) {
        CountOfAtMostOne(o, position, Stone(c, k), NumOfSquares, bb);
      } else {
        CountOfAtMostOne(o, position, Stone(c, k), NumOfSquares, wb);
      }
    }
    var m := MaterialOf(o, position);
    assert m == Material(0, 0, 0, 0, 0, 0, 0, 0, 1, 1);
    OnlyStoneIsFirst(o, position, Stone(White, Bishop), wb);
    OnlyStoneIsFirst(o, position, Stone(Black, Bishop), bb);
    assert BishopsOnSameColour(o, position) == (IsWhiteSquare(wb) == IsWhiteSquare(bb));
    assert MissingByCounts(m, BishopsOnSameColour(o, position)) == BishopsOnSameColour(o, position);
  }

  /** A stone that stands on one square only is found first on that square. */
  lemma OnlyStoneIsFirst(o: Oracle, position: string, stone: Stone, sq: int)
    requires 0 <= sq < NumOfSquares && o.stoneAt(position, sq) == stone
    requires forall s :: 0 <= s < NumOfSquares && s != sq ==> o.stoneAt(position, s) != stone
    ensures FirstSquareFrom(o, position, stone, 0) == Some(sq)
  {
  }

  function Opponent(c: Color): Color
  {
    if c == White then Black else White
  }

  /** The minor pieces, knights and bishops, of one side. */
  function MinorCount(o: Oracle, position: string, c: Color): nat
  {
    PieceCount(o, position, Stone(c, Knight)) + PieceCount(o, position, Stone(c, Bishop))
  }

  predicate IsMinorOf(st: Stone, c: Color)
  {
    st == Stone(c, Knight) || st == Stone(c, Bishop)
  }

  /** No queen, rook or pawn of either side stands anywhere on the board. */
  predicate NoHeavyPieceOrPawn(o: Oracle, position: string)
  {
    forall s :: 0 <= s < NumOfSquares && o.stoneAt(position, s).Stone? ==> o.stoneAt(position, s).kind in {King, Knight, Bishop}
  }

  /** A piece standing on a square is counted. */
  lemma PresentIsCounted(o: Oracle, position: string, stone: Stone, sq: int)
    requires 0 <= sq < NumOfSquares && o.stoneAt(position, sq) == stone
    ensures PieceCount(o, position, stone) >= 1
  {
    CountPositiveIffPresent(o, position, stone, NumOfSquares);
  }

  /** A piece standing nowhere is not counted. */
  lemma AbsentIsNotCounted(o: Oracle, position: string, stone: Stone)
    requires forall s :: 0 <= s < NumOfSquares ==> o.stoneAt(position, s) != stone
    ensures PieceCount(o, position, stone) == 0
  {
    CountPositiveIffPresent(o, position, stone, NumOfSquares);
  }

  /** Two squares holding the same piece count for two. */
  lemma {:induction false} CountOfTwoSquares(o: Oracle, position: string, stone: Stone, n: nat, s1: int, s2: int)
    requires n <= NumOfSquares && 0 <= s1 < n && 0 <= s2 < n && s1 != s2
    requires o.stoneAt(position, s1) == stone && o.stoneAt(position, s2) == stone
    ensures CountOf(o, position, stone, n) >= 2
  {
    if s1 == n - 1 || s2 == n - 1 {
      var other := if s1 == n - 1 then s2 else s1;
      CountPositiveIffPresent(o, position, stone, n - 1);
      assert 0 <= other < n - 1 && o.stoneAt(position, other) == stone;
    } else {
      CountOfTwoSquares(o, position, stone, n - 1, s1, s2);
    }
  }

  /** A minor piece of a side on the board makes its minor count positive. */
  lemma MinorIsCounted(o: Oracle, position: string, c: Color, sq: int)
    requires 0 <= sq < NumOfSquares && IsMinorOf(o.stoneAt(position, sq), c)
    ensures MinorCount(o, position, c) >= 1
  {
    PresentIsCounted(o, position, o.stoneAt(position, sq), sq);
  }

  /** Minor pieces of a side on two squares make its minor count at least two. */
  lemma TwoMinorsAreCounted(o: Oracle, position: string, c: Color, s1: int, s2: int)
    requires 0 <= s1 < NumOfSquares && 0 <= s2 < NumOfSquares && s1 != s2
    requires IsMinorOf(o.stoneAt(position, s1), c) && IsMinorOf(o.stoneAt(position, s2), c)
    ensures MinorCount(o, position, c) >= 2
  {
    if o.stoneAt(position, s1) == o.stoneAt(position, s2) {
      CountOfTwoSquares(o, position, o.stoneAt(position, s1), NumOfSquares, s1, s2);
    } else {
      PresentIsCounted(o, position, o.stoneAt(position, s1), s1);
      PresentIsCounted(o, position, o.stoneAt(position, s2), s2);
    }
  }

  /** Without queens, rooks and pawns, the material counts only the minor pieces. */
  lemma MinorsOnlyMaterial(o: Oracle, position: string)
    requires NoHeavyPieceOrPawn(o, position)
    ensures MaterialOf(o, position) == Material(0, 0, 0, 0, 0, 0,
      PieceCount(o, position, Stone(White, Knight)), PieceCount(o, position, Stone(Black, Knight)),
      PieceCount(o, position, Stone(White, Bishop)), PieceCount(o, position, Stone(Black, Bishop)))
  {
    forall c: Color, k: PieceKind | k in {Queen, Rook, Pawn}
      ensures PieceCount(o, position, Stone(c, k)) == 0
    {
      AbsentIsNotCounted(o, position, Stone(c, k));
    }
  }

  /**
    With no queen, rook or pawn and exactly one bishop a side, on `wb` and
    `bb`, the position lacks mating material exactly when neither side has
    more than two minor pieces and the bishops stand on one colour.
   */
  lemma OneBishopEachLacksMaterialIffSameColour(o: Oracle, position: string, wb: int, bb: int)
    requires NoHeavyPieceOrPawn(o, position)
    requires 0 <= wb < NumOfSquares && o.stoneAt(position, wb) == Stone(White, Bishop)
    requires 0 <= bb < NumOfSquares && o.stoneAt(position, bb) == Stone(Black, Bishop)
    requires forall s :: 0 <= s < NumOfSquares && s != wb ==> o.stoneAt(position, s) != Stone(White, Bishop)
    requires forall s :: 0 <= s < NumOfSquares && s != bb ==> o.stoneAt(position, s) != Stone(Black, Bishop)
    ensures MissingMatingMaterial(o, position)
            <==> MinorCount(o, position, White) <= 2 && MinorCount(o, position, Black) <= 2
                 && IsWhiteSquare(wb) == IsWhiteSquare(bb)
  {
    MinorsOnlyMaterial(o, position);
    CountOfAtMostOne(o, position, Stone(White, Bishop), NumOfSquares, wb);
    CountOfAtMostOne(o, position, Stone(Black, Bishop), NumOfSquares, bb);
    OnlyStoneIsFirst(o, position, Stone(White, Bishop), wb);
    OnlyStoneIsFirst(o, position, Stone(Black, Bishop), bb);
    assert BishopsOnSameColour(o, position) == (IsWhiteSquare(wb) == IsWhiteSquare(bb));
  }

  /**
    When one side has no bishop and each side has a minor piece, the
    position is never reported as lacking mating material (K+N against K+N,
    for one).
   */
  lemma NoBishopOnOneSideSuffices(o: Oracle, position: string, c: Color, wm: int, bm: int)
    requires forall s :: 0 <= s < NumOfSquares ==> o.stoneAt(position, s) != Stone(c, Bishop)
    requires 0 <= wm < NumOfSquares && IsMinorOf(o.stoneAt(position, wm), White)
    requires 0 <= bm < NumOfSquares && IsMinorOf(o.stoneAt(position, bm), Black)
    ensures !MissingMatingMaterial(o, position)
  {
    AbsentIsNotCounted(o, position, Stone(c, Bishop));
    MinorIsCounted(o, position, White, wm);
    MinorIsCounted(o, position, Black, bm);
  }

  /**
    Two minor pieces of one side against a side with none are never reported
    as lacking mating material, and neither are three or more.
   */
  lemma TwoMinorsAgainstNoMinorSuffice(o: Oracle, position: string, c: Color, s1: int, s2: int)
    requires 0 <= s1 < NumOfSquares && 0 <= s2 < NumOfSquares && s1 != s2
    requires IsMinorOf(o.stoneAt(position, s1), c) && IsMinorOf(o.stoneAt(position, s2), c)
    requires forall s :: 0 <= s < NumOfSquares ==> !IsMinorOf(o.stoneAt(position, s), Opponent(c))
    ensures !MissingMatingMaterial(o, position)
  {
    TwoMinorsAreCounted(o, position, c, s1, s2);
    AbsentIsNotCounted(o, position, Stone(Opponent(c), Knight));
    AbsentIsNotCounted(o, position, Stone(Opponent(c), Bishop));
  }

  /**
    Two bishops of one side against a side with any minor piece are never
    reported as lacking mating material (K+B+B against K+B, for one).
   */
  lemma TwoBishopsAgainstAMinorSuffice(o: Oracle, position: string, c: Color, s1: int, s2: int, m: int)
    requires 0 <= s1 < NumOfSquares && 0 <= s2 < NumOfSquares && s1 != s2
    requires o.stoneAt(position, s1) == Stone(c, Bishop) && o.stoneAt(position, s2) == Stone(c, Bishop)
    requires 0 <= m < NumOfSquares && IsMinorOf(o.stoneAt(position, m), Opponent(c))
    ensures !MissingMatingMaterial(o, position)
  {
    CountOfTwoSquares(o, position, Stone(c, Bishop), NumOfSquares, s1, s2);
    MinorIsCounted(o, position, Opponent(c), m);
  }
}
