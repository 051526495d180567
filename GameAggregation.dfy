/**
 * `ChessDaskCluster.get_game_data` (chess_dask_cluster.py): folding the per-square records
 * of one game into a `ply_count` x 8 x 8 grid per colour and a running maximum per colour.
 */
module GameAggregation {
  import opened Wrappers
  import opened Chess
  import opened ChessUtil

  /** `game_data[color][ply][visual row][visual column]`. */
  type Grid = seq<seq<seq<nat>>>

  /** The dict `get_game_data` returns: the two grids, "max_white_value" and "max_black_value". */
  datatype GameData = GameData(white: Grid, black: Grid, maxWhiteValue: nat, maxBlackValue: nat)

  /** `plyCount` layers of 8 rows of 8 cells. */
  ghost predicate HasShape(g: Grid, plyCount: nat)
  {
    && |g| == plyCount
    && (forall p :: 0 <= p < |g| ==> |g[p]| == 8)
    && (forall p, r :: 0 <= p < |g| && 0 <= r < |g[p]| ==> |g[p][r]| == 8)
  }

  /** Two records for the same ply, square and colour. */
  predicate SameCell(a: SquareRecord, b: SquareRecord)
  {
    a.color == b.color && a.ply == b.ply && a.square == b.square
  }

  // ---------------------------------------------------------------------------
  // Board orientation

  /**
   * The visual cell (row, column) at which the power of `sq` is written: row = sq div 8 and
   * column = sq mod 8; white mirrors the rows only, black mirrors rows and columns.
   */
  function CellOf(color: Color, sq: Square): (cell: (int, int))
    ensures 0 <= cell.0 < 8 && 0 <= cell.1 < 8
  {
    var row := sq / 8;
    var column := sq % 8;
    if color == White then (7 - row, column) else (7 - row, 7 - column)
  }

  /** The square whose power the visual cell (`vr`, `vc`) of `color`'s grid shows. */
  function SquareAt(color: Color, vr: int, vc: int): Square
    requires 0 <= vr < 8 && 0 <= vc < 8
  {
    if color == White then (7 - vr) * 8 + vc else (7 - vr) * 8 + (7 - vc)
  }

  /** Every square has its own cell ... */
  lemma CellOfRoundTrip(color: Color, sq: Square)
    ensures SquareAt(color, CellOf(color, sq).0, CellOf(color, sq).1) == sq
  {
  }

  /** ... and every cell shows exactly one square. */
  lemma SquareAtRoundTrip(color: Color, vr: int, vc: int)
    requires 0 <= vr < 8 && 0 <= vc < 8
    ensures CellOf(color, SquareAt(color, vr, vc)) == (vr, vc)
  {
  }

  // ---------------------------------------------------------------------------
  // The fold, as functions of the record list

  /** The power of the last record of `color` for (`ply`, `sq`), or 0 when there is none. */
  function LastPower(rs: seq<SquareRecord>, color: Color, ply: int, sq: Square): nat
    decreases |rs|
  {
    if |rs| == 0 then 0
    else
      var last := rs[|rs| - 1];
      if last.color == color && last.ply == ply && last.square == sq then last.power
      else LastPower(rs[..|rs| - 1], color, ply, sq)
  }

  /** The running maximum of the powers of `color`'s records, starting from 0. */
  function MaxPower(rs: seq<SquareRecord>, color: Color): nat
    decreases |rs|
  {
    if |rs| == 0 then 0
    else
      var m := MaxPower(rs[..|rs| - 1], color);
      var last := rs[|rs| - 1];
      if last.color == color && last.power > m then last.power else m
  }

  /** `color`'s grid after folding `rs`. */
  function GridOf(rs: seq<SquareRecord>, color: Color, plyCount: nat): (g: Grid)
    ensures HasShape(g, plyCount)
  {
    seq(plyCount, ply =>
      seq(8, vr requires 0 <= vr < 8 =>
        seq(8, vc requires 0 <= vc < 8 => LastPower(rs, color, ply, SquareAt(color, vr, vc)))))
  }

  /** What `get_game_data(rs, plyCount)` returns. */
  function GameDataOf(rs: seq<SquareRecord>, plyCount: nat): (g: GameData)
    ensures HasShape(g.white, plyCount) && HasShape(g.black, plyCount)
  {
    GameData(GridOf(rs, White, plyCount), GridOf(rs, Black, plyCount), MaxPower(rs, White), MaxPower(rs, Black))
  }

  /** `grid[ply][vr][vc] = v`. */
  function SetCell(g: Grid, ply: int, vr: int, vc: int, v: nat): (r: Grid)
    requires 0 <= ply < |g| && 0 <= vr < |g[ply]| && 0 <= vc < |g[ply][vr]|
    ensures |r| == |g| && forall p :: 0 <= p < |g| && p != ply ==> r[p] == g[p]
  {
    g[ply := g[ply][vr := g[ply][vr][vc := v]]]
  }

  // ---------------------------------------------------------------------------
  // Properties of the fold

  /** Two grids of the same shape with the same cells are equal. */
  lemma GridExtensionality(a: Grid, b: Grid, plyCount: nat)
    requires HasShape(a, plyCount) && HasShape(b, plyCount)
    requires forall p, vr, vc :: 0 <= p < plyCount && 0 <= vr < 8 && 0 <= vc < 8 ==> a[p][vr][vc] == b[p][vr][vc]
    ensures a == b
  {
    forall p | 0 <= p < plyCount ensures a[p] == b[p] {
      forall vr | 0 <= vr < 8 ensures a[p][vr] == b[p][vr] {
      }
    }
  }

  /** A cell no record of that colour addresses stays 0. */
  lemma {:induction false} LastPowerUnhit(rs: seq<SquareRecord>, color: Color, ply: int, sq: Square)
    requires forall i :: 0 <= i < |rs| ==> !(rs[i].color == color && rs[i].ply == ply && rs[i].square == sq)
    ensures LastPower(rs, color, ply, sq) == 0
    decreases |rs|
  {
    if |rs| > 0 {
      LastPowerUnhit(rs[..|rs| - 1], color, ply, sq);
    }
  }

  /**
   * When every record for (`color`, `ply`, `sq`) carries the same power and there is one,
   * that power is what the cell holds, whatever the order of the records.
   */
  lemma {:induction false} LastPowerConsistent(rs: seq<SquareRecord>, color: Color, ply: int, sq: Square, power: nat)
    requires exists i :: 0 <= i < |rs| && rs[i].color == color && rs[i].ply == ply && rs[i].square == sq
    requires forall i :: 0 <= i < |rs| && rs[i].color == color && rs[i].ply == ply && rs[i].square == sq ==> rs[i].power == power
    ensures LastPower(rs, color, ply, sq) == power
    decreases |rs|
  {
    var last := rs[|rs| - 1];
    var prefix := rs[..|rs| - 1];
    if !(last.color == color && last.ply == ply && last.square == sq) {
      var i :| 0 <= i < |rs| && rs[i].color == color && rs[i].ply == ply && rs[i].square == sq;
      assert prefix[i] == rs[i];
      LastPowerConsistent(prefix, color, ply, sq, power);
    }
  }

  /** The maximum bounds every power of that colour, and is 0 or one of them. */
  lemma {:induction false} MaxPowerIsMaximum(rs: seq<SquareRecord>, color: Color)
    ensures forall i :: 0 <= i < |rs| && rs[i].color == color ==> rs[i].power <= MaxPower(rs, color)
    ensures MaxPower(rs, color) == 0 || exists i :: 0 <= i < |rs| && rs[i].color == color && rs[i].power == MaxPower(rs, color)
    decreases |rs|
  {
    if |rs| > 0 {
      var prefix := rs[..|rs| - 1];
      MaxPowerIsMaximum(prefix, color);
      forall i | 0 <= i < |rs| - 1 ensures rs[i] == prefix[i] { }
    }
  }

  /**
   * The mapping invariant: a white record for square `s` with power `p` is found at
   * `white[ply][7 - s div 8][s mod 8]`, a black one at `black[ply][7 - s div 8][7 - s mod 8]`,
   * provided no other record for the same ply, square and colour disagrees with it.
   */
  lemma PlacementOfRecord(rs: seq<SquareRecord>, plyCount: nat, i: int)
    requires 0 <= i < |rs| && rs[i].ply < plyCount
    requires forall j :: 0 <= j < |rs| && SameCell(rs[j], rs[i]) ==> rs[j].power == rs[i].power
    ensures var r := rs[i]; var g := GameDataOf(rs, plyCount);
      && (r.color == White ==> g.white[r.ply][7 - r.square / 8][r.square % 8] == r.power)
      && (r.color == Black ==> g.black[r.ply][7 - r.square / 8][7 - r.square % 8] == r.power)
  {
    var r := rs[i];
    LastPowerConsistent(rs, r.color, r.ply, r.square, r.power);
    CellOfRoundTrip(r.color, r.square);
  }

  /** A cell that no record of its colour addresses holds 0. */
  lemma UnhitCellIsZero(rs: seq<SquareRecord>, plyCount: nat, color: Color, ply: int, vr: int, vc: int)
    requires 0 <= ply < plyCount && 0 <= vr < 8 && 0 <= vc < 8
    requires forall i :: 0 <= i < |rs| ==> !(rs[i].color == color && rs[i].ply == ply && rs[i].square == SquareAt(color, vr, vc))
    ensures var g := GameDataOf(rs, plyCount);
      (if color == White then g.white else g.black)[ply][vr][vc] == 0
  {
    LastPowerUnhit(rs, color, ply, SquareAt(color, vr, vc));
  }

  lemma {:induction false} LastPowerDuplicate(a: seq<SquareRecord>, x: SquareRecord, b: seq<SquareRecord>, color: Color, ply: int, sq: Square)
    ensures LastPower(a + [x, x] + b, color, ply, sq) == LastPower(a + [x] + b, color, ply, sq)
    decreases |b|
  {
    var twice := a + [x, x] + b;
    var once := a + [x] + b;
    if |b| == 0 {
      assert twice[..|twice| - 1] == once;
      assert once[..|once| - 1] == a;
    } else {
      var front := b[..|b| - 1];
      assert twice[..|twice| - 1] == a + [x, x] + front;
      assert once[..|once| - 1] == a + [x] + front;
      LastPowerDuplicate(a, x, front, color, ply, sq);
    }
  }

  lemma {:induction false} MaxPowerDuplicate(a: seq<SquareRecord>, x: SquareRecord, b: seq<SquareRecord>, color: Color)
    ensures MaxPower(a + [x, x] + b, color) == MaxPower(a + [x] + b, color)
    decreases |b|
  {
    var twice := a + [x, x] + b;
    var once := a + [x] + b;
    if |b| == 0 {
      assert twice[..|twice| - 1] == once;
      assert once[..|once| - 1] == a;
    } else {
      var front := b[..|b| - 1];
      assert twice[..|twice| - 1] == a + [x, x] + front;
      assert once[..|once| - 1] == a + [x] + front;
      MaxPowerDuplicate(a, x, front, color);
    }
  }

  /** A record repeated right after itself (a square without attackers) changes neither grid nor maximum. */
  lemma DuplicateRecordHarmless(a: seq<SquareRecord>, x: SquareRecord, b: seq<SquareRecord>, plyCount: nat)
    ensures GameDataOf(a + [x, x] + b, plyCount) == GameDataOf(a + [x] + b, plyCount)
  {
    var twice := a + [x, x] + b;
    var once := a + [x] + b;
    forall color: Color ensures GridOf(twice, color, plyCount) == GridOf(once, color, plyCount) {
      forall p, vr, vc | 0 <= p < plyCount && 0 <= vr < 8 && 0 <= vc < 8
        ensures GridOf(twice, color, plyCount)[p][vr][vc] == GridOf(once, color, plyCount)[p][vr][vc]
      {
        LastPowerDuplicate(a, x, b, color, p, SquareAt(color, vr, vc));
      }
      GridExtensionality(GridOf(twice, color, plyCount), GridOf(once, color, plyCount), plyCount);
    }
    MaxPowerDuplicate(a, x, b, White);
    MaxPowerDuplicate(a, x, b, Black);
  }

  /** Appending a record changes only its own colour's grid, and there only its own cell. */
  lemma GridStep(rs: seq<SquareRecord>, r: SquareRecord, color: Color, plyCount: nat)
    requires r.ply < plyCount
    ensures r.color != color ==> GridOf(rs + [r], color, plyCount) == GridOf(rs, color, plyCount)
    ensures r.color == color ==>
      GridOf(rs + [r], color, plyCount) == SetCell(GridOf(rs, color, plyCount), r.ply, CellOf(color, r.square).0, CellOf(color, r.square).1, r.power)
  {
    var before := GridOf(rs, color, plyCount);
    var after := GridOf(rs + [r], color, plyCount);
    assert (rs + [r])[..|rs|] == rs;
    if r.color == color {
      var cell := CellOf(color, r.square);
      var written := SetCell(before, r.ply, cell.0, cell.1, r.power);
      forall p, vr, vc | 0 <= p < plyCount && 0 <= vr < 8 && 0 <= vc < 8 ensures after[p][vr][vc] == written[p][vr][vc] {
        SquareAtRoundTrip(color, vr, vc);
        CellOfRoundTrip(color, r.square);
      }
      GridExtensionality(after, written, plyCount);
    } else {
      GridExtensionality(after, before, plyCount);
    }
  }

  lemma MaxPowerStep(rs: seq<SquareRecord>, r: SquareRecord, color: Color)
    ensures MaxPower(rs + [r], color) == if r.color == color && r.power > MaxPower(rs, color) then r.power else MaxPower(rs, color)
  {
    assert (rs + [r])[..|rs|] == rs;
  }

  /** `[[0 for x in range(8)] for y in range(8)]`. */
  function ZeroLayer(): seq<seq<nat>>
  {
    seq(8, y => seq(8, x => 0))
  }

  /** Before any record, both grids are `plyCount` layers of 8 x 8 zeros. */
  lemma GridOfNoRecords(color: Color, plyCount: nat)
    ensures GridOf([], color, plyCount) == seq(plyCount, ply => ZeroLayer())
  {
    var zeros := seq(plyCount, ply => ZeroLayer());
    assert HasShape(zeros, plyCount);
    GridExtensionality(GridOf([], color, plyCount), zeros, plyCount);
  }

  // ---------------------------------------------------------------------------
  // The operation

  /** The first loop of `get_game_data`: one 8 x 8 layer of zeros per ply in each grid, i.e. the grids of no records. */
  method ZeroGrids(plyCount: nat) returns (white: Grid, black: Grid)
    ensures white == GridOf([], White, plyCount) && black == GridOf([], Black, plyCount)
  {
    white := [];
    black := [];
    for each := 0 to plyCount
      invariant white == seq(each, ply => ZeroLayer())
      invariant black == seq(each, ply => ZeroLayer())
    {
      var plyMapWhite := ZeroLayer();
      var plyMapBlack := ZeroLayer();
      white := white + [plyMapWhite];
      black := black + [plyMapBlack];
    }
    GridOfNoRecords(White, plyCount);
    GridOfNoRecords(Black, plyCount);
  }

  /** One pass of the second loop of `get_game_data`: write the record's power into its cell and raise its colour's maximum. */
  method AddRecord(ghost rs: seq<SquareRecord>, plyCount: nat, gameData: GameData, resultForSquare: SquareRecord)
    returns (next: GameData)
    requires resultForSquare.ply < plyCount && gameData == GameDataOf(rs, plyCount)
    ensures next == GameDataOf(rs + [resultForSquare], plyCount)
  {
    GridStep(rs, resultForSquare, White, plyCount);
    GridStep(rs, resultForSquare, Black, plyCount);
    MaxPowerStep(rs, resultForSquare, White);
    MaxPowerStep(rs, resultForSquare, Black);
    next := gameData;
    var plyNo := resultForSquare.ply;
    var squareIndex := resultForSquare.square;
    var row := squareIndex / 8;
    var column := squareIndex % 8;
    if resultForSquare.color == White {
      var power := resultForSquare.power;
      if power > next.maxWhiteValue {
        next := next.(maxWhiteValue := power);
      }
      next := next.(white := SetCell(next.white, plyNo, 7 - row, column, power));
    } else {
      var power := resultForSquare.power;
      if power > next.maxBlackValue {
        next := next.(maxBlackValue := power);
      }
      next := next.(black := SetCell(next.black, plyNo, 7 - row, 7 - column, power));
    }
  }

  /** Indexing `game_data[color][ply_no]` with a ply number that is not below `ply_count`. */
  datatype IndexError = IndexError

  /**
   * `get_game_data(result_list, ply_count)`: the grids and maxima of `GameDataOf`, or
   * IndexError when some record names a ply that is not below `ply_count`.
   */
  method GetGameData(resultList: seq<SquareRecord>, plyCount: nat) returns (outcome: Result<GameData, IndexError>)
    ensures outcome.Failure? <==> exists i :: 0 <= i < |resultList| && resultList[i].ply >= plyCount
    ensures outcome.Success? ==> outcome.value == GameDataOf(resultList, plyCount)
  {
    var white, black := ZeroGrids(plyCount);
    var gameData := GameData(white, black, 0, 0);
    for i := 0 to |resultList|
      invariant gameData == GameDataOf(resultList[..i], plyCount)
      invariant forall j :: 0 <= j < i ==> resultList[j].ply < plyCount
    {
      var resultForSquare := resultList[i];
      if resultForSquare.ply >= plyCount {
        return Failure(IndexError);
      }
      assert resultList[..i + 1] == resultList[..i] + [resultForSquare];
      gameData := AddRecord(resultList[..i], plyCount, gameData, resultForSquare);
    }
    assert resultList[..|resultList|] == resultList;
    outcome := Success(gameData);
  }

}
