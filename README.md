# Chess square-control heatmap: a Dafny model

This project models the sequential core of a chess "control heatmap" tool. For every ply
(half-move) of a game, the tool counts how many pieces of each colour can be brought to
bear, one after the other, on each of the 64 squares. It then folds these per-square
records into one 8 x 8 grid per ply and colour. Games are analysed in batches on a cluster.

The model has these modules:

- `Chess` is the interface of the rules engine (python-chess).
  - A position is a map from squares (a1 = 0 ... h8 = 63) to pieces.
  - `board.attackers` is the function parameter `AttackOracle`. The model assumes only
    `SoundOracle`: every attacker is an occupied square of the queried colour.
  - `board.push` is the function parameter `PushOracle`.
  - `board.piece_type_at` is the function `PieceTypeAt`: the piece type on an occupied
    square, `None` on an empty one.
  - The mutable working and scratch boards are the class `Chess.Board`.
- `ChessUtil` models `ChessUtil` of chess_util.py.
  - The removal loop that computes a square's control power is `RemovalPower`. Its
    specification is the function `Power`, defined through `RemovalTrace`: the squares
    removed, in order, and whether the loop stopped on a lone king.
  - The per-colour and per-ply record lists are `FindControlForSquareForColor` and
    `FindControlForSquare`.
  - The replay of a game into one snapshot per ply is `GeneratePlyInfoListForGame`.
  - A SquareSet is a `set<Square>`. `list(attackers)` is `SquareSetList`, which lists the
    set in ascending order, as python-chess iterates it.
- `GameAggregation` models `get_game_data`: the records of one game folded into two
  `ply_count` x 8 x 8 grids and two running maxima.
- `Batching` holds the list arithmetic of the batching loop: `Chunks`, `Flatten`,
  `Gather` and `Rounds`. `Gather(f, batch)` is `client.gather(client.map(f, batch))`:
  one result per item, in submission order.
- `DaskCluster` models the rest of chess_dask_cluster.py:
  - the work one worker does for one game (`AnalyseGameInWorker`);
  - the game label;
  - the configuration defaults of `__init__` (class `ChessDaskCluster`, field `configValues`);
  - the numbering and batching of games in `analyse_games_in_cluster`.
  - The dask `map` followed by `gather` is replaced by what it computes: one result per
    task, in submission order.

The end-to-end result is `DaskCluster.GameGridIsControlPower`. For a game that did not
time out, white's grid at ply `i`, row `7 - s div 8`, column `s mod 8` holds the control
power of square `s` for white in the position after move `i + 1`. Black's grid holds the
same at row `7 - s div 8`, column `7 - s mod 8`.

Two details of the king rule follow the code exactly:

- When the first attacker is a king and others remain, the code takes the second attacker
  in ascending square order, not "some non-king attacker". That attacker is certainly not
  a king when the colour has at most one king; with two kings it can be the second king.
  `ChessUtil.TargetNotKing`, `ChessUtil.KingNeverRemoved` and the second half of
  `ChessUtil.KingSkipped` therefore assume `AtMostOneKing`, which holds in every position
  reached by legal play.
- The attacker order is fixed to ascending squares, because the code relies on
  `list(attackers)[0]` and `[1]`.

## Model

| member | source | states |
|---|---|---|
| ChessUtil.SquareSetList | chess_util.py:55-56 | `list(attackers)` holds exactly the members of the attacker set, strictly ascending, and has the set's length |
| ChessUtil.RemovalPower | chess_util.py:52-65 | the removal loop on a fresh scratch copy of the snapshot returns `Power` of that square and colour; the snapshot itself is a value and is not changed |
| ChessUtil.PowerStep | chess_util.py:58-65 | an iteration that does not stop removes an occupied square and adds one to the power of the smaller position |
| ChessUtil.PowerStop | chess_util.py:54-62 | an empty attacker set gives power 0; a lone king gives power exactly 1 |
| ChessUtil.LoneKingCountsOnce | chess_util.py:60-62 | a lone attacking king is counted once and nothing is removed |
| ChessUtil.PowerZeroIff | chess_util.py:47-54 | the power is 0 exactly when the square has no attacker of that colour |
| ChessUtil.TraceStep | chess_util.py:55-65 | a step removes the chosen attacker, a piece of the analysed colour, and the rest of the run continues on the position without it |
| ChessUtil.TargetNotKing | chess_util.py:58-59 | with at most one king of the colour, the square that a step removes never holds a king |
| ChessUtil.RemovedAreOwnPieces | chess_util.py:63 | every removal takes off a piece of the analysed colour |
| ChessUtil.RemovedAreDistinct | chess_util.py:63-65 | no square is removed twice |
| ChessUtil.KingNeverRemoved | chess_util.py:55-63 | with at most one king of that colour, no removed square holds a king |
| ChessUtil.KingSkipped | chess_util.py:58-63 | when the lowest attacker is a king and others remain, the second attacker is removed first; if that colour has at most one king, the king is never removed |
| ChessUtil.PowerBound | chess_util.py:54-65 | the power never exceeds the number of pieces of that colour on the snapshot |
| ChessUtil.UnattackedRecordedTwice | chess_util.py:47-67 | a square without attackers gets two identical records of power 0; any other square gets one |
| ChessUtil.RecordsBelowLength | chess_util.py:42-67 | the records of the squares below `n` number `n` plus the unattacked squares below `n` |
| ChessUtil.ColorRecordsLength | chess_util.py:47-67 | one colour's list has 64 records plus one per square with no attacker |
| ChessUtil.ColorRecordsShape | chess_util.py:38-67 | every record carries the snapshot's ply, the colour and the power of its square; squares appear in order a1..h8; every square has a record |
| ChessUtil.FindControlForSquareForColor | chess_util.py:34-68 | returns exactly `ColorRecords` of the snapshot and colour |
| ChessUtil.ConcatColors | chess_util.py:73-75 | in white records followed by black records, every record has the ply, and a record is white exactly when it lies in the first part |
| ChessUtil.FindControlForSquare | chess_util.py:71-75 | returns the white records followed by the black ones; their count, the ply on each record and where the colours change |
| ChessUtil.PlyInfosSteps | chess_util.py:22-29 | the snapshots are numbered 0, 1, ...; the first is the starting position after the first move; each later one is the previous one after the next move |
| ChessUtil.GeneratePlyInfoListForGame | chess_util.py:20-31 | `ply_count` is the number of main-line moves, and task `i` is ply `i` with the position after the first `i + 1` moves |
| Chess.Board.Initial | chess_util.py:22 | `Board()` holds the standard starting placement |
| Chess.Board.Copy | chess_util.py:53 | `board.copy()` holds the same placement as the snapshot it copies |
| Chess.Board.Push | chess_util.py:26 | `board.push(move)` replaces the placement by the engine's placement after the move |
| Chess.Board.RemovePieceAt | chess_util.py:63 | `remove_piece_at` empties that square and changes no other square |
| GameAggregation.CellOf | chess_dask_cluster.py:40-52 | a square's cell lies inside the 8 x 8 layer |
| GameAggregation.CellOfRoundTrip | chess_dask_cluster.py:41-52 | every square has its own cell in each colour's grid |
| GameAggregation.SquareAtRoundTrip | chess_dask_cluster.py:41-52 | every cell shows exactly one square: the white flip (rows only) and the black flip (rows and columns) are bijections |
| GameAggregation.GridOf | chess_dask_cluster.py:33-37 | each grid has exactly `ply_count` layers of 8 rows of 8 cells |
| GameAggregation.GridOfNoRecords | chess_dask_cluster.py:33-37 | before any record, both grids are `ply_count` layers of zeros |
| GameAggregation.LastPowerUnhit | chess_dask_cluster.py:33-37 | a cell that no record addresses keeps 0 |
| GameAggregation.LastPowerConsistent | chess_dask_cluster.py:38-52 | when all records for a cell agree on the power, the cell holds it, whatever their order |
| GameAggregation.MaxPowerIsMaximum | chess_dask_cluster.py:44-51 | the maximum is at least every power of that colour, and is 0 or one of them |
| GameAggregation.PlacementOfRecord | chess_dask_cluster.py:39-52 | a white record for square `s` lands at `white[ply][7 - s/8][s%8]`, a black one at `black[ply][7 - s/8][7 - s%8]`, unless another record for the same cell disagrees |
| GameAggregation.UnhitCellIsZero | chess_dask_cluster.py:34-37 | a cell hit by no record of its colour stays 0 |
| GameAggregation.DuplicateRecordHarmless | chess_dask_cluster.py:38-52 | a record repeated right after itself changes neither grid nor maximum |
| GameAggregation.GridStep | chess_dask_cluster.py:43-52 | one record changes only its own colour's grid, and there only its own cell |
| GameAggregation.MaxPowerStep | chess_dask_cluster.py:44-51 | one record raises only its own colour's maximum, and only when its power is larger |
| GameAggregation.AddRecord | chess_dask_cluster.py:38-52 | one pass of the record loop turns the game data of the records so far into that of one more record |
| GameAggregation.ZeroGrids | chess_dask_cluster.py:33-37 | the first loop builds the grids of no records |
| GameAggregation.GetGameData | chess_dask_cluster.py:24-54 | returns `GameDataOf` the records; IndexError exactly when some record names a ply not below `ply_count` |
| Batching.FlattenChunks | chess_dask_cluster.py:141-151 | putting the batches back together gives the numbered games in order |
| Batching.ChunksCount | chess_dask_cluster.py:141-151 | there are ceil(N / B) batches |
| Batching.ChunksSizes | chess_dask_cluster.py:141-151 | every batch is non-empty and holds at most B games; all but the last hold exactly B; the last holds N mod B, or B when that is 0 |
| Batching.ChunksAppend | chess_dask_cluster.py:143-146 | flushing after a whole number of batches continues the cutting independently |
| Batching.GatherAppend | chess_dask_cluster.py:145-151 | extending by each batch's results gives the results of all games in order |
| Batching.FlattenSnoc | chess_dask_cluster.py:75-76 | extending by one more list appends its items |
| Batching.ModAbs | chess_dask_cluster.py:143 | for a negative batch size the divisibility test is the one for its absolute value |
| DaskCluster.DecimalString | chess_dask_cluster.py:78 | `str(game_no)` is a non-empty string of decimal digits |
| DaskCluster.DecimalRoundTrip | chess_dask_cluster.py:78 | `str(game_no)` reads back as `game_no` |
| DaskCluster.FirstSpaceAfterDigits | chess_dask_cluster.py:78 | the first space of a label is the one after the number |
| DaskCluster.GameLabelRoundTrip | chess_dask_cluster.py:78 | the label `str(game_no) + " " + Event` gives back the game number and the event, so different games get different labels |
| DaskCluster.ControlListsSnoc | chess_dask_cluster.py:68-73 | gathering one more ply appends that ply's records |
| DaskCluster.GameRecordsFlatten | chess_dask_cluster.py:73-76 | extending by each ply's list in turn gives all records, ply after ply |
| DaskCluster.PlyRecordsPower | chess_dask_cluster.py:68-69 | every record of a ply carries that ply's number and its square's power |
| DaskCluster.PlyRecordsCover | chess_dask_cluster.py:68-69 | every square has a record of each colour for the ply |
| DaskCluster.GameRecordsFacts | chess_dask_cluster.py:66-76 | every record of a game names one of its plies and carries its square's power there |
| DaskCluster.GameRecordsPlies | chess_dask_cluster.py:66-77 | every record names a ply below `ply_count`, so `get_game_data` raises no IndexError |
| DaskCluster.GameRecordsCover | chess_dask_cluster.py:66-76 | every ply, square and colour of a game has a record |
| DaskCluster.GridFromFacts | chess_dask_cluster.py:38-52 | records that are right about every ply and cover every cell fill each cell with its square's power |
| DaskCluster.MaximumFromFacts | chess_dask_cluster.py:44-51 | such records make each maximum the largest power of that colour, or 0 |
| DaskCluster.GameAnalysisOutcome | chess_dask_cluster.py:70-81 | a timed-out game yields `None`; any other yields `ply_count` layers of 8 x 8 per colour and a label that reads back as its number and event |
| DaskCluster.GameGridIsControlPower | chess_dask_cluster.py:56-81 | each cell of a finished game's grids is the control power of its square in the position after that ply, under the white and the black flip |
| DaskCluster.GameMaximumIsControlMaximum | chess_dask_cluster.py:44-51 | each maximum of a finished game is the largest control power of that colour over all plies and squares, or 0 |
| DaskCluster.GatherPlyControl | chess_dask_cluster.py:68-73 | the ply-level map and gather return the records of each ply, in ply order |
| DaskCluster.ExtendAll | chess_dask_cluster.py:74-76 | extending an empty list by each list in turn gives their concatenation |
| DaskCluster.AnalyseGameInWorker | chess_dask_cluster.py:56-81 | returns `GameAnalysis` of the game and the timeout outcome |
| DaskCluster.LookupAppend | chess_dask_cluster.py:90-109 | a later entry for a key is used only when no earlier entry has that key |
| DaskCluster.LookupKeys | chess_dask_cluster.py:90-109 | a key has a default exactly when it is one of the table's keys |
| DaskCluster.ApplyDefaultsFacts | chess_dask_cluster.py:90-109 | filling in defaults adds exactly the absent default keys, keeps every present value and gives each absent key its default |
| DaskCluster.ApplyDefaultsIdempotent | chess_dask_cluster.py:90-109 | filling in the defaults twice changes nothing |
| DaskCluster.WithDefaults | chess_dask_cluster.py:90-109 | the keys are the loaded keys plus the ten default keys; loaded values are kept; an absent key gets its default |
| DaskCluster.ChessDaskCluster.constructor | chess_dask_cluster.py:89-109 | the configuration is the loaded mapping with the defaults filled in, in source order |
| DaskCluster.FullBatchIff | chess_dask_cluster.py:143 | inside a batch that began at a multiple of the batch size, the 1-based index is divisible by the batch size exactly when the batch is full |
| DaskCluster.Flush | chess_dask_cluster.py:143-151 | running one more batch appends it to the batches and its results to the results |
| DaskCluster.RunInBatches | chess_dask_cluster.py:139-151 | the batches dispatched are `Chunks` of the tasks by the absolute batch size, and the results are those of all tasks in order |
| DaskCluster.ChessDaskCluster.AnalyseGamesInCluster | chess_dask_cluster.py:131-151 | games are numbered from 0; results keep game order; ceil(N / B) batches; TypeError for a string batch size and ZeroDivisionError for 0, both only for a non-empty game list |

## Left out

- The cluster itself is not modelled: `LocalCluster`, coiled, `Client`, `get_client`, `wait` and `as_completed`. The distributed map and gather are modelled as what they compute.
- Timeouts are the boolean parameter `timedOut` of `DaskCluster.AnalyseGameInWorker`, because a real timeout depends on the clock.
- The per-game worker is the function parameter `analyse` of `AnalyseGamesInCluster`.
- Reading config.yaml and the `FileNotFoundError` check are I/O. The loaded mapping is the constructor's parameter; its keys are strings, and its values are integers, booleans or strings.
- The constructor models the ten `if ... not in` statements as one loop over a table of the same ten entries in the same order.
- Cluster creation (chess_dask_cluster.py:111-127) is left out: it passes configuration values to the cluster library.
- DaskCluster.ChessDaskCluster.constructor: always succeeds. The source reads `config_values["use_local_cluster"]` (chess_dask_cluster.py:111), a key that gets no default, so `__init__` raises KeyError for a config.yaml without it; the model does not capture that KeyError, because the constructor stops before that line.
- The JSON debug dump, image generation and every `print` are left out; they are output only.
- The image generator module, the thin command-line wrapper module and `get_games_from_pgn_files` (glob and PGN parsing) are left out.
- How python-chess computes attackers and moves is abstract. A position keeps only the piece placement, not side to move, castling or en-passant state.
- The first `new_board = board.copy()` (chess_util.py:46) is never used, so it is not modelled.
- A batch size read as a float from the YAML file is not modelled.
- DaskCluster.ChessDaskCluster.AnalyseGamesInCluster: requires that the configuration holds "timeout_per_game" and "game_batch_size". The constructor always puts them there; the source would raise KeyError otherwise.
- ChessUtil.KingSkipped: its second half (the king is never removed) assumes at most one king of the analysed colour, for the reason given for KingNeverRemoved.
- ChessUtil.KingNeverRemoved: assumes at most one king of the analysed colour. With two kings the code can remove a king, so the property holds only for positions reached by legal play.
