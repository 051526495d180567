/**
 * `ChessDaskCluster` (chess_dask_cluster.py): the per-game analysis a worker runs, the game
 * label, the configuration defaults and the numbering and batching of games. The dask calls
 * are replaced by what they compute: `map` followed by `gather` gives one result per task in
 * submission order, and whether a game's `wait` timed out is a parameter.
 */
module DaskCluster {
  import opened Wrappers
  import opened Chess
  import opened ChessUtil
  import opened GameAggregation
  import opened Batching

  /** A value read from config.yaml. */
  datatype ConfigValue = IntValue(i: int) | BoolValue(b: bool) | StrValue(s: string)

  /** `{"game": ..., "game_no": ..., "timeout": ...}`. */
  datatype GameTask = GameTask(game: Game, gameNo: nat, timeout: ConfigValue)

  /** The game data dict with its "filename" entry. */
  datatype GameResult = GameResult(data: GameData, filename: string)

  // ---------------------------------------------------------------------------
  // The game label `str(game_no) + " " + game.headers["Event"]`

  predicate IsDigit(c: char)
  {
    '0' <= c <= '9'
  }

  /** `str(n)` for a non-negative integer. */
  function DecimalString(n: nat): (s: string)
    ensures |s| > 0 && forall i :: 0 <= i < |s| ==> IsDigit(s[i])
    decreases n
  {
    var digit := (('0' as int) + n % 10) as char;
    if n < 10 then [digit] else DecimalString(n / 10) + [digit]
  }

  function DigitValue(c: char): nat
    requires IsDigit(c)
  {
    c as int - '0' as int
  }

  /** The number a string of decimal digits denotes. */
  function DecimalValue(s: string): nat
    requires forall i :: 0 <= i < |s| ==> IsDigit(s[i])
    decreases |s|
  {
    if |s| == 0 then 0 else DecimalValue(s[..|s| - 1]) * 10 + DigitValue(s[|s| - 1])
  }

  lemma {:induction false} DecimalRoundTrip(n: nat)
    ensures DecimalValue(DecimalString(n)) == n
    decreases n
  {
    if n >= 10 {
      DecimalRoundTrip(n / 10);
      var s := DecimalString(n);
      assert s[..|s| - 1] == DecimalString(n / 10);
    }
  }

  function GameLabel(gameNo: nat, event: string): string
  {
    DecimalString(gameNo) + " " + event
  }

  /** The position of the first space in `s`, or `|s|`. */
  function FirstSpace(s: string): (k: nat)
    ensures k <= |s| && (k < |s| ==> s[k] == ' ')
    decreases |s|
  {
    if |s| == 0 || s[0] == ' ' then 0 else 1 + FirstSpace(s[1..])
  }

  /** Reads a label back: the digits before the first space and the text after it. */
  function ParseLabel(text: string): Option<(nat, string)>
  {
    var k := FirstSpace(text);
    if 0 < k < |text| && forall i :: 0 <= i < k ==> IsDigit(text[i]) then
      Some((DecimalValue(text[..k]), text[k + 1..]))
    else None
  }

  lemma {:induction false} FirstSpaceAfterDigits(digits: string, rest: string)
    requires forall i :: 0 <= i < |digits| ==> IsDigit(digits[i])
    ensures FirstSpace(digits + " " + rest) == |digits|
    decreases |digits|
  {
    if |digits| > 0 {
      assert (digits + " " + rest)[1..] == digits[1..] + " " + rest;
      FirstSpaceAfterDigits(digits[1..], rest);
    }
  }

  /** The label determines the game number and the event: different games get different labels. */
  lemma GameLabelRoundTrip(gameNo: nat, event: string)
    ensures ParseLabel(GameLabel(gameNo, event)) == Some((gameNo, event))
  {
    var digits := DecimalString(gameNo);
    var text := GameLabel(gameNo, event);
    FirstSpaceAfterDigits(digits, event);
    assert text[..|digits|] == digits;
    assert text[|digits| + 1..] == event;
    DecimalRoundTrip(gameNo);
  }

  // ---------------------------------------------------------------------------
  // One game in a worker

  /** `game_results`: the records of every ply, ply after ply. */
  function GameRecords(attacks: AttackOracle, infos: seq<PlyInfo>): seq<SquareRecord>
    requires SoundOracle(attacks)
    decreases |infos|
  {
    if |infos| == 0 then [] else GameRecords(attacks, infos[..|infos| - 1]) + PlyRecords(attacks, infos[|infos| - 1])
  }

  /** `control_list_for_game`: the gathered records of each ply, one list per ply. */
  function ControlLists(attacks: AttackOracle, infos: seq<PlyInfo>): (r: seq<seq<SquareRecord>>)
    requires SoundOracle(attacks)
    ensures |r| == |infos|
    decreases |infos|
  {
    if |infos| == 0 then [] else ControlLists(attacks, infos[..|infos| - 1]) + [PlyRecords(attacks, infos[|infos| - 1])]
  }

  lemma ControlListsSnoc(attacks: AttackOracle, infos: seq<PlyInfo>, j: nat)
    requires SoundOracle(attacks) && j < |infos|
    ensures ControlLists(attacks, infos[..j + 1]) == ControlLists(attacks, infos[..j]) + [PlyRecords(attacks, infos[j])]
  {
    assert infos[..j + 1][..j] == infos[..j];
  }

  /** Extending by each ply's list in turn gives the game's records. */
  lemma {:induction false} GameRecordsFlatten(attacks: AttackOracle, infos: seq<PlyInfo>)
    requires SoundOracle(attacks)
    ensures Flatten(ControlLists(attacks, infos)) == GameRecords(attacks, infos)
    decreases |infos|
  {
    if |infos| > 0 {
      var front := infos[..|infos| - 1];
      GameRecordsFlatten(attacks, front);
      FlattenSnoc(ControlLists(attacks, front), PlyRecords(attacks, infos[|infos| - 1]));
    }
  }

  /** What `analyse_game_in_worker` returns: nothing when the ply tasks timed out, the whole grid otherwise. */
  function GameAnalysis(attacks: AttackOracle, push: PushOracle, task: GameTask, timedOut: bool): Option<GameResult>
    requires SoundOracle(attacks)
  {
    if timedOut then None
    else
      var moves := task.game.mainlineMoves;
      var records := GameRecords(attacks, PlyInfos(push, moves));
      Some(GameResult(GameDataOf(records, |moves|), GameLabel(task.gameNo, task.game.event)))
  }

  ghost predicate Numbered(infos: seq<PlyInfo>)
  {
    forall k :: 0 <= k < |infos| ==> infos[k].plyNo == k
  }

  ghost predicate HasRecord(rs: seq<SquareRecord>, color: Color, ply: int, sq: Square)
  {
    exists i :: 0 <= i < |rs| && rs[i].color == color && rs[i].ply == ply && rs[i].square == sq
  }

  /** Every record carries the snapshot's ply and the power of its square and colour there. */
  ghost predicate PlyFacts(attacks: AttackOracle, info: PlyInfo, rs: seq<SquareRecord>)
    requires SoundOracle(attacks)
  {
    forall i :: 0 <= i < |rs| ==> rs[i].ply == info.plyNo && rs[i].power == Power(attacks, info.position, rs[i].color, rs[i].square)
  }

  /** Every record names one of the plies and carries the power of its square and colour there. */
  ghost predicate GameFacts(attacks: AttackOracle, infos: seq<PlyInfo>, rs: seq<SquareRecord>)
    requires SoundOracle(attacks)
  {
    forall i :: 0 <= i < |rs| ==>
      rs[i].ply < |infos| && rs[i].power == Power(attacks, infos[rs[i].ply].position, rs[i].color, rs[i].square)
  }

  lemma PlyFactsAppend(attacks: AttackOracle, info: PlyInfo, white: seq<SquareRecord>, black: seq<SquareRecord>)
    requires SoundOracle(attacks)
    requires RecordsOf(attacks, info, White, white) && RecordsOf(attacks, info, Black, black)
    ensures PlyFacts(attacks, info, white + black)
  {
    var rs := white + black;
    forall i | 0 <= i < |rs|
      ensures rs[i].ply == info.plyNo && rs[i].power == Power(attacks, info.position, rs[i].color, rs[i].square)
    {
      if i >= |white| {
        assert rs[i] == black[i - |white|];
      }
    }
  }

  /** The records of `find_control_for_square(info)` carry its ply and their squares' powers. */
  lemma PlyRecordsPower(attacks: AttackOracle, info: PlyInfo)
    requires SoundOracle(attacks)
    ensures PlyFacts(attacks, info, PlyRecords(attacks, info))
  {
    ColorRecordsShape(attacks, info, White);
    ColorRecordsShape(attacks, info, Black);
    PlyFactsAppend(attacks, info, ColorRecords(attacks, info, White), ColorRecords(attacks, info, Black));
  }

  lemma HasRecordAppend(a: seq<SquareRecord>, b: seq<SquareRecord>, color: Color, ply: int, sq: Square)
    requires HasRecord(a, color, ply, sq) || HasRecord(b, color, ply, sq)
    ensures HasRecord(a + b, color, ply, sq)
  {
    var rs := a + b;
    if HasRecord(a, color, ply, sq) {
      var i :| 0 <= i < |a| && a[i].color == color && a[i].ply == ply && a[i].square == sq;
      assert rs[i] == a[i];
    } else {
      var i :| 0 <= i < |b| && b[i].color == color && b[i].ply == ply && b[i].square == sq;
      assert rs[|a| + i] == b[i];
    }
  }

  /** Every square has a record of each colour in a ply. */
  lemma PlyRecordsCover(attacks: AttackOracle, info: PlyInfo, color: Color, sq: Square)
    requires SoundOracle(attacks)
    ensures HasRecord(PlyRecords(attacks, info), color, info.plyNo, sq)
  {
    var white := ColorRecords(attacks, info, White);
    var black := ColorRecords(attacks, info, Black);
    var mine := if color == White then white else black;
    ColorRecordsShape(attacks, info, color);
    assert HasRecordFor(mine, sq);
    var i :| 0 <= i < |mine| && mine[i].square == sq;
    assert HasRecord(mine, color, info.plyNo, sq);
    HasRecordAppend(white, black, color, info.plyNo, sq);
  }

  lemma GameFactsAppend(attacks: AttackOracle, infos: seq<PlyInfo>, prefix: seq<SquareRecord>, here: seq<SquareRecord>)
    requires SoundOracle(attacks) && Numbered(infos) && |infos| > 0
    requires GameFacts(attacks, infos[..|infos| - 1], prefix) && PlyFacts(attacks, infos[|infos| - 1], here)
    ensures GameFacts(attacks, infos, prefix + here)
  {
    var front := infos[..|infos| - 1];
    var rs := prefix + here;
    forall i | 0 <= i < |rs|
      ensures rs[i].ply < |infos| && rs[i].power == Power(attacks, infos[rs[i].ply].position, rs[i].color, rs[i].square)
    {
      if i < |prefix| {
        assert rs[i] == prefix[i] && front[prefix[i].ply] == infos[prefix[i].ply];
      } else {
        assert rs[i] == here[i - |prefix|];
      }
    }
  }

  /** Every record of a game names one of its plies and carries the power of its square there. */
  lemma {:induction false} GameRecordsFacts(attacks: AttackOracle, infos: seq<PlyInfo>)
    requires SoundOracle(attacks) && Numbered(infos)
    ensures GameFacts(attacks, infos, GameRecords(attacks, infos))
    decreases |infos|
  {
    if |infos| > 0 {
      var front := infos[..|infos| - 1];
      var last := infos[|infos| - 1];
      assert Numbered(front) by {
        forall k | 0 <= k < |front| ensures front[k].plyNo == k {
          assert front[k] == infos[k];
        }
      }
      GameRecordsFacts(attacks, front);
      PlyRecordsPower(attacks, last);
      GameFactsAppend(attacks, infos, GameRecords(attacks, front), PlyRecords(attacks, last));
    }
  }

  /** In particular every record of a game names one of its plies. */
  lemma GameRecordsPlies(attacks: AttackOracle, infos: seq<PlyInfo>)
    requires SoundOracle(attacks) && Numbered(infos)
    ensures var rs := GameRecords(attacks, infos);
      forall i :: 0 <= i < |rs| ==> rs[i].ply < |infos|
  {
    GameRecordsFacts(attacks, infos);
  }

  /** Every ply, square and colour of a game has a record. */
  lemma {:induction false} GameRecordsCover(attacks: AttackOracle, infos: seq<PlyInfo>, ply: int, color: Color, sq: Square)
    requires SoundOracle(attacks) && Numbered(infos) && 0 <= ply < |infos|
    ensures HasRecord(GameRecords(attacks, infos), color, ply, sq)
    decreases |infos|
  {
    var front := infos[..|infos| - 1];
    var last := infos[|infos| - 1];
    if ply < |front| {
      assert Numbered(front) by {
        forall k | 0 <= k < |front| ensures front[k].plyNo == k {
          assert front[k] == infos[k];
        }
      }
      GameRecordsCover(attacks, front, ply, color, sq);
    } else {
      PlyRecordsCover(attacks, last, color, sq);
    }
    HasRecordAppend(GameRecords(attacks, front), PlyRecords(attacks, last), color, ply, sq);
  }

  /** Records that are right about every ply and cover every cell fill each cell with its square's power. */
  lemma GridFromFacts(attacks: AttackOracle, infos: seq<PlyInfo>, rs: seq<SquareRecord>, ply: int, sq: Square)
    requires SoundOracle(attacks) && GameFacts(attacks, infos, rs) && 0 <= ply < |infos|
    requires HasRecord(rs, White, ply, sq) && HasRecord(rs, Black, ply, sq)
    ensures var g := GameDataOf(rs, |infos|);
      && g.white[ply][7 - sq / 8][sq % 8] == Power(attacks, infos[ply].position, White, sq)
      && g.black[ply][7 - sq / 8][7 - sq % 8] == Power(attacks, infos[ply].position, Black, sq)
  {
    LastPowerConsistent(rs, White, ply, sq, Power(attacks, infos[ply].position, White, sq));
    LastPowerConsistent(rs, Black, ply, sq, Power(attacks, infos[ply].position, Black, sq));
    CellOfRoundTrip(White, sq);
    CellOfRoundTrip(Black, sq);
  }

  /** ... and make each colour's maximum the largest power of that colour, or 0. */
  lemma MaximumFromFacts(attacks: AttackOracle, infos: seq<PlyInfo>, rs: seq<SquareRecord>, color: Color)
    requires SoundOracle(attacks) && GameFacts(attacks, infos, rs)
    requires forall ply, sq: Square :: 0 <= ply < |infos| ==> HasRecord(rs, color, ply, sq)
    ensures var m := MaxPower(rs, color);
      && (forall ply, sq: Square :: 0 <= ply < |infos| ==> Power(attacks, infos[ply].position, color, sq) <= m)
      && (m == 0 || exists ply, sq: Square :: 0 <= ply < |infos| && Power(attacks, infos[ply].position, color, sq) == m)
  {
    MaxPowerIsMaximum(rs, color);
    var m := MaxPower(rs, color);
    forall ply, sq: Square | 0 <= ply < |infos| ensures Power(attacks, infos[ply].position, color, sq) <= m {
      assert HasRecord(rs, color, ply, sq);
    }
    if m != 0 {
      var i :| 0 <= i < |rs| && rs[i].color == color && rs[i].power == m;
      assert Power(attacks, infos[rs[i].ply].position, color, rs[i].square) == m;
    }
  }

  /**
   * A game that timed out yields nothing; any other yields grids of exactly one 8 x 8
   * layer per move for each colour, labelled with its number and event.
   */
  lemma GameAnalysisOutcome(attacks: AttackOracle, push: PushOracle, task: GameTask, timedOut: bool)
    requires SoundOracle(attacks)
    ensures var r := GameAnalysis(attacks, push, task, timedOut);
      && (r.None? <==> timedOut)
      && (r.Some? ==> HasShape(r.value.data.white, |task.game.mainlineMoves|) && HasShape(r.value.data.black, |task.game.mainlineMoves|))
      && (r.Some? ==> ParseLabel(r.value.filename) == Some((task.gameNo, task.game.event)))
  {
    GameLabelRoundTrip(task.gameNo, task.game.event);
  }

  /**
   * The grid of a game that did not time out shows, for every ply and square, the control
   * power of that square in the position after that ply: in white's grid at row 7 - s div 8,
   * column s mod 8, in black's at row 7 - s div 8, column 7 - s mod 8.
   */
  lemma GameGridIsControlPower(attacks: AttackOracle, push: PushOracle, task: GameTask, ply: int, sq: Square)
    requires SoundOracle(attacks)
    requires 0 <= ply < |task.game.mainlineMoves|
    ensures var infos := PlyInfos(push, task.game.mainlineMoves);
      var g := GameAnalysis(attacks, push, task, false).value.data;
      && g.white[ply][7 - sq / 8][sq % 8] == Power(attacks, infos[ply].position, White, sq)
      && g.black[ply][7 - sq / 8][7 - sq % 8] == Power(attacks, infos[ply].position, Black, sq)
  {
    var infos := PlyInfos(push, task.game.mainlineMoves);
    GameRecordsFacts(attacks, infos);
    GameRecordsCover(attacks, infos, ply, White, sq);
    GameRecordsCover(attacks, infos, ply, Black, sq);
    GridFromFacts(attacks, infos, GameRecords(attacks, infos), ply, sq);
  }

  /** Each colour's maximum is the largest control power of that colour over all plies and squares, or 0. */
  lemma GameMaximumIsControlMaximum(attacks: AttackOracle, push: PushOracle, task: GameTask, color: Color)
    requires SoundOracle(attacks)
    ensures var infos := PlyInfos(push, task.game.mainlineMoves);
      var g := GameAnalysis(attacks, push, task, false).value.data;
      var m := if color == White then g.maxWhiteValue else g.maxBlackValue;
      && (forall ply, sq: Square :: 0 <= ply < |infos| ==> Power(attacks, infos[ply].position, color, sq) <= m)
      && (m == 0 || exists ply, sq: Square :: 0 <= ply < |infos| && Power(attacks, infos[ply].position, color, sq) == m)
  {
    var infos := PlyInfos(push, task.game.mainlineMoves);
    var rs := GameRecords(attacks, infos);
    GameRecordsFacts(attacks, infos);
    forall ply, sq: Square | 0 <= ply < |infos| ensures HasRecord(rs, color, ply, sq) {
      GameRecordsCover(attacks, infos, ply, color, sq);
    }
    MaximumFromFacts(attacks, infos, rs, color);
  }

  /**
   * `client.gather(client.map(find_control_for_square, tasks))` over the ply snapshots:
   * one record list per snapshot, in submission order.
   */
  method GatherPlyControl(attacks: AttackOracle, tasks: seq<PlyInfo>) returns (controlListForGame: seq<seq<SquareRecord>>)
    requires SoundOracle(attacks)
    ensures controlListForGame == ControlLists(attacks, tasks)
  {
    controlListForGame := [];
    for j := 0 to |tasks|
      invariant controlListForGame == ControlLists(attacks, tasks[..j])
    {
      var plyList := FindControlForSquare(attacks, tasks[j]);
      ControlListsSnoc(attacks, tasks, j);
      controlListForGame := controlListForGame + [plyList];
    }
    assert tasks[..|tasks|] == tasks;
  }

  /** `for ply_list in lists: game_results.extend(ply_list)` from an empty list. */
  method ExtendAll<T>(lists: seq<seq<T>>) returns (gameResults: seq<T>)
    ensures gameResults == Flatten(lists)
  {
    gameResults := [];
    for j := 0 to |lists|
      invariant gameResults == Flatten(lists[..j])
    {
      assert lists[..j + 1] == lists[..j] + [lists[j]];
      FlattenSnoc(lists[..j], lists[j]);
      gameResults := gameResults + lists[j];
    }
    assert lists[..|lists|] == lists;
  }

  /**
   * `analyse_game_in_worker`: replay the game, compute the records of every ply (the
   * ply-level `map` and `gather`), concatenate them and fold them into the grids. `timedOut`
   * stands for the outcome of `wait(task_futures, timeout)`.
   */
  method AnalyseGameInWorker(attacks: AttackOracle, push: PushOracle, gameDict: GameTask, timedOut: bool)
    returns (gameData: Option<GameResult>)
    requires SoundOracle(attacks)
    ensures gameData == GameAnalysis(attacks, push, gameDict, timedOut)
  {
    var game := gameDict.game;
    var gameNo := gameDict.gameNo;
    var tasksForGame := GeneratePlyInfoListForGame(game, push);
    var tasks := tasksForGame.gameTasks;
    gameData := None;
    if !timedOut {
      var controlListForGame := GatherPlyControl(attacks, tasks);
      var gameResults := ExtendAll(controlListForGame);
      GameRecordsFlatten(attacks, tasks);
      GameRecordsPlies(attacks, tasks);
      var outcome := GetGameData(gameResults, tasksForGame.plyCount);
      match outcome
      case Success(data) =>
        gameData := Some(GameResult(data, GameLabel(gameNo, game.event)));
      case Failure(_) =>
        // Every record names one of the game's plies.
        assert false;
    }
  }

  // ---------------------------------------------------------------------------
  // Configuration defaults

  type Config = map<string, ConfigValue>

  /** The defaults `__init__` fills in, in the order it checks them. */
  const DefaultTable: seq<(string, ConfigValue)> := [
    ("cluster_name", StrValue("chess-cluster")),
    ("software_environment_name", StrValue("chess-env")),
    ("n_workers", IntValue(50)),
    ("worker_cpu", IntValue(1)),
    ("worker_memory", IntValue(8)),
    ("scheduler_memory", IntValue(16)),
    ("scheduler_cpu", IntValue(4)),
    ("game_batch_size", IntValue(30)),
    ("timeout_per_game", IntValue(60)),
    ("debug", BoolValue(false))
  ]

  function Keys(table: seq<(string, ConfigValue)>): set<string>
  {
    set i | 0 <= i < |table| :: table[i].0
  }

  /** The first entry for `key` in `table`. */
  function Lookup(table: seq<(string, ConfigValue)>, key: string): Option<ConfigValue>
  {
    if |table| == 0 then None else if table[0].0 == key then Some(table[0].1) else Lookup(table[1..], key)
  }

  /** `if key not in config: config[key] = value`. */
  function SetDefault(m: Config, key: string, value: ConfigValue): Config
  {
    if key in m then m else m[key := value]
  }

  /** The entries of `table` applied in order, each only where its key is still absent. */
  function ApplyDefaults(m: Config, table: seq<(string, ConfigValue)>): Config
    decreases |table|
  {
    if |table| == 0 then m else SetDefault(ApplyDefaults(m, table[..|table| - 1]), table[|table| - 1].0, table[|table| - 1].1)
  }

  lemma {:induction false} LookupAppend(table: seq<(string, ConfigValue)>, entry: (string, ConfigValue), key: string)
    ensures Lookup(table + [entry], key) == if Lookup(table, key).Some? then Lookup(table, key) else if entry.0 == key then Some(entry.1) else None
    decreases |table|
  {
    if |table| > 0 {
      assert (table + [entry])[1..] == table[1..] + [entry];
      LookupAppend(table[1..], entry, key);
    }
  }

  lemma {:induction false} LookupKeys(table: seq<(string, ConfigValue)>, key: string)
    ensures Lookup(table, key).Some? <==> key in Keys(table)
    decreases |table|
  {
    if |table| > 0 {
      LookupKeys(table[1..], key);
      assert Keys(table) == {table[0].0} + Keys(table[1..]) by {
        forall k ensures k in Keys(table) <==> k in {table[0].0} + Keys(table[1..]) {
          if k in Keys(table) {
            var i :| 0 <= i < |table| && table[i].0 == k;
            if i > 0 { assert table[1..][i - 1].0 == k; }
          }
          if k in Keys(table[1..]) {
            var i :| 0 <= i < |table[1..]| && table[1..][i].0 == k;
            assert table[i + 1].0 == k;
          }
        }
      }
    }
  }

  /** Defaults add exactly their keys, never change a present value, and give an absent key its first default. */
  lemma {:induction false} ApplyDefaultsFacts(m: Config, table: seq<(string, ConfigValue)>)
    ensures var r := ApplyDefaults(m, table);
      && (forall k :: k in r <==> k in m || Lookup(table, k).Some?)
      && (forall k :: k in m ==> r[k] == m[k])
      && (forall k :: k !in m && Lookup(table, k).Some? ==> r[k] == Lookup(table, k).value)
    decreases |table|
  {
    if |table| > 0 {
      var front := table[..|table| - 1];
      var entry := table[|table| - 1];
      ApplyDefaultsFacts(m, front);
      assert table == front + [entry];
      forall k ensures Lookup(table, k) == if Lookup(front, k).Some? then Lookup(front, k) else if entry.0 == k then Some(entry.1) else None {
        LookupAppend(front, entry, k);
      }
    }
  }

  /** Filling in the same defaults twice changes nothing. */
  lemma {:induction false} ApplyDefaultsIdempotent(m: Config, table: seq<(string, ConfigValue)>)
    ensures ApplyDefaults(ApplyDefaults(m, table), table) == ApplyDefaults(m, table)
  {
    var once := ApplyDefaults(m, table);
    ApplyDefaultsFacts(m, table);
    ApplyDefaultsFacts(once, table);
  }

  function WithDefaults(loaded: Config): (r: Config)
    ensures r.Keys == loaded.Keys + Keys(DefaultTable)
    ensures forall k :: k in loaded ==> r[k] == loaded[k]
    ensures forall k :: k !in loaded && Lookup(DefaultTable, k).Some? ==> k in r && r[k] == Lookup(DefaultTable, k).value
  {
    ApplyDefaultsFacts(loaded, DefaultTable);
    forall k ensures Lookup(DefaultTable, k).Some? <==> k in Keys(DefaultTable) {
      LookupKeys(DefaultTable, k);
    }
    ApplyDefaults(loaded, DefaultTable)
  }

  /** A config value used as an integer: a bool counts as 0 or 1, a string raises TypeError. */
  function AsInteger(v: ConfigValue): Option<int>
  {
    match v
    case IntValue(i) => Some(i)
    case BoolValue(b) => Some(if b then 1 else 0)
    case StrValue(_) => None
  }

  datatype ClusterError = TypeError | ZeroDivisionError

  /** The results of all games in game order, and the batches handed to `client.map`, in order. */
  datatype BatchRun = BatchRun(allGameResults: seq<Option<GameResult>>, rounds: seq<seq<GameTask>>)

  /** `game_master_list`: the games numbered from 0 in input order, each with the timeout. */
  function NumberedGames(gameList: seq<Game>, timeout: ConfigValue): (r: seq<GameTask>)
    ensures |r| == |gameList| && forall i :: 0 <= i < |r| ==> r[i] == GameTask(gameList[i], i, timeout)
  {
    seq(|gameList|, i requires 0 <= i < |gameList| => GameTask(gameList[i], i, timeout))
  }

  function Abs(x: int): nat
  {
    if x < 0 then -x else x
  }

  /** The batch that started at the multiple `start` of the batch size is full exactly when `index` is a multiple. */
  lemma FullBatchIff(start: int, index: int, batchSize: int)
    requires batchSize != 0 && 0 <= start < index && start % Abs(batchSize) == 0 && index - start <= Abs(batchSize)
    ensures index % batchSize == 0 <==> index - start == Abs(batchSize)
    ensures index - start == Abs(batchSize) ==> index % Abs(batchSize) == 0
  {
    var b := Abs(batchSize);
    if batchSize < 0 {
      ModAbs(index, batchSize);
    }
    if index - start < b {
      ModOffset(start, index - start, b);
    } else {
      DivStep(start, b);
    }
  }

  /** Running the batch `tasks[start..end]` after the batches before `start`. */
  lemma Flush<T, R>(tasks: seq<T>, start: int, end: int, b: nat, run: T -> R)
    requires 0 <= start < end <= |tasks| && b > 0 && start % b == 0 && end - start <= b
    ensures Chunks(tasks[..end], b) == Chunks(tasks[..start], b) + [tasks[start..end]]
    ensures Gather(run, tasks[..end]) == Gather(run, tasks[..start]) + Gather(run, tasks[start..end])
  {
    assert tasks[..start] + tasks[start..end] == tasks[..end];
    ChunksAppend(tasks[..start], tasks[start..end], b);
    GatherAppend(run, tasks[..start], tasks[start..end]);
  }

  /**
   * The batching loop of `analyse_games_in_cluster`: append each task to the batch; when the
   * 1-based index is a multiple of the batch size, run the batch (`client.map` then
   * `client.gather`) and start a new one; run a non-empty remainder at the end. The index
   * test is Python's `%`, whose result is 0 exactly when that of Dafny's `%` is.
   */
  method RunInBatches<T, R>(tasks: seq<T>, batchSize: int, run: T -> R) returns (results: seq<R>, rounds: seq<seq<T>>)
    requires batchSize != 0
    ensures rounds == Chunks(tasks, Abs(batchSize))
    ensures results == Gather(run, tasks)
  {
    ghost var b := Abs(batchSize);
    ghost var start := 0;
    results := [];
    rounds := [];
    var index := 1;
    var batch: seq<T> := [];
    for j := 0 to |tasks|
      invariant index == j + 1
      invariant 0 <= start <= j && start % b == 0 && j - start < b
      invariant batch == tasks[start..j]
      invariant rounds == Chunks(tasks[..start], b)
      invariant results == Gather(run, tasks[..start])
    {
      batch := batch + [tasks[j]];
      assert batch == tasks[start..j + 1];
      FullBatchIff(start, index, batchSize);
      if index % batchSize == 0 {
        Flush(tasks, start, j + 1, b, run);
        rounds := rounds + [batch];
        results := results + Gather(run, batch);
        batch := [];
        start := j + 1;
      }
      index := index + 1;
    }
    if |batch| > 0 {
      Flush(tasks, start, |tasks|, b, run);
      rounds := rounds + [batch];
      results := results + Gather(run, batch);
    } else {
      assert tasks[..start] == tasks;
    }
    assert tasks[..|tasks|] == tasks;
  }

  class ChessDaskCluster {
    var configValues: Config

    /**
     * `__init__` from the mapping read from config.yaml: each key of `DefaultTable` that is
     * absent gets its default, in the table's order.
     */
    constructor(loaded: Config)
      ensures configValues == WithDefaults(loaded)
    {
      var values := loaded;
      for i := 0 to |DefaultTable|
        invariant values == ApplyDefaults(loaded, DefaultTable[..i])
      {
        var (key, value) := DefaultTable[i];
        assert DefaultTable[..i + 1][..i] == DefaultTable[..i];
        if key !in values {
          values := values[key := value];
        }
      }
      assert DefaultTable[..|DefaultTable|] == DefaultTable;
      configValues := values;
    }

    /**
     * The numbering and batching of `analyse_games_in_cluster`: games are numbered from 0,
     * a batch is dispatched whenever the 1-based index is divisible by the batch size, a
     * non-empty remainder is dispatched at the end, and each batch's results are appended in
     * order. `analyse` stands for the worker-side analysis of one game.
     */
    method AnalyseGamesInCluster(gameList: seq<Game>, analyse: GameTask -> Option<GameResult>)
      returns (outcome: Result<BatchRun, ClusterError>)
      requires "timeout_per_game" in configValues && "game_batch_size" in configValues
      ensures var tasks := NumberedGames(gameList, configValues["timeout_per_game"]);
        var size := AsInteger(configValues["game_batch_size"]);
        && (outcome.Failure? <==> |gameList| > 0 && (size.None? || size == Some(0)))
        && (outcome.Failure? ==> outcome.error == if size.None? then TypeError else ZeroDivisionError)
        && (outcome.Success? ==> outcome.value.allGameResults == Gather(analyse, tasks))
        && (outcome.Success? && |gameList| == 0 ==> outcome.value.rounds == [])
        && (outcome.Success? && |gameList| > 0 ==>
              var b := Abs(size.value);
              b > 0 && outcome.value.rounds == Chunks(tasks, b) && |outcome.value.rounds| == Rounds(|gameList|, b))
    {
      var gameNo := 0;
      var gameMasterList: seq<GameTask> := [];
      var timeout := configValues["timeout_per_game"];
      for j := 0 to |gameList|
        invariant gameNo == j
        invariant gameMasterList == NumberedGames(gameList[..j], timeout)
      {
        gameMasterList := gameMasterList + [GameTask(gameList[j], gameNo, timeout)];
        gameNo := gameNo + 1;
      }
      assert gameList[..|gameList|] == gameList;
      var tasks := gameMasterList;
      if |tasks| == 0 {
        return Success(BatchRun([], []));
      }
      // The first `index % game_batch_size` raises for a string or a zero batch size.
      var size := AsInteger(configValues["game_batch_size"]);
      if size.None? {
        return Failure(TypeError);
      }
      var batchSize := size.value;
      if batchSize == 0 {
        return Failure(ZeroDivisionError);
      }
      var allGameResults, rounds := RunInBatches(tasks, batchSize, analyse);
      ChunksCount(tasks, Abs(batchSize));
      outcome := Success(BatchRun(allGameResults, rounds));
    }
  }
}
