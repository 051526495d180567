/**
 * Square-control counting (`ChessUtil` of chess_util.py): for one ply snapshot and
 * one colour, the "power" of every square, i.e. how many pieces of that colour can be
 * brought to bear on it one after the other, and the replay of a game into one
 * snapshot per ply.
 */
module ChessUtil {
  import opened Wrappers
  import opened Chess

  /** `{"ply_no": ..., "board": board.copy()}`: an immutable snapshot of the board after a ply. */
  datatype PlyInfo = PlyInfo(plyNo: nat, position: Position)

  /** `{"game_tasks": ..., "ply_count": ...}`. */
  datatype GameTasks = GameTasks(gameTasks: seq<PlyInfo>, plyCount: nat)

  /**
   * A parsed game: the "Event" header (python-chess always provides it, "?" when the file
   * has none) and the moves of the main line.
   */
  datatype Game = Game(event: string, mainlineMoves: seq<Move>)

  /** `{"ply": ..., "square": ..., "white" | "black": power}`; the colour is the key that holds the power. */
  datatype SquareRecord = SquareRecord(ply: nat, square: Square, color: Color, power: nat)

  // ---------------------------------------------------------------------------
  // Iterating a SquareSet

  ghost predicate StrictlyIncreasing(s: seq<Square>)
  {
    forall i, j :: 0 <= i < j < |s| ==> s[i] < s[j]
  }

  /** The members of `s` that are at least `k`, in ascending order. */
  function SquaresFrom(s: set<Square>, k: int): (r: seq<Square>)
    requires 0 <= k <= 64
    ensures forall i :: 0 <= i < |r| ==> k <= r[i] && r[i] in s
    decreases 64 - k
  {
    if k == 64 then [] else (if k in s then [k as Square] else []) + SquaresFrom(s, k + 1)
  }

  lemma ConsIncreasing(x: Square, rest: seq<Square>)
    requires StrictlyIncreasing(rest)
    requires forall i :: 0 <= i < |rest| ==> x < rest[i]
    ensures StrictlyIncreasing([x] + rest)
  {
    var r := [x] + rest;
    forall i, j | 0 <= i < j < |r| ensures r[i] < r[j] {
      assert r[j] == rest[j - 1];
      if i > 0 {
        assert r[i] == rest[i - 1];
      }
    }
  }

  lemma {:induction false} SquaresFromSorted(s: set<Square>, k: int)
    requires 0 <= k <= 64
    ensures StrictlyIncreasing(SquaresFrom(s, k))
    decreases 64 - k
  {
    if k < 64 {
      SquaresFromSorted(s, k + 1);
      if k in s {
        ConsIncreasing(k as Square, SquaresFrom(s, k + 1));
      }
    }
  }

  lemma {:induction false} SquaresFromCovers(s: set<Square>, k: int)
    requires 0 <= k <= 64
    ensures forall x :: x in s && k <= x ==> x in SquaresFrom(s, k)
    decreases 64 - k
  {
    if k < 64 {
      SquaresFromCovers(s, k + 1);
      var rest := SquaresFrom(s, k + 1);
      if k in s {
        assert SquaresFrom(s, k) == [k as Square] + rest;
      } else {
        assert SquaresFrom(s, k) == rest;
      }
    }
  }

  /** The members of `s` that are at least `k`. */
  function AtLeast(s: set<Square>, k: int): set<Square>
  {
    set x | x in s && k <= x
  }

  lemma AtLeastSplit(s: set<Square>, k: int)
    requires 0 <= k < 64
    ensures |AtLeast(s, k)| == (if k in s then 1 else 0) + |AtLeast(s, k + 1)|
  {
    if k in s {
      assert AtLeast(s, k) == {k as Square} + AtLeast(s, k + 1);
    } else {
      assert AtLeast(s, k) == AtLeast(s, k + 1);
    }
  }

  lemma {:induction false} SquaresFromLength(s: set<Square>, k: int)
    requires 0 <= k <= 64
    ensures |SquaresFrom(s, k)| == |AtLeast(s, k)|
    decreases 64 - k
  {
    if k == 64 {
      assert AtLeast(s, k) == {};
    } else {
      SquaresFromLength(s, k + 1);
      AtLeastSplit(s, k);
    }
  }

  /**
   * `list(attackers)`: python-chess iterates a SquareSet from the lowest square up, so the
   * list holds exactly the members of the set, in ascending order, and `len` is the same for both.
   */
  function SquareSetList(s: set<Square>): (r: seq<Square>)
    ensures forall i :: 0 <= i < |r| ==> r[i] in s
    ensures forall x :: x in s ==> x in r
    ensures StrictlyIncreasing(r)
    ensures |r| == |s|
  {
    SquaresFromLength(s, 0);
    SquaresFromSorted(s, 0);
    SquaresFromCovers(s, 0);
    assert AtLeast(s, 0) == s;
    SquaresFrom(s, 0)
  }

  // ---------------------------------------------------------------------------
  // The removal loop, as a function of the scratch position

  /**
   * The run of the removal loop on a scratch position: the squares removed, in order, and
   * whether the loop stopped on a lone king (counted, not removed) rather than on an empty attacker set.
   */
  datatype Trace = Trace(removed: seq<Square>, endsOnKing: bool)

  lemma RemoveOccupied(p: Position, x: Square)
    requires x in p
    ensures |p - {x}| == |p| - 1
  {
    assert (p - {x}).Keys == p.Keys - {x};
  }

  /**
   * The removal loop started on scratch position `p`: take the attackers in ascending order;
   * if the first is a king and others remain, remove the second one instead; if the king is
   * the only attacker, count it and stop; otherwise remove the first one; then recompute.
   */
  function RemovalTrace(attacks: AttackOracle, p: Position, color: Color, sq: Square): Trace
    requires SoundOracle(attacks)
    decreases |p|
  {
    var current := attacks(p, color, sq);
    if |current| == 0 then Trace([], false)
    else
      var list := SquareSetList(current);
      if PieceTypeAt(p, list[0]) == Some(King) && |current| == 1 then Trace([], true)
      else
        var target := if PieceTypeAt(p, list[0]) == Some(King) then list[1] else list[0];
        RemoveOccupied(p, target);
        var rest := RemovalTrace(attacks, p - {target}, color, sq);
        Trace([target] + rest.removed, rest.endsOnKing)
  }

  /** The control power of `sq` for `color`: one for every removal, and one for a lone king at the end. */
  function Power(attacks: AttackOracle, p: Position, color: Color, sq: Square): nat
    requires SoundOracle(attacks)
  {
    var t := RemovalTrace(attacks, p, color, sq);
    |t.removed| + (if t.endsOnKing then 1 else 0)
  }

  /** The square the loop removes when the attacker set is non-empty and is not a lone king. */
  function Target(p: Position, list: seq<Square>): Square
    requires |list| >= 2 || (|list| == 1 && PieceTypeAt(p, list[0]) != Some(King))
  {
    if PieceTypeAt(p, list[0]) == Some(King) then list[1] else list[0]
  }

  /** One iteration of the loop that does not stop: the power is one more than that of the smaller position. */
  lemma PowerStep(attacks: AttackOracle, p: Position, color: Color, sq: Square)
    requires SoundOracle(attacks)
    requires |attacks(p, color, sq)| != 0
    requires !(PieceTypeAt(p, SquareSetList(attacks(p, color, sq))[0]) == Some(King) && |attacks(p, color, sq)| == 1)
    ensures var target := Target(p, SquareSetList(attacks(p, color, sq)));
      target in p && Power(attacks, p, color, sq) == 1 + Power(attacks, p - {target}, color, sq)
  {
  }

  /** The loop's two ways of stopping. */
  lemma PowerStop(attacks: AttackOracle, p: Position, color: Color, sq: Square)
    requires SoundOracle(attacks)
    ensures |attacks(p, color, sq)| == 0 ==> Power(attacks, p, color, sq) == 0
    ensures |attacks(p, color, sq)| == 1 && PieceTypeAt(p, SquareSetList(attacks(p, color, sq))[0]) == Some(King)
      ==> Power(attacks, p, color, sq) == 1
  {
  }


  // ---------------------------------------------------------------------------
  // Properties of the removal loop

  /** The power is zero exactly when the square has no attacker of that colour. */
  lemma PowerZeroIff(attacks: AttackOracle, p: Position, color: Color, sq: Square)
    requires SoundOracle(attacks)
    ensures Power(attacks, p, color, sq) == 0 <==> attacks(p, color, sq) == {}
  {
  }

  /** A lone king is counted exactly once and stays on the board: nothing is removed. */
  lemma LoneKingCountsOnce(attacks: AttackOracle, p: Position, color: Color, sq: Square, king: Square)
    requires SoundOracle(attacks)
    requires attacks(p, color, sq) == {king} && PieceTypeAt(p, king) == Some(King)
    ensures RemovalTrace(attacks, p, color, sq) == Trace([], true)
    ensures Power(attacks, p, color, sq) == 1
  {
    var list := SquareSetList({king});
    assert list[0] in {king};
  }

  /** One iteration that does not stop removes `Target` and continues on the smaller position. */
  lemma TraceStep(attacks: AttackOracle, p: Position, color: Color, sq: Square)
    requires SoundOracle(attacks)
    requires |attacks(p, color, sq)| != 0
    requires !(PieceTypeAt(p, SquareSetList(attacks(p, color, sq))[0]) == Some(King) && |attacks(p, color, sq)| == 1)
    ensures var target := Target(p, SquareSetList(attacks(p, color, sq)));
      var rest := RemovalTrace(attacks, p - {target}, color, sq);
      && target in p && p[target].color == color
      && RemovalTrace(attacks, p, color, sq) == Trace([target] + rest.removed, rest.endsOnKing)
  {
  }

  /** The target of a step is never a king when the colour has at most one. */
  lemma TargetNotKing(attacks: AttackOracle, p: Position, color: Color, sq: Square)
    requires SoundOracle(attacks)
    requires |attacks(p, color, sq)| != 0
    requires !(PieceTypeAt(p, SquareSetList(attacks(p, color, sq))[0]) == Some(King) && |attacks(p, color, sq)| == 1)
    requires AtMostOneKing(p, color)
    ensures p[Target(p, SquareSetList(attacks(p, color, sq)))].pieceType != King
  {
    var list := SquareSetList(attacks(p, color, sq));
    if PieceTypeAt(p, list[0]) == Some(King) {
      assert list[0] < list[1];
      assert p[list[0]] == Piece(color, King);
    }
  }

  /** Every square of `s` holds a piece of `color` in `p`. */
  ghost predicate OwnPieces(p: Position, color: Color, s: seq<Square>)
  {
    forall i :: 0 <= i < |s| ==> s[i] in p && p[s[i]].color == color
  }

  /** Every square of `s` holds a piece other than a king in `p`. */
  ghost predicate NoKings(p: Position, s: seq<Square>)
  {
    forall i :: 0 <= i < |s| ==> s[i] in p && p[s[i]].pieceType != King
  }

  lemma OwnPiecesCons(p: Position, color: Color, x: Square, s: seq<Square>)
    requires x in p && p[x].color == color && OwnPieces(p - {x}, color, s)
    ensures OwnPieces(p, color, [x] + s)
  {
    var r := [x] + s;
    forall i | 0 < i < |r| ensures r[i] in p && p[r[i]].color == color {
      assert r[i] == s[i - 1];
    }
  }

  lemma NoKingsCons(p: Position, x: Square, s: seq<Square>)
    requires x in p && p[x].pieceType != King && NoKings(p - {x}, s)
    ensures NoKings(p, [x] + s)
  {
    var r := [x] + s;
    forall i | 0 < i < |r| ensures r[i] in p && p[r[i]].pieceType != King {
      assert r[i] == s[i - 1];
    }
  }

  lemma AtMostOneKingRemove(p: Position, color: Color, x: Square)
    requires AtMostOneKing(p, color)
    ensures AtMostOneKing(p - {x}, color)
  {
  }

  /** Every removal takes a piece of the analysed colour off the scratch board. */
  lemma {:induction false} RemovedAreOwnPieces(attacks: AttackOracle, p: Position, color: Color, sq: Square)
    requires SoundOracle(attacks)
    ensures OwnPieces(p, color, RemovalTrace(attacks, p, color, sq).removed)
    decreases |p|
  {
    var current := attacks(p, color, sq);
    if |current| != 0 && !(PieceTypeAt(p, SquareSetList(current)[0]) == Some(King) && |current| == 1) {
      var target := Target(p, SquareSetList(current));
      TraceStep(attacks, p, color, sq);
      RemoveOccupied(p, target);
      RemovedAreOwnPieces(attacks, p - {target}, color, sq);
      OwnPiecesCons(p, color, target, RemovalTrace(attacks, p - {target}, color, sq).removed);
    }
  }

  ghost predicate NoRepeats(s: seq<Square>)
  {
    forall i, j :: 0 <= i < j < |s| ==> s[i] != s[j]
  }

  lemma ConsNoRepeats(x: Square, s: seq<Square>)
    requires NoRepeats(s) && x !in s
    ensures NoRepeats([x] + s)
  {
    var r := [x] + s;
    forall i, j | 0 <= i < j < |r| ensures r[i] != r[j] {
      assert r[j] == s[j - 1];
      if i > 0 {
        assert r[i] == s[i - 1];
      }
    }
  }

  /** No square is removed twice. */
  lemma {:induction false} RemovedAreDistinct(attacks: AttackOracle, p: Position, color: Color, sq: Square)
    requires SoundOracle(attacks)
    ensures NoRepeats(RemovalTrace(attacks, p, color, sq).removed)
    decreases |p|
  {
    var current := attacks(p, color, sq);
    if |current| != 0 && !(PieceTypeAt(p, SquareSetList(current)[0]) == Some(King) && |current| == 1) {
      var target := Target(p, SquareSetList(current));
      var smaller := p - {target};
      TraceStep(attacks, p, color, sq);
      RemoveOccupied(p, target);
      RemovedAreDistinct(attacks, smaller, color, sq);
      RemovedAreOwnPieces(attacks, smaller, color, sq);
      var rest := RemovalTrace(attacks, smaller, color, sq).removed;
      assert target !in smaller;
      ConsNoRepeats(target, rest);
    }
  }

  /** With at most one king of the analysed colour, the king is never removed from the scratch board. */
  lemma {:induction false} KingNeverRemoved(attacks: AttackOracle, p: Position, color: Color, sq: Square)
    requires SoundOracle(attacks)
    requires AtMostOneKing(p, color)
    ensures NoKings(p, RemovalTrace(attacks, p, color, sq).removed)
    decreases |p|
  {
    var current := attacks(p, color, sq);
    if |current| != 0 && !(PieceTypeAt(p, SquareSetList(current)[0]) == Some(King) && |current| == 1) {
      var target := Target(p, SquareSetList(current));
      TraceStep(attacks, p, color, sq);
      TargetNotKing(attacks, p, color, sq);
      RemoveOccupied(p, target);
      AtMostOneKingRemove(p, color, target);
      KingNeverRemoved(attacks, p - {target}, color, sq);
      NoKingsCons(p, target, RemovalTrace(attacks, p - {target}, color, sq).removed);
    }
  }

  /**
   * When the lowest attacker is a king and others remain, the second attacker is removed
   * instead, and (with at most one king of that colour) the king is never removed at all.
   */
  lemma KingSkipped(attacks: AttackOracle, p: Position, color: Color, sq: Square)
    requires SoundOracle(attacks)
    requires |attacks(p, color, sq)| > 1
    requires PieceTypeAt(p, SquareSetList(attacks(p, color, sq))[0]) == Some(King)
    ensures var list := SquareSetList(attacks(p, color, sq));
      var t := RemovalTrace(attacks, p, color, sq);
      |t.removed| > 0 && t.removed[0] == list[1] &&
      (AtMostOneKing(p, color) ==> list[0] !in t.removed)
  {
    TraceStep(attacks, p, color, sq);
    if AtMostOneKing(p, color) {
      KingNeverRemoved(attacks, p, color, sq);
    }
  }

  lemma ColorSquaresRemove(p: Position, color: Color, target: Square)
    requires target in p && p[target].color == color
    ensures |ColorSquares(p - {target}, color)| == |ColorSquares(p, color)| - 1
  {
    assert ColorSquares(p - {target}, color) == ColorSquares(p, color) - {target};
  }

  /** The power never exceeds the number of pieces of that colour on the snapshot. */
  lemma {:induction false} PowerBound(attacks: AttackOracle, p: Position, color: Color, sq: Square)
    requires SoundOracle(attacks)
    ensures Power(attacks, p, color, sq) <= |ColorSquares(p, color)|
    decreases |p|
  {
    var current := attacks(p, color, sq);
    if |current| != 0 {
      var list := SquareSetList(current);
      assert list[0] in ColorSquares(p, color);
      if !(PieceTypeAt(p, list[0]) == Some(King) && |current| == 1) {
        var target := Target(p, list);
        TraceStep(attacks, p, color, sq);
        PowerStep(attacks, p, color, sq);
        RemoveOccupied(p, target);
        PowerBound(attacks, p - {target}, color, sq);
        ColorSquaresRemove(p, color, target);
      }
    }
  }

  // ---------------------------------------------------------------------------
  // Records of one colour for one snapshot

  /**
   * The records appended for square `sq`. A square without attackers gets a zero record on
   * the empty-set branch and then the same record again after the loop that never runs.
   */
  function SquareRecords(attacks: AttackOracle, info: PlyInfo, color: Color, sq: Square): seq<SquareRecord>
    requires SoundOracle(attacks)
  {
    var record := SquareRecord(info.plyNo, sq, color, Power(attacks, info.position, color, sq));
    if |attacks(info.position, color, sq)| == 0 then [SquareRecord(info.plyNo, sq, color, 0), record]
    else [record]
  }

  /** The records for the squares below `n`, in square order. */
  function RecordsBelow(attacks: AttackOracle, info: PlyInfo, color: Color, n: int): seq<SquareRecord>
    requires SoundOracle(attacks)
    requires 0 <= n <= 64
    decreases n
  {
    if n == 0 then [] else RecordsBelow(attacks, info, color, n - 1) + SquareRecords(attacks, info, color, n - 1)
  }

  /** The result of `find_control_for_square_for_color(info, color)`. */
  function ColorRecords(attacks: AttackOracle, info: PlyInfo, color: Color): seq<SquareRecord>
    requires SoundOracle(attacks)
  {
    RecordsBelow(attacks, info, color, 64)
  }

  /** The result of `find_control_for_square(info)`. */
  function PlyRecords(attacks: AttackOracle, info: PlyInfo): seq<SquareRecord>
    requires SoundOracle(attacks)
  {
    ColorRecords(attacks, info, White) + ColorRecords(attacks, info, Black)
  }

  /** The squares that no piece of `color` attacks. */
  function Unattacked(attacks: AttackOracle, p: Position, color: Color): set<Square>
  {
    UnattackedBelow(attacks, p, color, 64)
  }

  /** The squares below `n` that no piece of `color` attacks. */
  function UnattackedBelow(attacks: AttackOracle, p: Position, color: Color, n: int): set<Square>
  {
    set sq: Square | sq < n && |attacks(p, color, sq)| == 0
  }

  /**
   * A square without attackers gets power 0, and its record is appended twice; any other
   * square gets one record.
   */
  lemma UnattackedRecordedTwice(attacks: AttackOracle, info: PlyInfo, color: Color, sq: Square)
    requires SoundOracle(attacks)
    ensures var rs := SquareRecords(attacks, info, color, sq);
      && (|rs| == 2 <==> attacks(info.position, color, sq) == {})
      && (|rs| == 1 || |rs| == 2)
      && (|rs| == 2 ==> rs[0] == rs[1] && rs[0].power == 0)
  {
    PowerZeroIff(attacks, info.position, color, sq);
  }

  lemma UnattackedBelowSplit(attacks: AttackOracle, p: Position, color: Color, n: int)
    requires 0 < n <= 64
    ensures |UnattackedBelow(attacks, p, color, n)|
      == |UnattackedBelow(attacks, p, color, n - 1)| + (if |attacks(p, color, n - 1)| == 0 then 1 else 0)
  {
    var last: Square := n - 1;
    var below := UnattackedBelow(attacks, p, color, n - 1);
    var here := if |attacks(p, color, last)| == 0 then {last} else {};
    forall x: Square ensures x in UnattackedBelow(attacks, p, color, n) <==> x in below + here {
    }
    assert UnattackedBelow(attacks, p, color, n) == below + here;
    assert last !in below;
  }


  /** One colour's list has 64 records plus one more for every square with no attacker. */
  lemma {:induction false} RecordsBelowLength(attacks: AttackOracle, info: PlyInfo, color: Color, n: int)
    requires SoundOracle(attacks)
    requires 0 <= n <= 64
    ensures |RecordsBelow(attacks, info, color, n)| == n + |UnattackedBelow(attacks, info.position, color, n)|
  {
    if n == 0 {
      assert UnattackedBelow(attacks, info.position, color, n) == {};
    } else {
      RecordsBelowLength(attacks, info, color, n - 1);
      UnattackedBelowSplit(attacks, info.position, color, n);
      assert |SquareRecords(attacks, info, color, n - 1)| == if attacks(info.position, color, n - 1) == {} then 2 else 1;
    }
  }

  lemma ColorRecordsLength(attacks: AttackOracle, info: PlyInfo, color: Color)
    requires SoundOracle(attacks)
    ensures |ColorRecords(attacks, info, color)| == 64 + |Unattacked(attacks, info.position, color)|
  {
    RecordsBelowLength(attacks, info, color, 64);
  }

  /** Every record belongs to the snapshot's ply and to `color`, and carries its square's power. */
  ghost predicate RecordsOf(attacks: AttackOracle, info: PlyInfo, color: Color, rs: seq<SquareRecord>)
    requires SoundOracle(attacks)
  {
    forall i :: 0 <= i < |rs| ==>
      rs[i].ply == info.plyNo && rs[i].color == color && rs[i].power == Power(attacks, info.position, color, rs[i].square)
  }

  /** Records appear in square order, a1 first and h8 last. */
  ghost predicate InSquareOrder(rs: seq<SquareRecord>)
  {
    forall i, j :: 0 <= i < j < |rs| ==> rs[i].square <= rs[j].square
  }

  ghost predicate HasRecordFor(rs: seq<SquareRecord>, sq: Square)
  {
    exists i :: 0 <= i < |rs| && rs[i].square == sq
  }

  /** Every square below `n`, and no other, has a record. */
  ghost predicate CoversBelow(rs: seq<SquareRecord>, n: int)
  {
    && (forall i :: 0 <= i < |rs| ==> rs[i].square < n)
    && (forall sq: Square :: sq < n ==> HasRecordFor(rs, sq))
  }

  /** The records of one square carry the snapshot's ply, the colour, the square and its power. */
  lemma SquareRecordsShape(attacks: AttackOracle, info: PlyInfo, color: Color, sq: Square)
    requires SoundOracle(attacks)
    ensures var here := SquareRecords(attacks, info, color, sq);
      && |here| > 0 && RecordsOf(attacks, info, color, here)
      && forall k :: 0 <= k < |here| ==> here[k].square == sq
  {
    UnattackedRecordedTwice(attacks, info, color, sq);
  }

  lemma RecordsOfAppend(attacks: AttackOracle, info: PlyInfo, color: Color, a: seq<SquareRecord>, b: seq<SquareRecord>)
    requires SoundOracle(attacks)
    requires RecordsOf(attacks, info, color, a) && RecordsOf(attacks, info, color, b)
    ensures RecordsOf(attacks, info, color, a + b)
  {
    var rs := a + b;
    forall i | |a| <= i < |rs|
      ensures rs[i].ply == info.plyNo && rs[i].color == color && rs[i].power == Power(attacks, info.position, color, rs[i].square)
    {
      assert rs[i] == b[i - |a|];
    }
  }

  /** Appending records of square `last` to records of the squares below it keeps square order and coverage. */
  lemma OrderAppend(a: seq<SquareRecord>, b: seq<SquareRecord>, last: Square)
    requires InSquareOrder(a) && CoversBelow(a, last)
    requires |b| > 0 && forall k :: 0 <= k < |b| ==> b[k].square == last
    ensures InSquareOrder(a + b) && CoversBelow(a + b, last + 1)
  {
    var rs := a + b;
    forall i, j | 0 <= i < j < |rs| ensures rs[i].square <= rs[j].square {
      if j >= |a| {
        assert rs[j] == b[j - |a|];
        if i >= |a| {
          assert rs[i] == b[i - |a|];
        }
      }
    }
    forall i | 0 <= i < |rs| ensures rs[i].square < last + 1 {
      if i >= |a| {
        assert rs[i] == b[i - |a|];
      }
    }
    forall sq: Square | sq < last + 1 ensures HasRecordFor(rs, sq) {
      if sq == last {
        assert rs[|a|] == b[0];
      } else {
        assert HasRecordFor(a, sq);
        var i :| 0 <= i < |a| && a[i].square == sq;
        assert rs[i] == a[i];
      }
    }
  }

  lemma {:induction false} RecordsBelowShape(attacks: AttackOracle, info: PlyInfo, color: Color, n: int)
    requires SoundOracle(attacks)
    requires 0 <= n <= 64
    ensures var rs := RecordsBelow(attacks, info, color, n);
      RecordsOf(attacks, info, color, rs) && InSquareOrder(rs) && CoversBelow(rs, n)
  {
    if n > 0 {
      RecordsBelowShape(attacks, info, color, n - 1);
      var prefix := RecordsBelow(attacks, info, color, n - 1);
      var here := SquareRecords(attacks, info, color, n - 1);
      SquareRecordsShape(attacks, info, color, n - 1);
      RecordsOfAppend(attacks, info, color, prefix, here);
      OrderAppend(prefix, here, n - 1);
    }
  }


  /**
   * The records of one colour: the snapshot's ply on every record, the squares a1..h8 in
   * order, each with its power, and 64 records plus one per square without attackers.
   */
  lemma ColorRecordsShape(attacks: AttackOracle, info: PlyInfo, color: Color)
    requires SoundOracle(attacks)
    ensures var rs := ColorRecords(attacks, info, color);
      && RecordsOf(attacks, info, color, rs) && InSquareOrder(rs) && CoversBelow(rs, 64)
      && |rs| == 64 + |Unattacked(attacks, info.position, color)|
  {
    RecordsBelowShape(attacks, info, color, 64);
    ColorRecordsLength(attacks, info, color);
  }

  // ---------------------------------------------------------------------------
  // The operations

  /**
   * The removal loop of `find_control_for_square_for_color` for one square: on a copy of the
   * board, count attackers while removing them one at a time, skipping a king while other
   * attackers remain and counting a lone king once without removing it.
   */
  method RemovalPower(attacks: AttackOracle, board: Position, color: Color, square: Square) returns (powerOfSquare: nat)
    requires SoundOracle(attacks)
    ensures powerOfSquare == Power(attacks, board, color, square)
  {
    var attackers := attacks(board, color, square);
    powerOfSquare := 0;
    var newBoard := new Board.Copy(board);
    while |attackers| != 0
      invariant attackers == attacks(newBoard.pieces, color, square)
      invariant powerOfSquare + Power(attacks, newBoard.pieces, color, square) == Power(attacks, board, color, square)
      decreases |newBoard.pieces|
    {
      var attackerList := SquareSetList(attackers);
      var attackingSquare := attackerList[0];
      if PieceTypeAt(newBoard.pieces, attackingSquare) == Some(King) && |attackers| > 1 {
        attackingSquare := attackerList[1];
      } else if PieceTypeAt(newBoard.pieces, attackingSquare) == Some(King) && |attackers| == 1 {
        PowerStop(attacks, newBoard.pieces, color, square);
        powerOfSquare := powerOfSquare + 1;
        break;
      }
      PowerStep(attacks, newBoard.pieces, color, square);
      ghost var before := newBoard.pieces;
      newBoard.RemovePieceAt(attackingSquare);
      RemoveOccupied(before, attackingSquare);
      powerOfSquare := powerOfSquare + 1;
      attackers := attacks(newBoard.pieces, color, square);
    }
    PowerStop(attacks, newBoard.pieces, color, square);
  }

  /** `find_control_for_square_for_color`. The snapshot is a value: only the scratch board changes. */
  method FindControlForSquareForColor(attacks: AttackOracle, info: PlyInfo, color: Color)
    returns (powerOfSquareList: seq<SquareRecord>)
    requires SoundOracle(attacks)
    ensures powerOfSquareList == ColorRecords(attacks, info, color)
  {
    var board := info.position;
    powerOfSquareList := [];
    var plyNo := info.plyNo;
    for square := 0 to 64
      invariant powerOfSquareList == RecordsBelow(attacks, info, color, square)
    {
      var attackers := attacks(board, color, square);
      if |attackers| == 0 {
        powerOfSquareList := powerOfSquareList + [SquareRecord(plyNo, square, color, 0)];
      }
      var powerOfSquare := RemovalPower(attacks, board, color, square);
      powerOfSquareList := powerOfSquareList + [SquareRecord(plyNo, square, color, powerOfSquare)];
    }
  }

  /** White records followed by black ones: the ply on every record, and white exactly on the first part. */
  lemma ConcatColors(attacks: AttackOracle, info: PlyInfo, white: seq<SquareRecord>, black: seq<SquareRecord>)
    requires SoundOracle(attacks)
    requires RecordsOf(attacks, info, White, white) && RecordsOf(attacks, info, Black, black)
    ensures var rs := white + black;
      forall i :: 0 <= i < |rs| ==> rs[i].ply == info.plyNo && (rs[i].color == White <==> i < |white|)
  {
    var rs := white + black;
    forall i | 0 <= i < |rs|
      ensures rs[i].ply == info.plyNo && (rs[i].color == White <==> i < |white|)
    {
      if i >= |white| {
        assert rs[i] == black[i - |white|];
      }
    }
  }

  /** `find_control_for_square`: all white records, then all black records. */
  method FindControlForSquare(attacks: AttackOracle, info: PlyInfo) returns (powerOfSquareList: seq<SquareRecord>)
    requires SoundOracle(attacks)
    ensures powerOfSquareList == PlyRecords(attacks, info)
    ensures var whiteCount := 64 + |Unattacked(attacks, info.position, White)|;
      && |powerOfSquareList| == whiteCount + 64 + |Unattacked(attacks, info.position, Black)|
      && forall i :: 0 <= i < |powerOfSquareList| ==>
           powerOfSquareList[i].ply == info.plyNo && (powerOfSquareList[i].color == White <==> i < whiteCount)
  {
    var whiteList := FindControlForSquareForColor(attacks, info, White);
    var blackList := FindControlForSquareForColor(attacks, info, Black);
    ColorRecordsShape(attacks, info, White);
    ColorRecordsShape(attacks, info, Black);
    ConcatColors(attacks, info, whiteList, blackList);
    powerOfSquareList := whiteList + blackList;
  }


  // ---------------------------------------------------------------------------
  // Replaying a game

  /** The placement after playing `moves` from `start`. */
  function Replay(push: PushOracle, start: Position, moves: seq<Move>): Position
    decreases |moves|
  {
    if |moves| == 0 then start else push(Replay(push, start, moves[..|moves| - 1]), moves[|moves| - 1])
  }

  /** The snapshots of a game: ply `i` is the position after its first `i + 1` moves. */
  function PlyInfos(push: PushOracle, moves: seq<Move>): seq<PlyInfo>
  {
    seq(|moves|, i requires 0 <= i < |moves| => PlyInfo(i, Replay(push, StartingPosition(), moves[..i + 1])))
  }

  /**
   * The snapshots are numbered 0, 1, ... in move order; the first is the starting position
   * after the first move, and each later one is the previous one after the next move.
   */
  lemma PlyInfosSteps(push: PushOracle, moves: seq<Move>)
    ensures var infos := PlyInfos(push, moves);
      && |infos| == |moves|
      && (forall i :: 0 <= i < |infos| ==> infos[i].plyNo == i)
      && (|infos| > 0 ==> infos[0].position == push(StartingPosition(), moves[0]))
      && (forall i :: 0 < i < |infos| ==> infos[i].position == push(infos[i - 1].position, moves[i]))
  {
    var infos := PlyInfos(push, moves);
    if |moves| > 0 {
      assert moves[..1][..0] == [] && moves[..1][0] == moves[0];
      assert Replay(push, StartingPosition(), moves[..1]) == push(StartingPosition(), moves[0]);
    }
    forall i | 0 < i < |infos|
      ensures infos[i].position == push(infos[i - 1].position, moves[i])
    {
      assert moves[..i + 1][..i] == moves[..i];
    }
  }

  /** `generate_ply_info_list_for_game`: one snapshot per move of the main line. */
  method GeneratePlyInfoListForGame(game: Game, push: PushOracle) returns (r: GameTasks)
    ensures r.plyCount == |game.mainlineMoves| == |r.gameTasks|
    ensures r.gameTasks == PlyInfos(push, game.mainlineMoves)
  {
    var moves := game.mainlineMoves;
    var board := new Board.Initial();
    var plyNo := 0;
    var gameTasks := [];
    while plyNo < |moves|
      invariant 0 <= plyNo <= |moves|
      invariant board.pieces == Replay(push, StartingPosition(), moves[..plyNo])
      invariant |gameTasks| == plyNo
      invariant forall i :: 0 <= i < plyNo ==> gameTasks[i] == PlyInfo(i, Replay(push, StartingPosition(), moves[..i + 1]))
    {
      board.Push(moves[plyNo], push);
      assert moves[..plyNo + 1][..plyNo] == moves[..plyNo];
      var plyInfo := PlyInfo(plyNo, board.pieces);
      gameTasks := gameTasks + [plyInfo];
      plyNo := plyNo + 1;
    }
    r := GameTasks(gameTasks, plyNo);
  }
}
