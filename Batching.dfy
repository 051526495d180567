/**
 * The list arithmetic behind the batching loop of `analyse_games_in_cluster`
 * (chess_dask_cluster.py): cutting the numbered games into consecutive batches and
 * gathering one result per game.
 */
module Batching {

  /** `s` cut, in order, into batches of `b` items, the last one possibly shorter. */
  function Chunks<T>(s: seq<T>, b: nat): seq<seq<T>>
    requires b > 0
    decreases |s|
  {
    if |s| == 0 then []
    else if |s| <= b then [s]
    else [s[..b]] + Chunks(s[b..], b)
  }

  /** The batches put back together. */
  function Flatten<T>(ss: seq<seq<T>>): seq<T>
    decreases |ss|
  {
    if |ss| == 0 then [] else ss[0] + Flatten(ss[1..])
  }

  /** Appending one more list appends its items. */
  lemma {:induction false} FlattenSnoc<T>(ss: seq<seq<T>>, s: seq<T>)
    ensures Flatten(ss + [s]) == Flatten(ss) + s
    decreases |ss|
  {
    if |ss| > 0 {
      assert (ss + [s])[1..] == ss[1..] + [s];
      FlattenSnoc(ss[1..], s);
    }
  }

  /** `client.gather(client.map(f, batch))`: one result per item, in submission order. */
  function Gather<T, R>(f: T -> R, batch: seq<T>): (r: seq<R>)
    ensures |r| == |batch| && forall j :: 0 <= j < |batch| ==> r[j] == f(batch[j])
  {
    seq(|batch|, j requires 0 <= j < |batch| => f(batch[j]))
  }

  /** Running two batches one after the other gives the results of running them as one. */
  lemma GatherAppend<T, R>(f: T -> R, a: seq<T>, b: seq<T>)
    ensures Gather(f, a + b) == Gather(f, a) + Gather(f, b)
  {
  }

  /** The number of rounds for `n` games in batches of `b`: the ceiling of n / b. */
  function Rounds(n: nat, b: nat): nat
    requires b > 0
  {
    (n + b - 1) / b
  }

  lemma {:induction false} MulAtLeast(k: int, b: int)
    requires k >= 1 && b > 0
    ensures k * b >= b
    decreases k
  {
    if k > 1 {
      MulAtLeast(k - 1, b);
      assert k * b == (k - 1) * b + b;
    }
  }

  lemma DivModUnique(x: int, b: int, q: int, r: int)
    requires b > 0 && 0 <= r < b && x == q * b + r
    ensures x / b == q && x % b == r
  {
    var q0, r0 := x / b, x % b;
    assert x == q0 * b + r0;
    assert (q - q0) * b == r0 - r;
    if q > q0 {
      MulAtLeast(q - q0, b);
    } else if q < q0 {
      MulAtLeast(q0 - q, b);
    }
  }

  lemma DivStep(x: int, b: int)
    requires x >= 0 && b > 0
    ensures (x + b) / b == x / b + 1 && (x + b) % b == x % b
  {
    var q, r := x / b, x % b;
    assert x + b == (q + 1) * b + r;
    DivModUnique(x + b, b, q + 1, r);
  }

  lemma ModAbs(x: int, b: int)
    requires b < 0
    ensures x % b == x % -b
  {
    var q, r := x / b, x % b;
    assert x == q * b + r;
    assert x == (-q) * (-b) + r;
    DivModUnique(x, -b, -q, r);
  }

  lemma ModOffset(start: int, m: int, b: int)
    requires b > 0 && start % b == 0 && 0 <= m < b
    ensures (start + m) % b == m
  {
    var q := start / b;
    assert start == q * b;
    DivModUnique(start + m, b, q, m);
  }

  /** Concatenating the batches gives back the games, in their order. */
  lemma {:induction false} FlattenChunks<T>(s: seq<T>, b: nat)
    requires b > 0
    ensures Flatten(Chunks(s, b)) == s
    decreases |s|
  {
    if |s| > b {
      FlattenChunks(s[b..], b);
      assert s[..b] + s[b..] == s;
    }
  }

  /** There are ceil(n / b) batches. */
  lemma {:induction false} ChunksCount<T>(s: seq<T>, b: nat)
    requires b > 0
    ensures |Chunks(s, b)| == Rounds(|s|, b)
    decreases |s|
  {
    if |s| == 0 {
      DivModUnique(b - 1, b, 0, b - 1);
    } else if |s| <= b {
      DivModUnique(|s| + b - 1, b, 1, |s| - 1);
    } else {
      ChunksCount(s[b..], b);
      DivStep(|s| - 1, b);
    }
  }

  /**
   * Every batch is non-empty and holds at most `b` games; all but the last hold exactly `b`;
   * the last holds `n mod b` games when that is not zero, and `b` otherwise.
   */
  lemma {:induction false} ChunksSizes<T>(s: seq<T>, b: nat)
    requires b > 0
    ensures var c := Chunks(s, b);
      && (forall j :: 0 <= j < |c| ==> 0 < |c[j]| <= b)
      && (forall j :: 0 <= j < |c| - 1 ==> |c[j]| == b)
      && (|c| > 0 ==> |c[|c| - 1]| == if |s| % b == 0 then b else |s| % b)
    decreases |s|
  {
    var c := Chunks(s, b);
    if 0 < |s| < b {
      DivModUnique(|s|, b, 0, |s|);
    } else if |s| == b {
      DivModUnique(b, b, 1, 0);
    } else if |s| > b {
      var rest := s[b..];
      ChunksSizes(rest, b);
      DivStep(|rest|, b);
      var tail := Chunks(rest, b);
      assert c == [s[..b]] + tail;
      assert |c| == |tail| + 1;
      forall j | 1 <= j < |c| ensures c[j] == tail[j - 1] { }
    }
  }

  /** Cutting a prefix made of whole batches is cutting the prefix and the rest separately. */
  lemma {:induction false} ChunksAppend<T>(s: seq<T>, t: seq<T>, b: nat)
    requires b > 0 && |s| % b == 0
    ensures Chunks(s + t, b) == Chunks(s, b) + Chunks(t, b)
    decreases |s|
  {
    if |s| == 0 {
      assert s + t == t;
    } else {
      assert |s| >= b;
      if |s| == b {
        if |t| > 0 {
          assert (s + t)[..b] == s && (s + t)[b..] == t;
        } else {
          assert s + t == s;
        }
      } else {
        DivStep(|s| - b, b);
        ChunksAppend(s[b..], t, b);
        assert (s + t)[..b] == s[..b] && (s + t)[b..] == s[b..] + t;
      }
    }
  }
}
