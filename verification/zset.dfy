/** Redis sorted sets as the index uses them: a map from member to score,
    ranged in (score, member) order, with ZRANGE's index arithmetic and
    ZINTERSTORE's summing intersection. */
module SortedSets {
  import opened Ordering

  /** A sorted set: member -> score. Redis never keeps an empty one. */
  type ZSet = map<string, real>

  /** The score of `m`, or 0 when `m` is not a member. */
  function Score(z: ZSet, m: string): real {
    if m in z then z[m] else 0.0
  }

  /** Redis order of members: by score, equal scores by member bytes. */
  predicate RankLess(z: ZSet, a: string, b: string) {
    Score(z, a) < Score(z, b) || (Score(z, a) == Score(z, b) && StrLess(a, b))
  }

  function RankOrder(z: ZSet): (string, string) -> bool {
    (a, b) => RankLess(z, a, b)
  }

  lemma RankOrderIsStrictTotal(z: ZSet)
    ensures StrictTotalOn(RankOrder(z), z.Keys)
  {
    var less := RankOrder(z);
    forall x | x in z.Keys ensures !less(x, x) {
      StrLessIrreflexive(x);
    }
    forall x, y | x in z.Keys && y in z.Keys && x != y ensures less(x, y) || less(y, x) {
      StrLessTotal(x, y);
    }
    forall x, y, w | x in z.Keys && y in z.Keys && w in z.Keys && less(x, y) && less(y, w)
      ensures less(x, w)
    {
      if StrLess(x, y) && StrLess(y, w) {
        StrLessTransitive(x, y, w);
      }
    }
  }

  /** Every member, lowest rank first (`ZRANGE key 0 -1`). */
  function Ordered(z: ZSet): (r: seq<string>)
    ensures |r| == |z|
    ensures forall m | m in z :: m in r
    ensures forall i | 0 <= i < |r| :: r[i] in z
    ensures forall i, j | 0 <= i < j < |r| :: RankLess(z, r[i], r[j])
  {
    RankOrderIsStrictTotal(z);
    SortBy(z.Keys, RankOrder(z))
  }

  lemma OrderedDistinct(z: ZSet)
    ensures forall i, j | 0 <= i < j < |Ordered(z)| :: Ordered(z)[i] != Ordered(z)[j]
  {
    var r := Ordered(z);
    forall i, j | 0 <= i < j < |r| ensures r[i] != r[j] {
      StrLessIrreflexive(r[i]);
    }
  }

  /** Redis's index arithmetic for `ZRANGE start stop` on a set of `n`
      members: negative indices count from the end, the start is clamped to
      0 and the stop to `n - 1`, and the range `[lo, hi)` is empty when the
      start passes the stop or the end. */
  function RangeBounds(n: nat, start: int, stop: int): (b: (nat, nat))
    ensures b.0 <= b.1 <= n
  {
    var s := if start < 0 then start + n else start;
    var e := if stop < 0 then stop + n else stop;
    var s' := if s < 0 then 0 else s;
    if s' > e || s' >= n then (0, 0)
    else (s', if e >= n then n else e + 1)
  }

  /** `ZRANGE key start stop`: both ends inclusive, negative indices count
      from the end, out-of-range ends are clamped, an empty range is `[]`. */
  function ZRange(z: ZSet, start: int, stop: int): (r: seq<string>)
    ensures |r| <= |z|
    ensures forall i | 0 <= i < |r| :: r[i] in z
    ensures forall i, j | 0 <= i < j < |r| :: RankLess(z, r[i], r[j])
    ensures forall i, j | 0 <= i < j < |r| :: r[i] != r[j]
  {
    var b := RangeBounds(|z|, start, stop);
    SliceRanked(z, b.0, b.1);
    var r := Ordered(z)[b.0..b.1];
    forall i, j | 0 <= i < j < |r| ensures r[i] != r[j] {
      StrLessIrreflexive(r[i]);
    }
    r
  }

  lemma SliceRanked(z: ZSet, lo: nat, hi: nat)
    requires lo <= hi <= |z|
    ensures forall i | 0 <= i < hi - lo :: Ordered(z)[lo..hi][i] in z
    ensures forall i, j | 0 <= i < j < hi - lo :: RankLess(z, Ordered(z)[lo..hi][i], Ordered(z)[lo..hi][j])
  {
    var o := Ordered(z);
    forall i, j | 0 <= i < j < hi - lo
      ensures RankLess(z, o[lo..hi][i], o[lo..hi][j])
    {
      assert o[lo..hi][i] == o[lo + i] && o[lo..hi][j] == o[lo + j];
    }
  }

  /** `ZRANGE key 1 2` is empty exactly when the set has at most one member. */
  lemma ZRangeOneTwo(z: ZSet)
    ensures ZRange(z, 1, 2) == [] <==> |z| <= 1
  {
  }

  /** `ZRANGE key 0 -1` lists the whole set. */
  lemma ZRangeAll(z: ZSet)
    ensures ZRange(z, 0, -1) == Ordered(z)
  {
    if |z| > 0 {
      assert Ordered(z)[0..|z|] == Ordered(z);
    }
  }

  /** `ZRANGE key 0 k` with `k >= 0` lists the first `k + 1` members. */
  lemma ZRangeHead(z: ZSet, k: nat)
    ensures ZRange(z, 0, k) == Ordered(z)[..if k + 1 < |z| then k + 1 else |z|]
  {
  }

  /** The scores of the members of `sets` summed, as ZINTERSTORE's SUM aggregate does. */
  function SumScores(sets: seq<ZSet>, m: string): real
    decreases |sets|
  {
    if |sets| == 0 then 0.0 else SumScores(sets[..|sets| - 1], m) + Score(sets[|sets| - 1], m)
  }

  /** Members present in both sets, with their scores added. */
  function Meet(a: ZSet, b: ZSet): ZSet {
    map m | m in a && m in b :: a[m] + b[m]
  }

  /** `ZINTERSTORE dest n k1 .. kn`: folds the inputs pairwise, left to right. */
  function Intersect(sets: seq<ZSet>): (r: ZSet)
    ensures forall m :: m in r <==> |sets| > 0 && forall i | 0 <= i < |sets| :: m in sets[i]
    ensures forall m | m in r :: r[m] == SumScores(sets, m)
    decreases |sets|
  {
    if |sets| == 0 then map[]
    else if |sets| == 1 then map m | m in sets[0] :: sets[0][m] + 0.0
    else Meet(Intersect(sets[..|sets| - 1]), sets[|sets| - 1])
  }
}
