/**
 * How the scripts split their work list across API keys.
 *
 * All of them compute `per = total // len(api_keys)` first, so an empty key list raises
 * `ZeroDivisionError` before anything else happens. With a positive divisor Dafny's `/`
 * (Euclidean) agrees with Python's floor division `//`, also for a negative total.
 */
module Sharding {
  import opened Wrappers
  import opened Csv
  import opened Seqs

  /** `i * per` never passes `n` while `i <= k`, where `per = n / k`. */
  lemma ChunkBound(n: nat, k: nat, i: nat)
    requires 0 < k && i <= k
    ensures 0 <= i * (n / k) <= k * (n / k) <= n
  {
    var per := n / k;
    assert i * per <= k * per by {
      assert (k - i) * per >= 0;
    }
  }

  /** Where shard `i` starts and where the next one starts. */
  lemma ChunkStep(n: nat, k: nat, i: nat)
    requires 0 < k && i < k
    ensures 0 <= i * (n / k) <= (i + 1) * (n / k) <= n
    ensures (i + 1) * (n / k) == i * (n / k) + n / k
  {
    ChunkBound(n, k, i + 1);
    ChunkBound(n, k, i);
  }

  /** The last shard, from `(k-1)*per` to the end, holds `per` ids plus the remainder. */
  lemma LastShardSize(n: nat, k: nat)
    requires 0 < k
    ensures 0 <= (k - 1) * (n / k) <= n
    ensures n - (k - 1) * (n / k) == n / k + n % k
  {
    ChunkBound(n, k, k - 1);
    assert (k - 1) * (n / k) + n / k == k * (n / k);
  }

  /** Uniform shard `i` of size `per`: Python's `ids[i*per:(i+1)*per]`. */
  function Chunk<T>(ids: seq<T>, k: nat, i: nat): (r: seq<T>)
    requires 0 < k && i < k
    ensures |r| == |ids| / k
  {
    ChunkBound(|ids|, k, i + 1);
    ids[i * (|ids| / k)..(i + 1) * (|ids| / k)]
  }

  /** Shard `i` of the slice partition: uniform, except that the last one runs to the end. */
  function SliceShard<T>(ids: seq<T>, k: nat, i: nat): seq<T>
    requires 0 < k && i < k
  {
    if i == k - 1 then
      ChunkBound(|ids|, k, i);
      ids[i * (|ids| / k)..]
    else
      Chunk(ids, k, i)
  }

  /** The uniform chunks before shard `m` cover exactly the first `m * per` ids. */
  lemma {:induction false} ChunksCoverPrefix<T>(ids: seq<T>, k: nat, m: nat)
    requires 0 < k && m <= k
    ensures m * (|ids| / k) <= |ids|
    ensures Concat(seq(m, i requires 0 <= i < m => Chunk(ids, k, i))) == ids[..m * (|ids| / k)]
  {
    ChunkBound(|ids|, k, m);
    if m > 0 {
      ChunkStep(|ids|, k, m - 1);
      ChunksCoverPrefix(ids, k, m - 1);
      var a, b := (m - 1) * (|ids| / k), m * (|ids| / k);
      var last := Chunk(ids, k, m - 1);
      var prev := seq(m - 1, i requires 0 <= i < m - 1 => Chunk(ids, k, i));
      assert seq(m, i requires 0 <= i < m => Chunk(ids, k, i)) == prev + [last];
      assert last == ids[a..b];
      ConcatPrefixStep(ids, prev, last, a, b);
    }
  }

  /** Shards covering `ids[..a]`, followed by the slice `ids[a..b]`, cover `ids[..b]`. */
  lemma ConcatPrefixStep<T>(ids: seq<T>, prev: seq<seq<T>>, last: seq<T>, a: int, b: int)
    requires 0 <= a <= b <= |ids|
    requires Concat(prev) == ids[..a] && last == ids[a..b]
    ensures Concat(prev + [last]) == ids[..b]
  {
    ConcatAppend(prev, [last]);
    ConcatOne(last);
    assert ids[..a] + ids[a..b] == ids[..b];
  }

  /** Shard `i` of the slice partition is the slice between its two bounds. */
  lemma SliceShardBounds<T>(ids: seq<T>, k: nat, i: nat)
    requires 0 < k && i < k
    ensures 0 <= i * (|ids| / k) <= (i + 1) * (|ids| / k) <= |ids|
    ensures i < k - 1 ==> SliceShard(ids, k, i) == ids[i * (|ids| / k)..(i + 1) * (|ids| / k)]
    ensures i == k - 1 ==> SliceShard(ids, k, i) == ids[i * (|ids| / k)..]
  {
    ChunkStep(|ids|, k, i);
  }

  /** The slice shards put back together give the whole list, the last one taking the remainder. */
  lemma SliceShardsCover<T>(ids: seq<T>, k: nat)
    requires 0 < k
    ensures Concat(seq(k, i requires 0 <= i < k => SliceShard(ids, k, i))) == ids
    ensures |SliceShard(ids, k, k - 1)| == |ids| / k + |ids| % k
  {
    var shards := seq(k, i requires 0 <= i < k => SliceShard(ids, k, i));
    var chunks := seq(k - 1, i requires 0 <= i < k - 1 => Chunk(ids, k, i));
    ChunksCoverPrefix(ids, k, k - 1);
    LastShardSize(|ids|, k);
    var a := (k - 1) * (|ids| / k);
    assert shards == chunks + [ids[a..]];
    ConcatPrefixStep(ids, chunks, ids[a..], a, |ids|);
    assert ids[..|ids|] == ids;
  }

  /**
   * The partition of `process_with_multiple_keys`: shard `i` is `ids[i*per:(i+1)*per]`,
   * and the last shard is `ids[(k-1)*per:]`. The shards put back together give the
   * whole list, in order; the first k-1 have length `per`; the last also takes the remainder.
   */
  method SliceShards<T>(ids: seq<T>, k: nat) returns (r: Result<seq<seq<T>>, Error>)
    ensures k == 0 ==> r == Failure(ZeroDivisionError)
    ensures k > 0 ==> r.Success? && |r.value| == k
    ensures k > 0 ==> Concat(r.value) == ids
    ensures k > 0 ==> forall i :: 0 <= i < k - 1 ==> |r.value[i]| == |ids| / k
    ensures k > 0 ==> |r.value[k - 1]| == |ids| / k + |ids| % k
    ensures k > 0 ==> forall i :: 0 <= i < k ==> r.value[i] == SliceShard(ids, k, i)
  {
    if k == 0 {
      return Failure(ZeroDivisionError);
    }
    var total := |ids|;
    var per := total / k;
    var shards: seq<seq<T>> := [];
    var i := 0;
    while i < k
      invariant 0 <= i <= k
      invariant |shards| == i
      invariant forall j :: 0 <= j < i ==> shards[j] == SliceShard(ids, k, j)
    {
      SliceShardBounds(ids, k, i);
      var startIdx := i * per;
      var endIdx := (i + 1) * per;
      if i == k - 1 {
        endIdx := total;
      }
      shards := shards + [ids[startIdx..endIdx]];
      i := i + 1;
    }
    assert shards == seq(k, j requires 0 <= j < k => SliceShard(ids, k, j));
    SliceShardsCover(ids, k);
    return Success(shards);
  }

  /**
   * The partition of the second inactivity filter: every shard, the last included, is
   * `ids[i*per:(i+1)*per]`.
   */
  function DroppingShards<T>(ids: seq<T>, k: nat): (r: Result<seq<seq<T>>, Error>)
    ensures k == 0 <==> r.Failure?
    ensures r.Failure? ==> r.error == ZeroDivisionError
    ensures r.Success? ==> |r.value| == k && forall i :: 0 <= i < k ==> |r.value[i]| == |ids| / k
  {
    if k == 0 then Failure(ZeroDivisionError)
    else Success(seq(k, i requires 0 <= i < k => Chunk(ids, k, i)))
  }

  /**
   * The remainder-dropping partition covers only the first `k * per` ids: the last
   * `len % k` ids are in no shard, and when there are fewer ids than keys no id is in any.
   */
  lemma DroppingShardsCoverage<T>(ids: seq<T>, k: nat)
    requires k > 0
    ensures DroppingShards(ids, k).Success?
    ensures 0 <= |ids| - |ids| % k <= |ids|
    ensures Concat(DroppingShards(ids, k).value) == ids[..|ids| - |ids| % k]
    ensures |ids| < k ==> Concat(DroppingShards(ids, k).value) == []
  {
    ChunksCoverPrefix(ids, k, k);
    CoveredLength(|ids|, k);
    assert seq(k, i requires 0 <= i < k => Chunk(ids, k, i)) == DroppingShards(ids, k).value;
  }

  /** `k` shards of `n // k` cover all but the remainder, and nothing when `n < k`. */
  lemma CoveredLength(n: nat, k: nat)
    requires 0 < k
    ensures k * (n / k) == n - n % k
    ensures 0 <= n - n % k <= n
    ensures n < k ==> n - n % k == 0
  {
  }

  /** Python's `range(a, b + 1)`: the ids from `a` to `b` inclusive, ascending. */
  function RangeIds(a: int, b: int): seq<int>
    decreases b - a
  {
    if b < a then [] else RangeIds(a, b - 1) + [b]
  }

  /** The range holds `b - a + 1` ids (none when `b < a`), the `j`-th being `a + j`. */
  lemma {:induction false} RangeIdsElements(a: int, b: int)
    ensures |RangeIds(a, b)| == if b < a then 0 else b - a + 1
    ensures forall j :: 0 <= j < |RangeIds(a, b)| ==> RangeIds(a, b)[j] == a + j
    decreases b - a
  {
    if b >= a {
      RangeIdsElements(a, b - 1);
    }
  }

  lemma {:induction false} RangeIdsSplit(a: int, m: int, b: int)
    requires a <= m <= b + 1
    ensures RangeIds(a, m - 1) + RangeIds(m, b) == RangeIds(a, b)
  {
    RangeIdsElements(a, m - 1);
    RangeIdsElements(m, b);
    RangeIdsElements(a, b);
    var l := RangeIds(a, m - 1) + RangeIds(m, b);
    assert |l| == |RangeIds(a, b)|;
    forall j | 0 <= j < |l| ensures l[j] == RangeIds(a, b)[j] {
      if j < |RangeIds(a, m - 1)| {
        assert l[j] == a + j;
      } else {
        assert l[j] == RangeIds(m, b)[j - (m - a)];
      }
    }
  }

  /** The inclusive id range `[key_start, key_end]` of key `i` in the range partition. */
  function RangeBound(start: int, end: int, k: nat, i: nat): (int, int)
    requires i < k
  {
    var per := (end - start + 1) / k;
    (start + i * per, if i == k - 1 then end else start + (i + 1) * per - 1)
  }

  /** All ids the keys visit, key by key. */
  function CoveredIds(start: int, end: int, k: nat): seq<int> {
    Concat(seq(k, i requires 0 <= i < k => RangeIds(RangeBound(start, end, k, i).0, RangeBound(start, end, k, i).1)))
  }

  /**
   * The range partition of the account scraper: key `i` gets
   * `[start + i*per, start + (i+1)*per - 1]` and the last key ends at `end`.
   */
  method RangeShards(start: int, end: int, k: nat) returns (r: Result<seq<(int, int)>, Error>)
    ensures k == 0 ==> r == Failure(ZeroDivisionError)
    ensures k > 0 ==> r.Success? && |r.value| == k
    ensures k > 0 ==> forall i :: 0 <= i < k ==> r.value[i] == RangeBound(start, end, k, i)
    ensures k > 0 ==> r.value[0].0 == start && r.value[k - 1].1 == end
    ensures k > 0 ==> forall i :: 0 <= i < k - 1 ==> r.value[i + 1].0 == r.value[i].1 + 1
  {
    if k == 0 {
      return Failure(ZeroDivisionError);
    }
    var total := end - start + 1;
    var per := total / k;
    var bounds: seq<(int, int)> := [];
    var i := 0;
    while i < k
      invariant 0 <= i <= k
      invariant |bounds| == i
      invariant forall j :: 0 <= j < i ==> bounds[j] == RangeBound(start, end, k, j)
    {
      var keyStart := start + i * per;
      var keyEnd := start + (i + 1) * per - 1;
      if i == k - 1 {
        keyEnd := end;
      }
      bounds := bounds + [(keyStart, keyEnd)];
      i := i + 1;
    }
    forall i | 0 <= i < k - 1 ensures bounds[i + 1].0 == bounds[i].1 + 1 {
      assert start + (i + 1) * per == start + i * per + per;
    }
    return Success(bounds);
  }

  /** The bounds of a key before the last, for a well-formed range: `per` ids from `pos`. */
  lemma RangeBoundStep(start: int, end: int, k: nat, m: nat, pos: int)
    requires 0 < k && m < k - 1 && start <= end + 1
    requires pos == start + m * ((end - start + 1) / k)
    ensures RangeBound(start, end, k, m) == (pos, pos + (end - start + 1) / k - 1)
    ensures pos + (end - start + 1) / k == start + (m + 1) * ((end - start + 1) / k)
    ensures start <= pos <= pos + (end - start + 1) / k <= end + 1
  {
    ChunkStep(end - start + 1, k, m);
  }

  /**
   * For a well-formed range (`start <= end + 1`) the keys' ranges, in key order, visit
   * every id of `[start, end]` exactly once and in increasing order.
   */
  lemma RangeShardsCover(start: int, end: int, k: nat)
    requires k > 0 && start <= end + 1
    ensures CoveredIds(start, end, k) == RangeIds(start, end)
  {
    var per := (end - start + 1) / k;
    var rs := seq(k, i requires 0 <= i < k => RangeIds(RangeBound(start, end, k, i).0, RangeBound(start, end, k, i).1));
    var m, pos := 0, start;
    while m < k - 1
      invariant 0 <= m <= k - 1
      invariant pos == start + m * per && start <= pos <= end + 1
      invariant Concat(rs[..m]) == RangeIds(start, pos - 1)
    {
      RangeBoundStep(start, end, k, m, pos);
      ConcatStep(rs, m);
      RangeIdsSplit(start, pos, pos + per - 1);
      m, pos := m + 1, pos + per;
    }
    ChunkBound(end - start + 1, k, k - 1);
    ConcatStep(rs, k - 1);
    assert rs[..k] == rs;
    RangeIdsSplit(start, pos, end);
  }

  /**
   * A malformed range is not rejected: with `end = start - 2` the total is -1, `per` is -1,
   * and with three keys the last key is handed `[start - 2, start - 2]`, so id `start - 2`
   * is visited although the range is empty.
   */
  lemma InvertedRangeVisitsAnId()
    ensures CoveredIds(5, 3, 3) == [3]
  {
    assert (3 - 5 + 1) / 3 == -1;
    assert RangeBound(5, 3, 3, 0) == (5, 3);
    assert RangeBound(5, 3, 3, 1) == (4, 2);
    assert RangeBound(5, 3, 3, 2) == (3, 3);
    assert RangeIds(3, 3) == RangeIds(3, 2) + [3] == [3];
    var rs := seq(3, i requires 0 <= i < 3 => RangeIds(RangeBound(5, 3, 3, i).0, RangeBound(5, 3, 3, i).1));
    assert rs == [[], [], [3]];
    assert CoveredIds(5, 3, 3) == Concat(rs);
    assert rs[..2] == [[], []] && rs[..2][..1] == [[]];
    assert Concat(rs[..2][..1]) == Concat(rs[..2][..1][..0]) + rs[0] == [];
    assert Concat(rs[..2]) == Concat(rs[..2][..1]) + rs[1] == [];
    assert Concat(rs) == Concat(rs[..2]) + rs[2] == [3];
  }
}
