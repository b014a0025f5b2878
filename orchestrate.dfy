/**
 * Tile iteration of streetview/download.py (Tile, iter_tiles, iter_tiles_async). A
 * generator is modelled by the Stream it produces: the tiles it yields and the exception,
 * if any, that ends it. The thread pool is modelled by its completion order, a
 * permutation of the submitted futures.
 */
module Orchestrate {
  import opened Wrappers
  import opened Images
  import opened Tiles
  import opened Fetch

  /** A downloaded tile and its position in the grid. */
  datatype Tile = Tile(x: int, y: int, image: TileImage)

  /**
   * The exception a tile iteration ends with: the fetch's own exception (sequential and
   * async paths), or the pool's "Failed to download tile <url> due to Exception: <exc>".
   */
  datatype DownloadError = FetchFailed(error: FetchError) | TileFailed(fileurl: string, error: FetchError)

  /** What a generator produced: the tiles yielded, then None or the exception raised. */
  datatype Stream = Stream(tiles: seq<Tile>, error: Option<DownloadError>)

  /** The result of fetching tile `info`. */
  function FetchOf(transport: Transport, info: TileInfo, maxRetries: int): FetchResult {
    FetchSpec(transport, info.fileurl, maxRetries).result
  }

  /** `t` is what a successful fetch of `info` is turned into. */
  predicate DeliveredAs(transport: Transport, maxRetries: int, info: TileInfo, t: Tile) {
    FetchOf(transport, info, maxRetries) == Fetched(t.image) && t.x == info.x && t.y == info.y
  }

  predicate AllFetched(transport: Transport, infos: seq<TileInfo>, maxRetries: int) {
    forall k :: 0 <= k < |infos| ==> FetchOf(transport, infos[k], maxRetries).Fetched?
  }

  /**
   * The stream of a sequential iteration over `infos`: the k-th tile yielded is the k-th
   * tile fetched; it ends normally after all of them, or with the exception of the first
   * fetch that failed.
   */
  predicate SequentialStream(s: Stream, transport: Transport, infos: seq<TileInfo>, maxRetries: int) {
    |s.tiles| <= |infos| &&
    (forall k :: 0 <= k < |s.tiles| ==> DeliveredAs(transport, maxRetries, infos[k], s.tiles[k])) &&
    (s.error.None? <==> |s.tiles| == |infos|) &&
    (s.error.Some? ==>
      FetchOf(transport, infos[|s.tiles|], maxRetries).Failed? &&
      s.error.value == FetchFailed(FetchOf(transport, infos[|s.tiles|], maxRetries).error))
  }

  /** The futures are drained in each index exactly once: a permutation of 0 .. n - 1. */
  predicate IsPermutation(order: seq<nat>, n: nat) {
    |order| == n &&
    (forall j :: 0 <= j < n ==> order[j] < n) &&
    (forall i, j :: 0 <= i < j < n ==> order[i] != order[j]) &&
    (forall k :: 0 <= k < n ==> k in order)
  }

  /**
   * The stream of the pooled iteration: the j-th tile yielded is that of the j-th future to
   * complete; it ends normally after all of them, or with the first failure in completion
   * order, wrapped with that tile's URL.
   */
  predicate PooledStream(s: Stream, transport: Transport, infos: seq<TileInfo>, maxRetries: int, order: seq<nat>)
    requires IsPermutation(order, |infos|)
  {
    |s.tiles| <= |infos| &&
    (forall j :: 0 <= j < |s.tiles| ==> DeliveredAs(transport, maxRetries, infos[order[j]], s.tiles[j])) &&
    (s.error.None? <==> |s.tiles| == |infos|) &&
    (s.error.Some? ==>
      var info := infos[order[|s.tiles|]];
      FetchOf(transport, info, maxRetries).Failed? &&
      s.error.value == TileFailed(info.fileurl, FetchOf(transport, info, maxRetries).error))
  }

  /**
   * iter_tiles with multi_threaded=False: fetch and yield the tiles one by one. `infos` is
   * what iter_tile_info yields, in its order.
   */
  method IterTilesSequential(transport: Transport, infos: seq<TileInfo>, maxRetries: int) returns (s: Stream)
    ensures SequentialStream(s, transport, infos, maxRetries)
  {
    var tiles: seq<Tile> := [];
    for i := 0 to |infos|
      invariant |tiles| == i
      invariant forall k :: 0 <= k < i ==> DeliveredAs(transport, maxRetries, infos[k], tiles[k])
    {
      var info := infos[i];
      var result, _, _ := FetchPanoramaTile(transport, info, maxRetries);
      match result {
        case Failed(e) =>
          return Stream(tiles, Some(FetchFailed(e)));
        case Fetched(image) =>
          tiles := tiles + [Tile(info.x, info.y, image)];
      }
    }
    s := Stream(tiles, None);
  }

  /** The loop of iter_tiles_async: the same loop, awaiting fetch_panorama_tile_async for each tile. */
  method IterTilesAsyncOver(transport: Transport, infos: seq<TileInfo>, maxRetries: int) returns (s: Stream)
    ensures SequentialStream(s, transport, infos, maxRetries)
  {
    var tiles: seq<Tile> := [];
    for i := 0 to |infos|
      invariant |tiles| == i
      invariant forall k :: 0 <= k < i ==> DeliveredAs(transport, maxRetries, infos[k], tiles[k])
    {
      var info := infos[i];
      var result, _, _ := FetchPanoramaTileAsync(transport, info, maxRetries);
      match result {
        case Failed(e) =>
          return Stream(tiles, Some(FetchFailed(e)));
        case Fetched(image) =>
          tiles := tiles + [Tile(info.x, info.y, image)];
      }
    }
    s := Stream(tiles, None);
  }

  /**
   * iter_tiles with multi_threaded=True: submit one future per tile of `infos`, keyed in
   * future_to_tile, then drain them as they complete. Future k is the fetch of the k-th
   * tile; `order` is the order in which as_completed hands the futures back.
   */
  method IterTilesPooled(transport: Transport, infos: seq<TileInfo>, maxRetries: int, order: seq<nat>)
    returns (s: Stream)
    requires IsPermutation(order, |infos|)
    ensures PooledStream(s, transport, infos, maxRetries, order)
  {
    var futureToTile: map<nat, TileInfo> := map[];
    var futureResult: map<nat, FetchResult> := map[];
    for k := 0 to |infos|
      invariant forall f: nat :: f in futureToTile <==> f < k
      invariant forall f: nat :: f in futureResult <==> f < k
      invariant forall f: nat :: f < k ==>
        futureToTile[f] == infos[f] && futureResult[f] == FetchOf(transport, infos[f], maxRetries)
    {
      var result, _, _ := FetchPanoramaTile(transport, infos[k], maxRetries);
      futureToTile := futureToTile[k := infos[k]];
      futureResult := futureResult[k := result];
    }
    var tiles: seq<Tile> := [];
    for j := 0 to |order|
      invariant |tiles| == j
      invariant forall i :: 0 <= i < j ==> DeliveredAs(transport, maxRetries, infos[order[i]], tiles[i])
    {
      var future := order[j];
      var info := futureToTile[future];
      match futureResult[future] {
        case Failed(e) =>
          return Stream(tiles, Some(TileFailed(info.fileurl, e)));
        case Fetched(image) =>
          tiles := tiles + [Tile(info.x, info.y, image)];
      }
    }
    s := Stream(tiles, None);
  }

  /** iter_tiles: the pooled strategy when multi_threaded, the sequential one otherwise. */
  method IterTiles(transport: Transport, panoId: string, zoom: int, width: nat, height: nat, maxRetries: int,
                   multiThreaded: bool, order: seq<nat>)
    returns (s: Stream)
    requires multiThreaded ==> IsPermutation(order, width * height)
    ensures !multiThreaded ==> SequentialStream(s, transport, IterTileInfo(panoId, zoom, width, height), maxRetries)
    ensures multiThreaded ==> PooledStream(s, transport, IterTileInfo(panoId, zoom, width, height), maxRetries, order)
  {
    var infos := IterTileInfo(panoId, zoom, width, height);
    if !multiThreaded {
      s := IterTilesSequential(transport, infos, maxRetries);
    } else {
      s := IterTilesPooled(transport, infos, maxRetries, order);
    }
  }

  /** iter_tiles_async: iterate the tiles of iter_tile_info, awaiting each fetch in turn. */
  method IterTilesAsync(transport: Transport, panoId: string, zoom: int, width: nat, height: nat, maxRetries: int)
    returns (s: Stream)
    ensures SequentialStream(s, transport, IterTileInfo(panoId, zoom, width, height), maxRetries)
  {
    s := IterTilesAsyncOver(transport, IterTileInfo(panoId, zoom, width, height), maxRetries);
  }

  /** The tiles of `s` listed in the order `order` names them. */
  function Permute(s: seq<Tile>, order: seq<nat>): (r: seq<Tile>)
    requires forall j :: 0 <= j < |order| ==> order[j] < |s|
    ensures |r| == |order|
    ensures forall j :: 0 <= j < |order| ==> r[j] == s[order[j]]
  {
    seq(|order|, j requires 0 <= j < |order| => s[order[j]])
  }

  lemma {:induction false} PermuteConcat(s: seq<Tile>, a: seq<nat>, b: seq<nat>)
    requires forall j :: 0 <= j < |a| ==> a[j] < |s|
    requires forall j :: 0 <= j < |b| ==> b[j] < |s|
    ensures Permute(s, a + b) == Permute(s, a) + Permute(s, b)
  {
    assert forall j :: 0 <= j < |a + b| ==> (a + b)[j] < |s|;
    assert Permute(s, a + b) == Permute(s, a) + Permute(s, b);
  }

  /** Taking the largest index n - 1 out of a permutation of 0 .. n - 1 leaves one of 0 .. n - 2. */
  lemma RemoveLargest(order: seq<nat>, n: nat, j0: nat)
    requires n > 0 && IsPermutation(order, n) && j0 < n && order[j0] == n - 1
    ensures IsPermutation(order[..j0] + order[j0 + 1..], n - 1)
  {
    var rest := order[..j0] + order[j0 + 1..];
    forall j | 0 <= j < |rest| ensures rest[j] < n - 1 {
      if j < j0 { assert rest[j] == order[j]; } else { assert rest[j] == order[j + 1]; }
    }
    forall i, j | 0 <= i < j < n - 1 ensures rest[i] != rest[j] {
      var i', j' := if i < j0 then i else i + 1, if j < j0 then j else j + 1;
      assert rest[i] == order[i'] && rest[j] == order[j'];
    }
    forall k | 0 <= k < n - 1 ensures k in rest {
      assert k in order;
      var j :| 0 <= j < n && order[j] == k;
      if j < j0 { assert rest[j] == k; } else { assert rest[j - 1] == k; }
    }
  }

  /** Permute(s, a + [i] + b) holds the elements of Permute(s, a + b) and s[i]. */
  lemma PermuteSplit(s: seq<Tile>, a: seq<nat>, i: nat, b: seq<nat>)
    requires i < |s|
    requires forall j :: 0 <= j < |a| ==> a[j] < |s|
    requires forall j :: 0 <= j < |b| ==> b[j] < |s|
    ensures multiset(Permute(s, a + [i] + b)) == multiset(Permute(s, a + b)) + multiset{s[i]}
  {
    var pa, pb := Permute(s, a), Permute(s, b);
    assert a + [i] + b == a + ([i] + b);
    PermuteConcat(s, [i], b);
    PermuteConcat(s, a, [i] + b);
    PermuteConcat(s, a, b);
    assert Permute(s, [i]) == [s[i]];
    assert Permute(s, a + [i] + b) == pa + ([s[i]] + pb);
    assert multiset(pa + ([s[i]] + pb)) == multiset(pa) + multiset{s[i]} + multiset(pb);
  }

  /** Listing only indices below |front| reads the same elements from front + tail. */
  lemma PermutePrefix(front: seq<Tile>, tail: seq<Tile>, order: seq<nat>)
    requires forall j :: 0 <= j < |order| ==> order[j] < |front|
    ensures Permute(front + tail, order) == Permute(front, order)
  {
    assert forall j :: 0 <= j < |order| ==> (front + tail)[order[j]] == front[order[j]];
  }

  lemma SplitAt(order: seq<nat>, j0: nat)
    requires j0 < |order|
    ensures order == order[..j0] + [order[j0]] + order[j0 + 1..]
  {
  }

  /**
   * One step of the permutation argument: taking out the position j0 that lists the last
   * element leaves a listing of the other elements.
   */
  lemma PermuteDropLast(s: seq<Tile>, order: seq<nat>, j0: nat)
    requires |s| > 0 && j0 < |order| && order[j0] == |s| - 1
    requires forall j :: 0 <= j < |order| ==> order[j] < |s|
    requires forall j :: 0 <= j < |order| && j != j0 ==> order[j] < |s| - 1
    ensures multiset(Permute(s, order)) ==
      multiset(Permute(s[..|s| - 1], order[..j0] + order[j0 + 1..])) + multiset{s[|s| - 1]}
  {
    var n := |s|;
    var a, b := order[..j0], order[j0 + 1..];
    SplitAt(order, j0);
    forall j | 0 <= j < |a| ensures a[j] < n - 1 {
      assert a[j] == order[j];
    }
    forall j | 0 <= j < |b| ensures b[j] < n - 1 {
      assert b[j] == order[j0 + 1 + j];
    }
    forall j | 0 <= j < |a + b| ensures (a + b)[j] < n - 1 {
      if j < |a| { assert (a + b)[j] == a[j]; } else { assert (a + b)[j] == b[j - |a|]; }
    }
    var front, last := s[..n - 1], s[n - 1];
    PermutePrefix(front, [last], a + b);
    assert front + [last] == s;
    PermuteSplit(s, a, n - 1, b);
  }

  /** Reordering a sequence by a permutation keeps its elements with their multiplicities. */
  lemma {:induction false} PermuteMultiset(s: seq<Tile>, order: seq<nat>)
    requires IsPermutation(order, |s|)
    ensures multiset(Permute(s, order)) == multiset(s)
    decreases |s|
  {
    var n := |s|;
    if n > 0 {
      assert n - 1 in order;
      var j0 :| 0 <= j0 < n && order[j0] == n - 1;
      RemoveLargest(order, n, j0);
      PermuteDropLast(s, order, j0);
      PermuteMultiset(s[..n - 1], order[..j0] + order[j0 + 1..]);
      assert s == s[..n - 1] + [s[n - 1]];
    }
  }

  /**
   * The strategies deliver the same tiles: when both succeed, the pooled stream is the
   * sequential one reordered by the completion order, so each enumerated tile is yielded
   * exactly once by either.
   */
  lemma StrategiesAgree(transport: Transport, infos: seq<TileInfo>, maxRetries: int, order: seq<nat>,
                        sequential: Stream, pooled: Stream)
    requires IsPermutation(order, |infos|)
    requires SequentialStream(sequential, transport, infos, maxRetries) && sequential.error.None?
    requires PooledStream(pooled, transport, infos, maxRetries, order) && pooled.error.None?
    ensures pooled.tiles == Permute(sequential.tiles, order)
    ensures multiset(pooled.tiles) == multiset(sequential.tiles)
  {
    PermuteMultiset(sequential.tiles, order);
  }

  /**
   * The sequential stream ends normally exactly when every tile's fetch succeeds (which
   * exception it ends with otherwise is SequentialFailsAtFirst).
   */
  lemma SequentialSucceedsIffAllFetched(transport: Transport, infos: seq<TileInfo>, maxRetries: int, s: Stream)
    requires SequentialStream(s, transport, infos, maxRetries)
    ensures s.error.None? <==> AllFetched(transport, infos, maxRetries)
  {
    if s.error.None? {
      forall k | 0 <= k < |infos| ensures FetchOf(transport, infos[k], maxRetries).Fetched? {
        assert DeliveredAs(transport, maxRetries, infos[k], s.tiles[k]);
      }
    }
  }

  /**
   * The exception the sequential iteration over `infos` raises: that of the first tile, in
   * enumeration order, whose fetch failed, every earlier fetch having succeeded.
   */
  predicate FirstSequentialFailure(e: DownloadError, transport: Transport, infos: seq<TileInfo>, maxRetries: int) {
    exists k :: 0 <= k < |infos| &&
      (forall i :: 0 <= i < k ==> FetchOf(transport, infos[i], maxRetries).Fetched?) &&
      FetchOf(transport, infos[k], maxRetries).Failed? &&
      e == FetchFailed(FetchOf(transport, infos[k], maxRetries).error)
  }

  /**
   * The exception the pooled iteration over `infos` raises: for the first future, in
   * completion order, whose fetch failed, wrapped with that tile's URL; every future
   * completed before it succeeded.
   */
  predicate FirstPooledFailure(e: DownloadError, transport: Transport, infos: seq<TileInfo>, maxRetries: int,
                               order: seq<nat>)
    requires IsPermutation(order, |infos|)
  {
    exists j :: 0 <= j < |infos| &&
      (forall i :: 0 <= i < j ==> FetchOf(transport, infos[order[i]], maxRetries).Fetched?) &&
      FetchOf(transport, infos[order[j]], maxRetries).Failed? &&
      e == TileFailed(infos[order[j]].fileurl, FetchOf(transport, infos[order[j]], maxRetries).error)
  }

  /** A sequential stream that ends with an exception ends with that of the first failing tile. */
  lemma SequentialFailsAtFirst(transport: Transport, infos: seq<TileInfo>, maxRetries: int, s: Stream)
    requires SequentialStream(s, transport, infos, maxRetries) && s.error.Some?
    ensures FirstSequentialFailure(s.error.value, transport, infos, maxRetries)
  {
    var k := |s.tiles|;
    forall i | 0 <= i < k ensures FetchOf(transport, infos[i], maxRetries).Fetched? {
      assert DeliveredAs(transport, maxRetries, infos[i], s.tiles[i]);
    }
  }

  /** A pooled stream that ends with an exception ends with that of the first failing future. */
  lemma PooledFailsAtFirst(transport: Transport, infos: seq<TileInfo>, maxRetries: int, order: seq<nat>, s: Stream)
    requires IsPermutation(order, |infos|)
    requires PooledStream(s, transport, infos, maxRetries, order) && s.error.Some?
    ensures FirstPooledFailure(s.error.value, transport, infos, maxRetries, order)
  {
    var j := |s.tiles|;
    forall i | 0 <= i < j ensures FetchOf(transport, infos[order[i]], maxRetries).Fetched? {
      assert DeliveredAs(transport, maxRetries, infos[order[i]], s.tiles[i]);
    }
  }

  /**
   * The pooled stream ends normally exactly when every tile's fetch succeeds, whatever the
   * completion order.
   */
  lemma PooledSucceedsIffAllFetched(transport: Transport, infos: seq<TileInfo>, maxRetries: int, order: seq<nat>,
                                    s: Stream)
    requires IsPermutation(order, |infos|)
    requires PooledStream(s, transport, infos, maxRetries, order)
    ensures s.error.None? <==> AllFetched(transport, infos, maxRetries)
  {
    if s.error.None? {
      forall k | 0 <= k < |infos| ensures FetchOf(transport, infos[k], maxRetries).Fetched? {
        assert k in order;
        var j :| 0 <= j < |order| && order[j] == k;
        assert DeliveredAs(transport, maxRetries, infos[order[j]], s.tiles[j]);
      }
    }
  }
}
