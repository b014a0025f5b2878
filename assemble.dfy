/**
 * Panorama assembly of streetview/download.py (get_panorama, get_panorama_async): a black
 * canvas of (width * 512) x (height * 512) pixels onto which every yielded tile is pasted
 * at (x * 512, y * 512). The canvas is an array indexed canvas[px, py], as PIL addresses
 * pixel (x, y); the grid size is a parameter.
 */
module Assemble {
  import opened Wrappers
  import opened Images
  import opened Tiles
  import opened Fetch
  import opened Orchestrate

  /** Pixel (px, py) lies in the box a tile at (t.x * 512, t.y * 512) occupies. */
  predicate Covers(t: Tile, px: int, py: int) {
    t.x * TileSize <= px < t.x * TileSize + TileSize && t.y * TileSize <= py < t.y * TileSize + TileSize
  }

  /** The colour tile `t` gives pixel (px, py) of the canvas. */
  function PixelOf(t: Tile, px: int, py: int): Rgb
    requires Covers(t, px, py)
  {
    t.image[px - t.x * TileSize][py - t.y * TileSize]
  }

  /** The colour of pixel (px, py) after pasting `tiles` in turn onto a black canvas. */
  function CanvasAfter(tiles: seq<Tile>, px: int, py: int): Rgb
    decreases |tiles|
  {
    if tiles == [] then Black
    else
      var last := tiles[|tiles| - 1];
      if Covers(last, px, py) then PixelOf(last, px, py) else CanvasAfter(tiles[..|tiles| - 1], px, py)
  }

  /** No two tiles share a grid cell. */
  predicate DistinctCells(tiles: seq<Tile>) {
    forall i, j :: 0 <= i < j < |tiles| ==> tiles[i].x != tiles[j].x || tiles[i].y != tiles[j].y
  }

  /** The tile of cell (x, y) fetched successfully, and `tiles` holds it. */
  predicate HoldsCell(tiles: seq<Tile>, transport: Transport, panoId: string, zoom: int, maxRetries: int, x: int, y: int) {
    var info := InfoAt(panoId, zoom, x, y);
    FetchOf(transport, info, maxRetries).Fetched? &&
    Tile(x, y, FetchOf(transport, info, maxRetries).image) in tiles
  }

  /** The paste box of every cell of a width x height grid lies inside the canvas. */
  lemma PasteInBounds(x: int, y: int, width: nat, height: nat)
    requires 0 <= x < width && 0 <= y < height
    ensures 0 <= x * TileSize && x * TileSize + TileSize <= width * TileSize
    ensures 0 <= y * TileSize && y * TileSize + TileSize <= height * TileSize
  {
  }

  /** The paste box of tile `t` lies inside a (width * 512) x (height * 512) canvas. */
  predicate BoxInCanvas(t: Tile, width: nat, height: nat) {
    0 <= t.x * TileSize && t.x * TileSize + TileSize <= width * TileSize &&
    0 <= t.y * TileSize && t.y * TileSize + TileSize <= height * TileSize
  }

  /** Every tile a sequential stream yields is pasted inside the canvas. */
  lemma SequentialPastesInBounds(s: Stream, transport: Transport, panoId: string, zoom: int, width: nat, height: nat,
                                 maxRetries: int, k: int)
    requires SequentialStream(s, transport, IterTileInfo(panoId, zoom, width, height), maxRetries)
    requires 0 <= k < |s.tiles|
    ensures BoxInCanvas(s.tiles[k], width, height)
  {
    var infos := IterTileInfo(panoId, zoom, width, height);
    TilesInGrid(panoId, zoom, width, height);
    assert DeliveredAs(transport, maxRetries, infos[k], s.tiles[k]) && infos[k] in infos;
    PasteInBounds(s.tiles[k].x, s.tiles[k].y, width, height);
  }

  /** Every tile a pooled stream yields is pasted inside the canvas. */
  lemma PooledPastesInBounds(s: Stream, transport: Transport, panoId: string, zoom: int, width: nat, height: nat,
                             maxRetries: int, order: seq<nat>, k: int)
    requires IsPermutation(order, width * height)
    requires PooledStream(s, transport, IterTileInfo(panoId, zoom, width, height), maxRetries, order)
    requires 0 <= k < |s.tiles|
    ensures BoxInCanvas(s.tiles[k], width, height)
  {
    var infos := IterTileInfo(panoId, zoom, width, height);
    TilesInGrid(panoId, zoom, width, height);
    assert DeliveredAs(transport, maxRetries, infos[order[k]], s.tiles[k]) && infos[order[k]] in infos;
    PasteInBounds(s.tiles[k].x, s.tiles[k].y, width, height);
  }

  /** Tiles of different cells are pasted into disjoint boxes. */
  lemma PasteBoxesDisjoint(a: Tile, b: Tile, px: int, py: int)
    requires a.x != b.x || a.y != b.y
    ensures !(Covers(a, px, py) && Covers(b, px, py))
  {
  }

  /** With no two tiles in one cell, a pixel in a tile's box shows that tile's pixel. */
  lemma {:induction false} CanvasShowsTile(tiles: seq<Tile>, t: Tile, px: int, py: int)
    requires DistinctCells(tiles) && t in tiles && Covers(t, px, py)
    ensures CanvasAfter(tiles, px, py) == PixelOf(t, px, py)
    decreases |tiles|
  {
    var n := |tiles|;
    var last, front := tiles[n - 1], tiles[..n - 1];
    assert tiles == front + [last];
    if t != last {
      var i :| 0 <= i < n && tiles[i] == t;
      assert i < n - 1 && front[i] == t;
      PasteBoxesDisjoint(t, last, px, py);
      CanvasShowsTile(front, t, px, py);
    }
  }

  /** A pixel in no tile's box keeps the canvas's initial black. */
  lemma {:induction false} CanvasUncovered(tiles: seq<Tile>, px: int, py: int)
    requires forall t :: t in tiles ==> !Covers(t, px, py)
    ensures CanvasAfter(tiles, px, py) == Black
    decreases |tiles|
  {
    if tiles != [] {
      var n := |tiles|;
      assert tiles[n - 1] in tiles;
      assert forall t :: t in tiles[..n - 1] ==> t in tiles;
      CanvasUncovered(tiles[..n - 1], px, py);
    }
  }

  /**
   * The canvas does not depend on the order the tiles are delivered in: pasting the same
   * tiles, no two in one cell, in any two orders paints every pixel alike.
   */
  lemma AssemblyOrderIndependent(tiles1: seq<Tile>, tiles2: seq<Tile>, px: int, py: int)
    requires DistinctCells(tiles1) && DistinctCells(tiles2)
    requires multiset(tiles1) == multiset(tiles2)
    ensures CanvasAfter(tiles1, px, py) == CanvasAfter(tiles2, px, py)
  {
    if t :| t in tiles1 && Covers(t, px, py) {
      assert t in multiset(tiles2);
      CanvasShowsTile(tiles1, t, px, py);
      CanvasShowsTile(tiles2, t, px, py);
    } else {
      forall t | t in tiles2 ensures !Covers(t, px, py) {
        assert t in multiset(tiles1);
      }
      CanvasUncovered(tiles1, px, py);
      CanvasUncovered(tiles2, px, py);
    }
  }

  /**
   * Once every cell of the grid is held, every canvas pixel is painted by the tile of its
   * own cell (px / 512, py / 512), at offset (px % 512, py % 512) within it.
   */
  lemma EveryPixelPainted(tiles: seq<Tile>, transport: Transport, panoId: string, zoom: int, maxRetries: int,
                          width: nat, height: nat, px: int, py: int)
    requires DistinctCells(tiles)
    requires forall x, y :: 0 <= x < width && 0 <= y < height ==>
      HoldsCell(tiles, transport, panoId, zoom, maxRetries, x, y)
    requires 0 <= px < width * TileSize && 0 <= py < height * TileSize
    ensures var info := InfoAt(panoId, zoom, px / TileSize, py / TileSize);
      FetchOf(transport, info, maxRetries).Fetched? &&
      CanvasAfter(tiles, px, py) == FetchOf(transport, info, maxRetries).image[px % TileSize][py % TileSize]
  {
    var x, y := px / TileSize, py / TileSize;
    assert x < width && y < height;
    assert HoldsCell(tiles, transport, panoId, zoom, maxRetries, x, y);
    var t := Tile(x, y, FetchOf(transport, InfoAt(panoId, zoom, x, y), maxRetries).image);
    CanvasShowsTile(tiles, t, px, py);
  }

  /** A sequential stream holds no two tiles of one cell. */
  lemma SequentialTilesDistinct(s: Stream, transport: Transport, panoId: string, zoom: int, width: nat, height: nat,
                                maxRetries: int)
    requires SequentialStream(s, transport, IterTileInfo(panoId, zoom, width, height), maxRetries)
    ensures DistinctCells(s.tiles)
  {
    var infos := IterTileInfo(panoId, zoom, width, height);
    forall i, j | 0 <= i < j < |s.tiles| ensures s.tiles[i].x != s.tiles[j].x || s.tiles[i].y != s.tiles[j].y {
      assert DeliveredAs(transport, maxRetries, infos[i], s.tiles[i]);
      assert DeliveredAs(transport, maxRetries, infos[j], s.tiles[j]);
      TilesDistinct(panoId, zoom, width, height, i, j);
    }
  }

  /** A completed sequential stream holds the tile of every cell. */
  lemma SequentialTilesFillGrid(s: Stream, transport: Transport, panoId: string, zoom: int, width: nat, height: nat,
                                maxRetries: int)
    requires SequentialStream(s, transport, IterTileInfo(panoId, zoom, width, height), maxRetries)
    requires s.error.None?
    ensures forall x, y :: 0 <= x < width && 0 <= y < height ==>
      HoldsCell(s.tiles, transport, panoId, zoom, maxRetries, x, y)
  {
    var infos := IterTileInfo(panoId, zoom, width, height);
    forall x, y | 0 <= x < width && 0 <= y < height
      ensures HoldsCell(s.tiles, transport, panoId, zoom, maxRetries, x, y)
    {
      TileAtIndex(panoId, zoom, width, height, x, y);
      var k := x * height + y;
      assert DeliveredAs(transport, maxRetries, infos[k], s.tiles[k]);
      assert s.tiles[k] in s.tiles;
    }
  }

  /** A pooled stream holds no two tiles of one cell: each future is drained once. */
  lemma PooledTilesDistinct(s: Stream, transport: Transport, panoId: string, zoom: int, width: nat, height: nat,
                            maxRetries: int, order: seq<nat>)
    requires IsPermutation(order, width * height)
    requires PooledStream(s, transport, IterTileInfo(panoId, zoom, width, height), maxRetries, order)
    ensures DistinctCells(s.tiles)
  {
    var infos := IterTileInfo(panoId, zoom, width, height);
    forall i, j | 0 <= i < j < |s.tiles| ensures s.tiles[i].x != s.tiles[j].x || s.tiles[i].y != s.tiles[j].y {
      assert DeliveredAs(transport, maxRetries, infos[order[i]], s.tiles[i]);
      assert DeliveredAs(transport, maxRetries, infos[order[j]], s.tiles[j]);
      TilesDistinct(panoId, zoom, width, height, order[i], order[j]);
    }
  }

  /** A completed pooled stream holds the tile of every cell, whatever the completion order. */
  lemma PooledTilesFillGrid(s: Stream, transport: Transport, panoId: string, zoom: int, width: nat, height: nat,
                            maxRetries: int, order: seq<nat>)
    requires IsPermutation(order, width * height)
    requires PooledStream(s, transport, IterTileInfo(panoId, zoom, width, height), maxRetries, order)
    requires s.error.None?
    ensures forall x, y :: 0 <= x < width && 0 <= y < height ==>
      HoldsCell(s.tiles, transport, panoId, zoom, maxRetries, x, y)
  {
    var infos := IterTileInfo(panoId, zoom, width, height);
    forall x, y | 0 <= x < width && 0 <= y < height
      ensures HoldsCell(s.tiles, transport, panoId, zoom, maxRetries, x, y)
    {
      TileAtIndex(panoId, zoom, width, height, x, y);
      var k := x * height + y;
      assert k in order;
      var j :| 0 <= j < |order| && order[j] == k;
      assert DeliveredAs(transport, maxRetries, infos[order[j]], s.tiles[j]);
      assert s.tiles[j] in s.tiles;
    }
  }

  /**
   * panorama.paste(im=image, box=(left, upper)): the image's pixels replace those of the
   * canvas in the box [left, left + 512) x [upper, upper + 512); what falls outside the
   * canvas is dropped and every other pixel keeps its colour.
   */
  method Paste(canvas: array2<Rgb>, image: TileImage, left: int, upper: int)
    modifies canvas
    ensures forall px, py :: 0 <= px < canvas.Length0 && 0 <= py < canvas.Length1 ==>
      canvas[px, py] ==
        if left <= px < left + TileSize && upper <= py < upper + TileSize then image[px - left][py - upper]
        else old(canvas[px, py])
  {
    for dx := 0 to TileSize
      invariant forall px, py :: 0 <= px < canvas.Length0 && 0 <= py < canvas.Length1 ==>
        canvas[px, py] ==
          if left <= px < left + dx && upper <= py < upper + TileSize then image[px - left][py - upper]
          else old(canvas[px, py])
    {
      for dy := 0 to TileSize
        invariant forall px, py :: 0 <= px < canvas.Length0 && 0 <= py < canvas.Length1 ==>
          canvas[px, py] ==
            if (left <= px < left + dx && upper <= py < upper + TileSize) ||
               (px == left + dx && upper <= py < upper + dy)
            then image[px - left][py - upper]
            else old(canvas[px, py])
      {
        var px, py := left + dx, upper + dy;
        if 0 <= px < canvas.Length0 && 0 <= py < canvas.Length1 {
          canvas[px, py] := image[dx][dy];
        }
      }
    }
  }

  /**
   * Image.new followed by the paste loop: a black canvas of (width * 512) x
   * (height * 512) pixels with each tile pasted, in turn, at (x * 512, y * 512).
   */
  method AssembleCanvas(width: nat, height: nat, tiles: seq<Tile>) returns (canvas: array2<Rgb>)
    ensures fresh(canvas)
    ensures canvas.Length0 == width * TileSize && canvas.Length1 == height * TileSize
    ensures forall px, py :: 0 <= px < canvas.Length0 && 0 <= py < canvas.Length1 ==>
      canvas[px, py] == CanvasAfter(tiles, px, py)
  {
    canvas := new Rgb[width * TileSize, height * TileSize]((_, _) => Black);
    for i := 0 to |tiles|
      invariant forall px, py :: 0 <= px < canvas.Length0 && 0 <= py < canvas.Length1 ==>
        canvas[px, py] == CanvasAfter(tiles[..i], px, py)
    {
      var tile := tiles[i];
      Paste(canvas, tile.image, tile.x * TileSize, tile.y * TileSize);
      assert tiles[..i + 1][..i] == tiles[..i];
    }
    assert tiles[..|tiles|] == tiles;
  }

  /**
   * The canvas a download returns when every tile was fetched: every pixel holds the pixel
   * of its own cell's tile, whatever the strategy and whatever the completion order.
   */
  predicate IsPanorama(canvas: array2<Rgb>, transport: Transport, panoId: string, zoom: int, width: nat, height: nat,
                       maxRetries: int)
    reads canvas
  {
    canvas.Length0 == width * TileSize && canvas.Length1 == height * TileSize &&
    forall px, py :: 0 <= px < canvas.Length0 && 0 <= py < canvas.Length1 ==>
      var info := InfoAt(panoId, zoom, px / TileSize, py / TileSize);
      FetchOf(transport, info, maxRetries).Fetched? &&
      canvas[px, py] == FetchOf(transport, info, maxRetries).image[px % TileSize][py % TileSize]
  }

  /**
   * The exception a failed download ends with: the first failure in enumeration order on
   * the sequential path, the first failure in completion order on the pooled one.
   */
  predicate IsDownloadFailure(e: DownloadError, transport: Transport, infos: seq<TileInfo>, maxRetries: int,
                              multiThreaded: bool, order: seq<nat>)
    requires multiThreaded ==> IsPermutation(order, |infos|)
  {
    if multiThreaded then FirstPooledFailure(e, transport, infos, maxRetries, order)
    else FirstSequentialFailure(e, transport, infos, maxRetries)
  }

  /** The panorama for the tiles of a completed stream. */
  method Finish(s: Stream, transport: Transport, panoId: string, zoom: int, width: nat, height: nat,
                maxRetries: int, ghost multiThreaded: bool, ghost order: seq<nat>)
    returns (r: Result<array2<Rgb>, DownloadError>)
    requires multiThreaded ==> IsPermutation(order, width * height)
    requires !multiThreaded ==> SequentialStream(s, transport, IterTileInfo(panoId, zoom, width, height), maxRetries)
    requires multiThreaded ==> PooledStream(s, transport, IterTileInfo(panoId, zoom, width, height), maxRetries, order)
    ensures r.Ok? <==> AllFetched(transport, IterTileInfo(panoId, zoom, width, height), maxRetries)
    ensures r.Ok? ==> fresh(r.value) && IsPanorama(r.value, transport, panoId, zoom, width, height, maxRetries)
    ensures r.Err? ==> s.error.Some? && r.error == s.error.value
    ensures r.Err? ==>
      IsDownloadFailure(r.error, transport, IterTileInfo(panoId, zoom, width, height), maxRetries, multiThreaded, order)
  {
    var infos := IterTileInfo(panoId, zoom, width, height);
    if multiThreaded {
      PooledSucceedsIffAllFetched(transport, infos, maxRetries, order, s);
    } else {
      SequentialSucceedsIffAllFetched(transport, infos, maxRetries, s);
    }
    var canvas := AssembleCanvas(width, height, s.tiles);
    if s.error.Some? {
      if multiThreaded {
        PooledFailsAtFirst(transport, infos, maxRetries, order, s);
      } else {
        SequentialFailsAtFirst(transport, infos, maxRetries, s);
      }
      return Err(s.error.value);
    }
    if multiThreaded {
      PooledTilesDistinct(s, transport, panoId, zoom, width, height, maxRetries, order);
      PooledTilesFillGrid(s, transport, panoId, zoom, width, height, maxRetries, order);
    } else {
      SequentialTilesDistinct(s, transport, panoId, zoom, width, height, maxRetries);
      SequentialTilesFillGrid(s, transport, panoId, zoom, width, height, maxRetries);
    }
    forall px, py | 0 <= px < canvas.Length0 && 0 <= py < canvas.Length1
      ensures var info := InfoAt(panoId, zoom, px / TileSize, py / TileSize);
        FetchOf(transport, info, maxRetries).Fetched? &&
        canvas[px, py] == FetchOf(transport, info, maxRetries).image[px % TileSize][py % TileSize]
    {
      EveryPixelPainted(s.tiles, transport, panoId, zoom, maxRetries, width, height, px, py);
    }
    r := Ok(canvas);
  }

  /**
   * get_panorama: iterate the tiles with the chosen strategy and paste them; the download
   * either returns the whole panorama or raises the exception of a tile that failed.
   */
  method GetPanorama(transport: Transport, panoId: string, zoom: int, width: nat, height: nat, multiThreaded: bool,
                     maxRetries: int, order: seq<nat>)
    returns (r: Result<array2<Rgb>, DownloadError>)
    requires multiThreaded ==> IsPermutation(order, width * height)
    ensures r.Ok? <==> AllFetched(transport, IterTileInfo(panoId, zoom, width, height), maxRetries)
    ensures r.Ok? ==> fresh(r.value) && IsPanorama(r.value, transport, panoId, zoom, width, height, maxRetries)
    ensures r.Err? ==>
      IsDownloadFailure(r.error, transport, IterTileInfo(panoId, zoom, width, height), maxRetries, multiThreaded, order)
  {
    var s := IterTiles(transport, panoId, zoom, width, height, maxRetries, multiThreaded, order);
    r := Finish(s, transport, panoId, zoom, width, height, maxRetries, multiThreaded, order);
  }

  /** get_panorama_async: the same assembly over iter_tiles_async. */
  method GetPanoramaAsync(transport: Transport, panoId: string, zoom: int, width: nat, height: nat, maxRetries: int)
    returns (r: Result<array2<Rgb>, DownloadError>)
    ensures r.Ok? <==> AllFetched(transport, IterTileInfo(panoId, zoom, width, height), maxRetries)
    ensures r.Ok? ==> fresh(r.value) && IsPanorama(r.value, transport, panoId, zoom, width, height, maxRetries)
    ensures r.Err? ==>
      IsDownloadFailure(r.error, transport, IterTileInfo(panoId, zoom, width, height), maxRetries, false, [])
  {
    var s := IterTilesAsync(transport, panoId, zoom, width, height, maxRetries);
    r := Finish(s, transport, panoId, zoom, width, height, maxRetries, false, []);
  }
}
