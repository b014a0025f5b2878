/**
 * Tile enumeration of streetview/download.py (TileInfo, iter_tile_info): one TileInfo per
 * cell of a width x height grid, in the order of product(range(width), range(height)),
 * so x is the outer index and y varies fastest.
 */
module Tiles {
  import opened Urls

  /** A tile position together with the URL it is downloaded from. */
  datatype TileInfo = TileInfo(x: int, y: int, fileurl: string)

  /** The TileInfo that the generator yields for cell (x, y). */
  function InfoAt(panoId: string, zoom: int, x: int, y: int): (info: TileInfo)
    ensures info.x == x && info.y == y
  {
    TileInfo(x, y, MakeDownloadUrl(panoId, zoom, x, y))
  }

  /**
   * product(range(width), range(height)): for each x in turn, the pairs (x, 0), ...,
   * (x, height - 1).
   */
  function Product(width: nat, height: nat): (cells: seq<(int, int)>)
    ensures |cells| == width * height
  {
    if width == 0 then []
    else Product(width - 1, height) + seq(height, y => (width - 1, y))
  }

  /**
   * iter_tile_info for integer dimensions: the TileInfo of every pair of the product, in
   * the product's order. The grid size is a parameter here; the source obtains it from a
   * metadata request.
   */
  function IterTileInfo(panoId: string, zoom: int, width: nat, height: nat): (tiles: seq<TileInfo>)
    ensures |tiles| == width * height
  {
    var cells := Product(width, height);
    seq(|cells|, i requires 0 <= i < |cells| => InfoAt(panoId, zoom, cells[i].0, cells[i].1))
  }

  /** Strict lexicographic order on (x, y), the order product() enumerates in. */
  predicate LexLess(a: (int, int), b: (int, int)) {
    a.0 < b.0 || (a.0 == b.0 && a.1 < b.1)
  }

  predicate InGrid(t: TileInfo, width: int, height: int) {
    0 <= t.x < width && 0 <= t.y < height
  }

  lemma IndexBelowColumn(x: nat, y: nat, w: nat, height: nat)
    requires x < w && y < height
    ensures x * height + y < w * height
  {
    assert x * height + y < x * height + height == (x + 1) * height;
    assert (x + 1) * height <= w * height;
  }

  /** The product yields pair (x, y) at position x * height + y. */
  lemma {:induction false} ProductAt(width: nat, height: nat, x: nat, y: nat)
    requires x < width && y < height
    ensures x * height + y < |Product(width, height)|
    ensures Product(width, height)[x * height + y] == (x, y)
  {
    IndexBelowColumn(x, y, width, height);
    var prefix := Product(width - 1, height);
    var col: seq<(int, int)> := seq(height, y => (width - 1, y));
    assert Product(width, height) == prefix + col;
    assert |prefix| == (width - 1) * height;
    if x < width - 1 {
      ProductAt(width - 1, height, x, y);
      assert (prefix + col)[x * height + y] == prefix[x * height + y];
    } else {
      assert x * height == (width - 1) * height;
      assert (prefix + col)[x * height + y] == col[y];
    }
  }

  /** Every pair of the product lies in the grid. */
  lemma {:induction false} ProductInGrid(width: nat, height: nat)
    ensures forall i :: 0 <= i < |Product(width, height)| ==>
      0 <= Product(width, height)[i].0 < width && 0 <= Product(width, height)[i].1 < height
  {
    if width > 0 {
      var prefix := Product(width - 1, height);
      var col: seq<(int, int)> := seq(height, y => (width - 1, y));
      assert Product(width, height) == prefix + col;
      ProductInGrid(width - 1, height);
      forall i | 0 <= i < |prefix + col|
        ensures 0 <= (prefix + col)[i].0 < width && 0 <= (prefix + col)[i].1 < height
      {
        if i < |prefix| {
          assert (prefix + col)[i] == prefix[i];
        } else {
          assert (prefix + col)[i] == col[i - |prefix|];
        }
      }
    }
  }

  /** The product comes in strictly increasing (x, y) order, y varying fastest. */
  lemma {:induction false} ProductOrdered(width: nat, height: nat)
    ensures forall i, j :: 0 <= i < j < |Product(width, height)| ==>
      LexLess(Product(width, height)[i], Product(width, height)[j])
  {
    if width > 0 {
      var prefix := Product(width - 1, height);
      var col: seq<(int, int)> := seq(height, y => (width - 1, y));
      var cells := prefix + col;
      assert Product(width, height) == cells;
      ProductOrdered(width - 1, height);
      ProductInGrid(width - 1, height);
      forall i, j | 0 <= i < j < |cells| ensures LexLess(cells[i], cells[j]) {
        if j < |prefix| {
          assert cells[i] == prefix[i] && cells[j] == prefix[j];
        } else if i < |prefix| {
          assert cells[i] == prefix[i] && cells[j] == col[j - |prefix|];
        } else {
          assert cells[i] == col[i - |prefix|] && cells[j] == col[j - |prefix|];
        }
      }
    }
  }

  /** Cell (x, y) sits at position x * height + y, with the URL built for it. */
  lemma TileAtIndex(panoId: string, zoom: int, width: nat, height: nat, x: nat, y: nat)
    requires x < width && y < height
    ensures x * height + y < |IterTileInfo(panoId, zoom, width, height)|
    ensures IterTileInfo(panoId, zoom, width, height)[x * height + y] == InfoAt(panoId, zoom, x, y)
  {
    ProductAt(width, height, x, y);
  }

  /** Every yielded tile lies in the grid and carries the URL of its own cell. */
  lemma TilesInGrid(panoId: string, zoom: int, width: nat, height: nat)
    ensures forall t :: t in IterTileInfo(panoId, zoom, width, height) ==>
              InGrid(t, width, height) && t == InfoAt(panoId, zoom, t.x, t.y)
  {
    ProductInGrid(width, height);
  }

  /** The tiles come in strictly increasing (x, y) order, y varying fastest. */
  lemma TilesOrdered(panoId: string, zoom: int, width: nat, height: nat)
    ensures var tiles := IterTileInfo(panoId, zoom, width, height);
      forall i, j :: 0 <= i < j < |tiles| ==> LexLess((tiles[i].x, tiles[i].y), (tiles[j].x, tiles[j].y))
  {
    ProductOrdered(width, height);
  }

  /** No cell is yielded twice: different positions hold different (x, y). */
  lemma TilesDistinct(panoId: string, zoom: int, width: nat, height: nat, i: int, j: int)
    requires 0 <= i < width * height && 0 <= j < width * height && i != j
    ensures var tiles := IterTileInfo(panoId, zoom, width, height);
      tiles[i].x != tiles[j].x || tiles[i].y != tiles[j].y
  {
    ProductOrdered(width, height);
    var cells := Product(width, height);
    if i < j {
      assert LexLess(cells[i], cells[j]);
    } else {
      assert LexLess(cells[j], cells[i]);
    }
  }

  /**
   * Coverage: exactly width * height tiles, each in the grid, and every cell of the grid
   * yielded, at position x * height + y.
   */
  lemma TilesCoverGrid(panoId: string, zoom: int, width: nat, height: nat)
    ensures var tiles := IterTileInfo(panoId, zoom, width, height);
      |tiles| == width * height &&
      (forall t :: t in tiles ==> InGrid(t, width, height)) &&
      (forall x: nat, y: nat :: x < width && y < height ==> InfoAt(panoId, zoom, x, y) in tiles)
  {
    TilesInGrid(panoId, zoom, width, height);
    forall x: nat, y: nat | x < width && y < height
      ensures InfoAt(panoId, zoom, x, y) in IterTileInfo(panoId, zoom, width, height)
    {
      TileAtIndex(panoId, zoom, width, height, x, y);
    }
  }
}
