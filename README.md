# Street View panorama download, modelled in Dafny

This project models the core of `streetview/download.py`. That file downloads a Street View
panorama as a grid of 512 x 512 tiles and stitches the tiles into one image. The model has
five modules:

- `Urls` (urls.dfy): the tile URL (`make_download_url`). It includes the decimal rendering
  that Python's f-string applies to `zoom`, `x` and `y`. A lemma proves that within one
  panorama and zoom level the URL determines the tile.
- `Tiles` (tiles.dfy): `TileInfo` and the enumeration `iter_tile_info` over a
  `width x height` grid, as a function returning a sequence. The pairs of
  `itertools.product` are a sequence of their own, and each becomes the TileInfo of its
  cell. Lemmas give coverage, uniqueness and order.
- `Fetch` (fetch.dfy): the bounded retry loop of `fetch_panorama_tile` and
  `fetch_panorama_tile_async`.
  - The network and the image decoder become a *transport*: a function from a URL and an
    attempt number to the outcome of that attempt.
  - An outcome is a decoded tile, a connection error, or another exception.
  - The loop is a method. It is proved equal to a recursive specification. Lemmas then give
    the attempt count, the sleep count and the result.
- `Orchestrate` (orchestrate.dfy): `iter_tiles` (sequential and thread-pool) and
  `iter_tiles_async`.
  - A generator is modelled by the `Stream` it produces: the tiles it yields, then the
    exception that ends it, if any.
  - The loops of the strategies take the tiles `iter_tile_info` yields as a sequence, and
    `IterTiles` and `IterTilesAsync` pass them the enumeration of the grid.
  - The thread pool's completion order is a parameter, and it must be a permutation of the
    submitted futures.
- `Assemble` (assemble.dfy): the canvas of `get_panorama` and `get_panorama_async`. It is a
  2D array updated in place: a nested copy loop for `paste`, and a loop of pastes at
  `(x * 512, y * 512)`. It is proved that:
  - every paste box of the grid lies inside the canvas;
  - boxes of different cells are disjoint;
  - the final canvas does not depend on the delivery order;
  - every pixel holds the pixel of its own cell's tile.

`Wrappers` (wrappers.dfy) holds `Option` and `Result`. `Images` (images.dfy) holds the
pixel type, the tile edge length 512 and the tile image type.

Points of the code that the model reproduces as written:

- Tiles come with `x` as the outer index and `y` varying fastest, as
  `product(range(width), range(height))` gives them (streetview/download.py:103).
- A connection error is followed by a sleep every time, the last attempt included
  (streetview/download.py:74-77). So `max_retries = 1` with a failing transport makes one
  attempt and one sleep.
- On exhaustion the sequential path raises the fetch's own `ConnectionError("Max retries
  exceeded.")`, which carries no URL (streetview/download.py:77, 118-119). Only the
  thread-pool path wraps the failure with the tile's URL (streetview/download.py:130-135).
- The thread-pool path submits every tile before it drains any result, so no submission
  stops after a failure (streetview/download.py:124-128). The pool's `with` block also
  waits for the outstanding fetches.

## Model

| member | source | states |
|---|---|---|
| `Urls.DownloadUrlLayout` | streetview/download.py:54-61 | the URL is `https://cbk0.google.com/cbk?output=tile&panoid=`, the panorama id, `&zoom=`, the zoom, `&x=`, `x`, `&y=` and `y`, each value in decimal, in that order and nothing else |
| `Urls.DecimalDigits` | streetview/download.py:60 | a natural number renders to a non-empty string of decimal digits |
| `Urls.DecimalNoAmpersand` | streetview/download.py:60 | a rendered integer holds no `&`, so a value cannot run into the next query parameter |
| `Urls.DecimalRoundTrip` | streetview/download.py:60 | reading back the digits a natural number is rendered with gives the number again (negative integers are covered by `Urls.IntToDecimalInjective`) |
| `Urls.SignOfDecimal` | streetview/download.py:60 | a rendered integer starts with `-` exactly when it is negative |
| `Urls.IntToDecimalInjective` | streetview/download.py:60 | different integers render to different strings (sign included) |
| `Urls.DownloadUrlInjective` | streetview/download.py:54-61 | for one panorama and zoom, equal URLs mean equal `(x, y)`, so every tile has its own URL |
| `Tiles.Product` | streetview/download.py:103 | `product(range(width), range(height))` has exactly `width * height` pairs |
| `Tiles.ProductAt` | streetview/download.py:103 | the product yields pair `(x, y)` at position `x * height + y` |
| `Tiles.ProductInGrid` | streetview/download.py:103 | every pair of the product lies in the grid |
| `Tiles.ProductOrdered` | streetview/download.py:103 | the pairs come in strictly increasing lexicographic order, `y` varying fastest |
| `Tiles.IterTileInfo` | streetview/download.py:98-108 | the enumeration has exactly `width * height` tiles |
| `Tiles.TileAtIndex` | streetview/download.py:103-108 | cell `(x, y)` is yielded at position `x * height + y`, with its own URL |
| `Tiles.TilesInGrid` | streetview/download.py:103-108 | every yielded tile has `0 <= x < width`, `0 <= y < height` and the URL built from its own coordinates |
| `Tiles.TilesOrdered` | streetview/download.py:103 | tiles come in strictly increasing lexicographic `(x, y)` order, `y` varying fastest |
| `Tiles.TilesDistinct` | streetview/download.py:103 | tiles at two different positions of the enumeration have different `(x, y)`, so no cell is yielded twice |
| `Tiles.TilesCoverGrid` | streetview/download.py:102-108 | `width * height` tiles, all in the grid, and every cell of the grid among them |
| `Fetch.RetryFromExplained` | streetview/download.py:70-77 | from any attempt on, the loop ends in one of the three ways below, within the attempt budget |
| `Fetch.FetchOutcome` | streetview/download.py:70-77 | at most `max(0, max_retries)` attempts, all but the last connection errors; success returns the last attempt's image after `attempts - 1` sleeps; another exception propagates from the last attempt after `attempts - 1` sleeps; "Max retries exceeded" comes after exactly `max(0, max_retries)` attempts, all connection errors, and as many sleeps |
| `Fetch.RetryFromReaches` | streetview/download.py:70-76 | connection errors only lead on to the next attempt |
| `Fetch.FetchSucceedsAt` | streetview/download.py:70-73 | `k` connection errors then a success at attempt `k < max_retries` return that image after `k + 1` attempts and `k` sleeps |
| `Fetch.FetchPropagatesAt` | streetview/download.py:71-74 | `k` connection errors then another exception propagate that exception after `k + 1` attempts, with no retry |
| `Fetch.RetryFromExhausts` | streetview/download.py:70-77 | connection errors up to the budget lead to "Max retries exceeded" |
| `Fetch.FetchExhausted` | streetview/download.py:70-77 | all attempts failing to connect raise "Max retries exceeded" after exactly `max(0, max_retries)` attempts and sleeps; with `max_retries <= 0` there is no attempt |
| `Fetch.FetchPanoramaTile` | streetview/download.py:64-77 | the retry loop (a `while` loop over the attempt counter, for `for _ in range(max_retries)`) returns the result, attempt count and sleep count the retry specification gives |
| `Fetch.FetchPanoramaTileAsync` | streetview/download.py:80-95 | the async twin ends the same way, retrying `httpx.RequestError` |
| `Orchestrate.IterTilesSequential` | streetview/download.py:117-121 | the k-th tile yielded is the k-th enumerated tile with its fetched image; the generator completes after all tiles or raises the exception of the first failing fetch |
| `Orchestrate.IterTilesAsyncOver` | streetview/download.py:143-146 | the loop of the async generator yields and fails exactly like the sequential one |
| `Orchestrate.IterTilesAsync` | streetview/download.py:140-146 | over the tiles of `iter_tile_info`, the async generator yields and fails exactly like the sequential one |
| `Orchestrate.IterTilesPooled` | streetview/download.py:123-137 | the j-th tile yielded is that of the j-th completed future; it completes after all of them or raises, for the first failure in completion order, an exception carrying that tile's URL and cause |
| `Orchestrate.IterTiles` | streetview/download.py:111-137 | over the tiles of `iter_tile_info`, `multi_threaded` selects the pooled stream, otherwise the sequential one |
| `Orchestrate.PermuteDropLast` | streetview/download.py:128 | removing the completion that lists the last tile leaves a listing of the other tiles, with that tile taken out of the multiset |
| `Orchestrate.PermuteMultiset` | streetview/download.py:128 | reordering by a permutation keeps every element with its multiplicity |
| `Orchestrate.StrategiesAgree` | streetview/download.py:117-137 | when both succeed, the pooled tiles are the sequential tiles reordered by the completion order, the same multiset |
| `Orchestrate.SequentialSucceedsIffAllFetched` | streetview/download.py:117-121 | the sequential generator completes exactly when every tile's fetch succeeds |
| `Orchestrate.SequentialFailsAtFirst` | streetview/download.py:117-121 | a sequential stream that raises, raises the unwrapped exception of the first tile in enumeration order whose fetch failed, all earlier fetches having succeeded |
| `Orchestrate.PooledFailsAtFirst` | streetview/download.py:128-135 | a pooled stream that raises, raises for the first future in completion order whose fetch failed, with that tile's URL and cause, all earlier futures having succeeded |
| `Orchestrate.PooledSucceedsIffAllFetched` | streetview/download.py:123-137 | the pooled generator completes exactly when every tile's fetch succeeds, whatever the completion order |
| `Assemble.PasteInBounds` | streetview/download.py:159-171 | the paste box `(x * 512, y * 512)` to `+512` of every grid cell lies in the `(width * 512) x (height * 512)` canvas |
| `Assemble.SequentialPastesInBounds` | streetview/download.py:163-171 | every tile a sequential stream yields is pasted at a box inside the canvas |
| `Assemble.PooledPastesInBounds` | streetview/download.py:123-137 | every tile a pooled stream yields is pasted at a box inside the canvas |
| `Assemble.PasteBoxesDisjoint` | streetview/download.py:171 | tiles of different cells are pasted into disjoint boxes |
| `Assemble.CanvasShowsTile` | streetview/download.py:165-172 | with no two tiles in one cell, a pixel in a tile's box ends up with that tile's pixel, whatever was pasted before or after |
| `Assemble.CanvasUncovered` | streetview/download.py:163 | a pixel in no tile's box keeps the fresh canvas's black |
| `Assemble.AssemblyOrderIndependent` | streetview/download.py:165-172 | pasting the same tiles in two orders gives the same canvas, so the sequential and pooled paths paint alike |
| `Assemble.EveryPixelPainted` | streetview/download.py:159-174 | when every cell's tile is delivered, every pixel `(px, py)` holds pixel `(px % 512, py % 512)` of the tile of cell `(px / 512, py / 512)` |
| `Assemble.SequentialTilesDistinct` | streetview/download.py:117-121 | a sequential stream holds no two tiles of one cell |
| `Assemble.SequentialTilesFillGrid` | streetview/download.py:165-171 | a completed sequential stream holds one tile per cell and every cell's tile |
| `Assemble.PooledTilesDistinct` | streetview/download.py:123-137 | a pooled stream holds no two tiles of one cell, each future being drained once |
| `Assemble.PooledTilesFillGrid` | streetview/download.py:123-137 | a completed pooled stream holds one tile per cell and every cell's tile |
| `Assemble.Paste` | streetview/download.py:171 | the tile's pixels replace the canvas's in the box at the offset, clipped to the canvas, and every other pixel is unchanged |
| `Assemble.AssembleCanvas` | streetview/download.py:159-173 | a fresh `(width * 512) x (height * 512)` canvas in which each pixel is what pasting the tiles in turn on black gives |
| `Assemble.Finish` | streetview/download.py:165-174 | from a stream: the full panorama when every fetch succeeds, otherwise the stream's own exception, which is that of the first failing tile in enumeration order (sequential) or completion order (pooled) |
| `Assemble.GetPanorama` | streetview/download.py:149-174 | returns a canvas exactly when every tile's fetch succeeds, and then each pixel is its own cell's tile pixel for either strategy and any completion order; otherwise raises the exception of the first failing tile, in enumeration order for the sequential path and in completion order, wrapped with its URL, for the pool |
| `Assemble.GetPanoramaAsync` | streetview/download.py:177-196 | the same result over the async iteration, failing with the unwrapped exception of the first failing tile in enumeration order |

## Left out

- `get_width_and_height_from_zoom` (streetview/download.py:34-51) is not modelled. It is a
  remote metadata request with JSON indexing and floating-point division. The model takes
  the grid `width` and `height` as integer parameters instead. As written, the function
  returns `width/512` and `height/512`, which are Python floats. `range()` at line 103 and
  `Image.new` at line 163 would reject those, so the model assumes the integer dimensions
  the code evidently expects.
- The grid size is looked up twice in the source: once for the canvas
  (streetview/download.py:162, and :187 in `get_panorama_async`) and once more inside
  `iter_tile_info` (streetview/download.py:102). The model passes one `(width, height)` to
  both, so it assumes the two remote lookups return the same integers. A failure of the
  second lookup, raised inside the generator after the canvas exists, is not modelled.
- HTTP clients (`requests.get`, `httpx.AsyncClient`) and image decoding (`Image.open`) are
  not modelled. Each attempt's outcome comes from the transport parameter. Which exceptions
  count as connection errors is the transport's business. That covers
  `requests.ConnectionError` and `httpx.RequestError`.
- PIL is not modelled, beyond `Image.new` filling the canvas with black and `paste` copying
  pixels. A decoded tile is assumed to be exactly 512 x 512 pixels. Pasting a tile of
  another size is not modelled.
- Lazy decoding is not modelled. `Image.open` (streetview/download.py:73 and :89) reads only
  the header; the pixel data is decoded when `panorama.paste` loads the image
  (streetview/download.py:171 and :193). A tile whose header is valid but whose pixel data
  is truncated or corrupt is therefore fetched normally and yielded, and the paste then
  raises an unwrapped `OSError` from `get_panorama`, outside the retry loop and, on the pool
  path, outside the "Failed to download tile" wrapper. The model folds every decode failure
  into the attempt (`Fetch.Attempt.OtherErr`), so such a tile is reported as a failed fetch,
  and as `TileFailed` with its URL on the pool path.
- Sleeping and printing are not modelled. `time.sleep(2)` and `asyncio.sleep(2)` become a
  sleep counter; real time and the log messages are dropped.
- Thread-pool and asyncio scheduling are not modelled. The pool is reduced to its
  completion order, a permutation parameter. Each future's result is computed at
  submission, which gives the same results because the transport is a function of the URL
  and the attempt number. The async paths run like the sequential ones, and their
  suspension points are not modelled.
- Generators are modelled by their complete output. Pasting each yielded tile before the
  next one is fetched gives the same canvas and the same exception. `del tile` (memory
  release) is not modelled.
- The exception messages are not modelled as strings. "Max retries exceeded.", the
  propagated exception and "Failed to download tile <url> due to Exception: <exc>" become
  the constructors `MaxRetriesExceeded`, `Raised` and `TileFailed`. `TileFailed` carries the
  URL and the cause.
- `DEFAULT_MAX_RETRIES = 6` is recorded as the constant `Fetch.DefaultMaxRetries`, which no
  member uses: default arguments are not modelled, so callers pass `max_retries`
  explicitly.
