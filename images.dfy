/**
 * Bitmaps as the downloader sees them: RGB pixels and square tiles of a fixed edge length.
 * Decoding and painting are not modelled; a decoded tile is a TileSize x TileSize grid of
 * pixels, indexed image[dx][dy] by its column dx and row dy, as PIL addresses (x, y).
 */
module Images {
  /** Edge length of a tile in pixels (tile_width and tile_height in get_panorama). */
  const TileSize: nat := 512

  datatype Rgb = Rgb(r: bv8, g: bv8, b: bv8)

  /** The colour Image.new("RGB", ...) fills a fresh canvas with. */
  const Black: Rgb := Rgb(0, 0, 0)

  predicate IsTileImage(image: seq<seq<Rgb>>) {
    |image| == TileSize && forall dx :: 0 <= dx < |image| ==> |image[dx]| == TileSize
  }

  /** A decoded tile. */
  type TileImage = image: seq<seq<Rgb>> | IsTileImage(image)
    witness seq(TileSize, _ => seq(TileSize, _ => Black))
}
