/** The ten-colour palette both graphing pages cycle through; rows and
    points store an index into it. */
module Palette {
  const PaletteSize := 10

  /** The colour a new item gets when `count` items of its kind exist. */
  function ColorFor(count: nat): (k: nat)
    ensures k < PaletteSize
    ensures (count - k) % PaletteSize == 0
  {
    count % PaletteSize
  }
}
