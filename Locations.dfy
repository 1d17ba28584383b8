/** The map's locations as the layer-aware code sees them: a location may lack
    a hex, and a hex's `z` decides its layer (negative is underground). */
module Locations {
  import opened Wrappers

  /** A hex cell; `z < 0` is the underground layer, any other `z` the surface. */
  datatype Hex = Hex(x: int, y: int, z: int)

  /** A terrain feature of a location, known here only by its kind. */
  datatype Feature = Feature(kind: string)

  /** The settlement standing on a location, known here only by its identity. */
  datatype Settlement = Settlement(id: nat)

  /** A location of the map: its hex and settlement may be absent (null), and its
      feature list may hold absent entries. */
  datatype Location = Location(
    id: nat,
    hex: Option<Hex>,
    settlement: Option<Settlement>,
    features: seq<Option<Feature>>)

  predicate IsUndergroundHex(h: Hex)
  {
    h.z < 0
  }

  /** The layer index the code derives from a hex: -1 underground, 0 surface. */
  function LayerOf(h: Hex): (layer: int)
    ensures layer == -1 || layer == 0
    ensures layer == -1 <==> IsUndergroundHex(h)
  {
    if h.z < 0 then -1 else 0
  }

  /** Comparing layer indices and comparing the `z < 0` tests are the same thing,
      so the two spellings the code uses agree. */
  lemma SameLayerIffSameSide(a: Hex, b: Hex)
    ensures LayerOf(a) == LayerOf(b) <==> (IsUndergroundHex(a) <==> IsUndergroundHex(b))
  {
  }
}
