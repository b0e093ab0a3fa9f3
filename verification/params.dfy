/** Version limits and penalty weights shared by the QR encoder. */
module Params {

  /** Smallest and largest QR Code version; a larger version holds more data. */
  const MinVersion: int := 1
  const MaxVersion: int := 40

  /** The three penalty weights consulted when a candidate mask is scored.
      How the scoring applies them is not part of this model. */
  const Penalties: seq<nat> := [3, 10, 40]

  /** A version number the encoder accepts. */
  predicate IsVersion(v: int) {
    MinVersion <= v <= MaxVersion
  }
}
