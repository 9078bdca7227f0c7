/** Configuration constants of the timeline and the skill registry (src/config.py). */
module Config {

  /** Fixed horizontal zoom of the timeline. */
  const PixelsPerSecond: real := 50.0

  const ThumbnailHeight: real := 50.0
  const AnnotationTrackHeight: real := 50.0
  const RulerHeight: real := 20.0
  const ThumbnailIntervalSeconds: real := 3.0

  /** The motor-skill categories, in registry order. */
  const Skills: seq<string> := [
    "Correr", "Galopar", "Saltar com um p\U{e9}", "Skip", "Salto Horizontal",
    "Deslizar", "Rebater com 2 m\U{e3}os", "Rebater com 1 m\U{e3}o", "Quicar",
    "Pegar", "Chutar", "Arremesso por baixo", "Arremesso por cima"
  ]
}
