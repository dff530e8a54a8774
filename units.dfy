/** Fixed-point units. Life, fuel, health, hunger and sanity are counted in
    thousandths of a point, so the fractional per-tick rates of the source
    (0.025 fuel, 0.015 hunger, 0.05 sanity, ...) are whole numbers here. */
module Units {
  /** One point of life or of a stat. */
  const UNIT: int := 1000
  /** The ceiling of health, hunger and sanity: 100 points. */
  const MAX_STAT: int := 100 * UNIT

  function Min(a: int, b: int): (r: int)
    ensures r <= a && r <= b && (r == a || r == b)
  {
    if a < b then a else b
  }

  function Max(a: int, b: int): (r: int)
    ensures r >= a && r >= b && (r == a || r == b)
  {
    if a < b then b else a
  }
}
