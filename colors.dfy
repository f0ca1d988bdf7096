/** Colours as Unity's Color struct holds them: four channels, red, green,
    blue and alpha. Channels are real numbers here (the single-precision
    rounding of the engine is not modelled). */
module Colors {

  datatype Color = Rgba(r: real, g: real, b: real, a: real)

  /** Color.clear: black and fully transparent. */
  const Clear: Color := Rgba(0.0, 0.0, 0.0, 0.0)

  /** Mathf.Clamp01. */
  function Clamp01(t: real): (r: real)
    ensures 0.0 <= r <= 1.0
    ensures 0.0 <= t <= 1.0 ==> r == t
  {
    if t < 0.0 then 0.0 else if t > 1.0 then 1.0 else t
  }

  /** `color * brightness` (the Color-by-float operator scales all four
      channels) followed by `color.a = raw.a`, as the brightness preview
      computes each pixel from the baseline pixel `raw`. */
  function Brighten(raw: Color, brightness: real): (c: Color)
    ensures c.a == raw.a
    ensures brightness == 1.0 ==> c == raw
  {
    var scaled := Rgba(raw.r * brightness, raw.g * brightness, raw.b * brightness, raw.a * brightness);
    scaled.(a := raw.a)
  }

  /** One channel of Color.Lerp with the factor already clamped. */
  function Mix(from: real, to: real, t: real): real {
    from + (to - from) * t
  }

  /** Color.Lerp(from, to, t): the factor is clamped to [0, 1] and every channel,
      alpha included, is interpolated linearly. */
  function Lerp(from: Color, to: Color, t: real): (c: Color)
    ensures t <= 0.0 ==> c == from
    ensures t >= 1.0 ==> c == to
    ensures from.a == to.a ==> c.a == from.a
  {
    var k := Clamp01(t);
    Rgba(Mix(from.r, to.r, k), Mix(from.g, to.g, k), Mix(from.b, to.b, k), Mix(from.a, to.a, k))
  }
}
