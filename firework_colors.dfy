/** The colour helpers of the firework orchestrator: `hslToRgb` with its `hue2rgb` helper,
    and `getRandomColor`. Hue, saturation and lightness are fractions in [0, 1]. */
module FireworkColors {
  import opened RealArith

  /** An RGBA colour: the four-element array a particle carries, channels in that order. */
  datatype Rgba = Rgba(r: real, g: real, b: real, a: real)

  /** `[...rgb, 1.0]`: an RGB triple made fully opaque. */
  function Opaque(rgb: seq<real>): (c: Rgba)
    requires |rgb| == 3
    ensures [c.r, c.g, c.b] == rgb && c.a == 1.0
  {
    Rgba(rgb[0], rgb[1], rgb[2], 1.0)
  }

  /** Every channel lies in [0, 1]. */
  predicate InUnit(c: Rgba) {
    0.0 <= c.r <= 1.0 && 0.0 <= c.g <= 1.0 && 0.0 <= c.b <= 1.0 && 0.0 <= c.a <= 1.0
  }

  /** `hue2rgb(p, q, t)`: wraps `t` once into range, then reads the piecewise-linear ramp. */
  function Hue2Rgb(p: real, q: real, t: real): (r: real)
    ensures r == CssHueToRgb(p, q, t)
  {
    HueRamp(p, q, WrapOnce(t))
  }

  /** The two wrapping steps of `hue2rgb`: add one turn if negative, drop one if above one. */
  function WrapOnce(t: real): real {
    var t1 := if t < 0.0 then t + 1.0 else t;
    if t1 > 1.0 then t1 - 1.0 else t1
  }

  /** The ramp of `hue2rgb` on an already wrapped hue. */
  function HueRamp(p: real, q: real, t: real): real {
    if t < 1.0 / 6.0 then p + (q - p) * 6.0 * t
    else if t < 1.0 / 2.0 then q
    else if t < 2.0 / 3.0 then p + (q - p) * (2.0 / 3.0 - t) * 6.0
    else p
  }

  /** The upper ramp level `q` of `hslToRgb`. */
  function UpperLevel(s: real, l: real): real {
    if l < 0.5 then l * (1.0 + s) else l + s - l * s
  }

  /** `hslToRgb(h, s, l)`: grey when the saturation is zero, otherwise the three ramps
      offset by a third of a turn. */
  function HslToRgb(h: real, s: real, l: real): (rgb: seq<real>)
    ensures |rgb| == 3
    ensures s == 0.0 ==> rgb == [l, l, l]
  {
    if s == 0.0 then [l, l, l]
    else
      var q := UpperLevel(s, l);
      var p := 2.0 * l - q;
      [Hue2Rgb(p, q, h + 1.0 / 3.0), Hue2Rgb(p, q, h), Hue2Rgb(p, q, h - 1.0 / 3.0)]
  }

  /** The reference algorithm: HUE_TO_RGB of section 4.2.4 ("HSL color values") of CSS Color
      Module Level 3, written as that section writes it. */
  function CssHueToRgb(m1: real, m2: real, h: real): real {
    var h1 := if h < 0.0 then h + 1.0 else h;
    var h2 := if h1 > 1.0 then h1 - 1.0 else h1;
    if h2 * 6.0 < 1.0 then m1 + (m2 - m1) * h2 * 6.0
    else if h2 * 2.0 < 1.0 then m2
    else if h2 * 3.0 < 2.0 then m1 + (m2 - m1) * (2.0 / 3.0 - h2) * 6.0
    else m1
  }

  /** HSL_TO_RGB of section 4.2.4 of CSS Color Module Level 3, for a hue already divided by 360. */
  function CssHslToRgb(h: real, s: real, l: real): seq<real> {
    var m2 := if l <= 0.5 then l * (s + 1.0) else l + s - l * s;
    var m1 := l * 2.0 - m2;
    [CssHueToRgb(m1, m2, h + 1.0 / 3.0), CssHueToRgb(m1, m2, h), CssHueToRgb(m1, m2, h - 1.0 / 3.0)]
  }

  /** The orchestrator's conversion agrees with the CSS algorithm on every input: the grey
      shortcut and the strict `l < 0.5` test give the same values as the standard. */
  lemma HslToRgbIsCss(h: real, s: real, l: real)
    ensures HslToRgb(h, s, l) == CssHslToRgb(h, s, l)
  {
    var m2 := if l <= 0.5 then l * (s + 1.0) else l + s - l * s;
    assert m2 == UpperLevel(s, l);
    var m1 := l * 2.0 - m2;
    if s == 0.0 {
      assert m2 == l && m1 == l;
      HueToRgbFlat(l, h + 1.0 / 3.0);
      HueToRgbFlat(l, h);
      HueToRgbFlat(l, h - 1.0 / 3.0);
    } else {
      HueToRgbIsCss(m1, m2, h + 1.0 / 3.0);
      HueToRgbIsCss(m1, m2, h);
      HueToRgbIsCss(m1, m2, h - 1.0 / 3.0);
    }
  }

  lemma HueToRgbIsCss(p: real, q: real, t: real)
    ensures Hue2Rgb(p, q, t) == CssHueToRgb(p, q, t)
  {}

  lemma HueToRgbFlat(l: real, t: real)
    ensures CssHueToRgb(l, l, t) == l
  {}

  /** With the hue, saturation and lightness all in [0, 1], every channel is in [0, 1]. */
  lemma HslToRgbInRange(h: real, s: real, l: real)
    requires 0.0 <= h <= 1.0 && 0.0 <= s <= 1.0 && 0.0 <= l <= 1.0
    ensures forall i :: 0 <= i < 3 ==> 0.0 <= HslToRgb(h, s, l)[i] <= 1.0
  {
    if s != 0.0 {
      var q := UpperLevel(s, l);
      var p := 2.0 * l - q;
      LevelsInRange(s, l);
      Hue2RgbBetween(p, q, h + 1.0 / 3.0);
      Hue2RgbBetween(p, q, h);
      Hue2RgbBetween(p, q, h - 1.0 / 3.0);
    }
  }

  /** The two ramp levels satisfy 0 <= p <= q <= 1. */
  lemma LevelsInRange(s: real, l: real)
    requires 0.0 <= s <= 1.0 && 0.0 <= l <= 1.0
    ensures 0.0 <= 2.0 * l - UpperLevel(s, l) <= UpperLevel(s, l) <= 1.0
  {
    if l < 0.5 {
      MulMono(l, 0.0, s);
      MulMono(l, s, 1.0);
      assert l * (1.0 + s) == l + l * s;
    } else {
      MulMono(s, 0.0, 1.0 - l);
      MulMono(1.0 - l, s, 1.0);
      assert l + s - l * s == l + s * (1.0 - l);
    }
  }

  /** For a hue offset within one turn of [0, 1], the ramp stays between its two levels. */
  lemma Hue2RgbBetween(p: real, q: real, t: real)
    requires p <= q && -1.0 <= t <= 2.0
    ensures p <= Hue2Rgb(p, q, t) <= q
  {
    var t2 := WrapOnce(t);
    assert 0.0 <= t2 <= 1.0;
    if t2 < 1.0 / 6.0 {
      RisingRamp(p, q, t2);
    } else if 1.0 / 2.0 <= t2 < 2.0 / 3.0 {
      FallingRamp(p, q, t2);
    }
  }

  lemma RisingRamp(p: real, q: real, t2: real)
    requires p <= q && 0.0 <= t2 < 1.0 / 6.0
    ensures p <= p + (q - p) * 6.0 * t2 <= q
  {
    RampBetween(p, q, 6.0 * t2);
  }

  lemma FallingRamp(p: real, q: real, t2: real)
    requires p <= q && 1.0 / 2.0 <= t2 < 2.0 / 3.0
    ensures p <= p + (q - p) * (2.0 / 3.0 - t2) * 6.0 <= q
  {
    RampBetween(p, q, (2.0 / 3.0 - t2) * 6.0);
  }

  /** A fraction `w` of the way from `p` to `q` lies between them. */
  lemma RampBetween(p: real, q: real, w: real)
    requires p <= q && 0.0 <= w <= 1.0
    ensures p <= p + (q - p) * w <= q
  {
    MulMono(q - p, 0.0, w);
    MulMono(q - p, w, 1.0);
  }

  /** `getRandomColor` with the value of `Math.random()` passed in as `draw`: a fully opaque
      RGBA colour whose channels lie in [0, 1]. */
  function RandomColor(draw: real): (rgba: Rgba)
    requires 0.0 <= draw < 1.0
    ensures rgba.a == 1.0 && InUnit(rgba)
    ensures [rgba.r, rgba.g, rgba.b] == HslToRgb(draw * 360.0 / 360.0, 0.8, 0.5)
  {
    var hue := draw * 360.0;
    HslToRgbInRange(hue / 360.0, 0.8, 0.5);
    Opaque(HslToRgb(hue / 360.0, 0.8, 0.5))
  }
}
