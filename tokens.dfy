/** Theme token values as the preset produces and consumes them. */
module Tokens {
  import opened Wrappers

  /** The shade-number-to-reference record that generateColors and generateHues build per color. */
  type Shades = map<nat, string>

  /** A value of the theme's `colors` record. `Undefined` is what a missing key reads as in JavaScript. */
  datatype Color = Undefined | Literal(text: string) | Scale(shades: Shades)

  /** `colors[key]` on a generated color record: the scale, or undefined when the key is missing. */
  function ColorAt(colors: map<string, Shades>, key: string): (c: Color)
    ensures c.Undefined? <==> key !in colors
    ensures key in colors ==> c == Scale(colors[key])
  {
    if key in colors then Scale(colors[key]) else Undefined
  }

  /** Every generated color record, read as theme values. */
  function AsColors(colors: map<string, Shades>): (r: map<string, Color>)
    ensures r.Keys == colors.Keys
    ensures forall k :: k in r ==> r[k] == Scale(colors[k])
  {
    map k | k in colors :: Scale(colors[k])
  }
}
