/**
 * The value assigned to `theme.colors` by `extendTheme` (src/index.ts:100-114): an object
 * literal that spreads, in order, the generated colors, the aliases, the hues, five fixed
 * tokens and, when extending, the host's current colors. A later layer overrides an earlier
 * one key by key; values are replaced whole, never merged.
 */
module Theme {
  import opened Wrappers
  import opened Tokens

  const FixedTokens: map<string, Color> := map[
    "white" := Literal("#ffffff"),
    "black" := Literal("#000000"),
    "transparent" := Literal("transparent"),
    "current" := Literal("currentColor"),
    "inherit" := Literal("inherit")
  ]

  /** `...(extend ? theme.colors : [])`: spreading `[]` or an undefined `theme.colors` adds nothing. */
  function HostLayer(extend: bool, host: Option<map<string, Color>>): (m: map<string, Color>)
    ensures m != map[] <==> extend && host.Some? && host.value != map[]
    ensures m != map[] ==> m == host.value
  {
    if extend && host.Some? then host.value else map[]
  }

  /** The new `theme.colors`: Dafny's `+` on maps is the key-by-key override of a spread. */
  function ThemeColors(colors: map<string, Shades>, aliases: map<string, Color>, hues: map<string, Shades>,
                       extend: bool, host: Option<map<string, Color>>): (r: map<string, Color>)
    ensures r.Keys == colors.Keys + aliases.Keys + hues.Keys + FixedTokens.Keys + HostLayer(extend, host).Keys
  {
    AsColors(colors) + aliases + AsColors(hues) + FixedTokens + HostLayer(extend, host)
  }

  /** The spread layers of the object literal, lowest priority first. */
  function ThemeLayers(colors: map<string, Shades>, aliases: map<string, Color>, hues: map<string, Shades>,
                       extend: bool, host: Option<map<string, Color>>): seq<map<string, Color>>
  {
    [AsColors(colors), aliases, AsColors(hues), FixedTokens, HostLayer(extend, host)]
  }

  /** Reference definition of a spread: the value of the last layer that has the key. */
  function LastWriter(layers: seq<map<string, Color>>, key: string): Option<Color> {
    if layers == [] then None
    else if key in layers[|layers| - 1] then Some(layers[|layers| - 1][key])
    else LastWriter(layers[..|layers| - 1], key)
  }

  /** The merge is last-writer-wins over the five layers, in source order. */
  lemma ThemeColorsIsLastWriterWins(colors: map<string, Shades>, aliases: map<string, Color>, hues: map<string, Shades>,
                                    extend: bool, host: Option<map<string, Color>>, key: string)
    ensures var r := ThemeColors(colors, aliases, hues, extend, host);
            var w := LastWriter(ThemeLayers(colors, aliases, hues, extend, host), key);
            (key in r <==> w.Some?) && (key in r ==> r[key] == w.value)
  {
    LastWriterOfFive(AsColors(colors), aliases, AsColors(hues), FixedTokens, HostLayer(extend, host), key);
  }

  /** Helper: a chain of four map overrides is last-writer-wins over its five operands. */
  lemma LastWriterOfFive(a: map<string, Color>, b: map<string, Color>, c: map<string, Color>,
                         d: map<string, Color>, e: map<string, Color>, key: string)
    ensures var r := a + b + c + d + e;
            var w := LastWriter([a, b, c, d, e], key);
            (key in r <==> w.Some?) && (key in r ==> r[key] == w.value)
  {
    LastWriterSnoc([a, b, c, d], e, key);
    LastWriterSnoc([a, b, c], d, key);
    LastWriterSnoc([a, b], c, key);
    LastWriterSnoc([a], b, key);
    LastWriterSnoc([], a, key);
    assert [a, b, c, d] + [e] == [a, b, c, d, e];
    assert [a, b, c] + [d] == [a, b, c, d] && [a, b] + [c] == [a, b, c] && [a] + [b] == [a, b] && [] + [a] == [a];
  }

  lemma LastWriterSnoc(layers: seq<map<string, Color>>, m: map<string, Color>, key: string)
    ensures LastWriter(layers + [m], key) == if key in m then Some(m[key]) else LastWriter(layers, key)
  {
    assert (layers + [m])[..|layers|] == layers;
  }

  /** Every key of a layer is present, and it holds the value of the highest-priority layer that has it. */
  lemma ThemeColorsPrecedence(colors: map<string, Shades>, aliases: map<string, Color>, hues: map<string, Shades>,
                              extend: bool, host: Option<map<string, Color>>, key: string)
    ensures var r := ThemeColors(colors, aliases, hues, extend, host);
      && (key in r <==> key in colors || key in aliases || key in hues || key in FixedTokens
                        || key in HostLayer(extend, host))
      && (key in r ==> r[key] == if key in HostLayer(extend, host) then HostLayer(extend, host)[key]
                                else if key in FixedTokens then FixedTokens[key]
                                else if key in hues then Scale(hues[key])
                                else if key in aliases then aliases[key]
                                else Scale(colors[key]))
  {
  }

  /** With `extend`, every host color survives with the host's value, colliding generated keys included. */
  lemma ExtendKeepsHostColors(colors: map<string, Shades>, aliases: map<string, Color>, hues: map<string, Shades>,
                              host: map<string, Color>)
    ensures forall k :: k in host ==>
      k in ThemeColors(colors, aliases, hues, true, Some(host)) && ThemeColors(colors, aliases, hues, true, Some(host))[k] == host[k]
  {
  }

  /** Without `extend`, the host's colors are ignored: no host-only key survives. */
  lemma OverrideDropsHostColors(colors: map<string, Shades>, aliases: map<string, Color>, hues: map<string, Shades>,
                                host: Option<map<string, Color>>)
    ensures ThemeColors(colors, aliases, hues, false, host) == ThemeColors(colors, aliases, hues, false, None)
    ensures ThemeColors(colors, aliases, hues, false, host).Keys
         == colors.Keys + aliases.Keys + hues.Keys + FixedTokens.Keys
  {
  }
}
