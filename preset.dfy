/**
 * `presetRadix` (src/index.ts:51-122): option defaults, the values the preset closes over,
 * its `hue-` rule and its `extendTheme` hook. The palette selection, the generated color and
 * hue records and the preflight CSS come from code outside this model and enter as inputs.
 */
module Preset {
  import opened Wrappers
  import opened Tokens
  import opened CssText
  import opened Aliases
  import HueRule
  import Theme

  /** `PresetRadixOptions`: `None` is an option that was left out (undefined). */
  datatype PresetRadixOptions = PresetRadixOptions(
    palette: seq<string>,
    prefix: Option<string>,
    darkSelector: Option<string>,
    lightSelector: Option<string>,
    aliases: Option<AliasEntries>,
    extend: Option<bool>)

  /** The options after destructuring with defaults. */
  datatype Settings = Settings(
    palette: seq<string>,
    prefix: string,
    darkSelector: string,
    lightSelector: string,
    aliases: AliasEntries,
    extend: bool)

  const DefaultPrefix: string := "--un-preset-radix-"
  const DefaultDarkSelector: string := ".dark-theme"
  const DefaultLightSelector: string := ":root, .light-theme"

  /** The destructuring at src/index.ts:52-59: a missing option takes its default. */
  function ResolveOptions(options: PresetRadixOptions): (s: Settings)
    ensures s.palette == options.palette
    ensures s.prefix == (if options.prefix.Some? then options.prefix.value else DefaultPrefix)
    ensures s.darkSelector == (if options.darkSelector.Some? then options.darkSelector.value else DefaultDarkSelector)
    ensures s.lightSelector == (if options.lightSelector.Some? then options.lightSelector.value else DefaultLightSelector)
    ensures s.aliases == (if options.aliases.Some? then options.aliases.value else [])
    ensures s.extend == (options.extend == Some(true))
  {
    Settings(
      options.palette,
      options.prefix.GetOr(DefaultPrefix),
      options.darkSelector.GetOr(DefaultDarkSelector),
      options.lightSelector.GetOr(DefaultLightSelector),
      options.aliases.GetOr([]),
      options.extend.GetOr(false))
  }

  /**
   * Options that give only a palette: prefix `--un-preset-radix-` (with the trailing dash the
   * doc comment leaves out), selectors `.dark-theme` and `:root, .light-theme`, no aliases, no extend.
   */
  lemma PaletteOnlyDefaults(palette: seq<string>)
    ensures ResolveOptions(PresetRadixOptions(palette, None, None, None, None, None))
         == Settings(palette, "--un-preset-radix-", ".dark-theme", ":root, .light-theme", [], false)
    ensures DefaultPrefix[|DefaultPrefix| - 1] == '-'
  {
  }

  /** The values the preset object closes over. */
  datatype Preset = Preset(
    settings: Settings,
    colors: map<string, Shades>,
    hues: map<string, Shades>,
    aliases: map<string, Color>)

  /**
   * Building the preset: `colors` and `hues` are what generateColors(palette, prefix) and
   * generateHues(prefix) return for the resolved settings.
   */
  method PresetRadix(options: PresetRadixOptions, colors: map<string, Shades>, hues: map<string, Shades>)
    returns (p: Preset)
    ensures p.settings == ResolveOptions(options)
    ensures p.colors == colors && p.hues == hues
    ensures p.aliases == AliasTokens(colors, ResolveOptions(options).aliases)
  {
    var settings := ResolveOptions(options);
    var aliases := GenerateAliases(colors, settings.aliases);
    p := Preset(settings, colors, hues, aliases);
  }

  /** The preset's one rule on a requested class name: `None` when `^hue-(.+)$` does not match. */
  function RuleOutput(p: Preset, className: string): (css: Option<string>)
    ensures css.None? <==> HueRule.MatchHueClass(className).None?
    ensures css.Some? ==> WhitespaceFree(css.value)
  {
    match HueRule.MatchHueClass(className)
    case None => None
    case Some(name) => Some(HueRule.HueCss(name, p.settings.palette, p.settings.aliases, p.settings.prefix))
  }

  method ApplyHueRule(p: Preset, className: string) returns (css: Option<string>)
    ensures css == RuleOutput(p, className)
  {
    var name := HueRule.MatchHueClass(className);
    if name.None? {
      return None;
    }
    var block := HueRule.HueCallback(name.value, p.settings.palette, p.settings.aliases, p.settings.prefix);
    return Some(block);
  }

  /**
   * Requesting `hue-<color>` for a selected color with whitespace-free names gives exactly the
   * minified block whose 24 declarations reference that color.
   */
  lemma SelectedColorRule(p: Preset, color: string)
    requires color in p.settings.palette && color != ""
    requires WhitespaceFree(color) && WhitespaceFree(p.settings.prefix)
    ensures RuleOutput(p, HueRule.HueClassPrefix + color)
         == Some(".hue-" + color + "{"
                 + HueRule.RenderAllMinified(p.settings.prefix, color, HueRule.Declarations(HueRule.ShadeCount)) + "}")
  {
    var settings := p.settings;
    HueRule.MatchHueClassRoundTrip(color);
    assert HueRule.ResolveTarget(color, settings.palette, settings.aliases) == color;
    var css := HueRule.HueCss(color, settings.palette, settings.aliases, settings.prefix);
    assert css == Minify(HueRule.HueBlock(color, settings.prefix, color));
    HueRule.MinifiedHueBlock(color, settings.prefix, color);
    assert css == ".hue-" + color + "{"
                 + HueRule.RenderAllMinified(settings.prefix, color, HueRule.Declarations(HueRule.ShadeCount)) + "}";
    assert RuleOutput(p, HueRule.HueClassPrefix + color) == Some(css);
  }

  /** Requesting `hue-<name>` for a name that is neither selected nor an alias gives the empty string. */
  lemma UnknownHueRule(p: Preset, name: string)
    requires name != [] && NoLineTerminator(name)
    requires name !in p.settings.palette && Lookup(p.settings.aliases, name).None?
    ensures RuleOutput(p, HueRule.HueClassPrefix + name) == Some("")
  {
    HueRule.MatchHueClassRoundTrip(name);
  }

  /** The host theme object; only its `colors` field is modelled. */
  class HostTheme {
    var colors: Option<map<string, Color>>

    constructor (colors: Option<map<string, Color>>)
      ensures this.colors == colors
    {
      this.colors := colors;
    }
  }

  /** `extendTheme`: replaces `theme.colors` by the merge, reading the old value for the last layer. */
  method ExtendTheme(p: Preset, theme: HostTheme)
    modifies theme
    ensures theme.colors == Some(Theme.ThemeColors(p.colors, p.aliases, p.hues, p.settings.extend, old(theme.colors)))
  {
    theme.colors := Some(Theme.ThemeColors(p.colors, p.aliases, p.hues, p.settings.extend, theme.colors));
  }
}
