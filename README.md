# unocss-preset-radix, modelled in Dafny

This project models the logic of `presetRadix`, a UnoCSS preset built on the Radix color scales.
It covers four parts:

- **Alias resolver** (`generateAliases`). Each alias `a -> c` binds `a` to the generated record of `c` and `aA` to the record of `cA`.
- **`minify`**. It deletes every newline, then every run of whitespace, then trims.
- **The `hue-<name>` rule**. A class name is matched by `^hue-(.+)$`. The name is resolved to a target: a selected color first, then an alias, otherwise nothing. For a resolved target, a loop over shades 1..12 builds one block that binds the generic `hue`/`hueA` custom properties to the target's properties. That block is minified.
- **`extendTheme`**. It assigns `theme.colors` a last-writer-wins spread. The layers, in order, are the generated colors, the aliases, the hues, five fixed tokens and, when `extend` is set, the host's existing colors.

The project also models the option defaults of `presetRadix`.

Modules, one per component:

- `CssText` (`css_text.dfy`): the ECMAScript `\s` and line-terminator classes, `minify` and its stages, decimal printing of shade numbers.
- `Tokens` (`tokens.dfy`): theme values. `Undefined` stands for JavaScript's `undefined`.
- `Aliases` (`aliases.dfy`): `generateAliases`. The reduce is a loop, proved against a fold function.
- `HueRule` (`hue_rule.dfy`): the class pattern, target resolution, and the `+=` loop that builds the block.
- `Theme` (`theme.dfy`): the `theme.colors` merge and its precedence.
- `Preset` (`preset.dfy`): option defaults, building the preset, applying its rule, and the `extendTheme` hook on a host theme object.

Modelling decisions:

- **Aliases.** The alias record is the sequence `Object.entries` yields: integer-like keys first, in ascending order, then the other keys in insertion order. `selectedAliases[name]` reads the last entry with that key.
- **Order dependence.** The reduce writes `a` and then `aA` for each entry in turn, so its result depends on entry order when one alias name is another alias name plus `A`. The per-alias properties are proved for collision-free alias sets. `CollisionIsOrderDependent` shows the order dependence on a concrete input.
- **`\s`.** This is the exact ECMAScript set: WhiteSpace, which includes every space separator, plus LineTerminator. `trim` removes the same set.
- **Host colors win.** The host's colors are spread last, so with `extend` the host's value wins on a key collision. The option's doc comment (src/index.ts:32-35) says only "Extend instead of override the default theme".
- **All whitespace is removed.** `minify` replaces each whitespace run by nothing, so it removes all whitespace rather than collapsing runs to one space.
- **Prefix default.** The code's default prefix is `--un-preset-radix-`, with a trailing dash. The doc comment at src/index.ts:13 says `--un-preset-radix`.

## Model

| member | source | states |
|---|---|---|
| CssText.NonWhitespace | src/index.ts:48 | reference definition: the input's non-whitespace characters in order; the result is whitespace-free and no longer than the input |
| CssText.IsLineTerminator | src/index.ts:73 | the LineTerminator set that `.` in `^hue-(.+)$` excludes; none of it is printable ASCII |
| CssText.IsWhitespace | src/index.ts:48 | the `\s` set that `replace(/\s+/g, "")` and `trim` remove: it contains every line terminator, the space and the tab, and no other printable ASCII character |
| CssText.RemoveNewlines | src/index.ts:48 | `replace(/\n/g, "")`: the result has no newline, is no longer than the input, and equals the input when the input has no newline |
| CssText.RemoveNewlinesConcat | src/index.ts:48 | removing newlines distributes over concatenation |
| CssText.RemoveNewlinesChar | src/index.ts:48 | on one character, only `\n` is removed; with `RemoveNewlinesConcat` this fixes the whole function |
| CssText.LeadingRun | src/index.ts:48 | the maximal whitespace run that a `\s+` match starts with: all whitespace, followed by a non-whitespace character or the end |
| CssText.RemoveWhitespaceRuns | src/index.ts:48 | `replace(/\s+/g, "")` deleting whole runs: the result is whitespace-free |
| CssText.TrimStart | src/index.ts:48 | the start of `trim`: the result is no longer than the input, everything cut off at the front is whitespace, and the result does not begin with whitespace |
| CssText.TrimStartIsSuffix | src/index.ts:48 | what `TrimStart` keeps is a suffix of its input, so with `TrimStart`'s contract the result is fixed |
| CssText.TrimEnd | src/index.ts:48 | the end of `trim`: the result is a prefix of the input, everything cut off is whitespace, and the result does not end with whitespace |
| CssText.Trim | src/index.ts:48 | `trim`: the result is a slice of the input with only whitespace outside it, it neither starts nor ends with whitespace, and whitespace-free text is kept unchanged |
| CssText.TrimSlice | src/index.ts:48 | helper for `Trim`: a prefix of a suffix is a slice with whitespace outside it |
| CssText.RemoveWhitespaceRunsIsNonWhitespace | src/index.ts:48 | deleting whole runs removes exactly the whitespace characters and keeps the rest in order |
| CssText.RemoveNewlinesKeepsNonWhitespace | src/index.ts:48 | removing newlines first changes nothing about the non-whitespace characters |
| CssText.Minify | src/index.ts:47-49 | `minify(css)` is exactly the non-whitespace characters of `css` in their original order, so it contains no whitespace and no newline |
| CssText.MinifyCharacters | src/index.ts:47-49 | a character occurs in `minify(css)` exactly when it is a non-whitespace character of `css` |
| CssText.MinifyIdempotent | src/index.ts:47-49 | `minify(minify(s)) == minify(s)` |
| CssText.MinifyConcat | src/index.ts:47-49 | `minify(a + b) == minify(a) + minify(b)` |
| CssText.NonWhitespaceConcat | src/index.ts:48 | filtering whitespace distributes over concatenation |
| CssText.NonWhitespaceOfFree | src/index.ts:48 | whitespace-free text is kept unchanged |
| CssText.NonWhitespaceNonEmpty | src/index.ts:48 | helper: text that starts with a non-whitespace character keeps at least one character |
| CssText.NonWhitespaceContains | src/index.ts:48 | membership of a character in the filtered text, both directions |
| CssText.DecimalString | src/index.ts:87-88 | `${shade}`: a non-empty string of decimal digits that denotes the number, one digit below 10 and no leading zero from 10 on |
| CssText.DecimalWhitespaceFree | src/index.ts:87-88 | printed shade numbers contain no whitespace |
| Tokens.ColorAt | src/index.ts:41-42 | `colors[key]`: the record when the key exists, `undefined` exactly when it is missing |
| Tokens.AsColors | src/index.ts:102-104 | spreading a generated record keeps its keys and wraps each record unchanged |
| Aliases.Lookup | src/index.ts:79-80 | `name in selectedAliases` / `selectedAliases[name]`: absent exactly when no entry has the key, otherwise the target of an entry with that key |
| Aliases.AliasTokens | src/index.ts:39-45 | the reduce as a fold: no entries give `{}`, and the last entry `a -> c` always leaves `a` holding `colors[c]` and `aA` holding `colors[cA]` |
| Aliases.GenerateAliases | src/index.ts:39-45 | the reduce loop, which writes `a` then `aA` per entry, computes the fold `AliasTokens` of all entries |
| Aliases.AliasTokensKeys | src/index.ts:39-45 | the result's keys are exactly the alias names and the alias names followed by `A` |
| Aliases.AliasTokensValues | src/index.ts:41-42 | without collisions, `a` holds `colors[aliases[a]]` and `aA` holds `colors[aliases[a] + "A"]`, `undefined` when missing |
| Aliases.NoAliasesNoTokens | src/index.ts:40-44 | an empty alias record yields an empty result |
| Aliases.CollisionIsOrderDependent | src/index.ts:40-44 | with aliases `x` and `xA` the value of `xA` depends on entry order |
| HueRule.MatchHueClass | src/index.ts:73 | `^hue-(.+)$`: a match gives a non-empty name without line terminators, and the class is `hue-` followed by it |
| HueRule.MatchHueClassRoundTrip | src/index.ts:73 | matching `hue-` + name gives back the name exactly when it is non-empty and has no line terminator, and nothing otherwise |
| HueRule.ResolveTarget | src/index.ts:75-81 | a selected color resolves to itself even when it is also an alias; otherwise an alias resolves to its target; otherwise the target is `""` |
| HueRule.Render | src/index.ts:87-88 | one declaration: it starts with the prefix and ends with `;` |
| HueRule.Declarations | src/index.ts:86-89 | the declarations of shades 1..n in emission order: two per shade |
| HueRule.DeclarationsAt | src/index.ts:86-89 | position k holds the `hue` (k even) or `hueA` (k odd) declaration of shade k/2+1 |
| HueRule.RenderAllStep | src/index.ts:86-89 | one turn of the loop appends the `hue` then the `hueA` declaration of the next shade |
| HueRule.HueBlock | src/index.ts:84-91 | the unminified block starts with `.hue-<name> {` and ends with `}` |
| HueRule.HueCss | src/index.ts:74-97 | the callback's value is whitespace-free; `HueCssEmptyIff` and `MinifiedHueBlock` state when it is empty and what it is otherwise |
| HueRule.HueCallback | src/index.ts:74-97 | the `+=` loop over shades 1..12 returns the minified block `.hue-<name> {` + 24 declarations + `}` for a resolved target, and `""` otherwise |
| HueRule.DeclarationsCount | src/index.ts:86-89 | shades 1..n give exactly n `hue` and n `hueA` declarations |
| HueRule.BlockDeclarations | src/index.ts:86-89 | a block has 24 declarations, 12 of each kind, shades 1..12, strictly ascending by shade, with `hue` before `hueA` within a shade |
| HueRule.NonWhitespaceRender | src/index.ts:87-88 | with whitespace-free prefix and target, minifying a declaration only drops the space in `: var(` |
| HueRule.NonWhitespaceRenderAll | src/index.ts:86-89 | the same, for the whole run of declarations |
| HueRule.NonWhitespaceRule | src/index.ts:84-93 | minifying `<selector> {<body>}` gives `<selector>{<minified body>}` |
| HueRule.MinifyBlock | src/index.ts:84-93 | helper: a block is minified as its head followed by its minified body and brace |
| HueRule.SplitHueBlock | src/index.ts:84-93 | the minified block is the minified selector part followed by minified declarations that do not depend on the name |
| HueRule.MinifiedHueBlock | src/index.ts:84-93 | with whitespace-free names, the output is exactly `.hue-<name>{` + the 24 declarations with `:var(` + `}` |
| HueRule.MinifiedBlockOf | src/index.ts:84-93 | helper: the statement of `MinifiedHueBlock` for any run of declarations |
| HueRule.HueCssEmptyIff | src/index.ts:83-96 | the callback returns `""` exactly when the resolved target is empty |
| HueRule.AliasHueMatchesTarget | src/index.ts:77-93 | an alias and its selected target produce the same declarations; only the selector differs |
| Theme.HostLayer | src/index.ts:112 | `...(extend ? theme.colors : [])` adds something exactly when `extend` is set and the host has a non-empty color record, and then it adds that record |
| Theme.ThemeColors | src/index.ts:101-113 | the keys of the new `theme.colors` are the keys of all layers, the five fixed tokens among them; values are stated by `ThemeColorsPrecedence` |
| Theme.ThemeColorsIsLastWriterWins | src/index.ts:101-113 | the merge equals last-writer-wins over the layers colors, aliases, hues, fixed tokens, host |
| Theme.LastWriterOfFive | src/index.ts:101-113 | helper: four map overrides in a row are last-writer-wins over their five operands |
| Theme.LastWriterSnoc | src/index.ts:101-113 | helper for the reference definition: a later layer that has a key decides it; otherwise the earlier layers do |
| Theme.ThemeColorsPrecedence | src/index.ts:101-113 | key present exactly when some layer has it; value from host (when extending), else the fixed token (`white` `#ffffff`, `black` `#000000`, `transparent`, `current` `currentColor`, `inherit`, src/index.ts:106-110), else hues, else aliases, else colors |
| Theme.ExtendKeepsHostColors | src/index.ts:112 | with `extend`, every host key is present with the host's value, even when it collides with a generated key |
| Theme.OverrideDropsHostColors | src/index.ts:112 | without `extend` the host colors have no effect, and the keys are exactly the generated keys plus the five fixed tokens |
| Preset.ResolveOptions | src/index.ts:52-59 | each missing option takes its default (prefix `--un-preset-radix-`, dark `.dark-theme`, light `:root, .light-theme`, aliases `{}`, extend `false`); a given option is kept |
| Preset.PaletteOnlyDefaults | src/index.ts:52-59 | a palette-only configuration resolves to the documented defaults; the default prefix ends with `-` |
| Preset.PresetRadix | src/index.ts:51-64 | the preset keeps the resolved settings and the generated records, and its aliases are the reduce over the configured aliases |
| Preset.RuleOutput | src/index.ts:71-98 | the rule gives nothing exactly when the class does not match `^hue-(.+)$`; otherwise its CSS is whitespace-free |
| Preset.ApplyHueRule | src/index.ts:71-98 | the rule gives nothing when the class does not match `^hue-(.+)$`, and otherwise the callback's output for the captured name |
| Preset.SelectedColorRule | src/index.ts:73-93 | `hue-<color>` for a non-empty selected color, with whitespace-free names, yields exactly the minified 24-declaration block for that color |
| Preset.UnknownHueRule | src/index.ts:73-96 | `hue-<name>` for a name that is neither selected nor an alias yields `""` |
| Preset.HostTheme.constructor | src/index.ts:100-101 | a host theme object holding the given `colors` field |
| Preset.ExtendTheme | src/index.ts:100-114 | `theme.colors` becomes the merge computed from its old value |

## Left out

- `genCSS`, `generateColors`, `generateHues` and `newPalette` live in `src/utils`, which is not part of this model. The color and hue records enter `Preset.PresetRadix` as inputs. The preflight CSS is not modelled.
- The Radix color table re-exported from `./radix` is static external data and not part of this model.
- The UnoCSS `Preset` plumbing is not modelled: `name`, `layers`, the rule tuple wrapper and `preflights`/`getCSS`. The regex engine is reduced to prefix stripping plus the no-line-terminator check that `.` imposes.
- The JavaScript `in` operator also finds inherited keys such as `toString`. Alias membership is modelled as plain key membership.
- Colors are values here, so the fact that `generateAliases` does not modify `colors` holds by construction and is not stated as a lemma.
- The host theme object is modelled by its `colors` field only. Other fields, and `theme.colors` values that are not objects, are not modelled.
- `colors[target]` at src/index.ts:41-42 with a target such as `constructor` reads an inherited property of `Object.prototype`; `Tokens.ColorAt` gives `undefined` for every missing key.
- An alias named `__proto__` makes `o[alias] = …` at src/index.ts:41 set the accumulator's prototype instead of adding a key; the model adds an ordinary key.
- JavaScript strings are sequences of UTF-16 code units; `string` here is a sequence of Unicode scalar values, so lone surrogates cannot be represented.
- Aliases.AliasTokensValues: holds only for collision-free alias sets. Without that condition, the result depends on entry order, as `CollisionIsOrderDependent` shows.
