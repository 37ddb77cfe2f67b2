/**
 * The dynamic rule of the preset (src/index.ts:72-97): a class `hue-<name>` is matched by the
 * pattern `^hue-(.+)$`, `<name>` is resolved to a palette color (a selected color first, then an
 * alias), and the rule emits one minified block binding the generic `hue` and `hueA` custom
 * properties of shades 1 to 12 to that color's properties.
 */
module HueRule {
  import opened Wrappers
  import opened CssText
  import opened Aliases

  const HueClassPrefix: string := "hue-"

  /** Number of shades of a color scale; the callback's loop runs over 1..ShadeCount. */
  const ShadeCount: nat := 12

  /** The pattern `^hue-(.+)$`: the captured group, when the class name matches. */
  function MatchHueClass(className: string): (name: Option<string>)
    ensures name.Some? ==> className == HueClassPrefix + name.value
    ensures name.Some? ==> name.value != [] && NoLineTerminator(name.value)
  {
    var n := |HueClassPrefix|;
    if |className| > n && className[..n] == HueClassPrefix && NoLineTerminator(className[n..])
    then Some(className[n..])
    else None
  }

  /** Matching `hue-` followed by a name gives back that name exactly when `.+` accepts it. */
  lemma MatchHueClassRoundTrip(name: string)
    ensures MatchHueClass(HueClassPrefix + name)
         == if name != [] && NoLineTerminator(name) then Some(name) else None
  {
    var cls := HueClassPrefix + name;
    assert cls[..|HueClassPrefix|] == HueClassPrefix && cls[|HueClassPrefix|..] == name;
  }

  /** The `let target` chain of the callback: a selected color wins, then an alias, else "". */
  function ResolveTarget(name: string, selectedColors: seq<string>, aliases: AliasEntries): (target: string)
    ensures name in selectedColors ==> target == name
    ensures name !in selectedColors && Lookup(aliases, name).Some? ==> target == Lookup(aliases, name).value
    ensures name !in selectedColors && Lookup(aliases, name).None? ==> target == ""
  {
    if name in selectedColors then name
    else Lookup(aliases, name).GetOr("")
  }

  /** One declaration of the block: the `hue` (or, with `alpha`, the `hueA`) property of a shade. */
  datatype Declaration = Declaration(alpha: bool, shade: nat)

  /** `${prefix}hue${shade}: var(${prefix}${target}${shade});` and its `A` form. */
  function Render(prefix: string, target: string, d: Declaration): (r: string)
    ensures |r| > |prefix| && r[..|prefix|] == prefix && r[|r| - 1] == ';'
  {
    var shade := DecimalString(d.shade);
    if d.alpha then prefix + "hueA" + shade + ": var(" + prefix + target + "A" + shade + ");"
    else prefix + "hue" + shade + ": var(" + prefix + target + shade + ");"
  }

  function RenderAll(prefix: string, target: string, ds: seq<Declaration>): string {
    if ds == [] then ""
    else RenderAll(prefix, target, ds[..|ds| - 1]) + Render(prefix, target, ds[|ds| - 1])
  }

  /**
   * The declarations of shades 1..n in the order the loop emits them: for every shade the
   * `hue` declaration, then the `hueA` one.
   */
  function Declarations(n: nat): (ds: seq<Declaration>)
    ensures |ds| == 2 * n
  {
    if n == 0 then [] else Declarations(n - 1) + [Declaration(false, n), Declaration(true, n)]
  }

  /** Position k holds the `hue` (k even) or `hueA` (k odd) declaration of shade k/2 + 1. */
  lemma {:induction false} DeclarationsAt(n: nat, k: nat)
    requires k < 2 * n
    ensures Declarations(n)[k] == Declaration(k % 2 == 1, k / 2 + 1)
  {
    if k < 2 * (n - 1) {
      DeclarationsAt(n - 1, k);
    }
  }

  /** One turn of the loop appends the two declarations of the next shade. */
  lemma RenderAllStep(prefix: string, target: string, n: nat)
    requires n >= 1
    ensures RenderAll(prefix, target, Declarations(n))
         == RenderAll(prefix, target, Declarations(n - 1))
            + Render(prefix, target, Declaration(false, n)) + Render(prefix, target, Declaration(true, n))
  {
    var before := Declarations(n - 1);
    RenderAllSnoc(prefix, target, before, Declaration(false, n));
    RenderAllSnoc(prefix, target, before + [Declaration(false, n)], Declaration(true, n));
    assert before + [Declaration(false, n)] + [Declaration(true, n)] == Declarations(n);
  }

  /** The CSS text the callback builds before minifying it. */
  function HueBlock(name: string, prefix: string, target: string): (css: string)
    ensures var selector := ".hue-" + name + " {";
            |css| > |selector| && css[..|selector|] == selector && css[|css| - 1] == '}'
  {
    var selector := ".hue-" + name + " {";
    var css := selector + RenderAll(prefix, target, Declarations(ShadeCount)) + "}";
    assert css[..|selector|] == selector;
    css
  }

  /** What the callback returns for the captured `name`. */
  function HueCss(name: string, selectedColors: seq<string>, aliases: AliasEntries, prefix: string): (css: string)
    ensures WhitespaceFree(css)
  {
    var target := ResolveTarget(name, selectedColors, aliases);
    if target != "" then Minify(HueBlock(name, prefix, target)) else ""
  }

  lemma RenderAllSnoc(prefix: string, target: string, ds: seq<Declaration>, d: Declaration)
    ensures RenderAll(prefix, target, ds + [d]) == RenderAll(prefix, target, ds) + Render(prefix, target, d)
  {
    assert (ds + [d])[..|ds|] == ds;
  }

  lemma ConcatAssoc(a: string, b: string, c: string, d: string)
    ensures a + (b + c + d) == a + b + c + d
  {
  }

  /** The rule callback (src/index.ts:74-97), building the block with `+=` in a loop over the shades. */
  method HueCallback(name: string, selectedColors: seq<string>, aliases: AliasEntries, prefix: string)
    returns (css: string)
    ensures css == HueCss(name, selectedColors, aliases, prefix)
  {
    var target: string := "";
    if name in selectedColors {
      target := name;
    } else if Lookup(aliases, name).Some? {
      target := Lookup(aliases, name).value;
    }

    if target != "" {
      css := ".hue-" + name + " {";
      ghost var header := css;
      var shade: nat := 1;
      while shade <= ShadeCount
        invariant 1 <= shade <= ShadeCount + 1
        invariant css == header + RenderAll(prefix, target, Declarations(shade - 1))
      {
        var digits := DecimalString(shade);
        var hue := prefix + "hue" + digits + ": var(" + prefix + target + digits + ");";
        css := css + hue;
        var hueA := prefix + "hueA" + digits + ": var(" + prefix + target + "A" + digits + ");";
        css := css + hueA;
        assert hue == Render(prefix, target, Declaration(false, shade));
        assert hueA == Render(prefix, target, Declaration(true, shade));
        RenderAllStep(prefix, target, shade);
        ConcatAssoc(header, RenderAll(prefix, target, Declarations(shade - 1)), hue, hueA);
        shade := shade + 1;
      }
      css := css + "}";
      return Minify(css);
    }
    return "";
  }

  /** How many declarations of `ds` are `hueA` declarations (`alpha`) or `hue` ones (not `alpha`). */
  function CountKind(ds: seq<Declaration>, alpha: bool): nat {
    if ds == [] then 0
    else CountKind(ds[..|ds| - 1], alpha) + (if ds[|ds| - 1].alpha == alpha then 1 else 0)
  }

  lemma CountKindSnoc(ds: seq<Declaration>, d: Declaration, alpha: bool)
    ensures CountKind(ds + [d], alpha) == CountKind(ds, alpha) + (if d.alpha == alpha then 1 else 0)
  {
    assert (ds + [d])[..|ds|] == ds;
  }

  /** Shades 1..n give n `hue` and n `hueA` declarations. */
  lemma {:induction false} DeclarationsCount(n: nat, alpha: bool)
    ensures CountKind(Declarations(n), alpha) == n
  {
    if n > 0 {
      DeclarationsCount(n - 1, alpha);
      var before := Declarations(n - 1);
      CountKindSnoc(before, Declaration(false, n), alpha);
      CountKindSnoc(before + [Declaration(false, n)], Declaration(true, n), alpha);
      assert before + [Declaration(false, n)] + [Declaration(true, n)] == Declarations(n);
    }
  }

  /** Emission order: ascending shade, and within a shade `hue` before `hueA`. */
  predicate Precedes(d: Declaration, e: Declaration) {
    d.shade < e.shade || (d.shade == e.shade && !d.alpha && e.alpha)
  }

  /** A resolved block holds 12 `hue` and 12 `hueA` declarations, strictly in emission order. */
  lemma BlockDeclarations()
    ensures |Declarations(ShadeCount)| == 24
    ensures CountKind(Declarations(ShadeCount), false) == 12
    ensures CountKind(Declarations(ShadeCount), true) == 12
    ensures forall i, j :: 0 <= i < j < 24 ==> Precedes(Declarations(ShadeCount)[i], Declarations(ShadeCount)[j])
    ensures forall k :: 0 <= k < 24 ==> 1 <= Declarations(ShadeCount)[k].shade <= 12
  {
    DeclarationsCount(ShadeCount, false);
    DeclarationsCount(ShadeCount, true);
    var ds := Declarations(ShadeCount);
    forall i, j | 0 <= i < j < 24 ensures Precedes(ds[i], ds[j]) {
      DeclarationsAt(ShadeCount, i);
      DeclarationsAt(ShadeCount, j);
    }
    forall k | 0 <= k < 24 ensures 1 <= ds[k].shade <= 12 {
      DeclarationsAt(ShadeCount, k);
    }
  }

  /** A declaration after minification: `: var(` has lost its space. */
  function RenderMinified(prefix: string, target: string, d: Declaration): string {
    var shade := DecimalString(d.shade);
    if d.alpha then prefix + "hueA" + shade + ":var(" + prefix + target + "A" + shade + ");"
    else prefix + "hue" + shade + ":var(" + prefix + target + shade + ");"
  }

  function RenderAllMinified(prefix: string, target: string, ds: seq<Declaration>): string {
    if ds == [] then ""
    else RenderAllMinified(prefix, target, ds[..|ds| - 1]) + RenderMinified(prefix, target, ds[|ds| - 1])
  }

  lemma NonWhitespaceVarOpening()
    ensures NonWhitespace(": var(") == ":var("
  {
  }

  lemma NonWhitespaceDeclaration(property: string, reference: string)
    requires WhitespaceFree(property) && WhitespaceFree(reference)
    ensures NonWhitespace(property + ": var(" + reference) == property + ":var(" + reference
  {
    NonWhitespaceConcat(property + ": var(", reference);
    NonWhitespaceConcat(property, ": var(");
    NonWhitespaceOfFree(property);
    NonWhitespaceOfFree(reference);
    NonWhitespaceVarOpening();
  }

  lemma Regroup8(a: string, b: string, c: string, v: string, w: string, x: string, y: string, z: string)
    ensures a + b + c + v + w + x + y + z == (a + b + c) + v + (w + x + y + z)
  {
  }

  lemma Regroup9(a: string, b: string, c: string, v: string, u: string, w: string, x: string, y: string, z: string)
    ensures a + b + c + v + u + w + x + y + z == (a + b + c) + v + (u + w + x + y + z)
  {
  }

  lemma NonWhitespaceRender(prefix: string, target: string, d: Declaration)
    requires WhitespaceFree(prefix) && WhitespaceFree(target)
    ensures NonWhitespace(Render(prefix, target, d)) == RenderMinified(prefix, target, d)
  {
    var shade := DecimalString(d.shade);
    DecimalWhitespaceFree(d.shade);
    if d.alpha {
      Regroup9(prefix, "hueA", shade, ": var(", prefix, target, "A", shade, ");");
      Regroup9(prefix, "hueA", shade, ":var(", prefix, target, "A", shade, ");");
      NonWhitespaceDeclaration(prefix + "hueA" + shade, prefix + target + "A" + shade + ");");
    } else {
      Regroup8(prefix, "hue", shade, ": var(", prefix, target, shade, ");");
      Regroup8(prefix, "hue", shade, ":var(", prefix, target, shade, ");");
      NonWhitespaceDeclaration(prefix + "hue" + shade, prefix + target + shade + ");");
    }
  }

  lemma {:induction false} NonWhitespaceRenderAll(prefix: string, target: string, ds: seq<Declaration>)
    requires WhitespaceFree(prefix) && WhitespaceFree(target)
    ensures NonWhitespace(RenderAll(prefix, target, ds)) == RenderAllMinified(prefix, target, ds)
  {
    if ds != [] {
      var init := ds[..|ds| - 1];
      NonWhitespaceRenderAll(prefix, target, init);
      NonWhitespaceConcat(RenderAll(prefix, target, init), Render(prefix, target, ds[|ds| - 1]));
      NonWhitespaceRender(prefix, target, ds[|ds| - 1]);
    }
  }

  /** The block split at the end of its selector: the declarations do not depend on the name. */
  lemma SplitHueBlock(name: string, prefix: string, target: string)
    ensures Minify(HueBlock(name, prefix, target))
         == Minify(".hue-" + name + " {") + Minify(RenderAll(prefix, target, Declarations(ShadeCount)) + "}")
  {
    MinifyBlock(".hue-" + name + " {", RenderAll(prefix, target, Declarations(ShadeCount)));
  }

  /** Helper: a block is minified as its head followed by its body and closing brace. */
  lemma MinifyBlock(head: string, body: string)
    ensures Minify(head + body + "}") == Minify(head) + Minify(body + "}")
  {
    assert head + body + "}" == head + (body + "}");
    NonWhitespaceConcat(head, body + "}");
  }

  /**
   * With whitespace-free names, the minified block is `.hue-<name>{` followed by the 24
   * declarations and `}`.
   */
  lemma MinifiedHueBlock(name: string, prefix: string, target: string)
    requires WhitespaceFree(name) && WhitespaceFree(prefix) && WhitespaceFree(target)
    ensures Minify(HueBlock(name, prefix, target))
         == ".hue-" + name + "{" + RenderAllMinified(prefix, target, Declarations(ShadeCount)) + "}"
  {
    MinifiedBlockOf(name, prefix, target, Declarations(ShadeCount));
  }

  /** Helper: `MinifiedHueBlock` for any run of declarations. */
  lemma MinifiedBlockOf(name: string, prefix: string, target: string, ds: seq<Declaration>)
    requires WhitespaceFree(name) && WhitespaceFree(prefix) && WhitespaceFree(target)
    ensures Minify(".hue-" + name + " {" + RenderAll(prefix, target, ds) + "}")
         == ".hue-" + name + "{" + RenderAllMinified(prefix, target, ds) + "}"
  {
    NonWhitespaceRule(".hue-" + name, RenderAll(prefix, target, ds));
    NonWhitespaceRenderAll(prefix, target, ds);
  }

  lemma NonWhitespaceRule(selector: string, body: string)
    requires WhitespaceFree(selector)
    ensures NonWhitespace(selector + " {" + body + "}") == selector + "{" + NonWhitespace(body) + "}"
  {
    NonWhitespaceConcat(selector + " {" + body, "}");
    NonWhitespaceConcat(selector + " {", body);
    NonWhitespaceConcat(selector, " {");
    NonWhitespaceOfFree(selector);
    assert NonWhitespace(" {") == "{";
    assert NonWhitespace("}") == "}";
  }

  /** The callback returns the empty string exactly when no non-empty target is resolved. */
  lemma HueCssEmptyIff(name: string, selectedColors: seq<string>, aliases: AliasEntries, prefix: string)
    ensures HueCss(name, selectedColors, aliases, prefix) == ""
        <==> ResolveTarget(name, selectedColors, aliases) == ""
  {
    var target := ResolveTarget(name, selectedColors, aliases);
    if target != "" {
      var block := HueBlock(name, prefix, target);
      var selector := ".hue-" + name + " {";
      assert block[0] == block[..|selector|][0] == '.';
      NonWhitespaceNonEmpty(block);
    }
  }

  /**
   * Requesting an alias and requesting its target give the same declarations; the blocks
   * differ only in their selector.
   */
  lemma AliasHueMatchesTarget(alias: string, color: string, selectedColors: seq<string>,
                              aliases: AliasEntries, prefix: string)
    requires alias !in selectedColors && Lookup(aliases, alias) == Some(color)
    requires color in selectedColors && color != ""
    ensures var body := Minify(RenderAll(prefix, color, Declarations(ShadeCount)) + "}");
      && HueCss(alias, selectedColors, aliases, prefix) == Minify(".hue-" + alias + " {") + body
      && HueCss(color, selectedColors, aliases, prefix) == Minify(".hue-" + color + " {") + body
  {
    SplitHueBlock(alias, prefix, color);
    SplitHueBlock(color, prefix, color);
  }
}
