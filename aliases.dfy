/**
 * The alias resolver `generateAliases` (src/index.ts:39-45): every alias `a -> c` of the
 * configuration gives two theme entries, `a` bound to the record of `c` and `aA` bound
 * to the record of `cA`.
 */
module Aliases {
  import opened Wrappers
  import opened Tokens

  /**
   * `Object.entries(aliases)`: alias name and target color name: integer-like keys first, in
   * ascending order, then the other keys in insertion order.
   */
  type AliasEntries = seq<(string, string)>

  /** `aliases[name]` on the record the entries came from: the value of the last entry with that key. */
  function Lookup(aliases: AliasEntries, name: string): (r: Option<string>)
    ensures r.None? <==> forall i :: 0 <= i < |aliases| ==> aliases[i].0 != name
    ensures r.Some? ==> exists i :: 0 <= i < |aliases| && aliases[i] == (name, r.value)
  {
    if aliases == [] then None
    else if aliases[|aliases| - 1].0 == name then Some(aliases[|aliases| - 1].1)
    else Lookup(aliases[..|aliases| - 1], name)
  }

  /** The alpha-variant name of a token: `${name}A`. */
  function AlphaName(name: string): string {
    name + "A"
  }

  function AliasNames(aliases: AliasEntries): set<string> {
    set i | 0 <= i < |aliases| :: aliases[i].0
  }

  /** The accumulator of the reduce after the given entries, each entry writing `a` and then `aA`. */
  function AliasTokens(colors: map<string, Shades>, aliases: AliasEntries): (o: map<string, Color>)
    ensures aliases == [] ==> o == map[]
    ensures aliases != [] ==>
      var (alias, target) := aliases[|aliases| - 1];
      && alias in o && o[alias] == ColorAt(colors, target)
      && AlphaName(alias) in o && o[AlphaName(alias)] == ColorAt(colors, AlphaName(target))
  {
    if aliases == [] then map[]
    else
      var (alias, target) := aliases[|aliases| - 1];
      AliasTokens(colors, aliases[..|aliases| - 1])
        [alias := ColorAt(colors, target)]
        [AlphaName(alias) := ColorAt(colors, AlphaName(target))]
  }

  /** The reduce loop of `generateAliases`, which updates its accumulator key by key. */
  method GenerateAliases(colors: map<string, Shades>, aliases: AliasEntries) returns (o: map<string, Color>)
    ensures o == AliasTokens(colors, aliases)
  {
    o := map[];
    for i := 0 to |aliases|
      invariant o == AliasTokens(colors, aliases[..i])
    {
      var (alias, target) := aliases[i];
      assert aliases[..i + 1][..i] == aliases[..i];
      o := o[alias := ColorAt(colors, target)];
      o := o[AlphaName(alias) := ColorAt(colors, AlphaName(target))];
    }
    assert aliases[..|aliases|] == aliases;
  }

  /** The keys are exactly the alias names and their alpha variants. */
  lemma {:induction false} AliasTokensKeys(colors: map<string, Shades>, aliases: AliasEntries)
    ensures AliasTokens(colors, aliases).Keys
         == AliasNames(aliases) + set a | a in AliasNames(aliases) :: AlphaName(a)
  {
    if aliases != [] {
      var init := aliases[..|aliases| - 1];
      AliasTokensKeys(colors, init);
      assert AliasNames(aliases) == AliasNames(init) + {aliases[|aliases| - 1].0} by {
        forall i | 0 <= i < |init| ensures init[i] == aliases[i] { }
      }
    }
  }

  /** No alias name is the alpha variant of another, so no two writes of the reduce collide. */
  ghost predicate CollisionFree(aliases: AliasEntries) {
    forall i, j :: 0 <= i < |aliases| && 0 <= j < |aliases| ==> aliases[i].0 != AlphaName(aliases[j].0)
  }

  /**
   * Without collisions, alias `a` holds the record of its target and `aA` the record of the
   * target's alpha variant.
   */
  lemma {:induction false} AliasTokensValues(colors: map<string, Shades>, aliases: AliasEntries, a: string)
    requires CollisionFree(aliases)
    requires Lookup(aliases, a).Some?
    ensures a in AliasTokens(colors, aliases) && AlphaName(a) in AliasTokens(colors, aliases)
    ensures AliasTokens(colors, aliases)[a] == ColorAt(colors, Lookup(aliases, a).value)
    ensures AliasTokens(colors, aliases)[AlphaName(a)] == ColorAt(colors, AlphaName(Lookup(aliases, a).value))
  {
    var n := |aliases| - 1;
    var init := aliases[..n];
    var (alias, target) := aliases[n];
    if alias != a {
      assert CollisionFree(init) by {
        forall i | 0 <= i < |init| ensures init[i] == aliases[i] { }
      }
      AliasTokensValues(colors, init, a);
      assert a != AlphaName(alias);
      assert AlphaName(a) != AlphaName(alias) by {
        assert AlphaName(a)[..|a|] == a && AlphaName(alias)[..|alias|] == alias;
      }
    } else {
      assert a != AlphaName(alias);
    }
  }

  /** An empty alias record yields an empty result. */
  lemma NoAliasesNoTokens(colors: map<string, Shades>)
    ensures AliasTokens(colors, []) == map[]
  {
  }

  /**
   * With a collision the result depends on the order of the entries: for `{x: "red", xA: "blue"}`
   * the key `xA` ends up with the record of `blue`, not that of `redA`.
   */
  lemma CollisionIsOrderDependent(colors: map<string, Shades>)
    requires "blue" in colors && "redA" in colors && colors["blue"] != colors["redA"]
    ensures "xA" in AliasTokens(colors, [("x", "red"), ("xA", "blue")])
    ensures AliasTokens(colors, [("x", "red"), ("xA", "blue")])["xA"] == Scale(colors["blue"])
    ensures "xA" in AliasTokens(colors, [("xA", "blue"), ("x", "red")])
    ensures AliasTokens(colors, [("xA", "blue"), ("x", "red")])["xA"] == Scale(colors["redA"])
  {
    var e1 := [("x", "red"), ("xA", "blue")];
    assert e1[..1] == [("x", "red")];
    assert [("x", "red")][..0] == [];
    var e2 := [("xA", "blue"), ("x", "red")];
    assert e2[..1] == [("xA", "blue")];
    assert [("xA", "blue")][..0] == [];
    assert AlphaName("x") == "xA" && AlphaName("red") == "redA";
  }
}
