/**
 * pywa's configuration layers: the theme overlay (resolve_theme, identical in
 * every pywa revision) and the CLI > JSON > DEFAULTS merge of pywa_pre.
 * A configuration is a Python dict whose values are strings or None.
 */
module ThemeConfig {
  import opened Wrappers
  import opened Text

  type Config = map<string, Option<string>>

  /** A THEMES table: preset name to the preset's colour/font entries ("custom" is handled before lookup). */
  type Presets = map<string, map<string, string>>

  /** Preset names of pywa_pre, v0p3 and v0p4; the other revisions have only light and dark. */
  const WideThemes: set<string> := {"light", "dark", "glass", "nature", "sunset", "ocean"}
  const NarrowThemes: set<string> := {"light", "dark"}

  /** An entry that is present and not None. */
  predicate IsSet(c: Config, k: string)
  {
    k in c && c[k].Some?
  }

  /** Python truthiness of a string-or-None entry. */
  predicate Truthy(c: Config, k: string)
  {
    k in c && c[k].Some? && c[k].value != ""
  }

  /** config.get("theme", "light").lower() fails on a None theme. */
  predicate ThemeReadable(c: Config)
  {
    "theme" in c ==> c["theme"].Some?
  }

  function ThemeName(c: Config): (name: string)
    requires ThemeReadable(c)
    ensures "theme" !in c ==> name == "light"
    ensures Lower(name) == name
  {
    var raw := if "theme" in c then c["theme"].value else "light";
    LowerIdempotent(raw);
    Lower(raw)
  }

  predicate UsesPreset(presets: Presets, c: Config)
    requires ThemeReadable(c)
  {
    ThemeName(c) != "custom" && ThemeName(c) in presets
  }

  /**
   * resolve_theme: with "custom" or an unknown theme the configuration is returned
   * as it is; otherwise the preset is overlaid by every entry that is not None and
   * "theme" is set to the lower-cased name.
   */
  function ResolveTheme(presets: Presets, c: Config): (r: Config)
    requires ThemeReadable(c)
    ensures !UsesPreset(presets, c) ==> r == c
    ensures UsesPreset(presets, c) ==>
      var preset := presets[ThemeName(c)];
      && "theme" in r && r["theme"] == Some(ThemeName(c))
      && (forall k :: k != "theme" ==> (k in r <==> k in preset || IsSet(c, k)))
      && (forall k :: k != "theme" && IsSet(c, k) ==> r[k] == c[k])
      && (forall k :: k != "theme" && !IsSet(c, k) && k in preset ==> r[k] == Some(preset[k]))
      && (forall k :: k in r ==> r[k].Some?)
  {
    if !UsesPreset(presets, c) then c
    else
      var name := ThemeName(c);
      var preset := presets[name];
      var merged := map k | k in preset.Keys + (set k | k in c && c[k].Some?) ::
        if IsSet(c, k) then c[k] else Some(preset[k]);
      merged["theme" := Some(name)]
  }

  /** Resolving an already resolved configuration changes nothing. */
  lemma ResolveIdempotent(presets: Presets, c: Config)
    requires ThemeReadable(c)
    ensures ThemeReadable(ResolveTheme(presets, c))
    ensures ResolveTheme(presets, ResolveTheme(presets, c)) == ResolveTheme(presets, c)
  {
    var r := ResolveTheme(presets, c);
    if UsesPreset(presets, c) {
      assert ThemeName(r) == ThemeName(c);
      var r2 := ResolveTheme(presets, r);
      assert r2.Keys == r.Keys;
      forall k | k in r
        ensures r2[k] == r[k]
      {
      }
    }
  }

  // ---------------------------------------------------------------- merge_config (pywa_pre)

  /** pywa_pre's DEFAULTS: name and short_name stay None until the file name is known. */
  const Defaults: Config := map[
    "name" := None,
    "short_name" := None,
    "theme" := Some("light"),
    "output_dir" := Some("pwa_output"),
    "version" := Some("1.0.0"),
    "theme_color" := Some("#1a1a2e"),
    "accent" := Some("#e94560"),
    "bg_color" := Some("#ffffff")
  ]

  /** CLI argument name to configuration key, in the order merge_config applies them. */
  const ArgToKey: seq<(string, string)> := [
    ("name", "name"),
    ("short_name", "short_name"),
    ("theme", "theme"),
    ("color", "theme_color"),
    ("accent", "accent"),
    ("bg", "bg_color"),
    ("out", "output_dir"),
    ("version", "version")
  ]

  /** Each configuration key is the target of at most one CLI argument. */
  lemma ArgToKeyInjective()
    ensures forall i, j :: 0 <= i < j < |ArgToKey| ==> ArgToKey[i].1 != ArgToKey[j].1
  {
  }

  /** The CLI flags that a truthy argument sets, applied in order to m. */
  function ApplyFlags(m: Config, args: Config, pairs: seq<(string, string)>): (r: Config)
    ensures forall k :: k in r <==> k in m || exists i :: 0 <= i < |pairs| && pairs[i].1 == k && Truthy(args, pairs[i].0)
    decreases |pairs|
  {
    if pairs == [] then m
    else
      var (arg, key) := pairs[0];
      var next := if Truthy(args, arg) then m[key := args[arg]] else m;
      var r := ApplyFlags(next, args, pairs[1..]);
      assert forall i :: 1 <= i < |pairs| ==> pairs[i] == pairs[1..][i - 1];
      r
  }

  lemma {:induction false} ApplyFlagsValues(m: Config, args: Config, pairs: seq<(string, string)>, k: string)
    requires forall i, j :: 0 <= i < j < |pairs| ==> pairs[i].1 != pairs[j].1
    ensures forall i :: 0 <= i < |pairs| && pairs[i].1 == k && Truthy(args, pairs[i].0) ==>
      ApplyFlags(m, args, pairs)[k] == args[pairs[i].0]
    ensures (forall i :: 0 <= i < |pairs| && pairs[i].1 == k ==> !Truthy(args, pairs[i].0)) && k in m ==>
      ApplyFlags(m, args, pairs)[k] == m[k]
    decreases |pairs|
  {
    if pairs != [] {
      var (arg, key) := pairs[0];
      var next := if Truthy(args, arg) then m[key := args[arg]] else m;
      var tail := pairs[1..];
      assert forall i, j :: 0 <= i < j < |tail| ==> tail[i].1 != tail[j].1 by {
        forall i, j | 0 <= i < j < |tail|
          ensures tail[i].1 != tail[j].1
        {
          assert tail[i] == pairs[i + 1] && tail[j] == pairs[j + 1];
        }
      }
      ApplyFlagsValues(next, args, tail, k);
      forall i | 0 <= i < |pairs| && pairs[i].1 == k && Truthy(args, pairs[i].0)
        ensures ApplyFlags(m, args, pairs)[k] == args[pairs[i].0]
      {
        if i > 0 {
          assert pairs[i] == tail[i - 1];
        } else {
          forall j | 0 <= j < |tail|
            ensures tail[j].1 != k
          {
            assert tail[j] == pairs[j + 1];
          }
        }
      }
      if (forall i :: 0 <= i < |pairs| && pairs[i].1 == k ==> !Truthy(args, pairs[i].0)) && k in m {
        forall j | 0 <= j < |tail| && tail[j].1 == k
          ensures !Truthy(args, tail[j].0)
        {
          assert tail[j] == pairs[j + 1];
        }
      }
    }
  }

  /** The JSON layer: every entry of json that is not None replaces the default. */
  function OverJson(defaults: Config, json: Config): (r: Config)
    ensures forall k :: k in r <==> k in defaults || IsSet(json, k)
    ensures forall k :: IsSet(json, k) ==> r[k] == json[k]
    ensures forall k :: k in defaults && !IsSet(json, k) ==> r[k] == defaults[k]
  {
    map k | k in defaults.Keys + (set k | k in json && json[k].Some?) ::
      if IsSet(json, k) then json[k] else defaults[k]
  }

  /** A key set by a truthy CLI argument. */
  predicate FlagSets(pairs: seq<(string, string)>, args: Config, k: string)
  {
    exists i :: 0 <= i < |pairs| && pairs[i].1 == k && Truthy(args, pairs[i].0)
  }

  /** Defaults, overlaid by the JSON entries that are not None, overlaid by the truthy CLI flags. */
  function Layered(defaults: Config, pairs: seq<(string, string)>, args: Config, json: Config): (r: Config)
    requires forall i, j :: 0 <= i < j < |pairs| ==> pairs[i].1 != pairs[j].1
    ensures forall k :: k in r <==> k in defaults || IsSet(json, k) || FlagSets(pairs, args, k)
    ensures forall i :: 0 <= i < |pairs| && Truthy(args, pairs[i].0) ==> pairs[i].1 in r && r[pairs[i].1] == args[pairs[i].0]
    ensures forall k :: !FlagSets(pairs, args, k) && IsSet(json, k) ==> r[k] == json[k]
    ensures forall k :: !FlagSets(pairs, args, k) && !IsSet(json, k) && k in defaults ==> r[k] == defaults[k]
  {
    var base := OverJson(defaults, json);
    var r := ApplyFlags(base, args, pairs);
    forall k
      ensures forall i :: 0 <= i < |pairs| && pairs[i].1 == k && Truthy(args, pairs[i].0) ==> r[k] == args[pairs[i].0]
      ensures !FlagSets(pairs, args, k) && k in base ==> r[k] == base[k]
    {
      ApplyFlagsValues(base, args, pairs, k);
    }
    assert forall i :: 0 <= i < |pairs| && Truthy(args, pairs[i].0) ==> FlagSets(pairs, args, pairs[i].1);
    r
  }

  /**
   * merge_config: CLI flags that are truthy win, then JSON entries that are not
   * None, then DEFAULTS; keys nobody sets keep their default.
   */
  function MergeConfig(args: Config, json: Config): (r: Config)
    ensures forall k :: k in r <==> k in Defaults || IsSet(json, k) || FlagSets(ArgToKey, args, k)
    ensures forall i :: 0 <= i < |ArgToKey| && Truthy(args, ArgToKey[i].0) ==> ArgToKey[i].1 in r && r[ArgToKey[i].1] == args[ArgToKey[i].0]
    ensures forall k :: !FlagSets(ArgToKey, args, k) && IsSet(json, k) ==> r[k] == json[k]
    ensures forall k :: !FlagSets(ArgToKey, args, k) && !IsSet(json, k) && k in Defaults ==> r[k] == Defaults[k]
  {
    ArgToKeyInjective();
    Layered(Defaults, ArgToKey, args, json)
  }

  /** The theme merge_config hands on is always readable: DEFAULTS holds "light" and only strings replace it. */
  lemma MergedThemeReadable(args: Config, json: Config)
    ensures ThemeReadable(MergeConfig(args, json))
  {
    ArgToKeyInjective();
    assert "theme" in Defaults && Defaults["theme"] == Some("light");
    LayeredThemeReadable(Defaults, ArgToKey, args, json);
  }

  lemma LayeredThemeReadable(defaults: Config, pairs: seq<(string, string)>, args: Config, json: Config)
    requires forall i, j :: 0 <= i < j < |pairs| ==> pairs[i].1 != pairs[j].1
    requires ThemeReadable(defaults)
    ensures ThemeReadable(Layered(defaults, pairs, args, json))
  {
    var r := Layered(defaults, pairs, args, json);
    if FlagSets(pairs, args, "theme") {
      var i :| 0 <= i < |pairs| && pairs[i].1 == "theme" && Truthy(args, pairs[i].0);
      assert r["theme"] == args[pairs[i].0];
    }
  }
}
