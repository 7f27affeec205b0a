/**
 * How pywa names the app it builds: the display name from the source file's
 * stem, the short name from the display name's initials, and (in pywa_pre)
 * the attributes an app class may carry (title, theme_color, accent_color,
 * bg_color), which fill configuration keys that are still empty.
 */
module AppNaming {
  import opened Wrappers
  import opened Text
  import opened ThemeConfig

  /** stem.replace('_', ' ').replace('-', ' ').title(); the later revisions replace only '_'. */
  function StemName(stem: string, dashes: bool): (name: string)
    ensures |name| == |stem|
    ensures forall i :: 0 <= i < |name| ==> name[i] != '_'
    ensures dashes ==> forall i :: 0 <= i < |name| ==> name[i] != '-'
  {
    var spaced := ReplaceChar(stem, '_', ' ');
    Title(if dashes then ReplaceChar(spaced, '-', ' ') else spaced)
  }

  /** The derived name is already in title case: title-casing it again changes nothing. */
  lemma StemNameIsTitled(stem: string, dashes: bool)
    ensures Title(StemName(stem, dashes)) == StemName(stem, dashes)
  {
    var spaced := ReplaceChar(stem, '_', ' ');
    TitleIdempotent(if dashes then ReplaceChar(spaced, '-', ' ') else spaced);
  }

  /** v2p1 without --name: the stem with '_' spaced out and title-cased; a given name is taken as it is. */
  function DefaultNameV2p1(argName: Option<string>, stem: string): (name: string)
    ensures Given(argName) ==> name == argName.value
    ensures !Given(argName) ==>
      (|name| == |stem| && Title(name) == name
      && forall i :: 0 <= i < |name| ==> name[i] != '_' && (stem[i] == '-' ==> name[i] == '-'))
  {
    if Given(argName) then argName.value
    else
      StemNameIsTitled(stem, false);
      StemName(stem, false)
  }

  /** The first letters of at most the first three words. */
  function Initials(words: seq<string>): (r: string)
    requires forall k :: 0 <= k < |words| ==> |words[k]| > 0
    ensures |r| == if |words| < 3 then |words| else 3
    ensures forall k :: 0 <= k < |r| ==> r[k] == words[k][0]
  {
    if words == [] then []
    else if |words| == 1 then [words[0][0]]
    else if |words| == 2 then [words[0][0], words[1][0]]
    else [words[0][0], words[1][0], words[2][0]]
  }

  /**
   * pywa_pre: a name of several words gives the upper-cased initials of its first
   * three; a single word gives its first six characters. A name with no words at
   * all makes words[0] raise, modelled as None.
   */
  function ShortNamePre(name: string): (r: Option<string>)
    ensures r.None? <==> Words(name) == []
    ensures |Words(name)| > 1 ==> (r.Some? && |r.value| == (if |Words(name)| < 3 then |Words(name)| else 3)
      && forall k :: 0 <= k < |r.value| ==> r.value[k] == UpperChar(Words(name)[k][0]) && !IsLower(r.value[k]))
    ensures |Words(name)| == 1 ==> r.Some? && 0 < |r.value| <= 6 && r.value <= Words(name)[0]
  {
    var words := Words(name);
    if |words| > 1 then Some(Upper(Initials(words)))
    else if |words| == 1 then Some(if |words[0]| <= 6 then words[0] else words[0][..6])
    else None
  }

  /**
   * v0p2, v0p3, v0p4 (limit 8) and v1p0, v1p2 (limit 12): the initials of the first
   * three words without case change, cut to the limit.
   */
  function ShortNameInitials(name: string, limit: nat): (r: string)
    ensures |r| <= limit && |r| <= 3 && |r| <= |Words(name)|
    ensures forall k :: 0 <= k < |r| ==> r[k] == Words(name)[k][0]
  {
    var i := Initials(Words(name));
    if |i| <= limit then i else i[..limit]
  }

  /** Three initials never reach the 8- or 12-character cut, so the cut changes nothing. */
  lemma CutNeverBites(name: string, limit: nat)
    requires limit >= 3
    ensures ShortNameInitials(name, limit) == Initials(Words(name))
    ensures |ShortNameInitials(name, limit)| == |Words(name)| || (|Words(name)| > 3 && |ShortNameInitials(name, limit)| == 3)
  {
  }

  // ---------------------------------------------------------------- pywa_pre's compile

  /** Attributes an app class may carry; a missing attribute is None. */
  datatype AppAttrs = AppAttrs(title: Option<string>, themeColor: Option<string>, accentColor: Option<string>, bgColor: Option<string>)

  predicate Given(v: Option<string>)
  {
    v.Some? && v.value != ""
  }

  /** One attribute fills its configuration key only when that key is still falsy. */
  function FillIfEmpty(c: Config, key: string, v: Option<string>): (r: Config)
    ensures Given(v) && !Truthy(c, key) ==> r == c[key := v]
    ensures !(Given(v) && !Truthy(c, key)) ==> r == c
  {
    if Given(v) && !Truthy(c, key) then c[key := v] else c
  }

  function ApplyAttrs(c: Config, app: AppAttrs): Config
  {
    var c1 := FillIfEmpty(c, "name", app.title);
    var c2 := FillIfEmpty(c1, "theme_color", app.themeColor);
    var c3 := FillIfEmpty(c2, "accent", app.accentColor);
    FillIfEmpty(c3, "bg_color", app.bgColor)
  }

  /**
   * The name steps of pywa_pre's compile as written: the file stem fills an empty
   * name first, and only then do the app attributes fill keys that are still empty.
   */
  function NameStepsAsWritten(c: Config, stem: string, app: AppAttrs): (r: Config)
    ensures stem != "" ==> ("name" in r && (Truthy(c, "name") ==> r["name"] == c["name"])
      && (!Truthy(c, "name") ==> r["name"] == Some(StemName(stem, true))))
  {
    var named := if !Truthy(c, "name") then c["name" := Some(StemName(stem, true))] else c;
    ApplyAttrs(named, app)
  }

  /** The name derived from the stem app. */
  lemma AppStemName()
    ensures StemName("app", true) == "App"
  {
    assert ReplaceChar("app", '_', ' ') == "app";
    assert ReplaceChar("app", '-', ' ') == "app";
    assert TitleFrom("", true) == "";
    assert TitleFrom("p", true) == "p";
    assert TitleFrom("pp", true) == "pp";
    assert TitleFrom("app", false) == "App";
  }

  /** As written, an app title is ignored whenever the file has a stem, against the stated priority name > title > stem. */
  lemma TitleIgnored()
    ensures var r := NameStepsAsWritten(map["name" := None], "app", AppAttrs(Some("Todo"), None, None, None));
      r["name"] == Some("App") && r["name"] != Some("Todo")
  {
    AppStemName();
    var c: Config := map["name" := None];
    var named := c["name" := Some("App")];
    assert Truthy(named, "name");
    var c1 := FillIfEmpty(named, "name", Some("Todo"));
    assert c1 == named;
    var c2 := FillIfEmpty(c1, "theme_color", None);
    var c3 := FillIfEmpty(c2, "accent", None);
    assert FillIfEmpty(c3, "bg_color", None) == named;
  }

  /** The evidently intended order: attributes fill empty keys first, the stem fills a name still empty after that. */
  function NameSteps(c: Config, stem: string, app: AppAttrs): (r: Config)
    ensures "name" in r
    ensures Truthy(c, "name") ==> r["name"] == c["name"]
    ensures !Truthy(c, "name") && Given(app.title) ==> r["name"] == app.title
    ensures !Truthy(c, "name") && !Given(app.title) ==> r["name"] == Some(StemName(stem, true))
    ensures forall k :: k in c && k !in {"name", "theme_color", "accent", "bg_color"} ==> k in r && r[k] == c[k]
  {
    var filled := ApplyAttrs(c, app);
    if !Truthy(filled, "name") then filled["name" := Some(StemName(stem, true))] else filled
  }

  /**
   * The short-name step of every revision: an empty short name is derived from the
   * name. pywa_pre fails when the name has no words.
   */
  function ShortNameStepPre(c: Config): (r: Option<Config>)
    requires "name" in c && c["name"].Some?
    ensures Truthy(c, "short_name") ==> r == Some(c)
    ensures !Truthy(c, "short_name") ==> (r.Some? <==> Words(c["name"].value) != [])
    ensures r.Some? ==> Truthy(r.value, "short_name")
  {
    if Truthy(c, "short_name") then Some(c)
    else
      match ShortNamePre(c["name"].value)
      case Some(sn) => Some(c["short_name" := Some(sn)])
      case None => None
  }
}
