/**
  The `manifest` task: for every plugin listed under a category, merge the category's
  defaults, the plugin's own override record and the package metadata into one
  `<name>.jquery.json` descriptor.
 */
module Manifest {
  import opened JsString
  import opened JsObject

  datatype Category = Core | Widget | Interaction | Effect

  /** The category's key in the defaults table; it names `build/<key>.json`. */
  function Key(c: Category): string {
    match c
    case Core => "core"
    case Widget => "widget"
    case Interaction => "interaction"
    case Effect => "effect"
  }

  /** `Object.keys(base)`: the order in which the categories are processed. */
  const CategoryOrder: seq<Category> := [Core, Widget, Interaction, Effect]

  /** One entry of the defaults table; absent keys are `None`. */
  datatype Defaults = Defaults(
    name: string,
    title: string,
    keywords: Option<seq<string>>,
    homepage: Option<string>,
    demo: Option<string>,
    docs: Option<string>,
    dependencies: Option<seq<string>>)

  function DefaultsOf(c: Category): Defaults {
    match c
    case Core => Defaults("ui.{plugin}", "jQuery UI {Plugin}", None, None, None, None, None)
    case Widget => Defaults("ui.{plugin}", "jQuery UI {Plugin}", None, None, None, None, Some(["core", "widget"]))
    case Interaction => Defaults("ui.{plugin}", "jQuery UI {Plugin}", None, None, None, None, Some(["core", "widget", "mouse"]))
    case Effect =>
      Defaults("ui.effect-{plugin}", "jQuery UI {Plugin} Effect",
               Some(["effect", "show", "hide"]),
               Some("http://jqueryui.com/{plugin}-effect/"),
               Some("http://jqueryui.com/{plugin}-effect/"),
               Some("http://api.jqueryui.com/{plugin}-effect/"),
               Some(["effect"]))
  }

  /** A plugin's entry in `build/<category>.json`; every field may be absent. */
  datatype Override = Override(
    name: Option<string>,
    title: Option<string>,
    description: Option<string>,
    keywords: Option<seq<string>>,
    homepage: Option<string>,
    demo: Option<string>,
    docs: Option<string>,
    dependencies: Option<seq<string>>,
    category: Option<string>)

  const NoOverride := Override(None, None, None, None, None, None, None, None, None)

  /** The fields of the package metadata the descriptors copy. */
  datatype Package = Package(version: string, author: Json, maintainers: Json, licenses: Json, bugs: Json)

  datatype Descriptor = Descriptor(
    name: string,
    title: string,
    description: Option<string>,
    keywords: seq<string>,
    version: string,
    author: Json,
    maintainers: Json,
    licenses: Json,
    bugs: Json,
    homepage: string,
    demo: string,
    docs: string,
    download: string,
    dependencies: Entries,
    category: string)

  const FrameworkKey := "jquery"
  const FrameworkFloor := ">=1.6"
  const DependencyPrefix := "ui."
  const DownloadUrl := "http://jqueryui.com/download/"
  const SiteUrl := "http://jqueryui.com/{plugin}/"
  const ApiUrl := "http://api.jqueryui.com/{plugin}/"
  const FileSuffix := ".jquery.json"

  /** An override value that takes precedence over the default: present and not the falsy `""`. */
  predicate Given(value: Option<string>) {
    value.Some? && value.value != ""
  }

  /** `value || fallback` for a string field. */
  function Or(value: Option<string>, fallback: string): string {
    if Given(value) then value.value else fallback
  }

  /** The source's `name`: `plugin.charAt(0).toUpperCase() + plugin.substr(1)`. */
  function DisplayName(plugin: string): string {
    Capitalize(plugin)
  }

  /** `str.replace("{plugin}", plugin).replace("{Plugin}", name)`. */
  function Substitute(template: string, plugin: string): string {
    ReplaceFirst(ReplaceFirst(template, "{plugin}", plugin), "{Plugin}", DisplayName(plugin))
  }

  /** The keys the dependency loop adds for a list of dependency names. */
  function DependencyKeys(deps: seq<string>): set<string> {
    set d | d in deps :: DependencyPrefix + d
  }

  /** `manifest.dependencies["ui." + d] = version` for each `d` in turn. */
  function AddDependencies(o: Entries, deps: seq<string>, version: string): (r: Entries)
    requires DistinctKeys(o)
    ensures DistinctKeys(r)
    ensures forall k :: Get(r, k) == if k in DependencyKeys(deps) then Some(version) else Get(o, k)
    decreases |deps|
  {
    if |deps| == 0 then o
    else
      var o' := Put(o, DependencyPrefix + deps[0], version);
      PutGet(o, DependencyPrefix + deps[0], version);
      assert forall k :: k in DependencyKeys(deps) <==> k == DependencyPrefix + deps[0] || k in DependencyKeys(deps[1..]) by {
        assert deps == [deps[0]] + deps[1..];
        forall k | k in DependencyKeys(deps[1..]) ensures k in DependencyKeys(deps) {
          var d :| d in deps[1..] && k == DependencyPrefix + d;
          assert d in deps;
        }
      }
      AddDependencies(o', deps[1..], version)
  }

  /** The dependency object of a descriptor: the framework floor, then the listed names. */
  function Dependencies(deps: seq<string>, version: string): Entries {
    AddDependencies([(FrameworkKey, FrameworkFloor)], deps, version)
  }

  /** The dependency names a plugin's descriptor lists: its category's, then its own. */
  function DependencyNames(c: Category, data: Override): seq<string> {
    DefaultsOf(c).dependencies.GetOr([]) + data.dependencies.GetOr([])
  }

  /** The substituted category defaults, with the generic links where a category has none. */
  function DefaultName(c: Category, plugin: string): string {
    Substitute(DefaultsOf(c).name, plugin)
  }

  function DefaultTitle(c: Category, plugin: string): string {
    Substitute(DefaultsOf(c).title, plugin)
  }

  function DefaultHomepage(c: Category, plugin: string): string {
    Substitute(Or(DefaultsOf(c).homepage, SiteUrl), plugin)
  }

  function DefaultDemo(c: Category, plugin: string): string {
    Substitute(Or(DefaultsOf(c).demo, SiteUrl), plugin)
  }

  function DefaultDocs(c: Category, plugin: string): string {
    Substitute(Or(DefaultsOf(c).docs, ApiUrl), plugin)
  }

  function BuildManifest(c: Category, plugin: string, data: Override, pkg: Package): Descriptor {
    var base := DefaultsOf(c);
    Descriptor(
      name := Or(data.name, DefaultName(c, plugin)),
      title := Or(data.title, DefaultTitle(c, plugin)),
      description := data.description,
      keywords := ["ui", plugin] + base.keywords.GetOr([]) + data.keywords.GetOr([]),
      version := pkg.version,
      author := pkg.author,
      maintainers := pkg.maintainers,
      licenses := pkg.licenses,
      bugs := pkg.bugs,
      homepage := Or(data.homepage, DefaultHomepage(c, plugin)),
      demo := Or(data.demo, DefaultDemo(c, plugin)),
      docs := Or(data.docs, DefaultDocs(c, plugin)),
      download := DownloadUrl,
      dependencies := Dependencies(DependencyNames(c, data), pkg.version),
      category := Or(data.category, Key(c)))
  }

  /** The file `grunt.file.write` receives the descriptor under. */
  function FileName(d: Descriptor): string {
    d.name + FileSuffix
  }

  // ---------------------------------------------------------------------------
  // Template substitution

  /** An identifier whose substitution is literal: no `{` and no `$` in it. */
  predicate Plain(plugin: string) {
    '{' !in plugin && '$' !in plugin
  }

  /** A pattern starting with `{` cannot occur in text without `{`. */
  lemma NoBraceNoOccurrence(s: string, tok: string)
    requires 0 < |tok| && tok[0] == '{' && '{' !in s
    ensures NoOccurrence(s, tok)
  {
    forall i ensures !OccursAt(s, tok, i) {
      if 0 <= i && i + |tok| <= |s| {
        assert s[i..i + |tok|][0] == s[i];
      }
    }
  }

  /** The first `tok` in `a + tok + b` is the one after `a` when `a` has no `{`. */
  lemma ReplaceAfterPlainPrefix(a: string, tok: string, b: string, repl: string)
    requires 0 < |tok| && tok[0] == '{' && '{' !in a && '$' !in repl
    ensures ReplaceFirst(a + tok + b, tok, repl) == a + repl + b
  {
    var s := a + tok + b;
    assert s[|a|..|a| + |tok|] == tok;
    forall j | 0 <= j < |a| ensures !OccursAt(s, tok, j) {
      if j + |tok| <= |s| {
        assert s[j..j + |tok|][0] == s[j] == a[j];
      }
    }
    assert FirstAt(s, tok, |a|);
    assert s[..|a|] == a && s[|a| + |tok|..] == b;
    ReplaceFirstSpec(s, tok, repl);
  }

  lemma DisplayNamePlain(plugin: string)
    requires Plain(plugin)
    ensures Plain(DisplayName(plugin))
  {
    CapitalizeFacts(plugin);
  }

  /** A template holding neither token comes back unchanged, whatever the identifier. */
  lemma SubstituteNoToken(t: string, plugin: string)
    requires NoOccurrence(t, "{plugin}") && NoOccurrence(t, "{Plugin}")
    ensures Substitute(t, plugin) == t
  {
    ReplaceFirstSpec(t, "{plugin}", plugin);
    ReplaceFirstSpec(t, "{Plugin}", DisplayName(plugin));
  }

  /** `a{plugin}b` becomes `a` + identifier + `b`. */
  lemma SubstitutePluginToken(a: string, b: string, plugin: string)
    requires '{' !in a && '{' !in b && Plain(plugin)
    ensures Substitute(a + "{plugin}" + b, plugin) == a + plugin + b
  {
    ReplaceAfterPlainPrefix(a, "{plugin}", b, plugin);
    NoBraceNoOccurrence(a + plugin + b, "{Plugin}");
    ReplaceFirstSpec(a + plugin + b, "{Plugin}", DisplayName(plugin));
  }

  /** `a{Plugin}b` becomes `a` + display name + `b`. */
  lemma SubstituteNameToken(a: string, b: string, plugin: string)
    requires '{' !in a && '{' !in b && Plain(plugin)
    ensures Substitute(a + "{Plugin}" + b, plugin) == a + DisplayName(plugin) + b
  {
    var s := a + "{Plugin}" + b;
    forall i ensures !OccursAt(s, "{plugin}", i) {
      if 0 <= i && i + 8 <= |s| {
        if i == |a| {
          assert s[i..i + 8][1] == s[i + 1] == 'P';
        } else {
          assert s[i] != '{' by {
            if i < |a| {
              assert s[i] == a[i];
            } else if i < |a| + 8 {
              assert s[i] == "{Plugin}"[i - |a|];
            } else {
              assert s[i] == b[i - |a| - 8];
            }
          }
          assert s[i..i + 8][0] == s[i];
        }
      }
    }
    DisplayNamePlain(plugin);
    ReplaceAfterPlainPrefix(a, "{Plugin}", b, DisplayName(plugin));
    ReplaceFirstSpec(s, "{plugin}", plugin);
  }

  /** Only the first `{plugin}` is replaced: the second survives. */
  lemma SubstituteFirstOnly(plugin: string)
    requires Plain(plugin)
    ensures Substitute("{plugin}-{plugin}", plugin) == plugin + "-{plugin}"
  {
    ReplaceAfterPlainPrefix("", "{plugin}", "-{plugin}", plugin);
    assert "" + "{plugin}" + "-{plugin}" == "{plugin}-{plugin}";
    assert "" + plugin + "-{plugin}" == plugin + "-{plugin}";
    NoCapitalTokenAfter(plugin);
    ReplaceFirstSpec(plugin + "-{plugin}", "{Plugin}", DisplayName(plugin));
  }

  lemma NoCapitalTokenAfter(plugin: string)
    requires Plain(plugin)
    ensures NoOccurrence(plugin + "-{plugin}", "{Plugin}")
  {
    var s := plugin + "-{plugin}";
    forall i ensures !OccursAt(s, "{Plugin}", i) {
      if 0 <= i && i + 8 <= |s| {
        if i < |plugin| {
          assert s[i..i + 8][0] == plugin[i];
        } else if i == |plugin| {
          assert s[i..i + 8][0] == '-';
        } else {
          assert s[i..i + 8][1] == 'p';
        }
      }
    }
  }

  /** The path suffix the category's URL defaults put after the identifier. */
  function UrlSuffix(c: Category): string {
    if c == Effect then "-effect/" else "/"
  }

  /**
    With `Plain` identifiers, each field resolves to its override when one is given and
    otherwise to the category's substituted default; the package fields are copied and
    the download link is fixed.
   */
  lemma ResolvedFields(c: Category, plugin: string, data: Override, pkg: Package)
    requires Plain(plugin)
    ensures var d := BuildManifest(c, plugin, data, pkg);
      && d.name == (if Given(data.name) then data.name.value
                    else if c == Effect then "ui.effect-" + plugin else "ui." + plugin)
      && d.title == (if Given(data.title) then data.title.value
                     else if c == Effect then "jQuery UI " + DisplayName(plugin) + " Effect"
                     else "jQuery UI " + DisplayName(plugin))
      && d.homepage == (if Given(data.homepage) then data.homepage.value
                        else "http://jqueryui.com/" + plugin + UrlSuffix(c))
      && d.demo == (if Given(data.demo) then data.demo.value
                    else "http://jqueryui.com/" + plugin + UrlSuffix(c))
      && d.docs == (if Given(data.docs) then data.docs.value
                    else "http://api.jqueryui.com/" + plugin + UrlSuffix(c))
      && d.category == (if Given(data.category) then data.category.value else Key(c))
      && d.description == data.description
      && d.version == pkg.version && d.author == pkg.author && d.maintainers == pkg.maintainers
      && d.licenses == pkg.licenses && d.bugs == pkg.bugs
      && d.download == "http://jqueryui.com/download/"
  {
    DefaultNameValue(c, plugin);
    DefaultTitleValue(c, plugin);
    DefaultLinkValues(c, plugin);
  }

  lemma DefaultNameValue(c: Category, plugin: string)
    requires Plain(plugin)
    ensures DefaultName(c, plugin) == if c == Effect then "ui.effect-" + plugin else "ui." + plugin
  {
    if c == Effect {
      assert DefaultsOf(c).name == "ui.effect-" + "{plugin}" + "";
      SubstitutePluginToken("ui.effect-", "", plugin);
    } else {
      assert DefaultsOf(c).name == "ui." + "{plugin}" + "";
      SubstitutePluginToken("ui.", "", plugin);
    }
  }

  lemma DefaultTitleValue(c: Category, plugin: string)
    requires Plain(plugin)
    ensures DefaultTitle(c, plugin) == if c == Effect then "jQuery UI " + DisplayName(plugin) + " Effect"
                                       else "jQuery UI " + DisplayName(plugin)
  {
    if c == Effect {
      assert DefaultsOf(c).title == "jQuery UI " + "{Plugin}" + " Effect";
      SubstituteNameToken("jQuery UI ", " Effect", plugin);
    } else {
      assert DefaultsOf(c).title == "jQuery UI " + "{Plugin}" + "";
      SubstituteNameToken("jQuery UI ", "", plugin);
    }
  }

  lemma DefaultLinkValues(c: Category, plugin: string)
    requires Plain(plugin)
    ensures DefaultHomepage(c, plugin) == "http://jqueryui.com/" + plugin + UrlSuffix(c)
    ensures DefaultDemo(c, plugin) == "http://jqueryui.com/" + plugin + UrlSuffix(c)
    ensures DefaultDocs(c, plugin) == "http://api.jqueryui.com/" + plugin + UrlSuffix(c)
  {
    SiteTemplate(c);
    ApiTemplate(c);
    SubstitutePluginToken("http://jqueryui.com/", UrlSuffix(c), plugin);
    SubstitutePluginToken("http://api.jqueryui.com/", UrlSuffix(c), plugin);
  }

  lemma SiteTemplate(c: Category)
    ensures Or(DefaultsOf(c).homepage, SiteUrl) == "http://jqueryui.com/" + "{plugin}" + UrlSuffix(c)
    ensures Or(DefaultsOf(c).demo, SiteUrl) == "http://jqueryui.com/" + "{plugin}" + UrlSuffix(c)
    ensures '{' !in "http://jqueryui.com/" && '{' !in UrlSuffix(c)
  {
  }

  lemma ApiTemplate(c: Category)
    ensures Or(DefaultsOf(c).docs, ApiUrl) == "http://api.jqueryui.com/" + "{plugin}" + UrlSuffix(c)
    ensures '{' !in "http://api.jqueryui.com/"
  {
  }

  /**
    With a `Plain` identifier and overrides free of `{`, no `{plugin}` or `{Plugin}`
    token (indeed no `{`) is left in the resolved name, title or links.
   */
  lemma NoTokenRemains(c: Category, plugin: string, data: Override, pkg: Package)
    requires Plain(plugin)
    requires BraceFree(data.name) && BraceFree(data.title)
    requires BraceFree(data.homepage) && BraceFree(data.demo) && BraceFree(data.docs)
    ensures var d := BuildManifest(c, plugin, data, pkg);
      '{' !in d.name && '{' !in d.title && '{' !in d.homepage && '{' !in d.demo && '{' !in d.docs
  {
    DefaultsBraceFree(c, plugin);
  }

  predicate BraceFree(value: Option<string>) {
    value.None? || '{' !in value.value
  }

  lemma DefaultsBraceFree(c: Category, plugin: string)
    requires Plain(plugin)
    ensures '{' !in DefaultName(c, plugin) && '{' !in DefaultTitle(c, plugin)
    ensures '{' !in DefaultHomepage(c, plugin) && '{' !in DefaultDemo(c, plugin) && '{' !in DefaultDocs(c, plugin)
  {
    DefaultNameBraceFree(c, plugin);
    DefaultTitleBraceFree(c, plugin);
    DefaultLinksBraceFree(c, plugin);
  }

  lemma DefaultNameBraceFree(c: Category, plugin: string)
    requires Plain(plugin)
    ensures '{' !in DefaultName(c, plugin)
  {
    DefaultNameValue(c, plugin);
    assert '{' !in "ui.effect-" && '{' !in "ui.";
  }

  lemma DefaultTitleBraceFree(c: Category, plugin: string)
    requires Plain(plugin)
    ensures '{' !in DefaultTitle(c, plugin)
  {
    DefaultTitleValue(c, plugin);
    TitleBraceFree(c, plugin);
  }

  lemma TitleBraceFree(c: Category, plugin: string)
    requires Plain(plugin)
    ensures '{' !in if c == Effect then "jQuery UI " + DisplayName(plugin) + " Effect"
                    else "jQuery UI " + DisplayName(plugin)
  {
    DisplayNamePlain(plugin);
    var n := DisplayName(plugin);
    if c == Effect {
      BraceFreeConcat("jQuery UI ", n, " Effect");
    } else {
      BraceFreeConcat("jQuery UI ", n, "");
      assert "jQuery UI " + n + "" == "jQuery UI " + n;
    }
  }

  lemma BraceFreeConcat(a: string, b: string, c: string)
    requires '{' !in a && '{' !in b && '{' !in c
    ensures '{' !in a + b + c
  {
  }

  lemma DefaultLinksBraceFree(c: Category, plugin: string)
    requires Plain(plugin)
    ensures '{' !in DefaultHomepage(c, plugin) && '{' !in DefaultDemo(c, plugin) && '{' !in DefaultDocs(c, plugin)
  {
    DefaultLinkValues(c, plugin);
    SiteTemplate(c);
    ApiTemplate(c);
  }

  // ---------------------------------------------------------------------------
  // Keywords and dependencies

  /**
    Keywords are `"ui"`, the identifier, the category's keywords and the override's, in
    that order and with nothing removed.
   */
  lemma KeywordOrder(c: Category, plugin: string, data: Override, pkg: Package)
    ensures var k := BuildManifest(c, plugin, data, pkg).keywords;
      && k == (if c == Effect then ["ui", plugin, "effect", "show", "hide"] else ["ui", plugin]) + data.keywords.GetOr([])
      && |k| == 2 + |DefaultsOf(c).keywords.GetOr([])| + |data.keywords.GetOr([])|
  {
    var extra := data.keywords.GetOr([]);
    var k := BuildManifest(c, plugin, data, pkg).keywords;
    assert k == ["ui", plugin] + DefaultsOf(c).keywords.GetOr([]) + extra;
    if c == Effect {
      EffectKeywordList(plugin, extra);
    } else {
      assert DefaultsOf(c).keywords.GetOr([]) == [];
      assert ["ui", plugin] + [] == ["ui", plugin];
    }
  }

  lemma EffectKeywordList(plugin: string, extra: seq<string>)
    ensures ["ui", plugin] + DefaultsOf(Effect).keywords.GetOr([]) + extra == ["ui", plugin, "effect", "show", "hide"] + extra
  {
    assert ["ui", plugin] + ["effect", "show", "hide"] == ["ui", plugin, "effect", "show", "hide"];
  }

  /** Duplicates survive: an `effect` plugin with keyword `effect` lists it three times. */
  lemma KeywordsKeepDuplicates(pkg: Package)
    ensures BuildManifest(Effect, "effect", NoOverride.(keywords := Some(["effect"])), pkg).keywords
         == ["ui", "effect", "effect", "show", "hide", "effect"]
  {
    KeywordOrder(Effect, "effect", NoOverride.(keywords := Some(["effect"])), pkg);
  }

  /** Every added key starts with `ui.`, so none of them is `jquery`. */
  lemma DependencyKeysPrefixed(deps: seq<string>)
    ensures forall k :: k in DependencyKeys(deps) ==> StartsWith(k, DependencyPrefix)
    ensures FrameworkKey !in DependencyKeys(deps)
  {
    forall k | k in DependencyKeys(deps) ensures StartsWith(k, DependencyPrefix) && k[0] == 'u' {
      var d :| d in deps && k == DependencyPrefix + d;
      assert k[..3] == (DependencyPrefix + d)[..3];
    }
    assert FrameworkKey[0] == 'j';
  }

  /**
    The dependency object starts with `jquery: ">=1.6"`, which no added key can
    overwrite; its other keys are exactly `"ui." + d` for the listed names `d`, each
    mapped to the version; no key repeats. As a map it equals the reference map built
    directly from the names.
   */
  lemma DependencyObject(names: seq<string>, version: string)
    ensures var o := Dependencies(names, version);
      var keys := DependencyKeys(names);
      && DistinctKeys(o)
      && 0 < |o| && o[0] == ("jquery", ">=1.6")
      && Get(o, "jquery") == Some(">=1.6")
      && (forall k :: HasKey(o, k) <==> k == "jquery" || k in keys)
      && (forall k :: k in keys ==> Get(o, k) == Some(version))
      && ToMap(o) == DependencyReference(names, version)
  {
    DependencyLookup(names, version);
    DependencyAsMap(names, version);
  }

  /** `Get` on the dependency object: the floor under `jquery`, the version under each added key. */
  lemma DependencyLookup(names: seq<string>, version: string)
    ensures var o := Dependencies(names, version);
      && DistinctKeys(o)
      && 0 < |o| && o[0] == (FrameworkKey, FrameworkFloor)
      && (forall k :: Get(o, k) == if k == FrameworkKey then Some(FrameworkFloor)
                                   else if k in DependencyKeys(names) then Some(version) else None)
  {
    var start: Entries := [(FrameworkKey, FrameworkFloor)];
    DependencyKeysPrefixed(names);
    StartLookup();
    AddDependenciesPrefix(start, names, version);
    var o := Dependencies(names, version);
    assert o[0].0 == FrameworkKey;
    assert o[0].1 == FrameworkFloor by {
      assert Get(o, FrameworkKey) == Some(FrameworkFloor);
    }
  }

  lemma StartLookup()
    ensures forall k :: Get([(FrameworkKey, FrameworkFloor)], k) == if k == FrameworkKey then Some(FrameworkFloor) else None
  {
    var start: Entries := [(FrameworkKey, FrameworkFloor)];
    forall k ensures Get(start, k) == if k == FrameworkKey then Some(FrameworkFloor) else None {
      assert start[1..] == [];
    }
  }

  lemma DependencyAsMap(names: seq<string>, version: string)
    ensures ToMap(Dependencies(names, version)) == DependencyReference(names, version)
  {
    var o := Dependencies(names, version);
    DependencyLookup(names, version);
    var m := DependencyReference(names, version);
    forall k ensures k in ToMap(o) <==> k in m {
      assert HasKey(o, k) <==> Get(o, k).Some?;
    }
    forall k | k in m ensures ToMap(o)[k] == m[k] {
      assert Get(o, k) == Some(ToMap(o)[k]);
    }
  }

  /** The dependency map stated directly: the floor plus every prefixed name at `version`. */
  function DependencyReference(names: seq<string>, version: string): map<string, string> {
    map k | k in DependencyKeys(names) + {FrameworkKey} :: if k == FrameworkKey then FrameworkFloor else version
  }

  /** A descriptor's dependencies are those of its category followed by its override's. */
  lemma DependencyMap(c: Category, plugin: string, data: Override, pkg: Package)
    ensures var o := BuildManifest(c, plugin, data, pkg).dependencies;
      && DistinctKeys(o)
      && Get(o, "jquery") == Some(">=1.6")
      && (forall k :: HasKey(o, k) && k != "jquery" ==> Get(o, k) == Some(pkg.version))
      && (forall d :: d in DefaultsOf(c).dependencies.GetOr([]) || d in data.dependencies.GetOr([]) ==> HasKey(o, "ui." + d))
      && ToMap(o) == DependencyReference(DependencyNames(c, data), pkg.version)
  {
    var names := DependencyNames(c, data);
    DependencyObject(names, pkg.version);
    forall d | d in DefaultsOf(c).dependencies.GetOr([]) || d in data.dependencies.GetOr([])
      ensures "ui." + d in DependencyKeys(names)
    {
      assert d in names;
    }
  }

  /** The dependency loop never moves or drops an earlier property. */
  lemma {:induction false} AddDependenciesPrefix(o: Entries, deps: seq<string>, version: string)
    requires DistinctKeys(o) && 0 < |o|
    ensures var r := AddDependencies(o, deps, version); 0 < |r| && r[0].0 == o[0].0
    decreases |deps|
  {
    if |deps| > 0 {
      var o' := Put(o, DependencyPrefix + deps[0], version);
      assert o'[0].0 == o[0].0;
      AddDependenciesPrefix(o', deps[1..], version);
    }
  }

  /**
    Without override dependencies (none listed, or an empty list) the map holds the
    category's dependencies only, all at the package version.
   */
  lemma CategoryDependencies(c: Category, plugin: string, data: Override, pkg: Package)
    requires data.dependencies.GetOr([]) == []
    ensures ToMap(BuildManifest(c, plugin, data, pkg).dependencies) == CategoryDependencyMap(c, pkg.version)
  {
    DependencyMap(c, plugin, data, pkg);
    assert DependencyNames(c, data) == DefaultsOf(c).dependencies.GetOr([]);
    CategoryReference(c, pkg.version);
  }

  function CategoryDependencyMap(c: Category, v: string): map<string, string> {
    match c
    case Core => map["jquery" := ">=1.6"]
    case Widget => map["jquery" := ">=1.6", "ui.core" := v, "ui.widget" := v]
    case Interaction => map["jquery" := ">=1.6", "ui.core" := v, "ui.widget" := v, "ui.mouse" := v]
    case Effect => map["jquery" := ">=1.6", "ui.effect" := v]
  }

  lemma CategoryReference(c: Category, v: string)
    ensures DependencyReference(DefaultsOf(c).dependencies.GetOr([]), v) == CategoryDependencyMap(c, v)
  {
    var names := DefaultsOf(c).dependencies.GetOr([]);
    CategoryKeys(c);
    var m := DependencyReference(names, v);
    assert m.Keys == CategoryDependencyMap(c, v).Keys;
  }

  /** The keys each category's dependency list adds. */
  lemma CategoryKeys(c: Category)
    ensures DependencyKeys(DefaultsOf(c).dependencies.GetOr([])) == match c
      case Core => {}
      case Widget => {"ui.core", "ui.widget"}
      case Interaction => {"ui.core", "ui.widget", "ui.mouse"}
      case Effect => {"ui.effect"}
  {
    var names := DefaultsOf(c).dependencies.GetOr([]);
    assert DependencyPrefix + "core" == "ui.core" && DependencyPrefix + "widget" == "ui.widget";
    assert DependencyPrefix + "mouse" == "ui.mouse" && DependencyPrefix + "effect" == "ui.effect";
    match c
    case Core =>
    case Widget =>
      assert names == ["core", "widget"];
    case Interaction =>
      assert names == ["core", "widget", "mouse"];
    case Effect =>
      assert names == ["effect"];
  }

  /**
    The `bounce` effect with an empty override record. The identifier is given letter
    by letter so that the verifier reasons about the substitution in general rather
    than evaluating it on a literal.
   */
  lemma BounceEffect(plugin: string, pkg: Package)
    requires Spells(plugin, "bounce")
    ensures var d := BuildManifest(Effect, plugin, NoOverride, pkg);
      && d.name == "ui.effect-bounce"
      && FileName(d) == "ui.effect-bounce.jquery.json"
      && d.title == "jQuery UI Bounce Effect"
      && d.keywords == ["ui", "bounce", "effect", "show", "hide"]
      && d.homepage == "http://jqueryui.com/bounce-effect/"
      && d.demo == "http://jqueryui.com/bounce-effect/"
      && d.docs == "http://api.jqueryui.com/bounce-effect/"
      && d.dependencies == [("jquery", ">=1.6"), ("ui.effect", pkg.version)]
      && d.category == "effect"
  {
    BounceStrings(plugin);
    EffectDescriptor(plugin, pkg);
  }

  /** An effect with an empty override record, field by field. */
  lemma EffectDescriptor(plugin: string, pkg: Package)
    requires Plain(plugin)
    ensures BuildManifest(Effect, plugin, NoOverride, pkg) == Descriptor(
      name := "ui.effect-" + plugin,
      title := "jQuery UI " + DisplayName(plugin) + " Effect",
      description := None,
      keywords := ["ui", plugin, "effect", "show", "hide"],
      version := pkg.version,
      author := pkg.author,
      maintainers := pkg.maintainers,
      licenses := pkg.licenses,
      bugs := pkg.bugs,
      homepage := "http://jqueryui.com/" + plugin + UrlSuffix(Effect),
      demo := "http://jqueryui.com/" + plugin + UrlSuffix(Effect),
      docs := "http://api.jqueryui.com/" + plugin + UrlSuffix(Effect),
      download := DownloadUrl,
      dependencies := [("jquery", ">=1.6"), ("ui.effect", pkg.version)],
      category := "effect")
  {
    var d := BuildManifest(Effect, plugin, NoOverride, pkg);
    ResolvedFields(Effect, plugin, NoOverride, pkg);
    KeywordOrder(Effect, plugin, NoOverride, pkg);
    BounceDependencies(pkg.version);
    assert d.keywords == ["ui", plugin, "effect", "show", "hide"];
    assert d.dependencies == [("jquery", ">=1.6"), ("ui.effect", pkg.version)];
  }

  /**
    `s == word`, stated character by character. Stated this way, a requirement on an
    identifier does not hand the verifier a literal to evaluate the substitution on.
   */
  predicate Spells(s: string, word: string) {
    |s| == |word| && forall i :: 0 <= i < |s| ==> s[i] == word[i]
  }

  lemma BounceStrings(plugin: string)
    requires Spells(plugin, "bounce")
    ensures Plain(plugin)
    ensures ["ui", plugin, "effect", "show", "hide"] == ["ui", "bounce", "effect", "show", "hide"]
    ensures "ui.effect-" + plugin == "ui.effect-bounce"
    ensures "ui.effect-" + plugin + FileSuffix == "ui.effect-bounce.jquery.json"
    ensures "jQuery UI " + DisplayName(plugin) + " Effect" == "jQuery UI Bounce Effect"
    ensures "http://jqueryui.com/" + plugin + UrlSuffix(Effect) == "http://jqueryui.com/bounce-effect/"
    ensures "http://api.jqueryui.com/" + plugin + UrlSuffix(Effect) == "http://api.jqueryui.com/bounce-effect/"
  {
    assert plugin == "bounce";
    assert DisplayName(plugin) == "Bounce";
  }

  lemma BounceDependencies(version: string)
    ensures Dependencies(DependencyNames(Effect, NoOverride), version) == [("jquery", ">=1.6"), ("ui.effect", version)]
  {
    var start: Entries := [(FrameworkKey, FrameworkFloor)];
    assert !HasKey(start, "ui.effect");
    assert DependencyNames(Effect, NoOverride) == ["effect"];
    assert DependencyPrefix + "effect" == "ui.effect";
  }

  // ---------------------------------------------------------------------------
  // The whole task

  /** A plugin table as `Object.keys` lists it: identifiers with their override records. */
  type PluginTable = seq<(string, Override)>

  datatype Written = Written(path: string, descriptor: Descriptor)

  /** The run's outcome: files written, in order, and the category whose table failed to load. */
  datatype Run = Run(written: seq<Written>, failedAt: Option<Category>)

  /** The file a plugin's descriptor is written to, with the descriptor. */
  function Entry(c: Category, plugin: (string, Override), pkg: Package): Written {
    var d := BuildManifest(c, plugin.0, plugin.1, pkg);
    Written(FileName(d), d)
  }

  /** The files one category's plugins produce, in table order. */
  function CategoryFiles(c: Category, plugins: PluginTable, pkg: Package): (r: seq<Written>)
    ensures |r| == |plugins|
    decreases |plugins|
  {
    if |plugins| == 0 then [] else [Entry(c, plugins[0], pkg)] + CategoryFiles(c, plugins[1..], pkg)
  }

  /** The `i`-th file belongs to the `i`-th plugin of the table. */
  lemma {:induction false} CategoryFilesContents(c: Category, plugins: PluginTable, pkg: Package)
    ensures forall i :: 0 <= i < |plugins| ==> CategoryFiles(c, plugins, pkg)[i] == Entry(c, plugins[i], pkg)
    decreases |plugins|
  {
    if |plugins| > 0 {
      CategoryFilesContents(c, plugins[1..], pkg);
      assert forall i :: 1 <= i < |plugins| ==> plugins[i] == plugins[1..][i - 1];
    }
  }

  /** The file lists of the categories whose tables loaded. */
  type Loaded = map<Category, seq<Written>>

  function LoadedFiles(tables: map<Category, PluginTable>, pkg: Package): (m: Loaded)
    ensures m.Keys == tables.Keys
    ensures forall c :: c in m ==> m[c] == CategoryFiles(c, tables[c], pkg)
  {
    map c | c in tables :: CategoryFiles(c, tables[c], pkg)
  }

  /** The files of every listed category, in order, when all of them loaded. */
  function AllFiles(cats: seq<Category>, loaded: Loaded): (r: seq<Written>)
    requires forall i :: 0 <= i < |cats| ==> cats[i] in loaded
  {
    if |cats| == 0 then [] else loaded[cats[0]] + AllFiles(cats[1..], loaded)
  }

  /** The position of the first category whose table did not load, or `|cats|` if all loaded. */
  function FirstMissingIndex(cats: seq<Category>, loaded: Loaded): (k: nat)
    ensures k <= |cats|
    ensures forall j :: 0 <= j < k ==> cats[j] in loaded
    ensures k < |cats| ==> cats[k] !in loaded
  {
    if |cats| == 0 then 0
    else if cats[0] !in loaded then 0
    else 1 + FirstMissingIndex(cats[1..], loaded)
  }

  /**
    Processes the categories in order. A category whose table is missing stops the run
    there, after the files of the categories before it have been written.
   */
  function Generate(cats: seq<Category>, loaded: Loaded): (r: Run)
    ensures var k := FirstMissingIndex(cats, loaded);
      && r.failedAt == (if k < |cats| then Some(cats[k]) else None)
      && r.written == AllFiles(cats[..k], loaded)
    decreases |cats|
  {
    if |cats| == 0 then Run([], None)
    else if cats[0] !in loaded then
      assert cats[..0] == [];
      Run([], Some(cats[0]))
    else
      var rest := Generate(cats[1..], loaded);
      var k := FirstMissingIndex(cats, loaded);
      assert cats[..k][0] == cats[0] && cats[..k][1..] == cats[1..][..k - 1];
      Run(loaded[cats[0]] + rest.written, rest.failedAt)
  }

  function TotalPlugins(cats: seq<Category>, tables: map<Category, PluginTable>): nat
    requires forall i :: 0 <= i < |cats| ==> cats[i] in tables
  {
    if |cats| == 0 then 0 else |tables[cats[0]]| + TotalPlugins(cats[1..], tables)
  }

  /**
    The `manifest` task over the four categories: it completes exactly when all four
    tables load, and then writes one descriptor per listed plugin.
   */
  function ManifestTask(tables: map<Category, PluginTable>, pkg: Package): (r: Run)
    ensures r.failedAt.None? <==> Core in tables && Widget in tables && Interaction in tables && Effect in tables
    ensures r.failedAt.None? ==>
      |r.written| == |tables[Core]| + |tables[Widget]| + |tables[Interaction]| + |tables[Effect]|
  {
    GenerateOutcome(CategoryOrder, tables, pkg);
    assert (forall i :: 0 <= i < |CategoryOrder| ==> CategoryOrder[i] in tables)
       <==> Core in tables && Widget in tables && Interaction in tables && Effect in tables;
    assert CategoryOrder[1..][1..][1..][1..] == [];
    Generate(CategoryOrder, LoadedFiles(tables, pkg))
  }

  /** The run fails exactly when some table is missing; a complete run writes one file per plugin. */
  lemma GenerateOutcome(cats: seq<Category>, tables: map<Category, PluginTable>, pkg: Package)
    ensures var r := Generate(cats, LoadedFiles(tables, pkg));
      && (r.failedAt.None? <==> forall i :: 0 <= i < |cats| ==> cats[i] in tables)
      && ((forall i :: 0 <= i < |cats| ==> cats[i] in tables) ==> |r.written| == TotalPlugins(cats, tables))
  {
    var loaded := LoadedFiles(tables, pkg);
    var k := FirstMissingIndex(cats, loaded);
    if forall i :: 0 <= i < |cats| ==> cats[i] in tables {
      assert cats[..k] == cats;
      AllFilesCount(cats, tables, pkg);
    }
  }

  lemma {:induction false} AllFilesCount(cats: seq<Category>, tables: map<Category, PluginTable>, pkg: Package)
    requires forall i :: 0 <= i < |cats| ==> cats[i] in tables
    ensures |AllFiles(cats, LoadedFiles(tables, pkg))| == TotalPlugins(cats, tables)
    decreases |cats|
  {
    if |cats| > 0 {
      AllFilesCount(cats[1..], tables, pkg);
    }
  }

  /**
    A missing `widget` table fails the task, but the `core` descriptors written before
    it stay written.
   */
  lemma PartialRunKeepsEarlierFiles(tables: map<Category, PluginTable>, pkg: Package)
    requires Core in tables && Widget !in tables
    ensures ManifestTask(tables, pkg).failedAt == Some(Widget)
    ensures ManifestTask(tables, pkg).written == CategoryFiles(Core, tables[Core], pkg)
  {
    var cats := CategoryOrder;
    var loaded := LoadedFiles(tables, pkg);
    assert FirstMissingIndex(cats, loaded) == 1;
    assert cats[..1] == [Core];
    assert AllFiles([Core], loaded) == loaded[Core] + [];
  }

  /**
    Within one category, distinct `Plain` identifiers without a name override get
    distinct file names, so no descriptor of that category overwrites another.
   */
  lemma DistinctFileNames(c: Category, plugins: PluginTable, pkg: Package)
    requires forall i :: 0 <= i < |plugins| ==> Plain(plugins[i].0) && !Given(plugins[i].1.name)
    requires forall i, j :: 0 <= i < j < |plugins| ==> plugins[i].0 != plugins[j].0
    ensures var w := CategoryFiles(c, plugins, pkg);
      forall i, j :: 0 <= i < j < |w| ==> w[i].path != w[j].path
  {
    var w := CategoryFiles(c, plugins, pkg);
    CategoryFilesContents(c, plugins, pkg);
    var prefix := if c == Effect then "ui.effect-" else "ui.";
    forall i, j | 0 <= i < j < |w| ensures w[i].path != w[j].path {
      var p, q := plugins[i].0, plugins[j].0;
      ResolvedFields(c, p, plugins[i].1, pkg);
      ResolvedFields(c, q, plugins[j].1, pkg);
      assert w[i].path == prefix + p + FileSuffix;
      assert w[j].path == prefix + q + FileSuffix;
      assert p == w[i].path[|prefix|..|w[i].path| - |FileSuffix|];
      assert q == w[j].path[|prefix|..|w[j].path| - |FileSuffix|];
    }
  }
}
